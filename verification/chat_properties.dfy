/**
 Properties of the chat transitions that relate several calls: the
 send/echo round trip, the consequences of the content-equality guard, the
 asymmetry between the join and send guards, and the ownership invariant
 every transition preserves.
 */
module ChatProperties {
  import opened JsString
  import opened ChatApp

  /** Appending one entry adds one to the count of its own id and nothing to others. */
  lemma CountIdAppend(list: seq<Message>, m: Message, id: string)
    ensures CountId(list + [m], id) == CountId(list, id) + (if m.messageId == id then 1 else 0)
  {
    assert (list + [m])[..|list|] == list;
  }

  // ---------------------------------------------------------------------
  // Round trip of one's own message
  // ---------------------------------------------------------------------

  /**
   A send that rendered its optimistic copy, followed directly by the relay's
   echo (any message with the same content), leaves exactly one entry with
   the new id, and that entry is marked as mine.
   */
  lemma SendThenEchoRendersOnce(s: ChatState, id: string, echo: Message)
    requires SendEnabled(s) && !RepeatsLast(s.messages, s.draft)
    requires CountId(s.messages, id) == 0
    requires echo.content == s.draft
    ensures var sent := Send(s, id).state;
      && Receive(sent, echo).state == sent
      && CountId(sent.messages, id) == 1
      && AllMine(sent.messages, id)
  {
    var sent := Send(s, id).state;
    var m := Message(s.chatId, s.draft, id, true);
    assert sent.messages == s.messages + [m];
    CountIdAppend(s.messages, m, id);
    assert RepeatsLast(sent.messages, echo.content);
    forall i | 0 <= i < |sent.messages| && sent.messages[i].messageId == id
      ensures sent.messages[i].sentByMe
    {
      if i < |s.messages| {
        assert false;
      }
    }
  }

  /**
   The guard only looks at the last entry: if another participant's message
   with different content arrives between the send and its echo, the echo is
   rendered a second time (marked as mine), so two more entries carry the id.
   */
  lemma InterleavedEchoRendersTwice(s: ChatState, id: string, other: Message, echo: Message)
    requires SendEnabled(s) && !RepeatsLast(s.messages, s.draft)
    requires other.content != s.draft && other.messageId != id
    requires echo.content == s.draft && echo.messageId == id
    ensures var s1 := Send(s, id).state;
      var s2 := Receive(s1, other).state;
      var s3 := Receive(s2, echo).state;
      && CountId(s3.messages, id) == CountId(s.messages, id) + 2
      && s3.messages[|s3.messages| - 1].sentByMe
  {
    var m := Message(s.chatId, s.draft, id, true);
    var s1 := Send(s, id).state;
    assert s1.messages == s.messages + [m];
    CountIdAppend(s.messages, m, id);
    var s2 := Receive(s1, other).state;
    var o := other.(sentByMe := other.messageId in s1.sentMessages);
    assert s2.messages == s1.messages + [o];
    CountIdAppend(s1.messages, o, id);
    var s3 := Receive(s2, echo).state;
    assert !RepeatsLast(s2.messages, echo.content);
    var e := echo.(sentByMe := id in s2.sentMessages);
    assert s3.messages == s2.messages + [e];
    CountIdAppend(s2.messages, e, id);
  }

  /**
   An in-between message with the same text does not make the echo render
   again: that message repeats the optimistic copy and is dropped, and so is
   the echo.
   */
  lemma SameTextInterleavedEchoDropped(s: ChatState, id: string, other: Message, echo: Message)
    requires SendEnabled(s) && !RepeatsLast(s.messages, s.draft)
    requires other.content == s.draft && echo.content == s.draft
    ensures var sent := Send(s, id).state;
      Receive(Receive(sent, other).state, echo).state == sent
  {
  }

  /**
   A send whose draft equals the last rendered content is not shown at
   once: the optimistic copy is suppressed, and so is an echo arriving
   next, yet the id is recorded as sent.
   */
  lemma RepeatedTextSendAndNextEchoSuppressed(s: ChatState, id: string, echo: Message)
    requires SendEnabled(s) && RepeatsLast(s.messages, s.draft)
    requires CountId(s.messages, id) == 0
    requires echo.content == s.draft
    ensures var sent := Send(s, id).state;
      && id in sent.sentMessages
      && Receive(sent, echo).state.messages == s.messages
      && CountId(Receive(sent, echo).state.messages, id) == 0
  {
  }

  /**
   The suppression of a repeated-text send lasts only until something else
   is rendered: after another participant's message with different content,
   the echo is appended once, marked as mine.
   */
  lemma RepeatedTextEchoAfterOtherRendered(s: ChatState, id: string, other: Message, echo: Message)
    requires SendEnabled(s) && RepeatsLast(s.messages, s.draft)
    requires other.content != s.draft && other.messageId != id
    requires echo.content == s.draft && echo.messageId == id
    ensures var s1 := Send(s, id).state;
      var s2 := Receive(s1, other).state;
      var s3 := Receive(s2, echo).state;
      && s1.messages == s.messages
      && CountId(s3.messages, id) == CountId(s.messages, id) + 1
      && s3.messages[|s3.messages| - 1].sentByMe
  {
    var s1 := Send(s, id).state;
    assert s1.messages == s.messages;
    var s2 := Receive(s1, other).state;
    var o := other.(sentByMe := other.messageId in s1.sentMessages);
    assert s2.messages == s1.messages + [o];
    CountIdAppend(s1.messages, o, id);
    var s3 := Receive(s2, echo).state;
    assert !RepeatsLast(s2.messages, echo.content);
    var e := echo.(sentByMe := id in s2.sentMessages);
    assert s3.messages == s2.messages + [e];
    CountIdAppend(s2.messages, e, id);
  }

  /**
   Another participant's genuinely new message is dropped when its text
   matches the last rendered entry, even though its id was never seen.
   */
  lemma ForeignRepeatIsDropped(s: ChatState, msg: Message)
    requires RepeatsLast(s.messages, msg.content)
    requires msg.messageId !in s.sentMessages && CountId(s.messages, msg.messageId) == 0
    ensures CountId(Receive(s, msg).state.messages, msg.messageId) == 0
  {
  }

  /**
   Loading history forgets ownership: an entry whose id this client sent is
   still rendered as someone else's.
   */
  lemma HistoryDisownsOwnMessages(s: ChatState, history: seq<Message>, i: int)
    requires 0 <= i < |history| && history[i].messageId in s.sentMessages
    ensures var h := History(s, history).state;
      h.messages[i].messageId in h.sentMessages && !h.messages[i].sentByMe
  {
  }

  // ---------------------------------------------------------------------
  // Join and send guards
  // ---------------------------------------------------------------------

  /**
   The send guard fails exactly when the room id is empty or the draft is all
   trimmable characters; a failed send changes nothing and emits nothing.
   */
  lemma SendGuard(s: ChatState, id: string)
    ensures Send(s, id) == Step(s, []) <==> (s.chatId == [] || AllTrimmable(s.draft))
  {
  }

  /**
   A non-empty but blank room id, such as a single space, is refused by join
   yet accepted by send, which emits a message addressed to it.
   */
  lemma BlankRoomPassesSendButNotJoin(s: ChatState, id: string)
    requires s.chatId != [] && AllTrimmable(s.chatId) && !AllTrimmable(s.draft)
    ensures Join(s).events == []
    ensures Send(s, id).events == [SendMessage(Message(s.chatId, s.draft, id, true))]
  {
  }

  /** Such a state exists: room id " " and draft "hi". */
  lemma BlankRoomExample()
    ensures var s := ChatState(" ", "hi", [], []);
      Join(s).events == [] && |Send(s, "1").events| == 1
  {
    SpaceIsBlank();
    var s := ChatState(" ", "hi", [], []);
    assert !IsTrimmable(s.draft[0]);
  }

  // ---------------------------------------------------------------------
  // Ownership invariant
  // ---------------------------------------------------------------------

  /** Every entry rendered as mine carries an id this client sent. */
  predicate OwnedAreRecorded(s: ChatState) {
    forall i :: 0 <= i < |s.messages| && s.messages[i].sentByMe ==> s.messages[i].messageId in s.sentMessages
  }

  lemma ReceivePreservesOwnedAreRecorded(s: ChatState, msg: Message)
    ensures OwnedAreRecorded(s) ==> OwnedAreRecorded(Receive(s, msg).state)
  {
    var r := Receive(s, msg).state;
    if OwnedAreRecorded(s) {
      forall i | 0 <= i < |r.messages| && r.messages[i].sentByMe
        ensures r.messages[i].messageId in r.sentMessages
      {
        if i < |s.messages| {
          assert r.messages[i] == s.messages[i];
        }
      }
    }
  }

  lemma SendPreservesOwnedAreRecorded(s: ChatState, id: string)
    ensures OwnedAreRecorded(s) ==> OwnedAreRecorded(Send(s, id).state)
  {
    var r := Send(s, id).state;
    if OwnedAreRecorded(s) {
      forall i | 0 <= i < |r.messages| && r.messages[i].sentByMe
        ensures r.messages[i].messageId in r.sentMessages
      {
        if i < |s.messages| {
          assert r.messages[i] == s.messages[i];
        }
      }
    }
  }

  /** History renders nothing as mine, so the invariant holds trivially after it. */
  lemma HistoryPreservesOwnedAreRecorded(s: ChatState, history: seq<Message>)
    ensures OwnedAreRecorded(History(s, history).state)
  {
  }

  /** The converse direction: every entry whose id this client sent is rendered as mine. */
  predicate RecordedAreOwned(s: ChatState) {
    forall i :: 0 <= i < |s.messages| && s.messages[i].messageId in s.sentMessages ==> s.messages[i].sentByMe
  }

  /** Attribution is exact: an entry is rendered as mine if and only if its id was sent by this client. */
  predicate Attributed(s: ChatState) {
    OwnedAreRecorded(s) && RecordedAreOwned(s)
  }

  /** No entry of a delivered history carries an id this client recorded as sent. */
  predicate HistoryForeign(s: ChatState, history: seq<Message>) {
    forall i :: 0 <= i < |history| ==> history[i].messageId !in s.sentMessages
  }

  /**
   History renders nothing as mine, so it keeps the converse direction
   exactly when it delivers no id this client sent.
   */
  lemma HistoryPreservesRecordedAreOwned(s: ChatState, history: seq<Message>)
    ensures RecordedAreOwned(History(s, history).state) <==> HistoryForeign(s, history)
  {
    var h := History(s, history).state;
    if !HistoryForeign(s, history) {
      var i :| 0 <= i < |history| && history[i].messageId in s.sentMessages;
      assert h.messages[i].messageId in h.sentMessages && !h.messages[i].sentByMe;
    }
  }

  /** Receive tags the appended entry from the unchanged sent ids, so the converse direction is kept. */
  lemma ReceivePreservesRecordedAreOwned(s: ChatState, msg: Message)
    ensures RecordedAreOwned(s) ==> RecordedAreOwned(Receive(s, msg).state)
  {
    var r := Receive(s, msg).state;
    if RecordedAreOwned(s) {
      forall i | 0 <= i < |r.messages| && r.messages[i].messageId in r.sentMessages
        ensures r.messages[i].sentByMe
      {
        if i < |s.messages| {
          assert r.messages[i] == s.messages[i];
        }
      }
    }
  }

  /**
   Send keeps the converse direction when its id is fresh, that is, no
   rendered entry carries it yet: the only newly recorded id belongs to the
   optimistic copy, which is mine.
   */
  lemma SendPreservesRecordedAreOwned(s: ChatState, id: string)
    requires CountId(s.messages, id) == 0
    ensures RecordedAreOwned(s) ==> RecordedAreOwned(Send(s, id).state)
  {
    var r := Send(s, id).state;
    if RecordedAreOwned(s) && SendEnabled(s) {
      assert r.sentMessages == s.sentMessages + [id];
      forall i | 0 <= i < |r.messages| && r.messages[i].messageId in r.sentMessages
        ensures r.messages[i].sentByMe
      {
        if i < |s.messages| {
          assert r.messages[i] == s.messages[i];
          assert s.messages[i].messageId != id;
        }
      }
    }
  }

  /**
   Without a fresh id Send can break the converse direction: an entry
   received earlier with the same id stays rendered as someone else's once
   the id is recorded.
   */
  lemma StaleIdBreaksRecordedAreOwned()
    ensures var s := ChatState("r", "hi", [Message("r", "x", "7", false)], []);
      RecordedAreOwned(s) && !RecordedAreOwned(Send(s, "7").state)
  {
    var s := ChatState("r", "hi", [Message("r", "x", "7", false)], []);
    assert !IsTrimmable(s.draft[0]);
    var r := Send(s, "7").state;
    assert r.messages[0] == s.messages[0];
  }
}
