/**
 A client session as a sequence of inputs: socket deliveries, button clicks
 and edits of the two text inputs. Each handler runs to completion before
 the next, so a session is the left-to-right composition of the single
 transitions, with the emitted events concatenated in order.
 */
module ChatSession {
  import opened JsString
  import opened ChatApp
  import opened ChatProperties

  /** One thing that can happen to the component. */
  datatype Input =
    | Incoming(msg: Message)                  // a `receive_message` delivery
    | HistoryLoaded(history: seq<Message>)    // a `chat_history` delivery
    | JoinClicked                             // the Join button
    | SendClicked(id: string)                 // the Send button, with the clock's id
    | ChatIdTyped(value: string)              // the room id input changed
    | DraftTyped(value: string)               // the message input changed

  /** The id an event carries, if it is a `send_message`. */
  function IdOf(e: Event): seq<string> {
    match e
    case SendMessage(m) => [m.messageId]
    case _ => []
  }

  /** Ids carried by the `send_message` events of `events`, in order. */
  function SentIds(events: seq<Event>): seq<string> {
    if events == [] then [] else IdOf(events[0]) + SentIds(events[1..])
  }

  /** Splitting a concatenation whose left part is not empty. */
  lemma ConcatSplit<T>(a: seq<T>, b: seq<T>)
    requires a != []
    ensures (a + b)[0] == a[0] && (a + b)[1..] == a[1..] + b
  {
  }

  lemma {:induction false} SentIdsConcat(a: seq<Event>, b: seq<Event>)
    ensures SentIds(a + b) == SentIds(a) + SentIds(b)
    decreases |a|
  {
    if a == [] {
      assert a + b == b;
    } else {
      ConcatSplit(a, b);
      SentIdsConcat(a[1..], b);
      var head, tail, rest := IdOf(a[0]), SentIds(a[1..]), SentIds(b);
      assert head + (tail + rest) == (head + tail) + rest;
    }
  }

  /** An emitted event satisfies the guard of the handler that emitted it. */
  predicate WellFormed(e: Event) {
    match e
    case JoinChat(room) => !IsBlank(room)
    case GetChatHistory(room) => !IsBlank(room)
    case SendMessage(m) => m.chatId != [] && !IsBlank(m.content) && m.sentByMe
  }

  /** Every event of `events` passes its handler's guard. */
  predicate AllWellFormed(events: seq<Event>) {
    forall i :: 0 <= i < |events| ==> WellFormed(events[i])
  }

  lemma AllWellFormedConcat(a: seq<Event>, b: seq<Event>)
    requires AllWellFormed(a) && AllWellFormed(b)
    ensures AllWellFormed(a + b)
  {
    forall i | 0 <= i < |a + b|
      ensures WellFormed((a + b)[i])
    {
      if i < |a| {
        assert (a + b)[i] == a[i];
      } else {
        assert (a + b)[i] == b[i - |a|];
      }
    }
  }

  /**
   The events split into units, each either a `join_chat` immediately
   followed by `get_chat_history` for the same room, or one `send_message`:
   no history request ever appears on its own, and no join without one.
   */
  predicate JoinsPaired(events: seq<Event>)
    decreases |events|
  {
    if events == [] then true
    else match events[0]
      case JoinChat(room) => |events| >= 2 && events[1] == GetChatHistory(room) && JoinsPaired(events[2..])
      case GetChatHistory(_) => false
      case SendMessage(_) => JoinsPaired(events[1..])
  }

  lemma {:induction false} JoinsPairedConcat(a: seq<Event>, b: seq<Event>)
    requires JoinsPaired(a) && JoinsPaired(b)
    ensures JoinsPaired(a + b)
    decreases |a|
  {
    if a == [] {
      assert a + b == b;
    } else if a[0].JoinChat? {
      assert (a + b)[2..] == a[2..] + b;
      JoinsPairedConcat(a[2..], b);
    } else {
      assert (a + b)[1..] == a[1..] + b;
      JoinsPairedConcat(a[1..], b);
    }
  }

  /** The two requests `joinChat` emits carry no id and form one pair. */
  lemma JoinEvents(room: string)
    ensures SentIds([JoinChat(room), GetChatHistory(room)]) == []
    ensures JoinsPaired([JoinChat(room), GetChatHistory(room)])
  {
    var ev := [JoinChat(room), GetChatHistory(room)];
    assert ev[1..] == [GetChatHistory(room)];
    assert ev[1..][1..] == [] && ev[2..] == [];
    assert IdOf(ev[0]) == [] && IdOf(ev[1]) == [];
    assert SentIds(ev[1..]) == [] + SentIds([]);
  }

  /** `joinChat` records no id, and what it emits is well-formed and paired. */
  lemma JoinStep(s: ChatState)
    ensures var r := Join(s);
      && r.state.sentMessages == s.sentMessages + SentIds(r.events)
      && AllWellFormed(r.events)
      && JoinsPaired(r.events)
  {
    JoinEvents(s.chatId);
    assert s.sentMessages + [] == s.sentMessages;
  }

  /** `sendMessage` records exactly the id it emits, and keeps the ownership invariant. */
  lemma SendStep(s: ChatState, id: string)
    ensures var r := Send(s, id);
      && r.state.sentMessages == s.sentMessages + SentIds(r.events)
      && AllWellFormed(r.events)
      && JoinsPaired(r.events)
      && (OwnedAreRecorded(s) ==> OwnedAreRecorded(r.state))
  {
    SendPreservesOwnedAreRecorded(s, id);
    var m := Outgoing(s, id);
    if SendEnabled(s) {
      assert [SendMessage(m)][1..] == [];
      assert SentIds([SendMessage(m)]) == [id];
    }
  }

  /**
   One input applied to the state. Whatever the input, the ids recorded as
   sent grow by exactly the ids of the messages emitted, every event
   emitted passes its handler's guard, joins come paired with history
   requests, the ownership invariant is kept, and only a history delivery
   can remove or change a rendered entry.
   */
  function Dispatch(s: ChatState, input: Input): (r: Step)
    ensures r.state.sentMessages == s.sentMessages + SentIds(r.events)
    ensures AllWellFormed(r.events)
    ensures JoinsPaired(r.events)
    ensures OwnedAreRecorded(s) ==> OwnedAreRecorded(r.state)
    ensures !input.HistoryLoaded? ==> s.messages <= r.state.messages
  {
    match input
    case Incoming(msg) =>
      ReceivePreservesOwnedAreRecorded(s, msg); Receive(s, msg)
    case HistoryLoaded(history) =>
      HistoryPreservesOwnedAreRecorded(s, history); History(s, history)
    case JoinClicked =>
      JoinStep(s); Join(s)
    case SendClicked(id) =>
      SendStep(s, id); Send(s, id)
    case ChatIdTyped(value) => EditChatId(s, value)
    case DraftTyped(value) => EditDraft(s, value)
  }

  /** A whole session: the inputs applied in order, events concatenated. */
  function Run(s: ChatState, inputs: seq<Input>): (r: Step)
    decreases |inputs|
  {
    if inputs == [] then Step(s, [])
    else
      var first := Dispatch(s, inputs[0]);
      var rest := Run(first.state, inputs[1..]);
      Step(rest.state, first.events + rest.events)
  }

  /** Recording the ids of `e1` and then those of `e2` records the ids of `e1 + e2`. */
  lemma ComposeRecords(a0: seq<string>, a1: seq<string>, a2: seq<string>, e1: seq<Event>, e2: seq<Event>)
    requires a1 == a0 + SentIds(e1) && a2 == a1 + SentIds(e2)
    ensures a2 == a0 + SentIds(e1 + e2)
  {
    SentIdsConcat(e1, e2);
    assert (a0 + SentIds(e1)) + SentIds(e2) == a0 + (SentIds(e1) + SentIds(e2));
  }

  /**
   Over any session the list of sent ids is the starting list followed by
   the ids of the emitted `send_message` events, in emission order: every id
   recorded was sent, and every id sent was recorded.
   */
  lemma {:induction false} RunRecordsExactlyEmittedIds(s: ChatState, inputs: seq<Input>)
    ensures Run(s, inputs).state.sentMessages == s.sentMessages + SentIds(Run(s, inputs).events)
    decreases |inputs|
  {
    if inputs != [] {
      var first := Dispatch(s, inputs[0]);
      var rest := Run(first.state, inputs[1..]);
      RunRecordsExactlyEmittedIds(first.state, inputs[1..]);
      ComposeRecords(s.sentMessages, first.state.sentMessages, rest.state.sentMessages, first.events, rest.events);
    }
  }

  /** Every event of any session passes the guard of the handler that emitted it. */
  lemma {:induction false} RunEventsWellFormed(s: ChatState, inputs: seq<Input>)
    ensures AllWellFormed(Run(s, inputs).events)
    decreases |inputs|
  {
    if inputs != [] {
      var first := Dispatch(s, inputs[0]);
      var rest := Run(first.state, inputs[1..]);
      assert Run(s, inputs) == Step(rest.state, first.events + rest.events);
      RunEventsWellFormed(first.state, inputs[1..]);
      AllWellFormedConcat(first.events, rest.events);
    }
  }

  /** In any session the join and history requests come in adjacent pairs for one room. */
  lemma {:induction false} RunJoinsPaired(s: ChatState, inputs: seq<Input>)
    ensures JoinsPaired(Run(s, inputs).events)
    decreases |inputs|
  {
    if inputs != [] {
      var first := Dispatch(s, inputs[0]);
      RunJoinsPaired(first.state, inputs[1..]);
      JoinsPairedConcat(first.events, Run(first.state, inputs[1..]).events);
    }
  }

  /** Every entry rendered as mine at the end of any session carries an id this client sent. */
  lemma {:induction false} RunPreservesOwnedAreRecorded(s: ChatState, inputs: seq<Input>)
    requires OwnedAreRecorded(s)
    ensures OwnedAreRecorded(Run(s, inputs).state)
    decreases |inputs|
  {
    if inputs != [] {
      RunPreservesOwnedAreRecorded(Dispatch(s, inputs[0]).state, inputs[1..]);
    }
  }

  /** A session without history deliveries never removes, changes or reorders a rendered entry. */
  lemma {:induction false} RunWithoutHistoryOnlyAppends(s: ChatState, inputs: seq<Input>)
    requires forall i :: 0 <= i < |inputs| ==> !inputs[i].HistoryLoaded?
    ensures s.messages <= Run(s, inputs).state.messages
    decreases |inputs|
  {
    if inputs != [] {
      var first := Dispatch(s, inputs[0]);
      RunWithoutHistoryOnlyAppends(first.state, inputs[1..]);
    }
  }

  /**
   The input keeps the converse ownership direction: a Send click draws an
   id that no rendered entry carries, and a history delivery carries no id
   this client sent.
   */
  predicate FreshInput(s: ChatState, input: Input) {
    && (input.SendClicked? ==> CountId(s.messages, input.id) == 0)
    && (input.HistoryLoaded? ==> HistoryForeign(s, input.history))
  }

  /** Every input of the session is fresh in the state it meets. */
  predicate FreshSession(s: ChatState, inputs: seq<Input>)
    decreases |inputs|
  {
    inputs == [] ||
      (FreshInput(s, inputs[0]) && FreshSession(Dispatch(s, inputs[0]).state, inputs[1..]))
  }

  /** Every fresh input keeps the converse direction. */
  lemma DispatchPreservesRecordedAreOwned(s: ChatState, input: Input)
    requires FreshInput(s, input)
    ensures RecordedAreOwned(s) ==> RecordedAreOwned(Dispatch(s, input).state)
  {
    match input
    case Incoming(msg) => ReceivePreservesRecordedAreOwned(s, msg);
    case HistoryLoaded(history) => HistoryPreservesRecordedAreOwned(s, history);
    case SendClicked(id) => SendPreservesRecordedAreOwned(s, id);
    case _ =>
  }

  /**
   In a session whose inputs are all fresh, exact
   attribution is kept: an entry is rendered as mine if and only if its id
   was sent by this client.
   */
  lemma {:induction false} RunKeepsAttribution(s: ChatState, inputs: seq<Input>)
    requires Attributed(s) && FreshSession(s, inputs)
    ensures Attributed(Run(s, inputs).state)
    decreases |inputs|
  {
    if inputs != [] {
      var first := Dispatch(s, inputs[0]);
      DispatchPreservesRecordedAreOwned(s, inputs[0]);
      RunKeepsAttribution(first.state, inputs[1..]);
    }
  }

  /**
   From the initial state, a session whose inputs are all fresh renders an entry as mine exactly when its id is recorded.
   */
  lemma AttributedFromInitial(inputs: seq<Input>)
    requires FreshSession(Initial, inputs)
    ensures var r := Run(Initial, inputs).state;
      forall i :: 0 <= i < |r.messages| ==> (r.messages[i].sentByMe <==> r.messages[i].messageId in r.sentMessages)
  {
    RunKeepsAttribution(Initial, inputs);
  }

  /**
   The usual opening of a session: type a room id, join it, and receive its
   history. Whatever the history holds, it ends with exact attribution.
   */
  lemma JoinThenHistoryAttributed(room: string, history: seq<Message>)
    ensures var r := Run(Initial, [ChatIdTyped(room), JoinClicked, HistoryLoaded(history)]).state;
      forall i :: 0 <= i < |r.messages| ==> (r.messages[i].sentByMe <==> r.messages[i].messageId in r.sentMessages)
  {
    var inputs := [ChatIdTyped(room), JoinClicked, HistoryLoaded(history)];
    var s1 := Dispatch(Initial, inputs[0]).state;
    var s2 := Dispatch(s1, inputs[1]).state;
    var s3 := Dispatch(s2, inputs[2]).state;
    assert s2.sentMessages == [];
    assert inputs[1..][1..] == [inputs[2]] && inputs[1..][1..][1..] == [];
    assert FreshSession(s3, []);
    assert FreshSession(s2, inputs[1..][1..]);
    assert FreshSession(s1, inputs[1..]);
    assert FreshSession(Initial, inputs);
    AttributedFromInitial(inputs);
  }

  /**
   From the initial state, the ids recorded are exactly the ids sent, and
   nothing is rendered as mine unless its id is among them.
   */
  lemma SessionFromInitial(inputs: seq<Input>)
    ensures Run(Initial, inputs).state.sentMessages == SentIds(Run(Initial, inputs).events)
    ensures OwnedAreRecorded(Run(Initial, inputs).state)
  {
    RunRecordsExactlyEmittedIds(Initial, inputs);
    RunPreservesOwnedAreRecorded(Initial, inputs);
  }
}
