/**
 The client-side chat state machine of the `ChatApp` component.

 The component's state is four React state cells; each socket handler and
 button handler is modelled as a pure transition from the current state and
 its input to the next state and the socket events it emits, in emission
 order. The socket itself, React scheduling and rendering are not modelled.
 */
module ChatApp {
  import opened JsString

  /**
   A chat message as it travels on the socket and as it is rendered. Objects
   arriving from the relay are spread into this shape, so `sentByMe` may
   already be set by the sender; the client overrides it.
   */
  datatype Message = Message(chatId: string, content: string, messageId: string, sentByMe: bool)

  /** The four state cells: room id input, draft input, rendered list, ids this client sent. */
  datatype ChatState = ChatState(
    chatId: string,
    draft: string,
    messages: seq<Message>,
    sentMessages: seq<string>)

  /** Socket events this client emits. */
  datatype Event =
    | JoinChat(room: string)
    | GetChatHistory(room: string)
    | SendMessage(message: Message)

  /** The outcome of one transition: the next state and the events emitted, in order. */
  datatype Step = Step(state: ChatState, events: seq<Event>)

  /** Every cell starts empty. */
  const Initial: ChatState := ChatState("", "", [], [])

  /** The last rendered entry exists and carries exactly `content`. */
  predicate RepeatsLast(list: seq<Message>, content: string) {
    |list| > 0 && list[|list| - 1].content == content
  }

  /**
   The duplicate-display guard shared by the receive handler and the
   optimistic append of `sendMessage`: keep the list when its last entry has
   the same content, otherwise append the entry.
   */
  function AppendUnlessRepeat(list: seq<Message>, entry: Message): (r: seq<Message>)
    ensures list <= r && |r| <= |list| + 1
    ensures r == list <==> RepeatsLast(list, entry.content)
    ensures |r| == |list| + 1 ==> r[|list|] == entry
  {
    if RepeatsLast(list, entry.content) then list else list + [entry]
  }

  /** Number of rendered entries carrying message id `id`. */
  function CountId(list: seq<Message>, id: string): (n: nat)
    ensures n <= |list|
    ensures n == 0 <==> forall i :: 0 <= i < |list| ==> list[i].messageId != id
  {
    if list == [] then 0
    else CountId(list[..|list| - 1], id) + (if list[|list| - 1].messageId == id then 1 else 0)
  }

  /** Every rendered entry with id `id` is marked as sent by this client. */
  predicate AllMine(list: seq<Message>, id: string) {
    forall i :: 0 <= i < |list| && list[i].messageId == id ==> list[i].sentByMe
  }

  // ---------------------------------------------------------------------
  // Transitions
  // ---------------------------------------------------------------------

  /**
   `receive_message`: an incoming message is dropped when the last rendered
   entry has the same content, whoever sent it; otherwise it is appended with
   `sentByMe` decided solely by whether its id is one this client sent.
   */
  function Receive(s: ChatState, msg: Message): (r: Step)
    ensures r.events == []
    ensures r.state.chatId == s.chatId && r.state.draft == s.draft
    ensures r.state.sentMessages == s.sentMessages
    ensures s.messages <= r.state.messages
    ensures r.state.messages == s.messages <==> RepeatsLast(s.messages, msg.content)
    ensures !RepeatsLast(s.messages, msg.content) ==>
      var n := |s.messages|;
      && |r.state.messages| == n + 1
      && r.state.messages[n].chatId == msg.chatId
      && r.state.messages[n].content == msg.content
      && r.state.messages[n].messageId == msg.messageId
      && (r.state.messages[n].sentByMe <==> msg.messageId in s.sentMessages)
  {
    var tagged := msg.(sentByMe := msg.messageId in s.sentMessages);
    Step(s.(messages := AppendUnlessRepeat(s.messages, tagged)), [])
  }

  /** Every history entry, in order, marked as not sent by this client. */
  function MarkNotMine(history: seq<Message>): (r: seq<Message>)
    ensures |r| == |history|
    ensures forall i :: 0 <= i < |r| ==>
      && r[i].chatId == history[i].chatId
      && r[i].content == history[i].content
      && r[i].messageId == history[i].messageId
      && !r[i].sentByMe
  {
    if history == [] then []
    else MarkNotMine(history[..|history| - 1]) + [history[|history| - 1].(sentByMe := false)]
  }

  /**
   `chat_history`: the rendered list is replaced by the delivered history,
   same order and length, every entry not-mine; nothing else changes.
   */
  function History(s: ChatState, history: seq<Message>): (r: Step)
    ensures r.events == []
    ensures r.state.chatId == s.chatId && r.state.draft == s.draft
    ensures r.state.sentMessages == s.sentMessages
    ensures |r.state.messages| == |history|
    ensures forall i :: 0 <= i < |history| ==>
      && r.state.messages[i].chatId == history[i].chatId
      && r.state.messages[i].content == history[i].content
      && r.state.messages[i].messageId == history[i].messageId
      && !r.state.messages[i].sentByMe
  {
    Step(s.(messages := MarkNotMine(history)), [])
  }

  /**
   `joinChat`: when the room id is not blank after trimming, ask the relay to
   join the room and then to send its history; the untrimmed id is sent.
   The state never changes.
   */
  function Join(s: ChatState): (r: Step)
    ensures r.state == s
    ensures !AllTrimmable(s.chatId) ==> r.events == [JoinChat(s.chatId), GetChatHistory(s.chatId)]
    ensures AllTrimmable(s.chatId) ==> r.events == []
  {
    if !IsBlank(s.chatId) then Step(s, [JoinChat(s.chatId), GetChatHistory(s.chatId)])
    else Step(s, [])
  }

  /**
   The guard of `sendMessage`: the room id is tested untrimmed (only the
   empty string fails), the draft trimmed.
   */
  predicate SendEnabled(s: ChatState) {
    s.chatId != [] && !IsBlank(s.draft)
  }

  /** The message `sendMessage` builds from the state and the fresh id. */
  function Outgoing(s: ChatState, id: string): Message {
    Message(s.chatId, s.draft, id, true)
  }

  /**
   `sendMessage`, given the id the source draws from the clock. When enabled
   it emits one `send_message` carrying the untrimmed draft, appends the same
   message optimistically unless the last entry has that content, records
   the id in either case and clears the draft. When not enabled nothing
   happens at all.
   */
  function Send(s: ChatState, id: string): (r: Step)
    ensures !SendEnabled(s) ==> r == Step(s, [])
    ensures SendEnabled(s) ==>
      && r.events == [SendMessage(Message(s.chatId, s.draft, id, true))]
      && r.state.chatId == s.chatId
      && r.state.draft == []
      && r.state.sentMessages == s.sentMessages + [id]
      && s.messages <= r.state.messages
      && (r.state.messages == s.messages <==> RepeatsLast(s.messages, s.draft))
      && (!RepeatsLast(s.messages, s.draft) ==>
            r.state.messages == s.messages + [Message(s.chatId, s.draft, id, true)])
  {
    if SendEnabled(s) then
      var m := Outgoing(s, id);
      Step(ChatState(s.chatId, [], AppendUnlessRepeat(s.messages, m), s.sentMessages + [id]),
           [SendMessage(m)])
    else
      Step(s, [])
  }

  /** The room id input's change handler. */
  function EditChatId(s: ChatState, value: string): (r: Step)
    ensures r.events == [] && r.state.chatId == value
    ensures r.state.draft == s.draft && r.state.messages == s.messages
    ensures r.state.sentMessages == s.sentMessages
  {
    Step(s.(chatId := value), [])
  }

  /** The message input's change handler. */
  function EditDraft(s: ChatState, value: string): (r: Step)
    ensures r.events == [] && r.state.draft == value
    ensures r.state.chatId == s.chatId && r.state.messages == s.messages
    ensures r.state.sentMessages == s.sentMessages
  {
    Step(s.(draft := value), [])
  }
}
