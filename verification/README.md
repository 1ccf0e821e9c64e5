# ChatApp client state machine, in Dafny

This project models the client side of the messenger's chat room: the
`ChatApp` React component in `src/components/ChatApp.jsx`. The component keeps
four pieces of state:

- the room id typed by the user (`chatId`);
- the message draft (`message`, here `draft`);
- the rendered message list (`messages`), where each entry carries a
  `sentByMe` flag;
- the ids of the messages this client sent (`sentMessages`).

Four handlers change that state and emit socket events:

- `receive_message` appends an incoming message. It drops the message when
  its text equals the last rendered entry's text.
- `chat_history` replaces the list and marks every entry as not mine.
- `joinChat` asks the relay to join the room and then to send the room's
  history. It does this only when the room id is not blank after trimming.
- `sendMessage` emits the message and appends an optimistic copy, with the
  same duplicate guard. It records the id and clears the draft.

Each handler is a pure function from the state and its input to a `Step`: the
next state plus the events emitted, in order. The message id the source draws
from `Date.now()` is a parameter of `Send`.

Files:

- `js_string.dfy` (module `JsString`): JavaScript's `String.prototype.trim`.
  It strips the ECMAScript WhiteSpace and LineTerminator code points at both
  ends. A trimmed string is falsy exactly when it is empty.
- `chat_app.dfy` (module `ChatApp`): the state, the events and the
  transitions `Receive`, `History`, `Join` and `Send`. It also holds the two
  input change handlers `EditChatId` and `EditDraft`.
- `chat_properties.dfy` (module `ChatProperties`): properties that relate
  several calls. These are the send/echo round trip, the consequences of the
  content-equality guard, the different join and send guards, and the
  ownership invariant.
- `chat_session.dfy` (module `ChatSession`): a session as a sequence of
  inputs, and invariants that hold over every session.

Four behaviours of `ChatApp.jsx` are easy to miss:

- The duplicate guard compares the untrimmed content of the incoming message
  with the last rendered entry only. It never consults message ids. A
  participant's own message is therefore rendered twice when a message with
  different content is rendered between the optimistic copy and the echo
  (`InterleavedEchoRendersTwice`). An in-between message with the same
  content is dropped itself, and so is the echo
  (`SameTextInterleavedEchoDropped`).
- `sendMessage` tests the room id untrimmed, so it rejects only an empty room
  id. `joinChat` trims it and also rejects a blank one.
- The `chat_history` handler marks every entry as not mine, including this
  client's own messages. Exact attribution ("mine" if and only if the id was
  sent here) therefore breaks exactly when a delivered history carries an id
  this client sent (`HistoryPreservesRecordedAreOwned`). The usual opening of
  a session, typing a room id, joining and receiving its history, keeps it
  (`JoinThenHistoryAttributed`).
- A send whose text repeats the last rendered entry is suppressed, and so is
  its echo if it arrives next. If another message with different content
  comes first, the echo is rendered after all, marked as mine
  (`RepeatedTextEchoAfterOtherRendered`).

## Model

| member | source | states |
|---|---|---|
| JsString.Trim | src/components/ChatApp.jsx:44 | `trim` keeps the contiguous slice after the leading trimmable characters. Everything dropped after it is trimmable. A non-empty result starts and ends with a kept character. The result is empty exactly when every character is trimmable. |
| JsString.BlankIffAllTrimmable | src/components/ChatApp.jsx:52 | A string trims to the falsy empty string if and only if every character is WhiteSpace or a LineTerminator. |
| JsString.SpaceIsBlank | src/components/ChatApp.jsx:44 | `" "` is a non-empty string that is still blank after trimming. |
| ChatApp.AppendUnlessRepeat | src/components/ChatApp.jsx:15-24 | The duplicate guard returns the list unchanged exactly when the last entry has the new entry's content. Otherwise it extends the list by exactly that entry. The old list is always a prefix of the result. |
| ChatApp.Receive | src/components/ChatApp.jsx:13-25 | Receive emits nothing and changes only the list. The list is unchanged if and only if its last entry has the incoming content, whoever sent it. Otherwise the old list is a prefix and exactly one entry is added. That entry has the incoming chatId, content and id, and `sentByMe` holds exactly when the id is in `sentMessages`. |
| ChatApp.MarkNotMine | src/components/ChatApp.jsx:35 | The history mapping keeps length and order. It keeps each entry's chatId, content and id, and clears `sentByMe`. |
| ChatApp.History | src/components/ChatApp.jsx:34-35 | History replaces the list by the delivered history: same length, same order, same fields, every entry not mine. The room id, draft and sent ids are untouched, and nothing is emitted. |
| ChatApp.Join | src/components/ChatApp.jsx:43-48 | Join never changes the state. With a room id that is not all trimmable, it emits exactly `join_chat(id)` then `get_chat_history(id)`, using the untrimmed id. Otherwise it emits nothing. |
| ChatApp.Send | src/components/ChatApp.jsx:51-72 | A disabled send changes nothing and emits nothing. An enabled send does four things. It emits one `send_message` with the untrimmed draft, the given id and `sentByMe = true`. It appends the id to `sentMessages` and clears the draft. It never shrinks the list. It appends exactly that message unless the last entry has the draft's content, in which case the list is unchanged. |
| ChatApp.EditChatId | src/components/ChatApp.jsx:84 | Typing in the room field sets the room id and nothing else. |
| ChatApp.EditDraft | src/components/ChatApp.jsx:117 | Typing in the message field sets the draft and nothing else. |
| ChatProperties.SendGuard | src/components/ChatApp.jsx:52 | Send is a complete no-op if and only if the room id is empty or the draft is all trimmable characters. |
| ChatProperties.BlankRoomPassesSendButNotJoin | src/components/ChatApp.jsx:43-61 | Take a room id that is non-empty but blank. Join emits nothing for it, yet Send emits a `send_message` addressed to that room. |
| ChatProperties.BlankRoomExample | src/components/ChatApp.jsx:43-61 | The state with room `" "` and draft `"hi"` is refused by Join and accepted by Send. |
| ChatProperties.SendThenEchoRendersOnce | src/components/ChatApp.jsx:15-67 | Round trip: a send that rendered its optimistic copy is followed by the echo with the same content. The echo changes nothing. Exactly one entry carries the new id, and it is marked as mine. |
| ChatProperties.InterleavedEchoRendersTwice | src/components/ChatApp.jsx:15-24 | Another participant's message with different content arrives between a send and its echo. The echo is then appended as well, so two more entries carry the id than before the send, and the last one is marked as mine. |
| ChatProperties.SameTextInterleavedEchoDropped | src/components/ChatApp.jsx:15-19 | When the in-between message has the same content as the sent draft, both it and the echo are dropped, and the state after the send is left as it was. |
| ChatProperties.RepeatedTextSendAndNextEchoSuppressed | src/components/ChatApp.jsx:63-69 | A send whose draft equals the last rendered content records its id but renders no optimistic copy. An echo arriving next is suppressed as well, so the list is unchanged and no entry carries the id. |
| ChatProperties.RepeatedTextEchoAfterOtherRendered | src/components/ChatApp.jsx:15-24 | After such a send, a message from someone else with different content followed by the echo leaves the echo rendered once, marked as mine. |
| ChatProperties.ForeignRepeatIsDropped | src/components/ChatApp.jsx:15-19 | A message with a new id from another sender is not rendered when its text repeats the last entry. |
| ChatProperties.HistoryDisownsOwnMessages | src/components/ChatApp.jsx:35 | After history loads, an entry whose id this client sent is rendered as not mine. |
| ChatProperties.ReceivePreservesOwnedAreRecorded | src/components/ChatApp.jsx:23 | Receive keeps the invariant "every entry rendered as mine has an id in `sentMessages`". |
| ChatProperties.SendPreservesOwnedAreRecorded | src/components/ChatApp.jsx:54-69 | Send keeps the same ownership invariant. |
| ChatProperties.HistoryPreservesOwnedAreRecorded | src/components/ChatApp.jsx:35 | After History the ownership invariant holds whatever came before. |
| ChatProperties.ReceivePreservesRecordedAreOwned | src/components/ChatApp.jsx:21-24 | Receive keeps the converse invariant "every entry whose id is in `sentMessages` is rendered as mine": the new entry is tagged from the same `sentMessages`. |
| ChatProperties.SendPreservesRecordedAreOwned | src/components/ChatApp.jsx:51-69 | Send keeps the converse invariant when no rendered entry already carries the new id: the only id it records belongs to the optimistic copy, which is mine. |
| ChatProperties.HistoryPreservesRecordedAreOwned | src/components/ChatApp.jsx:34-35 | After History, every entry whose id is recorded is mine if and only if the delivered history carries no id this client sent. |
| ChatProperties.StaleIdBreaksRecordedAreOwned | src/components/ChatApp.jsx:53-68 | With an id that a received entry already carries, Send records the id while that entry stays rendered as not mine. |
| ChatSession.Dispatch | src/components/ChatApp.jsx:13-72 | Every input has the same effect on the recorded ids: they grow by exactly the ids of the messages it emits. Every emitted event passes its handler's guard. Join requests come in pairs. The ownership invariant is kept. Only a history delivery can remove or alter a rendered entry. |
| ChatSession.RunRecordsExactlyEmittedIds | src/components/ChatApp.jsx:61-69 | Over any session, the final sent ids are the initial ones followed by the ids of the emitted `send_message` events, in emission order. |
| ChatSession.RunEventsWellFormed | src/components/ChatApp.jsx:43-61 | Every event of any session passes its guard. Joins and history requests name a non-blank room. A sent message has a non-empty room, non-blank content and `sentByMe` set. |
| ChatSession.RunJoinsPaired | src/components/ChatApp.jsx:44-46 | Any session's events split into `join_chat` and `get_chat_history` pairs for one room, and single `send_message` events. |
| ChatSession.RunPreservesOwnedAreRecorded | src/components/ChatApp.jsx:13-72 | The ownership invariant holds at the end of any session that starts with it. |
| ChatSession.RunWithoutHistoryOnlyAppends | src/components/ChatApp.jsx:14-67 | With no history delivery, a session never removes, alters or reorders a rendered entry. |
| ChatSession.DispatchPreservesRecordedAreOwned | src/components/ChatApp.jsx:13-72 | Every input keeps the converse invariant, provided a send's id is not yet rendered and a history delivery carries no id this client sent. |
| ChatSession.RunKeepsAttribution | src/components/ChatApp.jsx:13-72 | In a session where each send's id is not yet rendered and each history delivery carries no id this client sent, exact attribution is kept from start to end: an entry is mine if and only if its id is recorded as sent. |
| ChatSession.AttributedFromInitial | src/components/ChatApp.jsx:7-72 | From the initial state, such a session ends with every entry rendered as mine exactly when its id is among the recorded sent ids. |
| ChatSession.JoinThenHistoryAttributed | src/components/ChatApp.jsx:7-48 | From the initial state, typing a room id, joining and receiving any history ends with exact attribution. |
| ChatSession.SessionFromInitial | src/components/ChatApp.jsx:7-10 | From the all-empty initial state, the recorded ids are exactly the ids sent. Nothing is rendered as mine unless its id is among them. |

## Left out

- The socket.io connection and the `on`/`off` subscription lifecycle of the
  two effects (lines 4, 12, 28-31, 38-41) are transport and React plumbing.
  Emitted events are returned values; deliveries are inputs.
- Receive reads the current `sentMessages`. The source's handler captures it
  through the effect's dependency array, and re-registration depends on
  React's scheduling, which is not modelled.
- SendPreservesRecordedAreOwned: requires that no rendered entry carries the
  new id. The source relies on `Date.now()` for that and does not check it;
  `StaleIdBreaksRecordedAreOwned` shows what happens otherwise.
- RunKeepsAttribution, AttributedFromInitial: require every send's id to be
  new to the rendered list and every history delivery to carry no id this
  client sent. `StaleIdBreaksRecordedAreOwned` and
  `HistoryPreservesRecordedAreOwned` show attribution breaks otherwise.
- `Date.now()` is not modelled. The id is a parameter, and no reasoning about
  id collisions is done; lemmas that need a fresh id require it.
- `console.log` (line 47) and all JSX rendering and styling (lines 74-128)
  are left out.
- Message fields beyond chatId, content, messageId and sentByMe are not
  represented. The client's own object spreads (`{ ...msg, sentByMe: … }`,
  lines 23 and 35) copy them unchanged onto the rendered entry.
- Messages whose `content` is not a string are not modelled.
- Strings are sequences of Unicode scalar values rather than UTF-16 code
  units. Every code point `trim` removes lies in the Basic Multilingual Plane,
  so trimming is unaffected.
- The relay server, room registry and history storage are not part of this
  model. Neither are video-call signalling and peer connections, which have no
  code here.
