# WhatsApp-style chat screen: a verified model of its state

The application is one React component, `App` in `src/App.tsx`. It shows a list
of chats and the thread of the selected chat. The user can search the chat
list, search the messages of the open chat, and send a message. On a narrow
window only one of the two panels is shown at a time. All data is in memory
and starts from three seeded conversations.

This project models the component's state and its behaviour without the
rendering:

- `text.dfy`, module `Text`: the JavaScript string operations the component
  uses. `trim` is written out with the ECMAScript whitespace and line
  terminator characters. `toLowerCase` covers the ASCII letters only.
  `includes` is a substring test.
- `seqs.dfy`, module `Seqs`: `Array.prototype.filter`, the search behind
  `Array.prototype.find`, the `Option` type for values that may be
  `undefined` or `null`, and the order-preserving subsequence relation.
- `chat.dfy`, module `ChatModel`: the `Message` and `Chat` records and the
  seed chats. It also holds the pure part of the component:
  - the per-chat update done by a send;
  - `currentChat`, `filteredChats` and `filteredMessages`;
  - `showChatList` and `showChatArea`;
  - the highlight test for a message bubble.
  The lemmas about these are here, with scenarios on the seed data.
- `app.dfy`, module `App`: class `ChatApp` holds the component's state
  variables as mutable fields. Each event handler is a method that changes
  only the fields it sets. The methods are `SendMessage`, `BackToList`,
  `SelectChat`, `ToggleMessageSearch`, the text-field change handlers and
  `Resize`. `Valid` holds two invariants: each chat's summary is the content
  of its last message, and every message content is non-empty and has no
  leading or trailing whitespace. Three client methods use only these
  contracts: `NarrowScreenScenario` follows the panel layout through select
  and back; `SendTwice` and `SendScenario` follow a send and a second send
  with the cleared input.

Choices that follow the code:

- `selectedChat` is an `Option<int>`. The send guard and the panel layout
  test its truthiness, so `null` and `0` both mean "no chat selected"
  (`IsSelected`). `currentChat`, on the other hand, compares ids with `===`.
  So a chat with id 0 is still found as the current chat.
- After a send, the chat's `time` becomes the literal "Just now". It is not
  the new message's timestamp. So `lastMessage` follows the last message
  (`AppendKeepsSummaries`), but `time` does not (`AppendTimeIsNotTimestamp`).
  A stricter design would also keep `time` equal to the last timestamp. The
  code does not, and the model follows the code.
- The send handler clears the input whenever its guard passes, even when no
  chat has the selected id. In that case the chats are left as they were.
- `filteredMessages` applies the message query whether or not message search
  is switched on. Switching search off keeps the query, so the filter stays
  in force.
- Every chat whose id equals the selection receives the message. No
  uniqueness of chat ids is assumed.
- Each handler is one atomic transition that reads the state from before the
  event. This is what the closure in `toggleMessageSearch` does.

## Model

| member | source | states |
|---|---|---|
| `Text.Trim` | src/App.tsx:75-78 | `trim`: the input without its leading and trailing ECMAScript whitespace and line terminators; its contract is stated by `TrimSlice`, `TrimEmptyIff`, `TrimIdempotent` and `TrimmedNonEmptyIff` |
| `Text.TrimSlice` | src/App.tsx:75-78 | `trim` keeps the stretch of the input between its first and last non-whitespace characters; everything dropped on either side is whitespace |
| `Text.TrimEmptyIff` | src/App.tsx:75 | the trimmed input is empty exactly when every character is whitespace |
| `Text.TrimIdempotent` | src/App.tsx:78 | trimming the trimmed input changes nothing |
| `Text.TrimmedNonEmptyIff` | src/App.tsx:78 | a non-empty string is left unchanged by `trim` iff it neither starts nor ends with whitespace |
| `Text.TrimIsTrimmed` | src/App.tsx:75-78 | when the trimmed input is non-empty (the guard passed), it neither starts nor ends with whitespace |
| `Text.Lower` | src/App.tsx:104-105 | `toLowerCase`: the result has the input's length and each character is the input's character lower-cased |
| `Text.LowerIdempotent` | src/App.tsx:104-105 | lower-casing leaves no upper-case letter and is idempotent |
| `Text.Contains` | src/App.tsx:104-105 | `includes`; `ContainsIff` states that it holds iff the needle occurs at some offset of the haystack |
| `Text.ContainsIff` | src/App.tsx:104-105 | `includes` holds exactly when the needle occurs at some offset of the haystack |
| `Text.ContainsEmpty` | src/App.tsx:104 | every string includes the empty string, the reason an empty search matches everything |
| `Seqs.Filter` | src/App.tsx:103-106 | `filter` returns an order-preserving subsequence; an element is kept iff it satisfies the test, with as many copies as the input has, and an element that fails it has none |
| `Seqs.FilterAll` | src/App.tsx:103-106 | when every element passes, `filter` returns the sequence unchanged |
| `Seqs.FirstIndex` | src/App.tsx:110 | the element `find` returns is the first that satisfies the test; no earlier one does |
| `ChatModel.Seed` | src/App.tsx:27-64 | the three seed chats with their messages; `SeedSummariesMatch` and `SeedContentsTrimmed` state the invariants they satisfy |
| `ChatModel.CurrentChat` | src/App.tsx:110 | there is no current chat iff no chat has the selected id; otherwise it is the first chat with that id |
| `ChatModel.CanSend` | src/App.tsx:75 | the send guard, the truthiness of the trimmed input and of the selection; `CanSendIff` states what it accepts |
| `ChatModel.CanSendIff` | src/App.tsx:75 | a send goes through iff the input has a non-whitespace character and the selection is neither null nor 0 |
| `ChatModel.NewMessage` | src/App.tsx:76-81 | the new message has the trimmed input as content, sender 'me' and the given id and timestamp |
| `ChatModel.AppendToChat` | src/App.tsx:83-93 | a send keeps the number and order of chats; each chat with the target id gets the message appended, the summary and "Just now"; every other chat is unchanged |
| `ChatModel.AppendKeepsChatList` | src/App.tsx:83-93 | a send changes no chat's id, name or avatar and keeps the list's length |
| `ChatModel.AppendGrowsByOne` | src/App.tsx:87 | in the target chat the old messages are kept as a prefix and the new message is the one added at the end |
| `ChatModel.AppendToMissingChat` | src/App.tsx:83-93 | when no chat has the target id, the chats are left unchanged |
| `ChatModel.SeedSummariesMatch` | src/App.tsx:27-64 | in every seed chat, `lastMessage` is the content of the last message |
| `ChatModel.AppendKeepsSummaries` | src/App.tsx:87-88 | a send whose summary is the appended content keeps "lastMessage is the last message's content" for every chat |
| `ChatModel.JohnDoeContentsTrimmed` | src/App.tsx:35-39 | John Doe's seed messages have non-empty contents without leading or trailing whitespace |
| `ChatModel.AliceSmithContentsTrimmed` | src/App.tsx:49-50 | Alice Smith's seed messages have non-empty contents without leading or trailing whitespace |
| `ChatModel.BobJohnsonContentsTrimmed` | src/App.tsx:60-61 | Bob Johnson's seed messages have non-empty contents without leading or trailing whitespace |
| `ChatModel.SeedContentsTrimmed` | src/App.tsx:27-64 | every seed message has a non-empty content without leading or trailing whitespace |
| `ChatModel.NewMessageTrimmed` | src/App.tsx:75-78 | when the guard's trimmed input is non-empty, the new message's content is non-empty and unchanged by `trim` |
| `ChatModel.AppendKeepsContentsTrimmed` | src/App.tsx:83-93 | a send of a message with trimmed, non-empty content keeps every message of every chat trimmed and non-empty |
| `ChatModel.AppendTimeIsNotTimestamp` | src/App.tsx:89 | after a send, the target chat's `time` differs from the new message's timestamp unless that timestamp is "Just now" |
| `ChatModel.ChatMatches` | src/App.tsx:104-105 | the chat-search test: the lower-cased query is in the lower-cased name or last message; `FilteredChatsSpec` states it with `filter` |
| `ChatModel.FilteredChats` | src/App.tsx:103-106 | `filteredChats`; its contract is stated by `FilteredChatsSpec` and `FilteredChatsEmptyQuery` |
| `ChatModel.FilteredChatsSpec` | src/App.tsx:103-106 | `filteredChats` is an order-preserving subsequence of the chats; a chat is kept iff the lower-cased query is in its lower-cased name or last message, with all its copies |
| `ChatModel.FilteredChatsEmptyQuery` | src/App.tsx:103-106 | with an empty query every chat is listed, in order |
| `ChatModel.MessageMatches` | src/App.tsx:113-115 | the message-search test: an empty query accepts every message, any other one the messages whose lower-cased content contains it |
| `ChatModel.FilteredMessages` | src/App.tsx:110-116 | `filteredMessages`; its contract is stated by `FilteredMessagesAbsent`, `FilteredMessagesEmptyQuery` and `FilteredMessagesSpec` |
| `ChatModel.FilteredMessagesAbsent` | src/App.tsx:110-112 | there are no messages to show iff no chat has the selected id |
| `ChatModel.FilteredMessagesEmptyQuery` | src/App.tsx:112-116 | with an empty message query the current chat's messages are shown unfiltered |
| `ChatModel.FilteredMessagesSpec` | src/App.tsx:112-116 | with a non-empty query the shown messages are an order-preserving subsequence of the current chat's; a message is kept iff its content contains the query, ignoring case, with all its copies |
| `ChatModel.ShowChatList` | src/App.tsx:108 | `showChatList`; `PanelRule` states the layout it gives |
| `ChatModel.ShowChatArea` | src/App.tsx:109 | `showChatArea`; `PanelRule` states the layout it gives |
| `ChatModel.PanelRule` | src/App.tsx:108-109 | on a wide screen both panels are shown; on a narrow one exactly one is, the chat area iff a chat is selected |
| `ChatModel.Highlighted` | src/App.tsx:277-279 | the search ring on a message bubble; `HighlightMatchesFilter` and `NothingHighlightedWithoutQuery` state when it is drawn |
| `ChatModel.HighlightMatchesFilter` | src/App.tsx:277-279 | with a non-empty query every shown message is highlighted, and every highlighted message of the current chat is shown |
| `ChatModel.NothingHighlightedWithoutQuery` | src/App.tsx:277 | with an empty query no message is highlighted |
| `ChatModel.SeedMissesAlice` | src/App.tsx:103-106 | the query "alice" matches neither John Doe's nor Bob Johnson's seed chat |
| `ChatModel.AliceSmithMatchesAlice` | src/App.tsx:103-106 | the query "alice" matches Alice Smith's seed chat |
| `ChatModel.SeedSearchAlice` | src/App.tsx:103-106 | on the seed chats, searching "alice" lists only Alice Smith's chat |
| `ChatModel.SeedSearchNothing` | src/App.tsx:103-106 | on the seed chats, searching "zzz" lists nothing |
| `ChatModel.SeedSendScenario` | src/App.tsx:74-97 | sending "  See you soon!  " to chat 1 of the seed gives it a sixth message "See you soon!" from 'me', that summary and the time "Just now" |
| `App.ChatApp.constructor` | src/App.tsx:21-64 | the initial state: the seed chats, chat 1 selected, empty text fields, message search off, the given viewport; both invariants hold |
| `App.ChatApp.SendMessage` | src/App.tsx:74-97 | if the guard passes, the chats become the per-chat update of the old chats and the input is cleared; otherwise nothing changes; both invariants are kept: each summary is its chat's last message content, and every message content is non-empty and unchanged by `trim` |
| `App.ChatApp.BackToList` | src/App.tsx:99-101 | the selection becomes null, so on a narrow screen only the list is shown |
| `App.ChatApp.SelectChat` | src/App.tsx:171 | the selection becomes the clicked id; on a narrow screen the chat area replaces the list unless that id is 0 |
| `App.ChatApp.ToggleMessageSearch` | src/App.tsx:118-123 | message search is flipped; turning it on empties the message query, and turning it off keeps the query |
| `App.ChatApp.SetMessageInput` | src/App.tsx:302 | the input field's text becomes the typed value |
| `App.ChatApp.SetSearchQuery` | src/App.tsx:150 | the chat search text becomes the typed value |
| `App.ChatApp.SetMessageSearchQuery` | src/App.tsx:246 | the message search text becomes the typed value |
| `App.ChatApp.Resize` | src/App.tsx:67-69 | the viewport flag becomes the new outcome of the width test |

## Left out

- Rendering: the JSX, CSS classes, icons, images and the "no chats found" text. These only present the state.
- The window width test `window.innerWidth < 768` and the resize listener's registration and removal. They are environment I/O. The model takes the outcome of the test as a boolean, in the constructor and in `Resize`.
- `Date.now()` and `toLocaleTimeString`. They are a clock and locale formatting. The new message's id and timestamp are parameters of `SendMessage`, and nothing is claimed about id uniqueness.
- Text.LowerChar: lower-cases only the ASCII letters A-Z. JavaScript's `toLowerCase` follows the full Unicode case mapping, so on non-ASCII letters the model's matching is case-sensitive.
- Text.IsSpace: uses the whitespace and line terminator characters of ECMAScript as of Unicode's current space separators. Characters Unicode may later add to that category are not covered.
- Strings: a Dafny `string` is a sequence of Unicode scalar values, while a JavaScript string is a sequence of UTF-16 code units. For the modelled `trim`, ASCII lower-casing and `includes` on well-formed text this changes nothing, but strings holding a lone surrogate cannot be represented.
- React's `useState` scheduling and batching. Each handler is one atomic transition on the state from before the event.
- The clear buttons of the two search boxes. They are the change handlers called with the empty string, `SetSearchQuery("")` and `SetMessageSearchQuery("")`.
- The highlighting of the selected chat in the list (line 173). It is presentation only.
