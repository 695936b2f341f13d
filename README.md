# Unify support chat — a verified model of its state logic

Unify is a small browser front end for customer support. A chat widget lets a
customer talk to an automatic assistant, hand the conversation over to a
human attendant, or simulate an impatient customer. A history page lets the
attendant close, reopen or take over conversations. All state is a single
persisted collection of conversation records plus, per page, a registry of
repeating "simulated customer" timers.

This project models, in Dafny, what every operation and event handler does
to that state:

- `Conversations` (conversations.dfy): the records (`id`, `createdAt`,
  `status` ∈ open/waiting/closed, `messages`). It also gives the pure effect
  of each store mutation on the collection, and lemmas about sequences of
  mutations. Look-up always takes the first record with a given id.
- `Store` (store.dfy): the persisted collection as a class whose methods
  read the whole collection, change one record and write it back.
- `TextOps` (textops.dfy): the JavaScript string operations the handlers
  use, namely `toLowerCase`, `includes` and `trim`.
- `Replies` (replies.dfy): the automatic reply, an ordered keyword rule list
  where the first match wins.
- `Simulation` (simulation.dfy): the timer registry with start and stop, the
  timer tick, and the cross-tab `storage` listener that cancels timers once
  an attendant has spoken.
- `Chat` (chat.dfy): the chat widget's handlers for open, close, transfer,
  send, the typing reply, new conversation and toggle simulation, plus the
  in-page new-message listener.
- `History` (history.dfy): the history page's close, reopen, assume and
  clear actions, which act on the collection as of the last render.
- `Wrappers` (wrappers.dfy): `Option`, which stands for JavaScript's
  `null`/`undefined` results.

Clock readings, fresh ids, timer handles, random choices and the answers to
confirmation dialogs are parameters of the methods that need them.

## Model

| member | source | states |
|---|---|---|
| Conversations.FirstIndex | js/unify.js:22 | finds the first record with the id: the record at the result has the id, no earlier record does, and there is no result iff no record has the id |
| Conversations.Find | js/unify.js:225 | nothing iff no record has the id; otherwise the first record with the id, the one at `FirstIndex` |
| Conversations.Last | js/unify.js:33-35 | nothing iff the collection is empty; otherwise its final record |
| Conversations.AppendMessageAt | js/unify.js:24 | the record at the position gains the message at the end of its messages; its id, creation time and status are kept; every other record is unchanged |
| Conversations.SetStatusAt | js/unify.js:30 | the record at the position gets the new status; its id, creation time and messages are kept; every other record is unchanged |
| Conversations.AppendMessage | js/unify.js:20-25 | an unknown id leaves the collection as it was; otherwise the message goes onto the first record with the id only |
| Conversations.SetStatus | js/unify.js:27-31 | an unknown id leaves the collection as it was; otherwise only the status of the first record with the id changes |
| Conversations.FirstIndexSameIds | js/unify.js:22 | look-up depends only on the ids in order, so two collections with the same ids find the same record |
| Conversations.MutationsKeepIds | js/unify.js:20-31 | appending a message or changing a status never changes the ids |
| Conversations.AppendEachInOrder | js/unify.js:20-25 | any number of appends to a known id land in the first record with that id, in call order, and change nothing else |
| Conversations.AppendEachUnknownId | js/unify.js:20-22 | any number of appends to an unknown id change nothing |
| Conversations.StatusThenAppend | js/unify.js:187 | a status change then an append for the same id both land in the same record; all other records are unchanged |
| Conversations.FirstIndexAfterPush | js/unify.js:13-22 | a record pushed at the end is what look-up of its id finds iff no earlier record carries that id |
| Store.ConversationStore.constructor | js/unify.js:8-9 | content that does not parse reads as the empty collection |
| Store.ConversationStore.Load | js/unify.js:8-9 | returns the whole collection |
| Store.ConversationStore.Save | js/unify.js:11 | replaces the whole collection |
| Store.ConversationStore.CreateConversation | js/unify.js:13-18 | returns an open record with the given id and time and no messages; the collection is the old one with exactly that record added at the end |
| Store.ConversationStore.AddMessage | js/unify.js:20-25 | an unknown id returns nothing and writes nothing; a known id returns the new message, which is appended to the first matching record only |
| Store.ConversationStore.UpdateConversationStatus | js/unify.js:27-31 | an unknown id returns nothing and writes nothing; a known id changes only the first matching record's status and returns that record |
| Store.ConversationStore.GetLastConversation | js/unify.js:33-35 | nothing iff the collection is empty; otherwise its final record |
| TextOps.Lower | js/unify.js:38 | same length; each character is lower-cased (Basic Latin and Latin-1 letters) |
| TextOps.Contains | js/unify.js:39-41 | true iff the keyword occurs in the text at some position |
| TextOps.Trim | js/unify.js:190 | a slice of the input with only white space around it and no white space at either end; empty iff the input is all white space |
| Replies.AutoReplyText | js/unify.js:37-43 | the reply is always one of the four fixed replies |
| Replies.RepliesDistinct | js/unify.js:39-42 | the four replies differ, so the reply tells which rule fired |
| Replies.FirstMatchWins | js/unify.js:37-43 | schedule reply iff a schedule keyword occurs in the lower-cased text; pricing iff no schedule keyword but a pricing one; thanks iff neither of those but a thanks keyword; default iff none |
| Replies.RedundantKeywords | js/unify.js:39-41 | "horários" never decides a reply, because it contains "horário"; likewise "obrigado" contains "obrig" |
| Replies.ContainsPrefixOf | js/unify.js:39-41 | a keyword occurs wherever a longer keyword that starts with it occurs |
| Replies.MissingCharRulesOut | js/unify.js:39-41 | a keyword with a character the text lacks does not occur in it |
| Replies.NoScheduleWithoutH | js/unify.js:39 | text without an `h` never meets the schedule rule |
| Replies.NoPricingWithoutPVC | js/unify.js:40 | text without `p`, `v` and `c` never meets the pricing rule |
| Replies.NoThanksWithoutB | js/unify.js:41 | text without a `b` never meets the thanks rule |
| Replies.LowerOfLowerCase | js/unify.js:38 | lower-casing leaves lower-case text unchanged |
| Replies.UpperCaseSchedule | js/unify.js:38-39 | "HORÁRIO?" gets the schedule reply, so upper case and accents do not defeat the rule |
| Replies.ScheduleExample | js/unify.js:37-39 | "Qual o horário de atendimento?" gets the schedule reply |
| Replies.PricingExample | js/unify.js:37-40 | "qual o preço?" gets the pricing reply |
| Replies.GratitudeExample | js/unify.js:37-41 | "obrigado" gets the thanks reply |
| Replies.DefaultExample | js/unify.js:37-42 | "xyz" gets the default reply |
| Simulation.HandlesWithout | js/unify.js:65-67 | removing one entry from a registry whose handles are distinct removes exactly that entry's handle |
| Simulation.SimulationScheduler.constructor | js/unify.js:46 | the registry starts empty with no timer running |
| Simulation.SimulationScheduler.Stop | js/unify.js:65-67 | removes only the id's entry and cancels its timer; without an entry nothing changes, so a second stop changes nothing; every running timer stays in the registry |
| Simulation.SimulationScheduler.Start | js/unify.js:55-63 | cancels the id's old timer, if any; the id then holds exactly one entry, with the new handle and a period in [5000, 13000) ms; other entries are unchanged |
| Simulation.SimulationScheduler.OnStorageEvent | js/unify.js:310-324 | for the store's key, removes the timer of every id whose record's last message is an attendant's and keeps all others; another key or unparsable content changes nothing |
| Simulation.AttendantLastIdsSnoc | js/unify.js:314-322 | scanning one more record adds its id to the set to stop iff an attendant spoke last in it |
| Simulation.SimulationTick | js/unify.js:57-62 | fires only while the id's timer is armed; one customer message, drawn from the five samples, goes onto the first record with the id; the id is announced. After an attendant's send, a storage event or a stop has removed the id's timer, no tick can fire for it |
| Chat.StartedWith | js/unify.js:178 | creation then the opening message add exactly one record at the end; that record is either still empty or, when its id was new, holds just the opening message |
| Chat.OpeningMessageInNewRecord | js/unify.js:178 | with a new id, the opening message lands in the record just created |
| Chat.OpeningMessageOnRepeatedId | js/unify.js:178 | with an id an earlier record already has, the opening message goes to that earlier record and the new record stays empty |
| Chat.SendThenTypingReply | js/unify.js:192-205 | a sent message and then its typing reply, which is always written as the customer's, are appended in that order to the first record with the active id; nothing else changes |
| Chat.ChatWidget.constructor | js/unify.js:164 | no conversation is active |
| Chat.ChatWidget.StartNew | js/unify.js:213 | the new id becomes active; the store gains the new record and the greeting |
| Chat.ChatWidget.OpenChat | js/unify.js:169-179 | a last record that is not closed becomes active and nothing is written; otherwise a new conversation starts with the greeting |
| Chat.ChatWidget.CloseModal | js/unify.js:181 | no conversation is active |
| Chat.ChatWidget.Transfer | js/unify.js:187 | the active record becomes waiting and gets one bot notice, and its timer is (re)armed; with nothing active nothing changes |
| Chat.ChatWidget.Send | js/unify.js:189-198 | empty trimmed input or nothing active changes nothing; otherwise the trimmed text is appended as the attendant's or the customer's message; the attendant's message removes the active id's timer; the customer's leaves timers alone |
| Chat.ChatWidget.DeliverTypingReply | js/unify.js:201-208 | the canned reply to the sent text goes to the conversation active at that time, as a customer message; with nothing active nothing is written |
| Chat.ChatWidget.ToggleSimulation | js/unify.js:215-218 | with nothing active, a conversation starts with the simulation notice; then the active id's timer is cancelled if it had one and armed otherwise |
| Chat.ChatWidget.OnNewMessage | js/unify.js:221-227 | for the active id, cancels its timer iff its record's last message is an attendant's; other announcements change nothing |
| History.Assumed | js/unify.js:291 | the record becomes open and grows by exactly one attendant message, its earlier messages kept; every other record is unchanged; its id joins those whose last message is an attendant's |
| History.CloseThenReopen | js/unify.js:289-290 | close then reopen leaves the record open with its messages unchanged; the record is unchanged overall iff it was open |
| History.HistoryPage.constructor | js/unify.js:235 | the listing is the stored collection |
| History.HistoryPage.Render | js/unify.js:235 | the listing is re-read from the store |
| History.HistoryPage.CloseConversation | js/unify.js:289 | once confirmed, the store is the listing with the record closed, and the id is announced; declined, nothing changes; no timer is touched |
| History.HistoryPage.Reopen | js/unify.js:290 | the store is the listing with the record open, and the id is announced |
| History.HistoryPage.Assume | js/unify.js:291 | once confirmed, the store is the listing with the record reopened plus one attendant message, and the id is announced; declined, nothing changes |
| History.HistoryPage.ClearHistory | js/unify.js:301 | once confirmed, the store and the listing are empty; declined, nothing changes |

With an assumed record, `Simulation.SimulationScheduler.OnStorageEvent` in
another tab removes that record's timer. This follows from `History.Assumed`
putting the id into `AttendantLastIds`.

## Left out

- Rendering is not modelled: the status badge, waiting banner, typing indicator, message list and history cards, and the continue button, which only re-renders.
- Storage is modelled as a whole-collection read and write. JSON is not modelled, beyond content that does not parse reading as empty.
- Timers carry no time. Each tick, the 800 ms typing reply and each event are separate method calls that the environment makes. Handles, periods and sample choices are parameters.
- The clock is a parameter, and ids are parameters. One timestamp per handler stands for the two clock readings a create-plus-message handler takes.
- Interleavings between tabs are not modelled. The storage event is a call with the other tab's collection. The history page's write-back of its render-time listing is modelled, lost update included.
- `Store.ConversationStore.constructor`: a stored value that parses to something other than a list of records (for example `null`) is not modelled.
- `TextOps.Lower`: only Basic Latin and Latin-1 upper-case letters are lower-cased. Other scripts and special cases of `toLowerCase` are not modelled.
- The `openConv` link parameter and `history.replaceState` are not modelled. Neither are navigation, keyboard shortcuts or the wording of the confirmation dialogs, which become a `confirmed` flag.
- Close on the history page does not cancel the record's timer, and the history actions do not re-read the store before writing. The model follows the code in both.
