# STEAMS learning platform core, modelled in Dafny

This project models the behaviour of the STEAMS education platform's core: its
notification system, its messaging, its interactive lesson exercises, and its
learning-path and progress views and routes. Each module follows one source file
(or a small group that shares logic). The model keeps the source's form:

- React components that update state step by step become classes. State hooks
  become fields, handlers become methods with `modifies this`, and each `setTimeout`
  or `setInterval` callback becomes a method the caller fires. A value that a
  handler's closure read from an earlier render becomes an explicit parameter or
  field.
- API routes become classes over the database tables, which are `map`s keyed by
  their unique keys. A route returns a `Status` for each outcome: 200, 401, 400,
  404 or 500. The 410 that the send route reacts to is the push service's answer
  for an expired subscription, not a status of the route.
- Pure helpers become functions. Each has lemmas that state what the source
  promises: round trips, bounds, if-and-only-ifs, permutations, and what stays
  unchanged.

Modules:

- `Wrappers`: the Option type.
- `Http`: statuses and the session check.
- `Text`: decimal forms, padding, ASCII lower case, JavaScript `%`.
- `Lists`: splice-based moves and the Fisher–Yates shuffle.
- `Countdown`: the one-second tick and `formatTime`.
- `Percent`: `Math.round(c / n * 100)`.
- `Accessibility`: the font-size buttons.
- `NotificationCenter`: the notification provider and the bell's navigation.
- `Templates`: the notification templates.
- `Push`: the push subscribe and send routes.
- `MessageApi`: the messages route.
- `Conversations`: the message list.
- `MatchingPairs`, `MemoryGame`, `SortingExercise`, `DragAndDrop`, `TimedQuiz`,
  `InteractiveLesson` and `DrawingExercise`: the exercises.
- `LearningPaths`: the learning-path list and its filters.
- `ProgressDashboard`: the dashboard's figures.
- `ProgressApi`: the progress route.

JavaScript semantics are written out where they matter:

- truthiness of strings, numbers and objects;
- `===`, which compares objects by identity;
- `||` defaults;
- division by zero, which gives NaN (modelled as None);
- `%`, which truncates toward zero;
- `Math.floor` and `Math.round`, modelled on exact rationals.

Three behaviours follow the code as written, though a reader might expect otherwise:

- The messages POST emits `newMessage` to every connected socket through
  `global.io.emit`, not to the two users' rooms
  (src/app/api/messages/route.ts:89).
- The timed quiz's answer timeout reports the score that its closure read
  (src/components/learning/interactive/TimedQuiz.tsx:88-96).
- The dashboard counts a `null` lesson score as 0
  (src/components/dashboard/ProgressDashboard.tsx:45-47).

## Model

| member | source | states |
|---|---|---|
| Http.Code | src/app/api/messages/route.ts:7-10 | Each route outcome has an HTTP code in [200, 600), and the code is 200 exactly for success. |
| Text.NatToString | src/components/learning/interactive/MatchingPairs.tsx:168 | The decimal form of a number is a non-empty digit string with no leading zero, and has one digit exactly for numbers below 10. |
| Text.IntToString | src/components/notifications/NotificationProvider.tsx:52 | A number printed in a template literal is its decimal form; a negative number is a minus sign followed by the decimal form of its magnitude. |
| Text.ParseNatToString | src/components/learning/interactive/MatchingPairs.tsx:165-169 | Reading the decimal form back gives the number: printing is invertible. |
| Text.NatToStringInjective | src/components/learning/interactive/MemoryGame.tsx:30-32 | Distinct numbers print differently, so ids built from distinct indices differ. |
| Text.PadStart2 | src/components/learning/interactive/MatchingPairs.tsx:168 | `padStart(2, '0')` gives at least two characters: the string itself, preceded only by zeros. |
| Text.Lower | src/components/learning/LearningPathList.tsx:21-22 | Lower-casing keeps the length and maps each character on its own. |
| Text.JsRem | src/components/learning/interactive/MatchingPairs.tsx:167 | JavaScript `%` by a positive divisor: the dividend minus the result is a multiple of the divisor, and the result has the dividend's sign and a smaller magnitude than the divisor (truncating division). |
| Text.JsRemUnique | src/components/learning/interactive/MatchingPairs.tsx:167 | Those three properties determine the remainder: any r that has them is JsRem. |
| Text.FloorDiv | src/components/learning/interactive/MemoryGame.tsx:110 | `Math.floor(a / b)` for b > 0 is the q with q·b ≤ a < q·b + b. |
| Lists.RemoveAt | src/components/learning/interactive/SortingExercise.tsx:126 | `splice(i, 1)` removes exactly the element at i, or nothing when i is past the end. |
| Lists.InsertAt | src/components/learning/interactive/SortingExercise.tsx:127 | `splice(k, 0, x)` adds exactly x, at k, or at the end when k is past it. |
| Lists.Moved | src/components/learning/interactive/SortingExercise.tsx:122-130 | `moveItem` keeps the length and the multiset of items, and the dragged item lands at the hover index, clamped to the end. |
| Lists.RemoveInserted | src/components/learning/interactive/DragAndDropExercise.tsx:65-71 | Removing what was just inserted at k restores the list. |
| Lists.InsertRemoved | src/components/learning/interactive/DragAndDropExercise.tsx:65-71 | Re-inserting a removed element where it was restores the list. |
| Lists.MovedBack | src/components/learning/interactive/SortingExercise.tsx:122-130 | Moving the item back from where it landed undoes the move. |
| Lists.MovedInPlace | src/components/learning/interactive/SortingExercise.tsx:122-130 | Dropping an item on its own index changes nothing. |
| Lists.MovedPastEnd | src/components/learning/interactive/SortingExercise.tsx:75 | An index one past the end makes the move of the last item a no-op. |
| Lists.Shuffle | src/components/learning/interactive/SortingExercise.tsx:113-120 | The Fisher–Yates loop yields a permutation of its input, and the identity choices leave it unchanged. |
| Countdown.Tick | src/components/learning/interactive/MatchingPairs.tsx:57-63 | One interval callback never goes below 0, expires exactly when it reaches 0, which is exactly when it started at one second or less, and otherwise counts down by one. |
| Countdown.ExpiresOnTick | src/components/learning/interactive/TimedQuiz.tsx:43-51 | From t ≥ 1 seconds the first t - 1 callbacks count down and the t-th ends the game. |
| Countdown.TwoDigitSeconds | src/components/learning/interactive/MatchingPairs.tsx:167-168 | Seconds below 60 print as exactly two digits that read back as the number. |
| Countdown.FormatTimeShape | src/components/learning/interactive/MatchingPairs.tsx:165-169 | `formatTime` is minutes, a colon and the padded seconds. |
| Countdown.FormatTime | src/components/learning/interactive/MatchingPairs.tsx:165-169 | The clock text has at least four characters (minutes, a colon, two padded seconds) and starts with a minus sign exactly when the clock is negative, since `Math.floor` rounds down. |
| Countdown.ParseJoined | src/components/learning/interactive/MatchingPairs.tsx:168 | Reading `m:ss` gives 60·m + ss. |
| Countdown.ParseFormatTime | src/components/learning/interactive/TimedQuiz.tsx:108-112 | `formatTime` loses nothing: the printed time reads back as the same number of seconds. |
| Percent.RoundedPercent | src/components/learning/interactive/DragAndDropExercise.tsx:79 | `Math.round(c / n * 100)`: NaN (None) exactly for n = 0, otherwise the integer nearest 100·c/n, with halves rounded up. |
| Percent.PercentBounds | src/components/learning/InteractiveLessonContent.tsx:39 | c of n correct gives a percentage in [0, 100]. |
| Percent.PercentMonotone | src/components/learning/InteractiveLessonContent.tsx:39 | More correct answers never give less. |
| Percent.FullMarksExactly | src/components/learning/interactive/DragAndDropExercise.tsx:79 | Below 200 items the score is 100 exactly when every item is correct. |
| Percent.FullMarksWithAMistake | src/components/learning/interactive/DragAndDropExercise.tsx:79 | From 200 items on, one wrong item still rounds to 100. |
| Accessibility.FontStaysInRange | src/components/learning/interactive/TimedQuiz.tsx:142-149 | From a size in [12, 24] both buttons stay in [12, 24], move by at most 2, and each moves in its own direction. |
| NotificationCenter.FromMessageEvent | src/components/notifications/NotificationProvider.tsx:36-44 | A message becomes an unread message notification with id `msg-<id>`, the sender's name in the title, the content as text and the message as data. |
| NotificationCenter.FromProgressEvent | src/components/notifications/NotificationProvider.tsx:51-59 | A progress event becomes an unread progress notification with id `progress-<now>`, the title "Progress Update" and the event's path and count as its data; missing fields print as `undefined`. |
| NotificationCenter.MarkRead | src/components/notifications/NotificationProvider.tsx:81-87 | Exactly the entries with that id become read; nothing moves. |
| NotificationCenter.AllRead | src/components/notifications/NotificationProvider.tsx:89-93 | Every entry becomes read; nothing moves. |
| NotificationCenter.Cleared | src/components/notifications/NotificationProvider.tsx:95-99 | The kept entries are exactly those with another id. |
| NotificationCenter.UnreadCount | src/components/notifications/NotificationProvider.tsx:101 | The count is at most the length, and 0 exactly when everything is read. |
| NotificationCenter.ClearedConcat | src/components/notifications/NotificationProvider.tsx:95-99 | Clearing works entry by entry, so it distributes over concatenation. |
| NotificationCenter.ClearedUnknown | src/components/notifications/NotificationProvider.tsx:95-99 | Clearing an id no entry has changes nothing. |
| NotificationCenter.UnreadConcat | src/components/notifications/NotificationProvider.tsx:101 | The unread count of a concatenation is the sum of the parts' counts. |
| NotificationCenter.MarkReadIdempotent | src/components/notifications/NotificationProvider.tsx:81-87 | Marking the same id twice is the same as marking it once. |
| NotificationCenter.MarkReadMonotone | src/components/notifications/NotificationProvider.tsx:81-87 | Marking never makes an entry unread again, and an unknown id is a no-op. |
| NotificationCenter.MarkReadUnread | src/components/notifications/NotificationProvider.tsx:81-87 | Marking lowers the unread count by exactly the unread entries with that id. |
| NotificationCenter.UnreadWith | src/components/notifications/NotificationProvider.tsx:101 | The unread entries with one id are at most all the unread entries. |
| NotificationCenter.AllReadNoneUnread | src/components/notifications/NotificationProvider.tsx:89-93 | After mark-all the unread count is 0. |
| NotificationCenter.FindNotification | src/components/notifications/NotificationBell.tsx:15 | `find` returns the first entry with the id: it is in the list, has the id, and no earlier entry has it; none is found exactly when no entry has it. |
| NotificationCenter.ClickTarget | src/components/notifications/NotificationBell.tsx:12-23 | On any list, a click on an unknown id navigates nowhere; when the first entry with the id is a message notification it opens `/messages?user=<sender>`, a progress notification opens `/progress`, and a system notification opens nothing. |
| NotificationCenter.ClickOpensSource | src/components/notifications/NotificationBell.tsx:12-23 | Clicking a fresh message notification opens `/messages?user=<sender>`; clicking a fresh progress notification opens `/progress`. |
| NotificationCenter.NotificationStore.constructor | src/components/notifications/NotificationProvider.tsx:28-33 | The store starts empty, with no alerts, and listens only with a socket and a signed-in user. |
| NotificationCenter.NotificationStore.Unread | src/components/notifications/NotificationProvider.tsx:101 | The badge count never exceeds the number of notifications. |
| NotificationCenter.NotificationStore.OnNewMessage | src/components/notifications/NotificationProvider.tsx:34-48 | Only a message to the signed-in user is prepended, and it raises a browser alert exactly when permission is granted; anything else changes nothing. |
| NotificationCenter.NotificationStore.OnProgressUpdate | src/components/notifications/NotificationProvider.tsx:50-61 | While listening, every progress event prepends its notification; it raises no alert. |
| NotificationCenter.NotificationStore.MarkAsRead | src/components/notifications/NotificationProvider.tsx:81-87 | The list becomes MarkRead of the old list. |
| NotificationCenter.NotificationStore.MarkAllAsRead | src/components/notifications/NotificationProvider.tsx:89-93 | Every notification is read and the unread count is 0. |
| NotificationCenter.NotificationStore.ClearNotification | src/components/notifications/NotificationProvider.tsx:95-99 | The list becomes Cleared of the old list. |
| Templates.Generate | src/lib/notifications/templates.ts:194-199 | Every kind yields a non-empty title, body and action list, and its data carries the kind's type tag. |
| Templates.TypeTagInjective | src/lib/notifications/templates.ts:38-182 | The seven kinds have pairwise distinct type tags. |
| Templates.NewMessageTemplate | src/lib/notifications/templates.ts:28-54 | The new-message template has a title, a body and actions, and its data carries the `message` type tag. |
| Templates.CourseProgressTemplate | src/lib/notifications/templates.ts:55-73 | The course-progress template has a title, a body and actions, and its data carries the `progress` type tag. |
| Templates.AchievementTemplate | src/lib/notifications/templates.ts:74-97 | The achievement template has a title, a body and actions, and its data carries the `achievement` type tag. |
| Templates.ReminderTemplate | src/lib/notifications/templates.ts:98-122 | The reminder template has a title, a body and actions, and its data carries the `reminder` type tag. |
| Templates.DeadlineTemplate | src/lib/notifications/templates.ts:123-146 | The deadline template has a title, a body and actions, and its data carries the `deadline` type tag. |
| Templates.QuizTemplate | src/lib/notifications/templates.ts:147-174 | The quiz template has a title, a body and actions, and its data carries the `quiz` type tag. |
| Templates.WeeklyDigestTemplate | src/lib/notifications/templates.ts:175-191 | The weekly-digest template has a title, a body and actions, and its data carries the `digest` type tag. |
| Templates.NewMessageMore | src/lib/notifications/templates.ts:28-54 | The body ends in ` (+k more)` exactly when more than one message is waiting, with k one less than the count; otherwise it ends in ` sent you a message`. |
| Templates.ReminderPhrasing | src/lib/notifications/templates.ts:98-122 | The reminder is the daily text exactly when at most one day of inactivity (or none given) is recorded; otherwise it names the number of days. |
| Templates.QuizEnding | src/lib/notifications/templates.ts:147-174 | The quiz body praises exactly a score of at least 80, and encourages otherwise. |
| Templates.LessonLinks | src/lib/notifications/templates.ts:123-174 | The deadline link is `/lesson/<name>`, and the quiz link is that link followed by `/results`. |
| Templates.DeadlineLinkNamesLesson | src/lib/notifications/templates.ts:123-146 | Stripping `/lesson/` from the deadline link recovers the lesson name. |
| Push.Upsert | src/app/api/notifications/subscribe/route.ts:15-32 | Afterwards the (user, endpoint) row holds the new keys, and every other row is as it was. |
| Push.UpsertIdempotent | src/app/api/notifications/subscribe/route.ts:15-32 | Repeating a subscription changes nothing. |
| Push.UpsertOverwrites | src/app/api/notifications/subscribe/route.ts:15-32 | The later subscription of the same endpoint wins. |
| Push.Targets | src/app/api/notifications/send/route.ts:26-28 | The looked-up subscriptions are the rows of the body's user, or, when the body has no `userId`, every row. |
| Push.TargetsWithoutUser | src/app/api/notifications/send/route.ts:26-28 | Without a `userId` the lookup returns the whole table. |
| Push.PrunedSparesOthers | src/app/api/notifications/send/route.ts:43-54 | With a `userId`, other users' subscriptions survive a send unchanged. |
| Push.PrunedNothingGone | src/app/api/notifications/send/route.ts:43-54 | When no looked-up subscription has a 410 whose delete goes through, the table is unchanged. |
| Push.NoUserRemovesNothing | src/app/api/notifications/send/route.ts:45-54 | Without a `userId` the compound-key delete cannot succeed: nothing is removed, and every 410 makes the send fail. |
| Push.SubscriptionStore.constructor | src/app/api/notifications/subscribe/route.ts:15-32 | The table starts with the given rows. |
| Push.SubscriptionStore.Subscribe | src/app/api/notifications/subscribe/route.ts:6-41 | 401 without a session; 500 with no write for a body without an endpoint or keys; otherwise the session user's row is upserted. |
| Push.SubscriptionStore.Send | src/app/api/notifications/send/route.ts:16-69 | 401 without a session; otherwise each looked-up subscription (all rows when the body has no `userId`) gets one delivery of the payload with its own keys and nothing else is delivered, a 410 whose delete goes through removes the row, and the status is 500 exactly when some 410 delete threw (always so without a `userId`). |
| MessageApi.Select | src/app/api/messages/route.ts:15-26 | The kept messages are exactly those the viewer sent or received (or only the conversation with the named user), each with its multiplicity. |
| MessageApi.InsertByTime | src/app/api/messages/route.ts:43-45 | Insertion keeps the list sorted by time and adds exactly one message. |
| MessageApi.SortByTime | src/app/api/messages/route.ts:43-45 | Ordering by `createdAt` gives a sorted permutation. |
| MessageApi.Query | src/app/api/messages/route.ts:6-49 | GET's result is sorted by time and holds exactly the matching messages, each with its multiplicity. |
| MessageApi.NewMessage | src/app/api/messages/route.ts:64-86 | A created message has the sender from the session, the receiver and content from the body, and is unread. |
| MessageApi.MessageStore.constructor | src/app/api/messages/route.ts:64-86 | The store starts with the given messages and no broadcasts. |
| MessageApi.MessageStore.Get | src/app/api/messages/route.ts:6-49 | 401 and nothing without a session; otherwise 200 with exactly the viewer's matching messages, each as often as it is stored, in time order. |
| MessageApi.MessageStore.Post | src/app/api/messages/route.ts:51-92 | 401 without a session; 400 without truthy content and receiver; 500 if the create fails; otherwise the message is appended and emitted to all sockets when a socket server exists. Refused requests change nothing. |
| Conversations.Ids | src/components/messaging/MessageList.tsx:70 | The conversation keys are the users of the entries, in order. |
| Conversations.WithNone | src/components/messaging/MessageList.tsx:35-49 | A user nobody exchanged a message with has no messages. |
| Conversations.WithSnoc | src/components/messaging/MessageList.tsx:44 | One more message joins exactly the conversation of its other party. |
| Conversations.UnreadSnoc | src/components/messaging/MessageList.tsx:45-47 | One more message adds one to the unread count exactly when it is unread and to me. |
| Conversations.TotalUpdate | src/components/messaging/MessageList.tsx:44 | Replacing one entry changes the message total by the difference of its sizes. |
| Conversations.TotalSnoc | src/components/messaging/MessageList.tsx:38-44 | Appending an entry adds its size to the total. |
| Conversations.Find | src/components/messaging/MessageList.tsx:37 | The lookup finds the entry with that user, or reports that there is none exactly when the user is not a key. |
| Conversations.FiledExisting | src/components/messaging/MessageList.tsx:44-47 | Pushing onto an existing entry keeps every entry exactly its user's messages with the right unread count. |
| Conversations.GroupedExisting | src/components/messaging/MessageList.tsx:44-47 | The grouping invariant survives a push onto an existing entry. |
| Conversations.FiledNew | src/components/messaging/MessageList.tsx:37-47 | Opening a new entry for a new user and pushing onto it keeps every entry exact. |
| Conversations.GroupedNew | src/components/messaging/MessageList.tsx:37-47 | The grouping invariant survives opening a new entry. |
| Conversations.FilingGrouped | src/components/messaging/MessageList.tsx:36-48 | One reduce step keeps the grouping invariant. |
| Conversations.FoldGrouped | src/components/messaging/MessageList.tsx:35-49 | The whole reduce groups every message under its other party. |
| Conversations.Group | src/components/messaging/MessageList.tsx:35-49 | The conversations have distinct users, cover every message, each holds exactly its user's messages in order (never none) with the right unread count, and together they hold all the messages. |
| Conversations.SendGuard | src/components/messaging/MessageList.tsx:51-52 | Nothing is sent exactly when no receiver is selected or the draft is blank; otherwise the draft goes, as typed, to the selected receiver. |
| Conversations.MessageListView.constructor | src/components/messaging/MessageList.tsx:16-19 | The view starts with the given messages, an empty draft and no selection. |
| Conversations.MessageListView.OnNewMessage | src/components/messaging/MessageList.tsx:24-30 | A message is appended exactly when I sent or receive it; the list only grows. |
| Conversations.MessageListView.SelectConversation | src/components/messaging/MessageList.tsx:73 | The clicked user becomes the selected receiver. |
| Conversations.MessageListView.EditDraft | src/components/messaging/MessageList.tsx:133 | The draft becomes the typed text. |
| Conversations.MessageListView.HandleSend | src/components/messaging/MessageList.tsx:51-60 | The request is SendGuard of the draft; the draft is cleared only when a request went out and succeeded. |
| MatchingPairs.CalculateScore | src/components/learning/interactive/MatchingPairs.tsx:159-163 | The score is never negative. |
| MatchingPairs.ScoreLandmarks | src/components/learning/interactive/MatchingPairs.tsx:159-163 | One attempt per pair scores exactly 100; fewer attempts score more (105 with one fewer); 20 surplus attempts score 0. |
| MatchingPairs.ScoreNonIncreasing | src/components/learning/interactive/MatchingPairs.tsx:159-163 | More attempts never score more. |
| MatchingPairs.MatchingGame.constructor | src/components/learning/interactive/MatchingPairs.tsx:41-65 | Nothing is selected or matched and no attempt is made; the font is 16; the countdown runs exactly when a truthy time limit is given, and starts from it. |
| MatchingPairs.MatchingGame.Resolve | src/components/learning/interactive/MatchingPairs.tsx:93-116 | A selection of two known pairs costs one attempt; equal ids add the clicked id to the matches; the last match reports the score for the attempts read before this one and stops the timer; both selections are cleared. |
| MatchingPairs.MatchingGame.RecordMatch | src/components/learning/interactive/MatchingPairs.tsx:100-108 | The clicked id joins the matches, which stay pair ids not outnumbering the attempts; the last match reports the score for the attempts the caller read and stops the timer, any other leaves scores and timer alone; the selections are untouched. |
| MatchingPairs.MatchingGame.Complete | src/components/learning/interactive/MatchingPairs.tsx:149-157 | The timer stops and the score for the attempts the caller read is reported. |
| MatchingPairs.MatchingGame.ClickTerm | src/components/learning/interactive/MatchingPairs.tsx:89-117 | A matched id is ignored; without a selected definition the term is selected; otherwise the pair is resolved as in Resolve: the last match stops the timer, and every other click leaves it as it was. Matches only grow. |
| MatchingPairs.MatchingGame.ClickDefinition | src/components/learning/interactive/MatchingPairs.tsx:119-147 | The same as ClickTerm with the roles of term and definition swapped. |
| MatchingPairs.MatchingGame.Tick | src/components/learning/interactive/MatchingPairs.tsx:55-65 | While running, the clock follows Countdown.Tick; on expiry the score for 0 attempts (the value the mount closure read) is reported and the timer stops. |
| MatchingPairs.MatchingGame.DecreaseFont | src/components/learning/interactive/MatchingPairs.tsx:194 | The font shrinks by one step but not below 12; the selections, the matches, the attempts, the timer and the reports are untouched. |
| MatchingPairs.MatchingGame.IncreaseFont | src/components/learning/interactive/MatchingPairs.tsx:201 | The font grows by one step but not above 24; the selections, the matches, the attempts, the timer and the reports are untouched. |
| MemoryGame.Deck | src/components/learning/interactive/MemoryGame.tsx:28-38 | The deck has two cards per face. |
| MemoryGame.DeckShape | src/components/learning/interactive/MemoryGame.tsx:30-35 | Face i sits at i and at i + n with its content and description, and no card starts flipped or matched. |
| MemoryGame.DeckIdsDistinct | src/components/learning/interactive/MemoryGame.tsx:30-32 | No two cards share an id. |
| MemoryGame.FindById | src/components/learning/interactive/MemoryGame.tsx:71-72 | The found card is the first card of the deck with the id; none is found exactly when no card has it. |
| MemoryGame.MarkMatched | src/components/learning/interactive/MemoryGame.tsx:78-82 | Marking keeps the number of cards and marks both cards of the pair matched. |
| MemoryGame.MatchingKeepsCards | src/components/learning/interactive/MemoryGame.tsx:78-82 | Marking never changes an id or a content and never un-matches a card; the pair's cards become matched and cards outside the pair are unchanged. |
| MemoryGame.CalculateScore | src/components/learning/interactive/MemoryGame.tsx:108-112 | The score is never negative. |
| MemoryGame.ScoreLandmarks | src/components/learning/interactive/MemoryGame.tsx:108-112 | n moves for n pairs score exactly 100, fewer score more, and 2n or more score 0. |
| MemoryGame.ScoreNonIncreasing | src/components/learning/interactive/MemoryGame.tsx:108-112 | More moves never score more. |
| MemoryGame.MemoryBoard.constructor | src/components/learning/interactive/MemoryGame.tsx:28-42 | The board is a permutation of the doubled deck, with nothing flipped, no moves, unlocked and not started. |
| MemoryGame.MemoryBoard.TurnPair | src/components/learning/interactive/MemoryGame.tsx:66-103 | The second card costs one move; equal contents match both cards and unlock the board; unequal contents stay turned and lock the board until the timeout; finishing the board reports the score for the moves read before this one. |
| MemoryGame.MemoryBoard.HandleCardClick | src/components/learning/interactive/MemoryGame.tsx:44-106 | A click is ignored, leaving every field including `gameStarted`, while the board is locked, with two cards up, on a turned card or on a matched card; the first card is only turned; the second behaves as TurnPair. |
| MemoryGame.MemoryBoard.FireUnflip | src/components/learning/interactive/MemoryGame.tsx:100-103 | The mismatched pair turns back and the board unlocks; the cards, the moves and the scores stay. |
| SortingExercise.InitialItems | src/components/learning/interactive/SortingExercise.tsx:103-107 | Item k has id `k`, the lesson's k-th content and correct position k. |
| SortingExercise.InOrderIsOriginal | src/components/learning/interactive/SortingExercise.tsx:151 | A rearrangement of the lesson's items passes the check exactly when it is the lesson's order. |
| SortingExercise.CalculateScore | src/components/learning/interactive/SortingExercise.tsx:166-168 | The score is never negative. |
| SortingExercise.ScoreLandmarks | src/components/learning/interactive/SortingExercise.tsx:166-168 | More attempts never score more; the score is 100 for 1 and 120 for 0 (what a first success passes), and 0 from 6 on. |
| SortingExercise.KeyTargetsClamped | src/components/learning/interactive/SortingExercise.tsx:136-143 | The arrow keys move an item at most one place and never out of the list. |
| SortingExercise.Sorter.constructor | src/components/learning/interactive/SortingExercise.tsx:99-111 | The items are a permutation of the lesson's items; no check, no attempt, no feedback. |
| SortingExercise.Sorter.MoveItem | src/components/learning/interactive/SortingExercise.tsx:122-130 | The items become Lists.Moved of the old items, a permutation; every other field, the pending retry included, is unchanged. |
| SortingExercise.Sorter.HandleKeyDown | src/components/learning/interactive/SortingExercise.tsx:132-145 | While checking, or for another key, nothing moves; an arrow moves the item to its clamped target; the pending retry is unchanged. |
| SortingExercise.Sorter.CheckOrder | src/components/learning/interactive/SortingExercise.tsx:147-164 | Ignored while checking, which goes on; otherwise one more attempt, and checking starts; the correct order shows the congratulation, reports the score for the attempts read before and schedules nothing; a wrong order shows the retry text and schedules the timeout. |
| SortingExercise.Sorter.RetryTimeout | src/components/learning/interactive/SortingExercise.tsx:159-162 | Checking ends and the feedback is cleared. |
| SortingExercise.Sorter.Reset | src/components/learning/interactive/SortingExercise.tsx:170-174 | Outside a check the items are reshuffled (a permutation), checking ends and the feedback is cleared. |
| DragAndDrop.Ids | src/components/learning/interactive/DragAndDropExercise.tsx:74 | The order is the items' ids, in place. |
| DragAndDrop.CorrectCount | src/components/learning/interactive/DragAndDropExercise.tsx:75-78 | The count never exceeds the number of items. |
| DragAndDrop.CorrectCountFull | src/components/learning/interactive/DragAndDropExercise.tsx:75-78 | Every item is counted exactly when the ids are a prefix of the correct order. |
| DragAndDrop.ScoreMeaning | src/components/learning/interactive/DragAndDropExercise.tsx:73-82 | With matching lengths the score lies in [0, 100], and below 200 items it is 100 exactly for the correct order. |
| DragAndDrop.MovedDown | src/components/learning/interactive/DragAndDropExercise.tsx:84-92 | Moving one down swaps the item with the next one and nothing else. |
| DragAndDrop.MovedUp | src/components/learning/interactive/DragAndDropExercise.tsx:84-92 | Moving one up swaps the item with the previous one and nothing else. |
| DragAndDrop.Exercise.constructor | src/components/learning/interactive/DragAndDropExercise.tsx:62-63 | The exercise starts with the given items, incomplete. |
| DragAndDrop.Exercise.MoveItem | src/components/learning/interactive/DragAndDropExercise.tsx:65-71 | The items become Lists.Moved of the old items, a permutation. |
| DragAndDrop.Exercise.HandleKeyboardMove | src/components/learning/interactive/DragAndDropExercise.tsx:84-92 | Up from index > 0 and down above the last index swap the item with its neighbour; at either end nothing moves. |
| DragAndDrop.Exercise.HandleCheck | src/components/learning/interactive/DragAndDropExercise.tsx:73-82 | Until complete, the rounded percentage of correct places is reported (NaN for an empty correct order); then the exercise is complete and the items stay. |
| TimedQuiz.EarnedUpdate | src/components/learning/interactive/TimedQuiz.tsx:82-85 | Recording an answer where there was none adds exactly that answer's points, and adds them only when it is correct. |
| TimedQuiz.EarnedAtMostTotal | src/components/learning/interactive/TimedQuiz.tsx:104 | With positive points the score lies in [0, maxScore] and equals the maximum exactly when every answer is correct. |
| TimedQuiz.ProgressColor | src/components/learning/interactive/TimedQuiz.tsx:114-119 | Green exactly above 66 percent of the time, red exactly at or below 33, yellow between; with a zero limit only green (time left) or red. |
| TimedQuiz.ColorDarkens | src/components/learning/interactive/TimedQuiz.tsx:114-119 | As the time runs down the bar never turns less urgent; full time is green and no time is red. |
| TimedQuiz.Quiz.constructor | src/components/learning/interactive/TimedQuiz.tsx:28-61 | The first question, no answers, score 0, the full time, the countdown running and the default font. |
| TimedQuiz.Quiz.Finish | src/components/learning/interactive/TimedQuiz.tsx:99-106 | The interval stops, the quiz finishes and the score the closure read is reported with the sum of all points. |
| TimedQuiz.Quiz.HandleAnswer | src/components/learning/interactive/TimedQuiz.tsx:74-97 | Ignored when finished or explaining; otherwise the answer is recorded, its points are added when it is correct, the explanation shows, and the timeout is scheduled with the score read before. |
| TimedQuiz.Quiz.AnswerTimeout | src/components/learning/interactive/TimedQuiz.tsx:88-96 | Before the last question, the quiz moves on to the next one; at the last it finishes and reports the score read before the last answer. |
| TimedQuiz.Quiz.Tick | src/components/learning/interactive/TimedQuiz.tsx:42-61 | While running, the clock follows Countdown.Tick; on expiry the quiz finishes and reports the mount render's score, 0. |
| TimedQuiz.Quiz.DecreaseFont | src/components/learning/interactive/TimedQuiz.tsx:142 | The font shrinks by one step but not below 12; the question, the answers, the selection, the explanation, the score, the timer and the reports are untouched. |
| TimedQuiz.Quiz.IncreaseFont | src/components/learning/interactive/TimedQuiz.tsx:149 | The font grows by one step but not above 24; the question, the answers, the selection, the explanation, the score, the timer and the reports are untouched. |
| TimedQuiz.NoAnswersEarnNothing | src/components/learning/interactive/TimedQuiz.tsx:30-34 | Before any answer the score is 0, which matches the initial state. |
| TimedQuiz.PerfectRunReport | src/components/learning/interactive/TimedQuiz.tsx:88-104 | A perfect run earns maxScore, yet the report at the last question's timeout is less by the last question's points. |
| TimedQuiz.MaxScore | src/components/learning/interactive/TimedQuiz.tsx:104 | The maximum score is what answering every question correctly earns. |
| InteractiveLesson.CorrectBounds | src/components/learning/InteractiveLessonContent.tsx:33-37 | The count reaches n exactly when each answer is strictly equal to its correct answer. |
| InteractiveLesson.Correct | src/components/learning/InteractiveLessonContent.tsx:29-37 | At most one point per question: the count over n questions is at most n. |
| InteractiveLesson.ObjectAnswersNeverCount | src/components/learning/InteractiveLessonContent.tsx:34 | An object-valued correct answer (matching) is never counted, whatever was selected. |
| InteractiveLesson.CountCorrect | src/components/learning/InteractiveLessonContent.tsx:29-37 | The loop's count is Correct over all questions, at most their number. |
| InteractiveLesson.Feedback | src/components/learning/InteractiveLessonContent.tsx:41-45 | The mastery text is shown exactly from 70 on; otherwise the keep-practising text. |
| InteractiveLesson.FinalScoreBounds | src/components/learning/InteractiveLessonContent.tsx:39 | The final score lies in [0, 100] and is 100 when everything is correct. |
| InteractiveLesson.Lesson.constructor | src/components/learning/InteractiveLessonContent.tsx:17-20 | The lesson starts at the first step, with no answers, no score and no feedback. |
| InteractiveLesson.Lesson.HandleAnswer | src/components/learning/InteractiveLessonContent.tsx:22-27 | The current step's answer is replaced; every other step keeps its answer. |
| InteractiveLesson.Lesson.ChooseOption | src/components/learning/InteractiveLessonContent.tsx:73 | The current step's answer becomes the chosen option's text. |
| InteractiveLesson.Lesson.SelectMatch | src/components/learning/InteractiveLessonContent.tsx:94-98 | The current step's answer becomes an object holding its earlier fields plus this selection, and is therefore truthy. |
| InteractiveLesson.Lesson.Previous | src/components/learning/InteractiveLessonContent.tsx:128-135 | Before the score, from step 1 on, the lesson goes one step back; otherwise nothing changes. |
| InteractiveLesson.Lesson.Next | src/components/learning/InteractiveLessonContent.tsx:136-143 | Before the score, before the last step and with a truthy answer, the lesson goes one step on; otherwise nothing changes. |
| InteractiveLesson.Lesson.Submit | src/components/learning/InteractiveLessonContent.tsx:145-151 | At the last step with a truthy answer, the score becomes the rounded percentage of correct answers, the feedback follows it and the score is reported. |
| InteractiveLesson.Lesson.TryAgain | src/components/learning/InteractiveLessonContent.tsx:161-166 | With a score shown, the score and the answers are cleared and the lesson returns to step 0. |
| DrawingExercise.Save | src/components/learning/interactive/DrawingExercise.tsx:32-43 | Saving pushes the snapshot on top of the undo stack and empties the redo stack. |
| DrawingExercise.UndoRedoInverse | src/components/learning/interactive/DrawingExercise.tsx:91-112 | Redo after undo restores both stacks exactly, and so does undo after redo. |
| DrawingExercise.UndoRedoKeepSnapshots | src/components/learning/interactive/DrawingExercise.tsx:91-112 | Undo and redo keep the number of snapshots; undo never empties the undo stack; afterwards the new undo top is the image displayed. |
| DrawingExercise.FirstStrokeCannotBeUndone | src/components/learning/interactive/DrawingExercise.tsx:19-30 | Because the mount saves nothing, undo after the first stroke does nothing. |
| DrawingExercise.Canvas.constructor | src/components/learning/interactive/DrawingExercise.tsx:19-30 | The canvas starts blank, not drawing, with both stacks empty and nothing saved. |
| DrawingExercise.Canvas.StartDrawing | src/components/learning/interactive/DrawingExercise.tsx:45-52 | A stroke begins; nothing else changes. |
| DrawingExercise.Canvas.Draw | src/components/learning/interactive/DrawingExercise.tsx:54-62 | During a stroke, and with a context, the image becomes the stroked one; otherwise nothing changes. |
| DrawingExercise.Canvas.SaveToUndoStack | src/components/learning/interactive/DrawingExercise.tsx:32-43 | With a context the stacks become Save of the stacks with the current image; otherwise nothing changes. |
| DrawingExercise.Canvas.StopDrawing | src/components/learning/interactive/DrawingExercise.tsx:64-72 | Only a stroke in progress saves a snapshot; the stroke always ends. |
| DrawingExercise.Canvas.Undo | src/components/learning/interactive/DrawingExercise.tsx:91-101 | With more than one snapshot the stacks step back and the snapshot below the old top is displayed; otherwise nothing changes. |
| DrawingExercise.Canvas.Redo | src/components/learning/interactive/DrawingExercise.tsx:103-112 | With something to redo the stacks step forward and the redo top is displayed; otherwise nothing changes. |
| DrawingExercise.Canvas.ClearCanvas | src/components/learning/interactive/DrawingExercise.tsx:114-119 | The canvas becomes blank and the blank canvas is saved as a snapshot. |
| DrawingExercise.Canvas.HandleSave | src/components/learning/interactive/DrawingExercise.tsx:121-126 | The current image is handed to the save callback; nothing else changes. |
| LearningPaths.FilteredMembers | src/components/learning/LearningPathList.tsx:19-33 | A path is shown exactly when it is in the list and passes the search, subject and difficulty tests. |
| LearningPaths.Filtered | src/components/learning/LearningPathList.tsx:19-33 | The shown list is never longer than the full list, and every shown path passes the search, subject and difficulty tests. |
| LearningPaths.FilteredIsSubsequence | src/components/learning/LearningPathList.tsx:19-33 | The shown paths keep the list's order. |
| LearningPaths.SearchIgnoresCase | src/components/learning/LearningPathList.tsx:21-22 | The query's case does not matter, and an empty query matches every path. |
| LearningPaths.NoFiltersKeepAll | src/components/learning/LearningPathList.tsx:19-33 | With no query, no subject and no difficulty every path is shown. |
| LearningPaths.Without | src/components/learning/LearningPathList.tsx:38 | Removing a subject keeps exactly the other subjects, and removing one that is not there changes nothing. |
| LearningPaths.ToggleFlips | src/components/learning/LearningPathList.tsx:35-41 | Two toggles of a subject restore the membership of every subject. |
| LearningPaths.ToggleSubject | src/components/learning/LearningPathList.tsx:35-41 | The toggled subject flips its membership and every other subject keeps its own. |
| LearningPaths.ToggleBack | src/components/learning/LearningPathList.tsx:35-41 | Selecting a new subject and deselecting it again restores the list exactly. |
| LearningPaths.ClickDifficultyToggles | src/components/learning/LearningPathFilters.tsx:63 | From no selection or the same one, two clicks restore the selection. |
| LearningPaths.ClickDifficulty | src/components/learning/LearningPathFilters.tsx:63 | A click selects the difficulty exactly when it was not selected, and clears the selection exactly when it was. |
| LearningPaths.DisplayedProgress | src/components/learning/LearningPathList.tsx:59-65 | The displayed progress is 0, 50 or 100; it is 100 exactly when the first record is completed and 0 exactly without records. |
| ProgressDashboard.CompletedPaths | src/components/dashboard/ProgressDashboard.tsx:29-31 | At most every path is completed. |
| ProgressDashboard.CompletedIn | src/components/dashboard/ProgressDashboard.tsx:38-41 | At most every lesson of a path is completed. |
| ProgressDashboard.CompletedLessonsBounded | src/components/dashboard/ProgressDashboard.tsx:33-42 | The completed lessons equal the total exactly when every path's lessons are all completed. |
| ProgressDashboard.TotalLessons | src/components/dashboard/ProgressDashboard.tsx:33-36 | The total is at least each path's lesson count, and 0 exactly when no path has lessons. |
| ProgressDashboard.CompletedLessons | src/components/dashboard/ProgressDashboard.tsx:38-42 | The completed lessons number at most the total. |
| ProgressDashboard.CompletedAgreesWithList | src/components/dashboard/ProgressDashboard.tsx:29-31 | A path counts as completed on the dashboard exactly when the path list shows it at 100. |
| ProgressDashboard.PathScores | src/components/dashboard/ProgressDashboard.tsx:45-47 | At most one score per lesson. |
| ProgressDashboard.MeanInRange | src/components/dashboard/ProgressDashboard.tsx:44-49 | A path's mean of scores in [0, 100] lies in [0, 100]. |
| ProgressDashboard.SumOfMeansInRange | src/components/dashboard/ProgressDashboard.tsx:44-49 | The sum of the path means lies in [0, 100 × paths]. |
| ProgressDashboard.AverageInRange | src/components/dashboard/ProgressDashboard.tsx:44-49 | With every score in [0, 100] the average score lies in [0, 100]. |
| ProgressDashboard.AverageScore | src/components/dashboard/ProgressDashboard.tsx:44-49 | Without paths the average is 0; otherwise it times the number of paths is the sum of the per-path means. |
| ProgressDashboard.PathPercentage | src/components/dashboard/ProgressDashboard.tsx:202-206 | A path's percentage is NaN exactly without lessons, otherwise lies in [0, 100] and is 100 exactly when every lesson is completed. |
| ProgressApi.StoredScore | src/app/api/progress/route.ts:46-53 | A missing score and a score of 0 are stored as null; any other score is kept. |
| ProgressApi.TimeSpent | src/app/api/progress/route.ts:52 | `timeSpent \|\| 0` keeps a given time, 0 included, and stores 0 for a missing one. |
| ProgressApi.Stored | src/app/api/progress/route.ts:43-54 | The upsert writes a completed record with the body's time (0 when missing) and its score, null when missing or 0. |
| ProgressApi.PathLessons | src/app/api/progress/route.ts:21-27 | The path's lessons are exactly the catalogue's lessons of that path. |
| ProgressApi.Recorded | src/app/api/progress/route.ts:58-67 | The counted records are exactly the path's lessons that the user has a record for. |
| ProgressApi.AllLessonsCompletedMeaning | src/app/api/progress/route.ts:58-69 | The count test holds exactly when the user has a record for every lesson of the path. |
| ProgressApi.AllLessonsCompleted | src/app/api/progress/route.ts:58-69 | Equal counts hold exactly when the user's records cover the path's lessons. |
| ProgressApi.PostTouchesOnlyItsKeys | src/app/api/progress/route.ts:36-89 | A POST writes only the user's record of the lesson and the user's record of its path. |
| ProgressApi.LastLessonCompletesPath | src/app/api/progress/route.ts:58-89 | Recording the last unrecorded lesson of a path completes the path. |
| ProgressApi.MissingLessonKeepsPathOpen | src/app/api/progress/route.ts:58-89 | A path with another lesson still unrecorded is not completed. |
| ProgressApi.ProgressStore.constructor | src/app/api/progress/route.ts:20-29 | The store starts with the given catalogue and rows. |
| ProgressApi.ProgressStore.Post | src/app/api/progress/route.ts:6-92 | 401, 400 and 404 write nothing; otherwise the lesson record is upserted as completed, and the path is marked completed at the current time exactly when every lesson of the path has a record. |
| ProgressApi.ProgressStore.Get | src/app/api/progress/route.ts:94-116 | 401 without a session; otherwise exactly the user's records, restricted to the named path's lessons when a path is given, each unchanged. |

## Left out

- socket.ts, useSocket.ts and the service worker sw.js are not part of this model. They carry events between processes, and each socket event appears here as a method call.
- The `Notification` API, `window.location`, audio, speech synthesis, high-contrast toggles, drag-and-drop backends, animations and all rendering are I/O or presentation. Only exchanged values are modelled: reported scores, browser alerts shown, navigation targets and saved images.
- Prisma, next-auth and web-push are external services. They are modelled through their effect on maps keyed by the tables' unique keys: an upsert is a map update, a failed create or delete is a parameter. A database failure of the subscribe route's upsert, which answers 500 (src/app/api/notifications/subscribe/route.ts:35-40), is not modelled: with a session and a complete body, Push.SubscriptionStore.Subscribe always stores the row. VAPID setup, JSON parsing and the HTTP layer are left out.
- Send: the deliveries run concurrently under `Promise.all`. The model runs them one at a time, in no fixed order, so interleavings and the order of deliveries are not captured.
- Time (`Date.now()`, `new Date()`) and randomness (`Math.random()`) are parameters: `now`, the expiry of timers, and the shuffle choices.
- MemoryGame.MemoryBoard.constructor: the source sorts with a random comparator. The model shuffles with Fisher–Yates choices, so it states only that the result is a permutation of the deck, not which permutations the comparator can produce.
- MatchingPairs.MatchingGame.constructor: the shuffled display order of terms and definitions is not modelled. Clicks are by pair id, and the order does not affect scoring.
- Floating point is modelled as exact arithmetic. `Math.round(c / n * 100)` is computed with integers, `100 / perfectMoves` and the dashboard's means with exact rationals, and the colour thresholds of the timer bar with integer cross-multiplication. Rounding error of IEEE doubles is not captured.
- Percent.FullMarksExactly: the equivalence is stated only below 200 items. From 200 on, one mistake already rounds to 100, as Percent.FullMarksWithAMistake shows.
- Templates.NewMessageTemplate, Templates.CourseProgressTemplate, Templates.ReminderTemplate and Templates.QuizTemplate: `messageCount`, `progress`, `daysInactive` and `score` are JavaScript numbers, modelled as integers. A fractional value's printing (`${33.5}` gives "33.5") and a fractional value against a threshold (a score of 79.5 gets the encouragement, a count of 1.5 gets the "+0.5 more" suffix) are not captured.
- Text.Lower and Text.IsBlank: only ASCII letters and ASCII white space are handled. Unicode case mapping and Unicode white space are left out.
- TimedQuiz.Quiz.constructor and InteractiveLesson.Lesson.constructor require at least one question, because the first render already reads the question at index 0 and would throw on an empty list.
- MemoryGame.MemoryBoard.TurnPair and MemoryGame.MemoryBoard.HandleCardClick: `isFlipped` is never set by the source, so the face-up state of a card is only its membership in the flipped pair.
- The colour and brush-size setters of the drawing exercise, and `getCoordinates`, only affect the pixels a stroke produces. The model takes those pixels as a parameter of `Draw`.
- Pixel data (`ImageData`) and the PNG data URL are abstract images.
- ProgressApi.ProgressStore.Post: a lesson record's foreign key is assumed to name a catalogue lesson. GET's `include: { lesson: true }` join, the `timeSpent` type and the `completedAt` timestamp format are not modelled.
- The dashboard's time-spent chart data, the analytics components and exportUtils.ts are not part of this model.
- The object spread of a string answer in the lesson's matching select is modelled as a map from index to the one-character strings.
- Conversations.Ids: JavaScript lists integer-like object keys in numeric order before the others. The model keeps the order in which users first appear.
- LearningPaths: the filter component's search-box and subject-checkbox wiring only passes values through. Only the difficulty button's toggle is modelled.
