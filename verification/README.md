# Verified model of the A2Z platform core

This project models the behaviour of the platform's message pipeline, inbox, invoicing ledger and
in-process primitives, and proves what they guarantee over all inputs, all runs and all
interleavings. `dafny verify dfyconfig.toml` checks all of it.

| files | what they model |
|---|---|
| `Base64Url`, `JsonText`, `IsoTime`, `Cursor` | the opaque inbox cursor: base64url, JSON string escaping, ISO timestamps, and the token built from them |
| `Keyset`, `Walk`, `Inbox` | keyset pages over `(timestamp NULLS LAST, id)`, walks with other transactions between the pages, the conversation list and the message thread |
| `InboundWorker`, `Summaries` | webhook payloads delivered at least once to workers that may stop anywhere and the uniqueness constraint; the unread count, preview and time the inbox shows |
| `SendReply`, `Outbound`, `DeadLetters`, `SendOnce` | concurrent `send_reply` calls, the outbound queue with its receives and visibility, what its dead letters say, and handler and queue together |
| `DeliveryStatus` | the delivery-status ladder |
| `InvoiceStateMachine`, `Invoicing` | lifecycle guards, money arithmetic, and the ledger over whole runs |
| `RateLimit`, `Realtime`, `Cache`, `Secrets`, `Media` | the sliding-window limiter, the broker with lossy queues, the TTL cache and the two caches built on it |
| `Routing` | claims, reassignment, auto-assignment and the history that replays them |
| `Ddb`, `Storage` | DynamoDB value conversion, storage keys and org ids |

Code that mutates state is a class whose methods are proved against specification functions; what
the code promises is then proved about those functions, over runs. Each method also states, without
its specification function, when it succeeds, what it leaves in the tables and what it does not touch.
Protocols split at an `await`,
a commit or a queue operation are state machines whose steps use the same functions. One committed
transaction is one step unless a finer step is named.

Where the code does less than its own comments or documentation say, the code is followed:

- Oldest-first pages after a dated cursor drop every conversation without a timestamp
  (`Keyset.CursorPredicateMeaning`; `Walk.OldestFirstResult` says exactly when that loses rows). The
  worker is the only code that creates conversations and it commits none without a timestamp, so the
  loss needs rows written from elsewhere (`Summaries.OldestFirstComplete`).
- `failed` is described as terminal; a later known status overwrites it
  (`DeliveryStatus.FailedStaysIff`, with `DeliveryStatus.FailedIsNotTerminal` as the input).
- The savepoint around an inbound insert is meant to keep the identity and conversation just created;
  the rollback that follows a duplicate discards the whole transaction (`InboundWorker.Session.ProcessItem`).
- Not every stored message is announced: a worker that dies between commit and announcement silences
  it for good (`InboundWorker.CrashSilences`), and nothing else does (`InboundWorker.AllAnnouncedIff`).
- The unread counter is meant to mean "since last read". The session does not expire objects on
  commit, so a `mark_read` that lands between two messages of one payload is overwritten
  (`Summaries.MarkReadIsUndone`; `Summaries.UnreadStaysExactIff` is the exact condition).
- The preview is meant to be the newest message's. A column whose attribute does not change on the
  session's out-of-date copy is not written, so the inbox can go on showing another message
  (`Summaries.PreviewStaysBehind`; `Summaries.PreviewStaysRightIff` is the exact condition).
- The inbound uniqueness constraint names the channel and the message id but not the organisation
  (`InboundWorker.OwnRowsIff`, and the run `InboundWorker.SecondOrgLosesIt`).
- A reply whose enqueue fails after its commit stays queued for ever; retries under the same key are
  answered as if it had been sent (`SendReply.RetriesCannotQueue`, and the run `SendReply.LostEnqueue`).
- The worker's give-up threshold and the queue's are one number so that a dead letter's message is
  marked failed. It is, unless a worker dies holding the last receive or the entry comes back under a
  worker still sending (`DeadLetters.DeadFailedIff`); and a failed message can have been delivered
  (`DeadLetters.NeverAcceptedIff`).
- The ladder is meant never to regress a message from read. A send that is repeated does, after a worker
  died between the provider's acceptance and the delete (`Outbound.StatusFallsIff`,
  `DeadLetters.ResendFallsAfterSpill`).
- Auto-assignment is meant never to override a claim; a claim made after the conversation is committed
  and before the call is overridden (`Routing.AutoAssignOverridesIff`).
- "Linear, no backtracking": an edit can send a paid invoice back to partially paid
  (`Invoicing.EveryPaidCanFallBack`, `Invoicing.BackIffLifted`).
- A payment replayed under its key on another invoice is answered with the first invoice's payment
  (`Invoicing.AnswerIsOwnIff`, and the run `Invoicing.ReplayedOnOther`); a refused create still uses up
  a number.
- A line's amount need not follow from the quantity the table keeps (`InvoiceStateMachine.StoredQuantityIff`).
- A decimal longer than a float comes back from DynamoDB as another number (`Ddb.RoundTripSameIff`).

## Model

| member | source | states |
|---|---|---|
| Base64Url.DecodeEncode | app/services/omnichannel/inbox.py:107-114 | base64url decoding (section 5 of RFC 4648, read as leniently as Python reads it) inverts encoding for every byte string |
| Base64Url.EncodeMeaning | app/services/omnichannel/inbox.py:107 | every three bytes become the four letters of the same 24 bits, with zero bits and padding for what is missing at the end (section 4 of RFC 4648) |
| Base64Url.PaddingRestored | app/services/omnichannel/inbox.py:107-113 | re-adding `-len % 4` padding characters restores exactly what `rstrip("=")` removed, for every byte length |
| JsonText.ReadStringBack | app/services/omnichannel/inbox.py:106-114 | every string, control characters, quotes and astral characters included, survives JSON escaping (section 7 of RFC 8259) and parsing |
| JsonText.PlainText | app/services/omnichannel/inbox.py:106 | plain text is written as it is between quotes |
| IsoTime.ParseIsoText | app/services/omnichannel/inbox.py:106-115 | every UTC timestamp survives `isoformat` and `fromisoformat`, with or without microseconds |
| IsoTime.IsoShape | app/services/omnichannel/inbox.py:106 | year, month, day, hours, minutes, seconds and microseconds stand where RFC 3339 has them, the fraction only when there is one, and the offset is UTC |
| IsoTime.ParseOnlyIsoText | app/services/omnichannel/inbox.py:115 | nothing else is read: a text that parses is the text of the timestamp it gives, or that text with the zeros of an absent fraction |
| Cursor.DecodeEncode | app/services/omnichannel/inbox.py:105-119 | decoding an encoded cursor gives back the same timestamp or null and the same id, for every id |
| Cursor.TokenIsUrlSafe | app/services/omnichannel/inbox.py:107 | a token is letters, digits, dashes and underscores only |
| Cursor.ParseOnlyPairs | app/services/omnichannel/inbox.py:110-119 | a text that decodes is a bracketed pair of a quoted timestamp or null and a quoted id, with nothing else in it but white space |
| Keyset.CursorPredicateMeaning | app/services/omnichannel/inbox.py:172-188 | newest first the cursor predicate is exactly "later in the order"; oldest first it also loses every null row after a dated cursor |
| Keyset.OrderMeaning | app/services/omnichannel/inbox.py:264-270 | dated rows come before rows without a timestamp in both directions, among dated ones the timestamp decides in the direction asked for, then the id |
| Keyset.BeforeTotal | app/services/omnichannel/inbox.py:264-270 | the ORDER BY is a strict total order on (timestamp, id) with nulls last in both directions |
| Keyset.SortedUnique | app/services/omnichannel/inbox.py:264-273 | a set of rows has one listing in that order |
| Keyset.PageMeaning | app/services/omnichannel/inbox.py:262-282 | a page is sorted, holds only selected rows, skips none before its last row, has a token exactly when rows remain, and the token decodes to its last row |
| Walk.ClampMeaning | app/services/omnichannel/inbox.py:136-139 | a page has the size asked for, at most 100, and 50 when none or a senseless one was asked for |
| Walk.LaterPagesFollow | app/services/omnichannel/inbox.py:260-282 | whatever commits between pages, every row of a later page lies after every row of an earlier one |
| Walk.NeverTwice | app/services/omnichannel/inbox.py:260-282 | newest first, a conversation whose timestamp only moves forward is shown at most once over a walk with arbitrary transactions between pages |
| Walk.UntouchedExactlyOnce | app/services/omnichannel/inbox.py:260-282 | a conversation that matches and is left alone is shown exactly once by a finished newest-first walk |
| Walk.NewestFirstComplete | app/services/omnichannel/inbox.py:264-282 | on a table that stays put the newest-first pages concatenate to exactly the filtered, sorted table |
| Walk.OldestFirstResult | app/services/omnichannel/inbox.py:186-187 | oldest first the same holds if and only if there are no matching null rows or fewer dated ones than the first page size; otherwise the pages are exactly the dated rows |
| Walk.WalkEnds | app/services/omnichannel/inbox.py:273-282 | a walk over a table that stays put has at most one page more than there are matching rows |
| Inbox.ListConversations | app/services/omnichannel/inbox.py:234-287 | a non-member, an unknown sort and a malformed token are refused; otherwise the answer holds only conversations asked for and beyond the token, in order, at most as many as asked for, and all of those unless its token, which means the last one, promises the rest |
| Inbox.Fetch | app/services/omnichannel/inbox.py:272-282 | reading one row more than the page gives the page and a token exactly when there is more |
| Inbox.Statement | app/services/omnichannel/inbox.py:240-262 | the WHERE clause built condition by condition selects exactly the wanted rows after the cursor |
| Inbox.GetConversation | app/services/omnichannel/inbox.py:322-363 | the thread read refuses non-members, conversations of other organisations or without identity, malformed and dateless tokens, and any page with a file of another organisation; otherwise it returns messages of the thread older than the token in reading order, every other such message lying before the first one shown, with each message's attachments |
| Inbox.ReadThread | app/services/omnichannel/inbox.py:332-356 | the thread statement and its reversal give the page the order names (`Inbox.ThreadPageMeaning` says what that page is) |
| Inbox.ThreadPageMeaning | app/services/omnichannel/inbox.py:332-356 | that page is in reading order, holds only messages of the thread older than the token, every other such message lies before its first one, and its token means that one |
| Inbox.AttachmentsFor | app/services/omnichannel/inbox.py:366-396 | one pass groups every message's own attachments, all and in order; a file outside the organisation's prefix refuses the read |
| Inbox.ViewsMeaning | app/services/omnichannel/inbox.py:366-396 | a message's entries are exactly its attachments, each once and in the order read, with the name its key carries |
| Inbox.ThreadRebuilt | app/services/omnichannel/inbox.py:332-356 | pages as returned, each put before the ones already held, rebuild the whole thread in reading order, nothing missing and nothing twice |
| InboundWorker.Session.FindOrCreate | app/services/omnichannel/worker.py:286-340 | the identity and the conversation are there afterwards and nothing else changed; the object worked on is the session's own copy if it still holds one |
| InboundWorker.Flush | app/services/omnichannel/worker.py:175-178 | an update writes exactly the columns whose attributes differ from what the object was loaded with |
| InboundWorker.PreviewMeaning | app/services/omnichannel/worker.py:176 | the preview is the body's first 200 characters, or empty without a body |
| InboundWorker.Session.ProcessItem | app/services/omnichannel/worker.py:121-178 | one item is either a duplicate, exactly when its channel and id are taken, and leaves the committed tables untouched; or it appends exactly its row, makes its identity and conversation, raises the unread count by one, sets time and preview, and changes no other conversation |
| InboundWorker.Session.ProcessInboundMessage | app/services/omnichannel/worker.py:121-206 | a payload processed to its end, or stopped before or after any item's commit, leaves exactly the items up to there handled and announced |
| InboundWorker.NewRowsAnnounced | app/services/omnichannel/worker.py:121-197 | the rows a payload adds are its items as they came, each announced once, in order, and nothing else is announced |
| InboundWorker.PayloadIsARun | app/services/omnichannel/worker.py:93-197 | a session that works a payload to its end is a run of the machine: received, each item committed and announced, deleted |
| InboundWorker.RedeliveryIsNoOp | app/services/omnichannel/worker.py:93-96 | delivering a payload again changes no table and announces nothing |
| InboundWorker.StepKeepsStored | app/services/omnichannel/worker.py:93-206 | every step of queue, workers and readers keeps: one row per channel and message id, every row from a payload, a row for every finished item, a message behind every conversation and identity, and a timestamp on every conversation |
| InboundWorker.EveryReachableStored | app/services/omnichannel/worker.py:93-206 | all of that holds in every state of every run of duplicated, reordered, failing and redelivered payloads |
| InboundWorker.DrainedMeansStored | app/services/omnichannel/worker.py:93-96 | once every entry is deleted the messages stored are exactly the messages offered |
| InboundWorker.OwnRowsIff | app/services/omnichannel/models.py:157 | every organisation then has its own messages if and only if no message id was offered to two organisations |
| InboundWorker.SecondOrgLosesIt | app/services/omnichannel/models.py:157 | the run in which two organisations are sent one id and the second ends without its message |
| InboundWorker.EachRowAnnouncedOnce | app/services/omnichannel/worker.py:188-197 | `message.received` is announced at most once for a row over any run |
| InboundWorker.CrashSilences | app/services/omnichannel/worker.py:178-197 | a worker that stops between commit and announcement silences that row for ever |
| InboundWorker.SilencedWhen | app/services/omnichannel/worker.py:178-197 | a step silences a row if and only if it is the death of the worker about to announce it |
| InboundWorker.SilentIff | app/services/omnichannel/worker.py:178-197 | in every state of every run a stored row is silent if and only if such a step came before |
| InboundWorker.AllAnnouncedIff | app/services/omnichannel/worker.py:178-197 | with no worker busy, every stored row has been announced if and only if no step of the run was such a death |
| Summaries.UnreadStaysExactIff | app/services/omnichannel/worker.py:177 | a step keeps the unread counter equal to the rows since the last mark_read if and only if it does not count on from an out-of-date copy of the conversation |
| Summaries.UnreadExactThroughoutIff | app/services/omnichannel/worker.py:177-178 | over any run the counter is right in every state so far if and only if no step so far did |
| Summaries.PreviewStaysRightIff | app/services/omnichannel/worker.py:176 | a step keeps the preview the newest message's first 200 characters if and only if it does not store a message whose preview the session's copy has already and the row has not |
| Summaries.PreviewRightThroughoutIff | app/services/omnichannel/worker.py:176-178 | over any run the preview is right in every state so far if and only if no step so far did |
| Summaries.PreviewStaysBehind | app/services/omnichannel/worker.py:176-178 | the run of two payloads in which the inbox goes on showing a preview that is not the newest message's |
| Summaries.TimeRightThroughoutIff | app/services/omnichannel/worker.py:175 | the same for the timestamp, which a step leaves out only if its clock reads exactly the copy's |
| Summaries.TimeRightWithClock | app/services/omnichannel/worker.py:175 | with a clock that does not run back the timestamp is the newest message's in every state, whatever the sessions hold |
| Summaries.RightWhenQuiet | app/services/omnichannel/inbox.py:416-420 | counter, preview and timestamp are right in every state of a run in which nobody else writes a conversation while a session holds it |
| Summaries.MarkReadIsUndone | app/services/omnichannel/db.py:34 | one worker, one reader and a two-message payload: the reset is lost and the counter says two for one new message |
| Summaries.WorkerMovesForward | app/services/omnichannel/worker.py:175 | with a clock that does not run back, the worker moves every timestamp forward over any run, as the newest-first walk needs |
| Summaries.OldestFirstComplete | app/services/omnichannel/worker.py:332-340 | over every table the worker alone has written, a finished oldest-first walk lists everything that matches |
| SendReply.StepKeepsSound | app/services/omnichannel/handlers.py:109-153 | every interleaving step of concurrent calls keeps the index unique, each call's row its own, `created` true exactly for the call that inserted the row and then queued, and each row queued at most once |
| SendReply.EveryReachableSound | app/services/omnichannel/handlers.py:109-153 | so in every state of every interleaving |
| SendReply.OneMessagePerKey | app/services/omnichannel/handlers.py:109-153 | all calls with one key that return give the same message, and at most one says it created it |
| SendReply.OneQueueEntryPerKey | app/services/omnichannel/models.py:159-166 | at most one queue entry exists for a key |
| SendReply.RelookupFinds | app/services/omnichannel/handlers.py:141-150 | the lookup after a lost race always finds another call's row |
| SendReply.RetriesCannotQueue | app/services/omnichannel/handlers.py:138-153 | a row whose enqueue failed is never queued later, and every retry that returns hands it back as not created |
| SendReply.LostEnqueue | app/services/omnichannel/handlers.py:141-153 | the run of one failed enqueue and one retry |
| SendReply.StrandedWhen | app/services/omnichannel/handlers.py:138-153 | that happens exactly when a call fails between its commit and the queue accepting the row |
| SendReply.ReplyIsTheMachine | app/services/omnichannel/handlers.py:109-153 | the handler in one piece, with any rows committed meanwhile, ends where the step machine ends |
| SendReply.Handler.SendReply | app/services/omnichannel/handlers.py:109-153 | a key with a message gives that message and `created` false, whether found before or after the insert; without one a call over the limit changes nothing, and any other appends exactly its row, queues it unless the enqueue is lost, and says it created it only if the queue answered |
| Outbound.StepKeepsPartition | app/services/omnichannel/worker.py:358-373 | every step keeps each entry in exactly one of queue, deleted and dead letters |
| Outbound.EntriesAccounted | app/config.py:162 | in every reachable state an entry is in one place, the provider was called for it at most once a receive and at most five times, and a dead letter was received exactly five times |
| Outbound.CallsBounded | app/services/omnichannel/worker.py:409-414 | provider calls for an entry never exceed its receives |
| Outbound.FuelSpent | app/services/omnichannel/worker.py:358-373 | the sum of remaining receives falls with every receive, delete and redrive and rises only by an enqueue |
| Outbound.QueueDrains | app/config.py:162 | over any run receives, deletes and redrives together number at most six an entry |
| Outbound.QueueMoves | app/services/omnichannel/worker.py:367-373 | an entry still queued can always time out, be redriven or be received |
| Outbound.NothingDropped | app/services/omnichannel/worker.py:362-373 | over any run an entry leaves the queue only if the provider took it, nothing was left to send, or it is a dead letter; a provider id is stored only after the provider took the message |
| Outbound.IdsAreProviders | app/services/omnichannel/worker.py:430-432 | over any run a deleted entry's message bears a provider id unless there was nothing to send, and the id a message bears is one the provider gave for it |
| Outbound.StatusFallsIff | app/services/omnichannel/worker.py:263-267 | a step lowers a message's rank if and only if it records an accepted send above sent, records a refused last send of a ranked message, or is a `failed` from the provider on one |
| DeadLetters.DeadFailedIff | app/services/omnichannel/worker.py:425-428 | if an entry never comes back under its worker and no provider status comes in for it, its dead letter is marked failed if and only if no worker died holding its last receive, in every run |
| DeadLetters.DeadFailedUnaccepted | app/services/omnichannel/worker.py:425-428 | the same with provider statuses coming in, as long as workers die only before the provider accepts |
| DeadLetters.DeadMeansFailed | app/services/omnichannel/worker.py:409-428 | when the only failures are the adapter's errors, a dead letter's message is marked failed and was never accepted |
| DeadLetters.NeverAcceptedIff | app/services/omnichannel/worker.py:409-432 | a dead letter was never accepted by the provider if and only if no worker died between acceptance and delete |
| DeadLetters.AcceptedOnce | app/services/omnichannel/worker.py:409-432 | without such a death the provider accepts an entry at most once |
| DeadLetters.ResendFallsAfterSpill | app/services/omnichannel/worker.py:430-432 | an accepted send takes a delivered or read message back to sent only after a worker died between acceptance and delete |
| DeadLetters.CutOnLastReceive | app/services/omnichannel/worker.py:64-73 | the run in which a worker dies on the last receive and the dead letter's message stays queued |
| DeadLetters.EarlyTimeout | app/services/omnichannel/worker.py:367-373 | the run, without any crash, in which an entry comes back under a slow worker: buried, then sent |
| DeadLetters.FailedButDelivered | app/services/omnichannel/worker.py:425-432 | the run that ends marked failed with the message delivered |
| Outbound.Worker.ProcessOutboundMessage | app/services/omnichannel/worker.py:384-450 | a message is resolved exactly when its row or context is gone or the provider accepted it, and raises exactly on an exception that is not the adapter's; an accepted send leaves `sent` and the provider's id, a refused one `failed` from the fifth receive on, and every other row stays |
| Outbound.Worker.ProcessOutboundBatch | app/services/omnichannel/worker.py:358-373 | a batch is cut short exactly when one of its messages raises; it deletes the receipts of exactly the messages before that whose row or context is gone or that the provider accepted, and counts them |
| Outbound.BatchMeaning | app/services/omnichannel/worker.py:362-373 | the same of the specification: a receipt is deleted if and only if its message is reached and resolved |
| Outbound.SentRow | app/services/omnichannel/worker.py:430-432 | after a batch the row of a message is that of its last accepted send: `sent` with the provider's id |
| Outbound.BatchIsARun | app/services/omnichannel/worker.py:358-450 | a worker's batch is a run of the queue machine: each copy goes through send, record and delete as the machine has them, the rows end the same, and exactly the entries of the deleted receipts leave the queue |
| Outbound.FailedSendsStay | app/services/omnichannel/worker.py:362-373 | a send the adapter refused is never deleted by the worker |
| SendOnce.MoveKeepsCoupled | app/services/omnichannel/handlers.py:152-153 | the handler and the queue stay in step: the entries are the rows handed over, in order |
| SendOnce.HandoverIsFresh | app/services/omnichannel/handlers.py:152-153 | every row the handler hands over is new to the queue, so coupling the two excludes no run |
| SendOnce.FiveCallsPerKey | app/services/omnichannel/worker.py:409-414 | any number of client retries under one key, with any failures, causes at most five provider calls |
| DeliveryStatus.LadderKeepsHighest | app/services/omnichannel/worker.py:58-63 | without `failed` the final status is the highest ranked of the start and the updates |
| DeliveryStatus.OrderIrrelevant | app/services/omnichannel/worker.py:229-231 | reordering, repeating or re-batching such updates changes nothing |
| DeliveryStatus.RankMeaning | app/services/omnichannel/worker.py:58-63 | the ladder is queued, sent, delivered, read, and no other status has a rank |
| DeliveryStatus.FailedRestarts | app/services/omnichannel/worker.py:263-267 | with `failed` only what follows the last one matters, climbed from below the ladder |
| DeliveryStatus.FailedStaysIff | app/services/omnichannel/worker.py:263-267 | `failed` is final if and only if no known status follows it |
| DeliveryStatus.FailedIsNotTerminal | app/services/omnichannel/worker.py:58-63 | the shortest such input: failed, then sent |
| DeliveryStatus.MessageTable.ApplyDeliveryStatus | app/services/omnichannel/worker.py:234-285 | a miss changes nothing; a hit moves that row alone and publishes exactly when it applied |
| DeliveryStatus.MessageTable.ApplyDeliveryUpdates | app/services/omnichannel/worker.py:229-231 | a batch folds each message's own updates, touches no other row, and announces in order exactly the updates that moved one |
| DeliveryStatus.OthersUntouched | app/services/omnichannel/worker.py:248-252 | a batch leaves the statuses of other organisations and channels, and of ids it does not name, as they were |
| DeliveryStatus.LastToldIsStored | app/services/omnichannel/worker.py:267-280 | what clients were last told of a message in a batch is its stored status |
| InvoiceStateMachine.SubtotalError | app/services/invoicing/state_machine.py:84-99 | a subtotal is within half a cent a line of the exact value, for every list of lines |
| InvoiceStateMachine.RoundingMeaning | app/services/invoicing/state_machine.py:84-87 | an amount is the whole number of cents nearest to the product, a half going away from zero, and the only one |
| InvoiceStateMachine.LinesAreBuilt | app/services/invoicing/service.py:70-82 | one line for each asked for, in order, with its quantity, price and nearest amount |
| InvoiceStateMachine.WholeQuantitiesExact | app/services/invoicing/state_machine.py:84-99 | it is exact on whole quantities |
| InvoiceStateMachine.SubtotalMonotone | app/services/invoicing/state_machine.py:84-99 | raising quantities and prices never lowers it |
| InvoiceStateMachine.StoredQuantityIff | app/services/invoicing/models.py:128-131 | a line's amount follows from the stored quantity at every price if and only if the quantity has at most three decimals |
| InvoiceStateMachine.StoredQuantityLosesCents | app/services/invoicing/service.py:75-79 | the input 0.0004 at 100.00, four cents against none |
| Invoicing.Service.CreateInvoice | app/services/invoicing/service.py:85-124 | creating counts a number even when refused; it succeeds exactly when the id is free and the total is not negative, and then adds exactly a draft with that number, the lines asked for, the amounts they come to and nothing paid |
| Invoicing.Service.UpdateInvoice | app/services/invoicing/service.py:188-239 | an edit is refused exactly for a row that is not there, is void or would come to less than nothing, and then changes nothing; otherwise each supplied field holds its value, the others are kept, and totals and both statuses follow |
| Invoicing.UpdateMeaning | app/services/invoicing/service.py:188-239 | the same of the specification, for every table |
| Invoicing.Service.SoftDeleteInvoice | app/services/invoicing/service.py:248-256 | a visible invoice is hidden and nothing else changes; any other is not found |
| Invoicing.Service.SendInvoice | app/services/invoicing/service.py:267-302 | a visible draft becomes sent and nothing else changes; anything else is refused and changes nothing |
| Invoicing.Service.RecordPayment | app/services/invoicing/service.py:318-350 | a payment is taken exactly on a visible invoice that is sent, partially paid or paid, under a key not used before: it is appended, the amount paid rises by it and both statuses follow; a used key gives back the payment it has and changes nothing; a used empty key breaks the index |
| Invoicing.Service.VoidInvoice | app/services/invoicing/service.py:371-375 | a visible invoice that is not void becomes void and nothing else changes; anything else is refused and changes nothing |
| Invoicing.CommandKeepsLedger | app/services/invoicing/service.py:318-350 | every call keeps the whole ledger: amount paid is the sum of the payments, subtotal of the lines, total is subtotal + tax - discount and not negative, the statuses correspond, each key is used once, numbers are distinct |
| Invoicing.EveryReachableLedger | app/services/invoicing/state_machine.py:62-103 | so in every state reachable from empty tables by valid requests |
| Invoicing.ReplayChangesNothing | app/services/invoicing/service.py:321-328 | repeating a recorded payment under its key moves no money, whatever invoice it names |
| Invoicing.AnswerIsOwnIff | app/services/invoicing/service.py:321-328 | a successful payment call answers with a payment on the invoice it names if and only if its key was not used for another one |
| Invoicing.OtherInvoiceAnswered | app/services/invoicing/service.py:321-328 | any two payable invoices of one organisation show it: the second is answered with the first one's payment and stays unpaid |
| Invoicing.ReplayedOnOther | app/services/invoicing/service.py:321-328 | the run from empty tables that does so |
| Invoicing.NoWayBack | app/services/invoicing/state_machine.py:30-59 | over runs of any length draft is not re-entered, void freezes the invoice, the amount paid never falls, and an invoice with a payment is never draft or sent |
| Invoicing.VoidIsFinal | app/services/invoicing/state_machine.py:30-59 | after a void every later edit, send, payment and void of the invoice is refused and changes nothing, over runs of any length |
| Invoicing.DeletedIsGone | app/services/invoicing/service.py:248-256 | after a delete no call finds or changes the invoice again, over runs of any length |
| Invoicing.BackIffLifted | app/services/invoicing/service.py:229-237 | one call moves a status back if and only if it is an edit that lifts a paid invoice's total above the amount paid |
| Invoicing.ForwardOnly | app/services/invoicing/state_machine.py:71-81 | runs without such edits never move a status back |
| Invoicing.EveryPaidCanFallBack | app/services/invoicing/state_machine.py:6-8 | every paid invoice can be sent back to partially paid by a tax correction |
| RateLimit.Limiter.CheckAndIncrement | app/core/rate_limit.py:60-75 | one call evicts, refuses or records on its own key's deque alone |
| RateLimit.AcceptsLikeTheLog | app/core/rate_limit.py:65-75 | a call is accepted exactly when fewer than the limit of accepted calls lie within the window before it, counted on a log that never evicts |
| RateLimit.NothingUnderZero | app/core/rate_limit.py:68-70 | with a limit of zero or less no call is ever accepted and each indexes an empty deque |
| RateLimit.WindowNeverOverfull | app/core/rate_limit.py:60-75 | no half-open window, wherever placed, holds more than the limit of accepted calls |
| RateLimit.RetryAfterIsExact | app/core/rate_limit.py:68-73 | `retry_after` lies in 1..window and is the least whole number of seconds after which the call would pass |
| RateLimit.RefusedIsFree | app/core/rate_limit.py:68-73 | a refused call leaves no trace in the log of accepted calls |
| RateLimit.RefusedChangesNothing | app/core/rate_limit.py:60-75 | the same on the deque: a refused call changes no later verdict and no later `retry_after` |
| RateLimit.KeysAreIndependent | app/core/rate_limit.py:62-63 | a key's deque depends on its own calls alone |
| Realtime.Queue.PutDroppingOldest | app/core/realtime.py:77-91 | a full queue loses its oldest message to the new one |
| Realtime.Queue.Get | app/core/realtime.py:100-118 | a read takes the oldest message, or times out on an empty queue |
| Realtime.Broker.PublishUpdate | app/core/realtime.py:67-72 | every listener of the channel gets the message once and nobody else anything |
| Realtime.Broker.Subscribe | app/core/realtime.py:136-139 | a fresh empty queue joins every named channel |
| Realtime.Broker.Unsubscribe | app/core/realtime.py:142-149 | it leaves every one, and emptied channels go |
| Realtime.PartUndoesJoin | app/core/realtime.py:136-149 | leaving restores the registry exactly, however often a channel was named |
| Realtime.BrokerDelivers | app/core/realtime.py:67-91 | over any run of any subscribers each queue is what the messages published to its own channels while it listened make it |
| Realtime.ChannelsNeverEmpty | app/core/realtime.py:142-149 | no empty channel set ever remains |
| Realtime.QueueIsSuffix | app/core/realtime.py:77-91 | a queue is the last at most 100 messages published, and what was read is in order and before it |
| Realtime.ReadReturnsPosition | app/core/realtime.py:100-118 | a read returns the published message at the position recorded for it |
| Realtime.LostOnlyBehindAHundred | app/core/realtime.py:77-91 | a message is lost only at a moment when 100 newer ones had been published and it was still unread |
| Realtime.NothingLost | app/core/realtime.py:77-91 | a subscriber never more than 100 behind has read exactly everything before its queue |
| Cache.TTLCache.Lookup | app/core/cache.py:53-62 | a hit strictly before the expiry, an expired entry removed |
| Cache.TTLCache.Ttl | app/core/cache.py:68-76 | a remaining lifetime is reported exactly when a lookup would hit |
| Cache.LookupIsReference | app/core/cache.py:53-80 | over any run on a clock that never goes back a lookup is the last write or delete of that key while fresh |
| Secrets.Process.StartGet | app/core/secrets.py:68-80 | the stretch up to the store call is the machine's step, answering from the cache exactly on a hit |
| Secrets.Process.FinishGet | app/core/secrets.py:87-94 | the stretch after the store's answer fills the cache and returns, whatever happened meanwhile |
| Secrets.Process.FinishPut | app/core/secrets.py:133-135 | the stretch after the store's write invalidates |
| Secrets.StalenessBound | app/core/secrets.py:68-94 | under any interleaving every secret returned was the stored value less than 300 seconds plus its own fetch's time in flight before |
| Secrets.CachedIsServed | app/core/secrets.py:68-94 | a fetched secret is handed out again without asking the store for exactly 300 seconds, unless a write or another fetch comes in between |
| Secrets.ReadAfterPut | app/core/secrets.py:116-135 | no read that starts after a put returns an older value if and only if no older answer is in flight when it invalidates |
| Secrets.StaleRead | app/core/secrets.py:87-89 | the run that serves the old value otherwise |
| Media.MediaUrls.SignedUrlForAttachment | app/services/omnichannel/media.py:60-74 | a URL is given exactly for a key under the organisation's own prefix; another organisation's key is refused and leaves the cache alone |
| Media.OwnFilesOnly | app/services/omnichannel/media.py:60-63 | over any run, whatever is cached by then, an organisation asking for another's file is refused, and one asking for its own gets a URL for the key it asked for |
| Media.ServedUrlsLast | app/services/omnichannel/media.py:65-74 | over any run every URL served is for the asked key and stays valid at least an hour less the signing delay |
| Media.SameUrlWithinTheHour | app/services/omnichannel/media.py:3-9 | once a URL is signed every request for that file in the next hour gets the same one, whatever else was asked for in between, and the first one later a new one |
| Routing.Desk.RecordAssignment | app/services/omnichannel/routing.py:53-64 | the conversation is the named user's, one history row says so with its author and reason, and nothing else changed |
| Routing.Desk.ClaimConversation | app/services/omnichannel/routing.py:123-139 | a claim succeeds exactly for an owner, admin or member on a conversation of the organisation that nobody or the claimant has; it records the claimant, or changes nothing when already theirs, and each refusal has its own error |
| Routing.Desk.ReassignConversation | app/services/omnichannel/routing.py:157-171 | a reassignment succeeds exactly for an owner or admin, an assignee with a role and a conversation of the organisation; the conversation is then the named assignee's, in one history row with the actor as author; refused it changes nothing |
| Routing.Desk.ApplySingleAssigneeIfConfigured | app/services/omnichannel/routing.py:186-195 | exactly where a non-empty designee is configured the conversation becomes theirs, whoever holds it, recorded under the routing rule's name |
| Routing.AssigneeIsNewest | app/services/omnichannel/routing.py:53-64 | after any run the assignee is the newest history row's, none exactly without rows, and a claim is only ever the first row |
| Routing.HistoryReplaysThePast | app/services/omnichannel/routing.py:12-14 | any prefix of the final history gives the assignee at that moment |
| Routing.HistoryIsEarned | app/services/omnichannel/routing.py:112-195 | every history row of every run was written by a command entitled to it at that moment: an agent's claim of a conversation nobody had, an owner's or admin's reassignment to a member, or the configured designee |
| Routing.ClaimTwice | app/services/omnichannel/routing.py:130-139 | repeating a successful claim succeeds and adds no row |
| Routing.SecondClaimLoses | app/services/omnichannel/routing.py:130-136 | a second agent's claim is refused and changes nothing |
| Routing.AutoAssignOverridesIff | app/services/omnichannel/worker.py:180-186 | auto-assignment takes a conversation from its holder if and only if the organisation designates somebody else |
| Routing.ClaimOverridden | app/services/omnichannel/worker.py:178-186 | the run: opened, claimed, then auto-assigned |
| Ddb.SanitizeSupported | app/core/_ddb.py:20-34 | after sanitizing, the serializer meets no float or tuple at any depth |
| Ddb.RoundTripSameIff | app/core/_ddb.py:20-50 | a nested value comes back as the same data in normal form if and only if every decimal in it is whole or exactly a float, whatever the rounding |
| Ddb.LongDecimal | app/core/_ddb.py:42-45 | any other decimal comes back as another number, and as a whole float if that is the nearest |
| Ddb.RoundTripPlain | app/core/_ddb.py:42-50 | whatever went in, the result has no tuple and no decimal and its floats are floats |
| Ddb.NormalUnique | app/core/_ddb.py:42-50 | data has one normal form, so that determines the result |
| Ddb.RoundTripIdentityIff | app/core/_ddb.py:20-50 | the round trip is the identity on the normal values and on no others |
| Ddb.ItemRoundTrip | app/core/_ddb.py:37-55 | an item loses its top-level nulls and nothing else, and each value in it comes back as the same data if and only if its decimals are whole or floats |
| Ddb.ItemIdentityIff | app/core/_ddb.py:37-55 | an item comes back unchanged if and only if no value in it is null and all are normal |
| Storage.OrgIdIsSlashFree | app/core/membership.py:77-79 | every org id is made of lower-case letters, digits and dashes, whatever the name |
| Storage.SlugMeaning | app/core/membership.py:77-79 | a slug is the name's letters and digits in order with single dashes inside and none at the ends, or "org" |
| Storage.OneOrgPerKey | app/core/storage.py:136-139 | a key accepted for two slash-free org ids belongs to one org |
| Storage.SharedKeyIff | app/core/storage.py:136-139 | two org ids can have a key in common if and only if they are equal or one, followed by a slash, begins the other |
| Storage.UploadsAreOwn | app/core/storage.py:80-82 | an upload lies under its own organisation's and service's prefix and under no other slash-free organisation's |
| Storage.FilenameRecoveredIff | app/services/omnichannel/inbox.py:131-134 | the inbox recovers the uploaded filename, underscores included, if and only if it is not empty and has no slash |
| Storage.FilenameMeaning | app/services/omnichannel/inbox.py:122-134 | for any key the name shown is what follows the first underscore after the last slash, or all of that when nothing does |

## Left out

- Inbox.GetConversation: comparing `created_at` with a cursor that has no timestamp is modelled as an error; membership is a flag.
- Inbox.ListConversations: the search clauses are one opaque predicate; ids are ordered by code point, as under the C collation.
- Inbox.AttachmentsFor: the signed URL stands for its key (see `Media`); sizes and content types are omitted.
- Cursor.DecodeEncode: the decoder accepts JSON arrays of a string or null and a string, in ASCII, with canonical UTC timestamps; other spellings Python would also accept count as malformed.
- InboundWorker.EveryReachableStored: each item's transaction is one step, so overlapping transactions of two workers on one conversation are not covered; outbound rows, attachments and the delivery updates of the same payload (see `DeliveryStatus`) are not in these tables.
- Outbound.BatchIsARun: covers copies whose message row exists, as it does for every entry of the machine; the worker's answer to a missing row is in `Outbound.Worker.ProcessOutboundMessage`. The events published after a send are omitted.
- Summaries.RightWhenQuiet: columns that several overlapping transactions write at once are not claimed to be right; the code takes no row lock.
- DeadLetters.DeadFailedIff: says nothing of entries that come back under their worker or whose message gets a provider status; `DeadLetters.EarlyTimeout` shows why.
- SendReply.EveryReachableSound: the placeholder message id is taken to be unique; a call without a key never collides.
- Invoicing.EveryReachableLedger: transactions are serial; BigInteger overflow, the 28-digit decimal context and the stored precision of quantities are not in these tables (`InvoiceStateMachine.StoredQuantityIff` states what the last would change); customer fields, PDF, email and audit are omitted.
- InvoiceStateMachine.SubtotalError: amounts are computed on reals, so products of more than 28 digits, which the code rounds or rejects, are covered as if exact.
- RateLimit.AcceptsLikeTheLog: limits of at least one and a clock that does not go back; a limit of zero indexes an empty deque in the code and is a separate verdict here.
- Media.ServedUrlsLast: the time between reading the clock and signing is a parameter that the bound gives away.
- Secrets.StalenessBound: one secret at a time; a secret's JSON is its version number.
- Routing.AssigneeIsNewest: serial transactions; audit, events and realtime updates are omitted.
- Ddb.RoundTripSameIff: a float stands for the decimal its shortest spelling denotes and rounding is any function that leaves those alone; NaN, infinities, numbers beyond 38 digits and numbers outside DynamoDB's exponent range (1e300, say), which the serializer rejects, are not modelled; sets and binary values are left out.
- Realtime.Broker.Subscribe: message text stands for the JSON payload; a payload that does not serialize is not modelled.
- HTTP routers, authentication, signature checks, channel adapters' parsing, search ranking, PDF and email templates, metrics and settings: no property beyond their own bodies.
- Membership changes, audit queries and the suppression list: single conditional writes.
