# A verified model of the exam platform's concurrent and arithmetic core

The platform serves language exams: students sit attempts, listen to recorded sections,
watch live boards, and compete. This project models the parts of it whose correctness is
hard to see from any one function, and proves what they promise over every input and every
interleaving.

* **Realtime bus** (`Bus`): one channel's sequence counter, its capped and expiring replay
  log, its publishers, and a client that subscribes and then reads the log. Every Redis
  command is one atomic step; publishers may die between INCR and the pipeline. `BusLimits`
  drops every assumption about publishers and time and says exactly which of the documented
  promises remain.
* **WebSocket gateway** (`Gateway`, `Backpressure`, `Subscriptions`): pump, writer and reader
  as three tasks that interleave between their awaits and share a bounded outbound queue and a
  command queue. `Subscribing` says what one subscribe does, and why a connection closes;
  `GatewayGaps` exactly when a resync reaches the client and when a dropped
  channel is replayed.
* **From publisher to wire** (`EndToEnd`): bus and gateway as one machine for one channel of
  one connection. The pump's SUBSCRIBE, LRANGE and GET are the bus's steps, and what it polls
  is what pub/sub delivered, frames of a subscription it has since dropped included.
* **Outbox** (`Outbox`, `Relays`): one drain over a table of rows, and any number of
  concurrent relays that lock, send, mark, commit, abort or die.
* **Idempotent requests** (`Idempotency`): concurrent transactions against the unique index
  on scope, key and user.
* **Item statistics** (`Stats`): the point-biserial coefficient over exact reals.
* **Ranking** (`Sorting`, `Ranking`): competition ranks, the tiebreak key as sortable text,
  and podium changes.
* **Storage** (`Storage`, `HttpRange`): part files, their assembly, the chunked reader and
  byte ranges.
* **Codecs and paging** (`Utf8`, `Base64`, `Paging`, `Keyset`, `Grants`): cursors and tokens
  with the lenient decoder that reads them, and walks over a table that changes between pages.
* **Limits** (`RateLimit`, `Windows`): the Redis limiter, its counters shared by any number of
  processes, each with a failure latch; and the gateway's inbound frame budget.
* **Build scripts** (`SchemaClosure`, `BuildContext`): which schemas a document reaches, and
  which paths a .dockerignore file excludes.

`Wrappers`, `Bytes`, `Digits` and `Texts` hold shared vocabulary. Code that updates state in
place is modelled by classes and loops whose contracts equate the new state with a function
of the old one; the theorems are about those functions and about runs of steps.

`dafny verify dfyconfig.toml` checks everything.

## What turned out otherwise than documented

* `publish` says that a subscriber that sees number N can always find N-1 in the buffer. It can
  exactly when no other publisher still holds N-1, none died holding it, and N-1 is recent: the
  log has not emptied since and fewer than a hundred frames have come after it
  (`BusLimits.PredecessorExactly`). Where publishes do not overlap that means exactly that its
  publisher did not die and the log has not emptied since (`BusLimits.PredecessorIsLogged`).
  Publishes that overlap but reach Redis in the order of their numbers keep the promise too.
* A replay that calls itself complete can be wrong. Over a log that holds something, it is for a
  given `since` exactly when the oldest number in the log is at most `since` + 1 and a frame
  numbered above `since` has left the log (`BusLimits.WrongOverALogExactly`); and it is for some
  `since` exactly when a frame that has left is numbered above the oldest still there
  (`BusLimits.SomePointIsWrongExactly`, with a run in `BusLimits.OverlapLosesAFrame`). Over an
  empty log it is exactly when the counter has lapsed and something above `since` had been
  published (`BusLimits.EmptyLogExactly`, with a run in `BusLimits.LapsedCounterHidesAFrame`).
* A client that leaves a channel and joins it again before the pump has looked is sent what was
  still unpolled of the old subscription, and then, with no resync, only what is published after
  the new one. What it is sent is a beginning of what has been published since it joined exactly
  when nothing was left unpolled or nothing has been sent (`EndToEnd.RejoinExactly`, with a run in
  `EndToEnd.OldFramesAfterARejoin`).
* The gateway ignores whether a `resync` frame was accepted. The client is told exactly when the
  queue has room as the answer is handled (`GatewayGaps.ResyncToldExactly`,
  `GatewayGaps.ResyncSentExactly`); otherwise it keeps a hole over an open connection
  (`GatewayGaps.RefusedResyncGoesUnnoticed`).
* Replayed frames are not filtered by the subscriptions of the moment. A channel the client has
  dropped is still replayed to it exactly when its replay is owed: named by the pump's current
  command or by a queued subscribe with a point to resume from
  (`GatewayGaps.ReplayedAfterDropExactly`, with a run in `GatewayGaps.ReplayIgnoresAnUnsubscribe`).
* A cursor nobody minted is not always refused: the decoder skips foreign characters
  (`Paging.StrangersDecode`); `Paging.MintedExactly` says which ones are minted.
* Two different numbers that are both below -10^9 are ordered wrongly by the tiebreak text, and
  among numbers that fit the width no others are (`Ranking.NegativeNumbersReverse`). The rule
  `duration_desc` reaches them with durations of more than 10^9 ms, about 11.57 days.
* An item can discriminate negatively and not be flagged: the flag needs p(1-p)(M1-M0)^2 to
  exceed 0.00005^2 times the variance of the totals (`Stats.NegativeFlagMeans`);
  `Stats.UnnoticedIsNotFlagged` is a cohort of 125 with totals of 0 to 40 that stays below.

Three limits of single functions lie outside what the rest of the repository feeds them:

* Part names sort as their numbers do up to 99999 parts and no further
  (`Storage.NamesInOrder`). Uploads are capped at 500 MiB in parts of 5 MiB, so there are never
  more than a hundred (`Storage.AtMostAHundred`).
* The regex for `**` stops at a line break (`BuildContext.RightUnlessALineBreak`). The paths
  asked about are words of COPY lines and script tokens, which hold no white space.
* A stored response that is empty is falsy to the handlers, which then execute again and fail on
  insert (`Idempotency.LookupAfterCommit`, `Idempotency.LateExecutionFails`). Every handler
  stores a payload with fields, so no stored response is empty.

## Model

| member | source | states |
|---|---|---|
| Bus.Channel.Publish | app/platform/realtime.py:210-236 | a publish that nothing interrupts numbers, logs, trims, fans out and renews both lifetimes |
| Bus.ReplayIsExact | app/platform/realtime.py:239-260 | over a log that is a tail of what was published, an answer called complete is exactly the published frames above `since` |
| Bus.ResumeWithoutHoles | app/platform/realtime.py:218-260 | in every run without overlapping publishes, with crashes, trims and expiry, a client resumed from any number is told to refetch or the first copies it is offered above that number are exactly the frames published above it, increasing; and nothing else if some frame had reached that number when it subscribed |
| Bus.CutStreamHasNoHole | app/api/realtime.py:548-598 | wherever that stream is cut, what got through above the number is a beginning of those frames |
| Bus.RefusedExactlyOnAGap | app/platform/realtime.py:247-260 | a replay is incomplete exactly when some number above `since` was handed out that the log no longer reaches |
| Bus.LogNeverOutlivesCounter | app/platform/realtime.py:72-81 | while the log holds a frame the counter is alive and at or above it |
| Bus.LogHoldsTheNewest | app/platform/realtime.py:228-230 | the log is the newest frames, all since it was last empty or the last hundred |
| BusLimits.PredecessorExactly | app/platform/realtime.py:224-231 | publishes overlapping or not: when N is fanned out N-1 is in the log if and only if no other publisher holds it, none died with it, and the log has neither emptied nor trimmed past it |
| BusLimits.PredecessorIsLogged | app/platform/realtime.py:224-231 | without overlap, in every life of the counter: if and only if its publisher did not die and the log has not emptied since |
| BusLimits.WrongOverALogExactly | app/platform/realtime.py:247-260 | in any run whose log holds something, the answer for `since` is complete and wrong if and only if the oldest number logged is at most `since` + 1 and a frame that left the log is numbered above `since` |
| BusLimits.SomePointIsWrongExactly | app/platform/realtime.py:247-260 | some `since` gets such an answer if and only if a frame that left the log is numbered above the oldest still there |
| BusLimits.EmptyLogExactly | app/platform/realtime.py:251-260 | in any run whose log is empty: "complete" if and only if the counter has lapsed or is not above `since`, and wrongly so if and only if it has lapsed and something above `since` was published |
| BusLimits.OverlapLosesAFrame | app/platform/realtime.py:220-231 | two overlapping publishes and an expiry after which a replay calls itself complete and lacks a frame |
| BusLimits.LapsedCounterHidesAFrame | app/platform/realtime.py:251-256 | a run in which the counter lapses and a replay calls itself complete though a frame was missed |
| Gateway.Connection.Deliver | app/api/realtime.py:330-347 | a live frame is offered only if its channel is subscribed at that moment, and a refusal closes the connection |
| Gateway.Connection.DeliverReplay | app/api/realtime.py:573-598 | replayed frames are offered in order up to the first refusal; an incomplete or failed replay offers a resync |
| Gateway.Connection.CommitVerdicts | app/api/realtime.py:445-469 | permitted channels join the subscriptions and go to the pump as one command; the others are answered with errors |
| Gateway.Connection.LeaveChannels | app/api/realtime.py:487-500 | exactly the held channels among those named leave, and one command says so |
| Gateway.Connection.WithinBudget | app/api/realtime.py:290-296 | the inbound meter moves as the specification of arrival-anchored windows says |
| Gateway.Subscription.Add | app/platform/realtime.py:299-303 | a channel is subscribed once, and Redis is asked only when it is new |
| Backpressure.WireIsAPrefix | app/api/realtime.py:275-301 | in every interleaving the wire, pings apart, is a beginning of the accepted frames, and after a refused bus frame nothing accepted later is ever sent |
| Backpressure.BusFramesArriveInOrder | app/api/realtime.py:341-378 | the bus frames on the wire are a beginning of those the pump took off the bus |
| Subscriptions.SubscriptionsAgree | app/api/realtime.py:316-340 | the commands still to run, some perhaps half done, turn what Redis was asked for into the subscribed set, which never exceeds the maximum |
| Subscriptions.DroppedChannelIsSilent | app/api/realtime.py:330-340 | a channel that is not subscribed and is not joined again gets no further live frame |
| Subscriptions.DroppedIsTheIntersection | app/api/realtime.py:487-500 | an unsubscribe drops exactly the named channels that were held |
| Subscribing.RefusedAboveTwenty | app/api/realtime.py:432-440 | a subscribe is refused exactly when the channels held and those it asks for beside them are more than twenty; asked for are the names whose channel is not held |
| Subscribing.SubscribeNamesItsChannels | app/api/realtime.py:432-469 | whatever the other tasks do meanwhile, one command is queued with the client's point, and it names exactly the channels of the request already held and those allowed now, which alone join the connection |
| Subscribing.SubscribeOwesReplays | app/api/realtime.py:454-469 | so a client that gave a point is owed a replay of every one of them, the held ones included |
| Subscribing.RefusalsAreAnswered | app/api/realtime.py:455-461 | each refused channel is answered with an error while the queue has room |
| Subscribing.AcknowledgedIsDone | app/api/realtime.py:548-571 | in every run a subscribe is acknowledged only once Redis has been asked for all its channels, an unsubscribe only once it dropped them |
| Subscribing.FirstCauseStays | app/api/realtime.py:297-301 | a step closes the connection exactly for its cause, 1013, 1008 or 1011, and the first code stays |
| Subscribing.TasksEnd | app/api/realtime.py:306-395 | what ends each of the three tasks: for the pump a live frame without room, a lost bus or a failure, but not a replay cut short |
| GatewayGaps.RefusedResyncGoesUnnoticed | app/api/realtime.py:586-594 | a run in which the resync is refused, the connection stays open and the client is told of nothing |
| GatewayGaps.ReplayIgnoresAnUnsubscribe | app/api/realtime.py:595-598 | a run in which a replayed frame is accepted for a channel dropped meanwhile |
| GatewayGaps.ResyncToldExactly | app/api/realtime.py:586-594 | from every state and over every continuation: the resync for a refetch answer is the next frame the queue takes, ahead of all later ones, if and only if the queue has room; without room it is never taken unless another replay is answered so |
| GatewayGaps.ResyncSentExactly | app/api/realtime.py:275-301 | over every run the same holds of the wire: with room the resync is sent in that place, without room it is not sent |
| GatewayGaps.ReplayedAfterDropExactly | app/api/realtime.py:487-500 | for a channel dropped and not joined again, over an open connection, a run that still accepts a replayed frame of it exists if and only if its replay is owed |
| EndToEnd.PumpStepsAreCovered | app/api/realtime.py:548-571 | every SUBSCRIBE and UNSUBSCRIBE of the pump is a step of the joint machine, and those for the channel are the bus's too |
| EndToEnd.PumpPassesOn | app/api/realtime.py:306-347 | over every joint run, what the queue took of the channel in this session is exactly the replay, then what earlier subscriptions had left, then what came live, as far as the pump has polled, and a beginning of that once a bus frame was refused |
| EndToEnd.AllIsSent | app/api/realtime.py:350-378 | over an open connection whose writer has emptied the queue, the client has been sent all that the queue took of the session |
| EndToEnd.NoHoleOnTheWire | app/api/realtime.py:548-598 | from publisher to wire: after a complete replay the numbers sent are a beginning of that stream, and its first copies above the resume point are a beginning of what was published above it |
| EndToEnd.ResyncComesFirst | app/api/realtime.py:573-594 | after a refetch answer the numbers sent are a beginning of what was left and what pub/sub delivered, and a client there was room to tell is sent the resync before any of them |
| EndToEnd.FreshSubscriptionHasNoHole | app/api/realtime.py:306-347 | a subscription that has not resumed is sent a beginning of what earlier ones had left and then everything published since it began, in order and without repeats |
| EndToEnd.RejoinExactly | app/api/realtime.py:306-347 | that is a beginning of what was published since it began if and only if nothing was sent or nothing had been left |
| EndToEnd.OldFramesAfterARejoin | app/api/realtime.py:309-340 | a run in which a client that leaves and joins again is given frames 2 and 4 though 3 was published |
| Windows.AtMostTwice | app/api/realtime.py:290-296 | at most twice the budget is accepted in any half-open interval as long as the window |
| Windows.TwiceIsReached | app/api/realtime.py:290-296 | and twice the budget can be accepted |
| Windows.RefusedOnlyAboveTheLimit | app/api/realtime.py:290-296 | an arrival is turned away only if with it more than the limit have come in less than a window |
| Outbox.SendAllReaches | app/workers/actors.py:546-551 | a dispatch that returns has reached every actor in order, one that raises a beginning of them |
| Outbox.DispatchIsAllOrRaises | app/workers/actors.py:502-551 | a dispatch is complete only for a routed event all of whose actors took the send |
| Outbox.DispatchReaches | app/workers/actors.py:502-551 | a complete dispatch has sent to the route's actor first and then to the whole fan-out in order, and to nobody else; an unrouted one to nobody |
| Outbox.SelectedAreTheOldest | app/workers/relay.py:84-94 | the selected rows are undispatched, due, short of eight attempts and unlocked, oldest first by due time and id, and none such is left out while the batch has room |
| Outbox.Table.SelectForUpdate | app/workers/relay.py:84-94 | the batch is the first eligible unlocked rows by due time and id |
| Outbox.Table.Drain | app/workers/relay.py:96-112 | exactly the selected rows are marked or rescheduled, and the count is that of the sends that returned |
| Outbox.DrainShrinksEligible | app/workers/relay.py:115-135 | at a fixed moment a drain takes exactly the selected rows out of the eligible set |
| Outbox.DrainsEnd | app/workers/relay.py:84-112 | repeated drains at one moment leave exactly what the batches do not cover, so they end |
| Outbox.Table.PurgeDispatched | app/workers/relay.py:150-160 | exactly the rows dispatched before the horizon are deleted and counted |
| Relays.DispatchedWasSent | app/workers/relay.py:96-108 | in every run of any number of relays a committed or purged dispatched row was sent to every one of its actors |
| Relays.EveryEventIsAccountedFor | app/workers/relay.py:83-108 | every event created is exactly one of pending, stuck, dispatched and purged |
| Relays.DuplicatesComeFromAborts | app/workers/relay.py:104-108 | complete dispatches of an event are its rolled-back ones, and at most one more |
| Relays.RowsAreHeldOnce | app/workers/relay.py:93 | no two relays hold one row, and a held row is still eligible |
| Relays.OnlyPoisonIsCharged | app/workers/relay.py:126-127 | attempts are the committed non-transient failures and never exceed eight |
| Relays.ExhaustionTakesTime | app/workers/relay.py:57-61 | the first and the eighth charged failure lie at least 254 seconds apart |
| Relays.DrainCanFinish | app/workers/relay.py:84-112 | from every reached state a relay can take any selection of routed rows all the way, whatever the others hold: those rows end marked with its moment, all others as they were |
| Relays.LadderFits | app/workers/relay.py:128-129 | the ten-minute cap never shortens the delay of an eligible row |
| Relays.OutcomeDecides | app/workers/relay.py:96-135 | a sent row carries the moment and is never due again; any other is due again from exactly two to the attempts so far seconds later, a poisonous outcome alone counting, until eight have |
| Idempotency.Handle.Replay | app/api/deps.py:264-278 | no key and no row give nothing, another body conflicts, the same body gives the stored response |
| Idempotency.KeysAreApart | app/api/deps.py:264-292 | two requests come under one key exactly when both carry one and header, scope and user agree |
| Idempotency.OneExecutionPerKey | app/api/deps.py:280-292 | between sweeps at most one execution per scope, key and user commits, and every success returns its response for its body |
| Idempotency.FirstExecutes | app/api/deps.py:264-292 | from every reached state a new request under a key that has no row and is not being inserted can execute, store and be answered |
| Idempotency.AgainIsAnswered | app/api/deps.py:269-278 | and one under a key that has a row can be answered at once, with the stored response for the same body and a conflict for another |
| Idempotency.LookupAfterCommit | app/api/deps.py:269-278 | in every run that goes on from a commit without sweeping the key, a request that had not yet looked it up ends in failure, in a conflict if its body differs, or replayed with the committed response if not; it executes only if that response is empty |
| Idempotency.LateExecutionFails | migrations/versions/0029_idempotency_key_per_user.py:46-50 | whoever executes under a committed key cannot succeed while the row is there |
| Idempotency.OthersChangeNothing | app/api/deps.py:270-273 | deleting all other users' requests from a run leaves a run with the same results |
| Stats.AbsentExactly | app/modules/analytics/stats.py:97-112 | the coefficient is absent exactly for fewer than two responses, nobody or everybody right, or equal totals |
| Stats.CoefficientIsBounded | app/modules/analytics/stats.py:106-116 | its square is at most one, and one exactly when each group has a single total |
| Stats.TotalVariance | app/modules/analytics/stats.py:106-110 | for every list of responses with both groups, the variance of the totals is the spread within the two groups over n plus p(1-p)(M1-M0)^2 |
| Stats.IsPearson | app/modules/analytics/stats.py:89-116 | it is the covariance of the right-or-wrong indicator with the totals over their standard deviations |
| Stats.ScaleDoesNotMatter | app/modules/analytics/stats.py:89-116 | adding a constant to all totals or multiplying them by a positive number changes nothing, absence included |
| Stats.SignIsTheGroupDifference | app/modules/analytics/stats.py:114-116 | it is negative exactly when those who were right did worse over all |
| Stats.NegativeFlagMeans | app/modules/analytics/stats.py:119-133 | the negative flag is set if and only if at least twenty answered, some rightly and some wrongly, M1 < M0, and p(1-p)(M1-M0)^2 exceeds 0.00005^2 times the variance |
| Stats.UnnoticedIsNotFlagged | app/modules/analytics/stats.py:119-133 | a cohort of 125 with totals of 0 to 40 and M1 < M0 that is not flagged |
| Stats.OtherFlagsMean | app/modules/analytics/stats.py:119-133 | the other flags in the inputs: twenty responses or more, and fewer than 4.995 or more than 98.005 in a hundred right, or a wrong answer with a share of a tenth |
| Stats.RoundsToNearest | app/modules/analytics/stats.py:116 | rounding gives the nearest ten-thousandth, of two as near the even one |
| Ranking.Rank | app/modules/competitions/ranking.py:48-85 | names other than the six rules are refused; otherwise one entry has a smaller rank than another exactly when a rule places it before and the earlier rules leave them level, and keys are rendered |
| Ranking.RankFollowsTheRules | app/modules/competitions/ranking.py:48-85 | the same of any board, in the entries' scores, times, durations and bands; a rank is shared exactly when every rule leaves two level |
| Ranking.BoardIsSorted | app/modules/competitions/ranking.py:70-74 | a board is the input rearranged, sorted by key, equal keys in the order given |
| Ranking.RankIgnoresInputOrder | app/modules/competitions/ranking.py:75-85 | over the same entries in any order a better key has a smaller rank and ranks are equal exactly for equal keys |
| Ranking.RanksRise | app/modules/competitions/ranking.py:78-82 | ranks never decrease down the board and never exceed the position |
| Ranking.TopOfABoard | app/modules/competitions/ranking.py:109-111 | the top list is the first rows of the board, at least as many as there are places, and more only by a tie with the last place |
| Ranking.PodiumChanges | app/modules/competitions/ranking.py:102-115 | the count is the padded Hamming distance of the two top lists |
| Ranking.DifferencesIsADistance | app/modules/competitions/ranking.py:113-115 | that is symmetric, zero exactly for equal lists, and obeys the triangle inequality |
| Ranking.TextKeepsTheOrder | app/modules/competitions/ranking.py:88-99 | for any rules, rendered keys compare as text exactly as the tuples do, and are equal exactly when these are |
| Ranking.TextReproducesTheBoard | app/modules/competitions/ranking.py:43-45 | the stored text alone gives the ranks back: one plus the number of rows whose text sorts before |
| Ranking.NegativeNumbersReverse | app/modules/competitions/ranking.py:95-96 | two numbers that fit the width compare rightly as text exactly unless the offset leaves both negative |
| Storage.FileStorage.PutPart | app/platform/storage.py:399-405 | the part holds the data and the tag is its hash |
| Storage.FileStorage.StreamPart | app/platform/storage.py:407-435 | a stream that breaks or runs over the limit is an error and leaves no part; any other leaves exactly its bytes and their hash |
| Storage.FileStorage.PutPartRoute | app/api/routers/object_storage.py:66-92 | 413 exactly for a declared or a real length over the limit, 200 exactly for a stream that is neither that nor broken, which then is the part |
| Storage.FileStorage.CompleteMultipart | app/platform/storage.py:437-456 | the object is the parts joined in name order, with its length and the hash of its bytes, and the parts are gone |
| Storage.NamesInOrder | app/platform/storage.py:404 | part names sort as their numbers do exactly up to 99999 parts |
| Storage.WrittenHolds | app/platform/storage.py:399-435 | a part file exists exactly when the last attempt at it went through, and holds its part of the file |
| Storage.ArrivedMeans | app/platform/storage.py:407-435 | a part has arrived exactly when its last attempt neither broke nor ran too long |
| Storage.WrittenIs | app/platform/storage.py:399-435 | after any attempts a part holds what its last attempt brought if that went through, and is gone if not |
| Storage.Reassembles | app/platform/storage.py:386-456 | parts written in any order, any number of times, with failed streams between, assemble to the file once each part's last attempt went through |
| Storage.FileStorage.Get | app/platform/storage.py:339-357 | the chunks are non-empty, at most 64 KiB, and join to exactly the bytes asked for that exist, whatever the reads return |
| Storage.FileStorage.GetObject | app/api/routers/object_storage.py:94-134 | the answer is the delivery of the object under the header |
| Texts.StripIsTheCore | app/platform/http_range.py:34 | stripping takes white space from both ends, all of it and nothing else |
| HttpRange.GroupsSpell | app/platform/http_range.py:18 | the pattern matches exactly `bytes=`, digits, a dash and digits, and gives those digits |
| HttpRange.ParseMeansTheHeader | app/platform/http_range.py:21-48 | malformed headers and only they are no range; a range gives exactly the positions it selects, and a start past the end exactly when it selects none |
| HttpRange.WrittenRange | app/platform/http_range.py:43-48 | a header written for positions a to b is read as a to b, cut at the end |
| Storage.DeliveryAgrees | app/api/routers/object_storage.py:119-134 | 200 exactly for no range; a 206 body is the stated span, inside the object, and as long as Content-Length says |
| Storage.SelectedIsDelivered | app/api/routers/object_storage.py:125-134 | 416 exactly when the header selects nothing, otherwise exactly the selected positions |
| Storage.RangesCoverTheObject | app/api/routers/object_storage.py:130-134 | the bodies of the answers to requests for consecutive ranges that cover an object join to the object |
| Utf8.DecodeInvertsEncode | app/api/paging.py:50 | every text comes back from its UTF-8 bytes |
| Utf8.EncodeInvertsDecode | app/api/paging.py:64 | the strict decoder reads only what the encoder writes |
| Base64.DecodeInvertsEncode | app/api/paging.py:49-64 | every byte string comes back from its unpadded base64url text through the lenient decoder |
| Base64.EncodedExactly | app/api/paging.py:63-64 | text is an encoding exactly when it is canonical: url-safe letters, a possible length, no loose bits |
| Base64.JunkIsSkipped | app/api/paging.py:63-64 | characters outside the alphabet are skipped |
| Paging.CursorRoundTrip | app/api/paging.py:39-66 | every non-empty key comes back from its cursor |
| Paging.IdRoundTrip | app/api/paging.py:69-77 | every integer id comes back from its cursor |
| Paging.KeyRoundTrip | app/api/paging.py:80-115 | a compound key comes back exactly when no part holds the separator, and is refused otherwise |
| Paging.OtherArityIsRefused | app/api/paging.py:109-111 | a cursor minted for another number of parts is refused |
| Paging.MintedExactly | app/api/paging.py:53-66 | of the cursors that decode, the minted ones are exactly the canonical ones |
| Paging.StrangersDecode | app/api/paging.py:53-60 | for every key there is a cursor nobody minted that decodes to it |
| Keyset.PageIsExact | app/api/paging.py:125-138 | a page holds the next rows, none skipped, and has a cursor, standing for its last row, exactly when another row follows |
| Keyset.WalkIsSound | app/api/routers/assets.py:125-128 | whatever comes and goes between pages, returned ids strictly increase and a row there at every page is returned exactly once |
| Keyset.NothingIsInvented | app/api/routers/assets.py:125-128 | every row returned was there when its page was asked for |
| Keyset.StaticWalk | app/api/routers/assets.py:103-128 | an unchanging table is walked whole and in order, ending with a null cursor |
| Keyset.PagesAreCeiling | app/api/paging.py:125-138 | in max(1, ceil(n / limit)) pages |
| Grants.IssuedIsVerified | app/platform/grants.py:52-92 | an issued grant gives back its fields, an empty attempt dropped, to its user and for its media until its expiry, and to others the refusal that fits; names that are not ASCII raise |
| Grants.EndsAtTheFloor | app/platform/grants.py:58 | that expiry is the floor of the time of issue plus the time to live |
| Grants.ThreePieces | app/platform/grants.py:95-103 | a token always splits into its version, its body and its signature |
| Grants.VerifiedIsSigned | app/platform/grants.py:65-115 | whatever verifies is a token signed over its own body, for the user and media asked, not expired |
| Grants.MissingFields | app/platform/grants.py:74-92 | a signed payload without a user or a medium is nobody's, without an expiry it raises, and without a purpose it is for an exam |
| Grants.OtherBodyIsRefused | app/platform/grants.py:108-123 | a signature put on another body is refused, if the hash tells the two apart |
| Grants.ObjectRoundTrip | app/platform/grants.py:136-166 | an object signature opens its key until it expires, and another key exactly when the hashes agree |
| Grants.ChangedObjectIsRefused | app/platform/grants.py:150-166 | an object signature with its expiry or its key changed is refused, if the hash tells the two apart |
| RateLimit.Limiter.Check | app/platform/ratelimit.py:111-154 | the process's latch, the counters all processes share and the verdict move as specified, an increment behind a lost reply included |
| RateLimit.VerdictIsExact | app/platform/ratelimit.py:126-154 | in every run of any number of processes a call is refused exactly when it was answered and the limit had been counted before it in its window, and an allowed one is told what remains |
| RateLimit.CountersCount | app/platform/ratelimit.py:129-131 | whatever is skipped or lost, a counter stands at the calls it has counted and does not expire before a second after its window |
| RateLimit.CountersLapse | app/platform/ratelimit.py:129-131 | nor does it outlive its window's length and a second after the last call |
| RateLimit.AtMostTheLimit | app/platform/ratelimit.py:152-154 | in each window the answered calls allowed are at most the limit and at most those counted, and fewer than the smaller of the two only by calls whose reply was lost |
| RateLimit.AtMostTwiceTheLimit | app/platform/ratelimit.py:20-26 | over all processes at most twice the limit is allowed in any half-open interval as long as the window |
| RateLimit.RetryIsClose | app/platform/ratelimit.py:127 | the wait told is between one second and the window and within a second of the true reset |
| RateLimit.DialsAreApart | app/platform/ratelimit.py:123-138 | after a dial that failed the next dial of the same process comes at least thirty seconds later |
| RateLimit.DialledExactly | app/platform/ratelimit.py:123-138 | a call of a process is dialled exactly when no dial of it failed in the thirty seconds before |
| RateLimit.NamesDiffer | app/platform/ratelimit.py:130 | different keys and windows have different counters |
| SchemaClosure.RefsExactly | scripts/check_schema_conformance.py:240-249 | a name is referred to in a node exactly when some object inside it, through objects and lists alike, has a `$ref` into the schemas whose last segment is that name |
| SchemaClosure.Walk | scripts/check_schema_conformance.py:240-249 | adds exactly the names referred to anywhere in the node |
| SchemaClosure.Collect | scripts/check_schema_conformance.py:224-238 | adds exactly the names reached from the node without passing through names already held |
| SchemaClosure.CollectsTheReachable | scripts/check_schema_conformance.py:224-238 | if what was held is closed under references, what is added is everything reachable, and the result is closed again |
| SchemaClosure.PropsOf | scripts/check_schema_conformance.py:268-280 | with a shared seen set it gives the properties of exactly the schemas it is first to see |
| SchemaClosure.DeclaredIn | scripts/check_schema_conformance.py:268-280 | an object's own properties are the keys under "properties", its branches the items under "allOf" |
| SchemaClosure.SchemaExactly | scripts/check_schema_conformance.py:224-280 | a defined schema has the properties declared in it and in its branches, refers to what an object in it refers to and extends what its branches refer to; a name nothing defines has none of these |
| SchemaClosure.SearchIsExact | scripts/check_schema_conformance.py:268-280 | a search with nothing seen sees exactly what `allOf` reaches, on cycles, diamonds and undefined names too |
| SchemaClosure.Properties | scripts/check_schema_conformance.py:268-280 | the result is the union of the properties of all schemas `allOf` reaches |
| BuildContext.ToRegex | scripts/check_build_definition.py:120-143 | the loop gives the pieces of the pattern |
| BuildContext.TranslationAgrees | scripts/check_build_definition.py:120-143 | on a path without a line break, or for a pattern without `**`, the regex accepts exactly what the pattern means |
| BuildContext.RightUnlessALineBreak | scripts/check_build_definition.py:131-143 | the regexes of all patterns are right about a path exactly when it has no line break |
| BuildContext.SlashesAreCounted | scripts/check_build_definition.py:123-127 | without `**` a regex accepts only paths with as many slashes as its pattern |
| BuildContext.CleanedIsTheCore | scripts/check_build_definition.py:150-154 | a stripped line is exclamation marks, its pattern and slashes, the pattern neither beginning with a mark nor ending with a slash |
| BuildContext.RulesMeanTheLines | scripts/check_build_definition.py:146-172 | for a path without a line break, the rules of a file exclude it if and only if the last line that is neither blank nor a comment and whose pattern means the path or a directory above it does not begin with an exclamation mark |
| BuildContext.ExcludedBy | scripts/check_build_definition.py:146-172 | the two loops together decide exactly that |
| BuildContext.CandidatesAreAncestors | scripts/check_build_definition.py:166-167 | the candidates are exactly the path and the directories above it |
| BuildContext.IsExcluded | scripts/check_build_definition.py:158-172 | a path is excluded exactly when the last rule that matches it or a directory above it excludes |

## Left out

- Bus.ResumeWithoutHoles: holds for runs without overlapping publishes on the channel, within the counter's life, in which a pipeline runs while the counter outlives a log; `BusLimits` says what remains otherwise.
- BusLimits.PredecessorExactly: and the other exact conditions there hold in any life of the counter that began with no publisher under way and an empty log; numbers of an earlier life that are fanned out later are not told apart.
- EndToEnd.NoHoleOnTheWire: under the conditions of `Bus.ResumeWithoutHoles`, for one session at a time, which begins where the pump subscribes the channel or reads its log and lasts while the reader keeps the channel; frames left from before the counter last restarted are shut out. Other channels' replays and live frames are arbitrary.
- Gateway.Connection.CommitVerdicts: `sorted(held)` is any enumeration of the subscribed set; `channels.decide` and `channels.parse` are not part of this model and are parameters; heartbeat timing and the send timeout are steps that may happen at any time.
- Outbox.Table.SelectForUpdate: PostgreSQL's SELECT ... FOR UPDATE SKIP LOCKED is one atomic step, its ordering found by repeated minimum.
- Stats.CoefficientIsBounded: floating point is replaced by exact reals with a square root given by its defining property; only the rounding to four places is modelled, in the flags.
- Stats.NegativeFlagMeans: the counting of answer texts, times and shares by `Counter` and the normalising of answers are not modelled; the shares of the commonest wrong answers are given.
- Ranking.TextKeepsTheOrder: scores and bands have at most three decimals; keys hold numbers at or above -10^9 and below 10^14 - 10^9 and years from 1000; other time zones than UTC are not modelled.
- Storage.Reassembles: one operation on an upload at a time; a completion while a part is being written is not modelled. Directories, content-type files and path checks are left out.
- HttpRange.ParseMeansTheHeader: numbers of more than 4300 digits, which Python refuses to convert, are read as numbers here.
- Paging.IdRoundTrip: integer texts are read with signs, underscores and the white space of the first 256 characters; digits of other scripts are not.
- Grants.IssuedIsVerified: HMAC and JSON are functions, of which only that JSON reads back what it wrote is used; comparison in constant time is plain equality of ASCII texts and raises for others.
- RateLimit.CountersCount: Redis and the processes share one clock, which does not go back, and Redis runs a call that it answers less than a second after the call read the clock; the client's time-outs are a quarter of a second.
- RateLimit.DialsAreApart: for calls of a process that follow one another.
- SchemaClosure.PropsOf: malformed documents, on which attribute access raises, count as having no such part.
- BuildContext.TranslationAgrees: regexes are sequences of the four pieces the translation writes; the engine that matches them is a parameter.
- The S3 backend, audio transcoding, HTTP plumbing and subprocess calls: foreign systems.
- `burn_score`: an exponential formula without branching.
- Frame builders of the workers (`_speaking_matched` and its like): one record each.
- `schema_props`, `_inline` and the rest of the conformance script: the same recursion over fewer keys, or heuristics.
- The `If-Match` check on asset versions and the immutability triggers of the schema.
