# Verified models of the user service's hard parts

A Dafny model of the parts of the repository that carry its hardest promises, with proofs of those promises
over all inputs, all runs and all interleavings. `dafny verify dfyconfig.toml` checks everything.

| Part | Files |
|---|---|
| Kafka consumer: fetch loops, workers, batch aggregator, offset committer | `Kafka.dfy`, `Pipeline.dfy`, `PipelineSafety.dfy`, `PipelineRuns.dfy`, `PipelineShutdown.dfy`, `PipelineChannels.dfy`, `FetchLoop.dfy`, `Aggregator.dfy`, `AggregatorCoverage.dfy`, `Committer.dfy` |
| Optimistic versioned update of a user row | `VersionedUpdate.dfy`, `UpdateOutcomes.dfy`, `UpdateConsumer.dfy` |
| Compiler from JSON conditions to SQL | `Conditions.dfy`, `ConditionCompiler.dfy` |
| Rate limiters | `Windows.dfy`, `RedisStore.dfy`, `ScriptInterleavings.dfy`, `FixedWindow.dfy`, `LimiterAgreement.dfy` |
| Field selectors | `FieldText.dfy`, `Selector.dfy`, `SelectorParser.dfy` |
| Lease lock on a Redis key | `RedisLock.dfy` |
| Error aggregates | `ErrorAggregate.dfy` |
| Credential cache and the password check behind it | `CredentialCache.dfy` |
| Audit manager | `Audit.dfy` |
| Shared: options and results, joining and splitting | `Wrappers.dfy`, `Text.dfy` |

## How it is built

Code that changes state step by step is a class or a method with loops, and its contract ties the new state to a
function of the old one; the promises are then proved about that function. Where goroutines or processes share
state, each atomic step is an action and a run is any list of actions: an action that is not due changes nothing,
so every list is a run and "for all lists" means "for every interleaving". What lies outside (brokers, databases,
clocks, lost replies, other processes, map iteration order, the byte order of the sort, SHA-256, bcrypt, the date and
number parsers) is a parameter about which nothing is assumed, except where a theorem says so in its `requires`.

Each decision is also stated apart from the code that takes it: outcomes by what happened to a message, verdicts by
what the counters returned, conditions by what their JSON says of a row, terms by their text, batches by the limit in
force.

## What the proofs found

* **Committer.** `nextOffset` is the least offset without a successful acknowledgement exactly when the last commit
  call did not fail; the start is the first successful acknowledgement seen, so offsets that fail or arrive before it
  are never committed themselves, but are covered by the first commit (`FailureBelowStartIsCovered`).
* **Shutdown.** Once the fetch loops have returned, no schedule of the other goroutines and no outcome of the remaining
  jobs keeps the consumer from finishing, and they never block each other.
* **Aggregator.** The 25 ms timeout set for a first create message on an idle channel (consumer.go:981-989) is
  overwritten by `adjustParams` at the head of the next loop round (970), so no `select` ever waits with it:
  `SelectsWithinBounds` shows that each one uses the target of that round.
* **Rate limiters.** The script and the fixed-window limiter decide every call alike if and only if the first call
  comes exactly at `windowStart` or at least one window later. A caller who waits `retryAfter + 1` seconds is admitted
  if and only if fewer than `limit` calls were made since the counter expired, or the first of these is a window old.
  The unconditional promise fails for every window longer than a nanosecond (`RetryPromisedExactly`).
* **Versioned update.** That no update is lost, and that a version is written at most once, holds up to 2^64 writes of
  one row and no further: then versions repeat, and a patch of a snapshot that old is written over all the others.
  In every run an update has written once and a discarded, conflicting or rejected message not at all; one that ends
  in a retry has written exactly if its statement took effect and was answered with an error all the same.
* **Selectors.** Printing and parsing keep the requirements if and only if each is printable. A backslash in a field
  is harmless, even at its end; `=`, a comma outside an escape, a trailing `!` before a plain `=`, and two empty
  parts are not. Unescaping undoes escaping except for text that holds both an invalid UTF-8 byte and a special
  character: such a byte comes back as U+FFFD.
* **Redis lock.** `Renew` cuts the timeout to whole seconds. Below one second it deletes the key and still reports
  success. Instances that count on their full timeout exclude each other in every run if and only if all timeouts
  are whole positive numbers of seconds; counting on the whole seconds only is always safe.
* **Error aggregates.** The comment on `filterErrors` says its result is flattened (aggregate.go:191-194). The code
  keeps every nested aggregate that is not emptied by the filter.
* **Credential cache.** Cached answers are right in every run if and only if no stored hash is another stored hash
  behind a `|`. Bcrypt hashes contain no `|`, so they qualify.

## Model

| member | source | states |
|---|---|---|
| Committer.CommitsAreConsecutive | cdmp-mini/internal/pkg/server/consumer.go:686-727 | per partition the committed offsets are s, s+1, ..., nextOffset-1, each once and each acknowledged without error there, s being the first offset so acknowledged |
| Committer.NextIsLeastUnacknowledged | cdmp-mini/internal/pkg/server/consumer.go:701-725 | nextOffset is the smallest offset from s on without a successful acknowledgement, exactly when the partition's last commit call did not fail |
| Committer.FailedOffsetBlocks | cdmp-mini/internal/pkg/server/consumer.go:696-725 | an offset that is never acknowledged without error blocks itself and all later ones |
| Committer.FailureBelowStartIsCovered | cdmp-mini/internal/pkg/server/consumer.go:696-708 | below the first success nothing is promised: a failed offset there is covered by the first commit |
| Committer.LatestAckWaits | cdmp-mini/internal/pkg/server/consumer.go:709-712 | when an offset is acknowledged again before its commit, the later acknowledgement is the one that waits |
| Committer.PartitionsAreIndependent | cdmp-mini/internal/pkg/server/consumer.go:686-727 | the state of a partition is what the committer would reach on that partition's acknowledgements alone |
| Committer.EveryAckHasOnePlace | cdmp-mini/internal/pkg/server/consumer.go:686-727 | each acknowledged message is committed, waiting, dropped as late or replaced, or discarded as failed, as often as it was acknowledged |
| Committer.OffsetCommitter.HandleAck | cdmp-mini/internal/pkg/server/consumer.go:695-725 | one acknowledgement takes maps and broker exactly to the next state of the specification |
| Committer.OffsetCommitter.CommitReady | cdmp-mini/internal/pkg/server/consumer.go:713-725 | the inner loop commits while the next offset waits and the broker agrees, and touches no other partition |
| Committer.OffsetCommitter.Consume | cdmp-mini/internal/pkg/server/consumer.go:688-727 | the whole life of the goroutine equals the specification's run |
| PipelineSafety.EveryMessageHasOnePlace | cdmp-mini/internal/pkg/server/consumer.go:601-763 | in every reachable state of fetchers, workers, aggregator and committer each message is in as many places as it was fetched: fetched once means exactly one place |
| PipelineSafety.CommittedWasProcessed | cdmp-mini/internal/pkg/server/consumer.go:601-727 | only what a worker processed without error or what went to the batch function of its own operation is ever committed |
| PipelineSafety.CommitCoversProcessed | cdmp-mini/internal/pkg/server/consumer.go:601-727 | as a commit covers all lower offsets: from the first successfully acknowledged one on, every offset below nextOffset carried a message that was worked or handed over |
| PipelineSafety.BatchesAreHomogeneous | cdmp-mini/internal/pkg/server/consumer.go:976-1014 | the aggregator's default branch is unreachable and batch functions only see their own operation |
| PipelineSafety.ShutdownDrains | cdmp-mini/internal/pkg/server/consumer.go:756-763 | once the ack channel is closed and empty, everything fetched has reached the committer |
| PipelineShutdown.EveryStepMakesProgress | cdmp-mini/internal/pkg/server/consumer.go:756-763 | whatever goroutine but a fetch loop takes a step, in any state, and whatever comes of a job, the end of the shutdown is nearer; only a tick sets the aggregator back, by one flush |
| PipelineShutdown.ShutdownCompletes | cdmp-mini/internal/pkg/server/consumer.go:756-763 | from every reachable state with the fetch loops returned, every schedule of the other goroutines, with any outcomes of the remaining jobs and any number of ticks, closes the ack channel and empties it, everything fetched having reached the committer |
| PipelineShutdown.SchedulesExist | cdmp-mini/internal/pkg/server/consumer.go:756-763 | until then some goroutine can always go on, whatever the outcomes of the jobs: they never block each other |
| PipelineSafety.RouteMoves | cdmp-mini/internal/pkg/server/consumer.go:1251-1290 | each branch of the routing code passes its message on to exactly one place or keeps it |
| PipelineChannels.JobsAreAQueue | cdmp-mini/internal/pkg/server/consumer.go:603-605 | whatever goroutine takes a step, a worker gets the oldest job, and otherwise the job queue only grows at its end |
| PipelineChannels.ItemsAreAQueue | cdmp-mini/internal/pkg/server/consumer.go:971-1008 | likewise for the batch channel, whose oldest item is filed behind the others of its operation |
| PipelineChannels.AcksAreAQueue | cdmp-mini/internal/pkg/server/consumer.go:678-695 | likewise for the ack channel, whose oldest entry goes to the committer |
| PipelineChannels.ChannelsStayBounded | cdmp-mini/internal/pkg/server/consumer.go:729-733 | in every run no channel holds more than its capacity |
| PipelineChannels.NothingIsSentOnClosed | cdmp-mini/internal/pkg/server/consumer.go:756-763 | in every run nothing is sent on a closed channel, and none is opened again |
| PipelineChannels.AcksKeepTheirReader | cdmp-mini/internal/pkg/server/consumer.go:677-681 | every acknowledgement the committer gets, from a worker or a batch, names the reader that fetched its message |
| FetchLoop.Loop.RouteMessage | cdmp-mini/internal/pkg/server/consumer.go:1251-1292 | the routing code, other goroutines running in between, appends a message to exactly one channel with its reader, or still holds it; a create has a chance of the batch channel at once and a second one after 10 ms, deletes and updates only the second, anything else none; it goes there exactly when a chance is taken; only a job moves the turn to the next worker |
| FetchLoop.Loop.TryPutBatch | cdmp-mini/internal/pkg/server/consumer.go:1270-1281 | the send that does not wait appends the item exactly when the channel has room, and goes where the default leads otherwise |
| FetchLoop.Loop.TryEnqueueCreateBatch | cdmp-mini/internal/pkg/server/consumer.go:1046-1078 | the item is sent exactly when the channel is not nearly full at the look and has room at the send |
| FetchLoop.Loop.Run | cdmp-mini/internal/pkg/server/consumer.go:1082-1293 | what the loop has sent, read off the channels, is its messages, each once and in order, with itself as their reader, the jobs for the workers in turn; it holds at most the one that is stuck |
| FetchLoop.NearFullMeans | cdmp-mini/internal/pkg/server/consumer.go:1046-1061 | nearly full means one free place, or no more than an eighth of them |
| Aggregator.Normalize | cdmp-mini/internal/pkg/server/consumer.go:794-824 | whatever the options, the normalised limits and timeouts are ordered and positive; valid ones are kept, missing ones get their defaults, and the others the nearest bound |
| Aggregator.TargetTiers | cdmp-mini/internal/pkg/server/consumer.go:851-901 | the limit and timeout of each of the four tiers of fullness, which are never cut off at the bounds |
| Aggregator.TargetIsAntitone | cdmp-mini/internal/pkg/server/consumer.go:851-901 | a larger backlog, or lag protection, never raises the limit or the timeout |
| Aggregator.BatchesAreFaithful | cdmp-mini/internal/pkg/server/consumer.go:834-1025 | in every run, cancelled or not: hand-over before acknowledgement, order kept per operation, reader kept with its message, batches of 1 to maxBatchBound, buffers hold what is not acknowledged |
| Aggregator.ClosingLeavesNothing | cdmp-mini/internal/pkg/server/consumer.go:971-976 | closing the channel, or cancelling while acknowledgements go through, empties the buffers, with everything received handed over and acknowledged |
| Aggregator.LimitDecides | cdmp-mini/internal/pkg/server/consumer.go:977-1014 | a received item flushes exactly when the unacknowledged messages of its operation reach the limit of that round; the flush hands over creates, deletes and updates in this order and leaves nothing waiting; so fewer than the limit ever wait |
| Aggregator.TickFlushes | cdmp-mini/internal/pkg/server/consumer.go:1015-1018 | a tick hands over everything that waits |
| Aggregator.RunsUntilClosed | cdmp-mini/internal/pkg/server/consumer.go:969-1025 | without a cancelled context the loop runs on exactly until the channel is closed |
| Aggregator.CancelledOnlyWhenSpent | cdmp-mini/internal/pkg/server/consumer.go:834-849 | no acknowledgement is sent once the cancelled context is noticed, and before the channel is closed the loop stops for nothing else |
| Aggregator.SelectsWithinBounds | cdmp-mini/internal/pkg/server/consumer.go:969-989 | at every select, limit and timeout are within bounds and are those of adjustParams in that round |
| Aggregator.BatchAggregator.AckMessages | cdmp-mini/internal/pkg/server/consumer.go:834-849 | acknowledges a prefix of the batch, each message with its own reader, all of it unless cancelled |
| Aggregator.BatchAggregator.Flush | cdmp-mini/internal/pkg/server/consumer.go:934-967 | flushes creates, deletes and updates in turn, stopping where a flush was cut short, and readjusts |
| Aggregator.BatchAggregator.TakeItem | cdmp-mini/internal/pkg/server/consumer.go:977-1014 | files an item under its operation and flushes exactly when that buffer has reached the limit in force, leaving no buffer filled unless cut short |
| Aggregator.BatchAggregator.Loop | cdmp-mini/internal/pkg/server/consumer.go:969-1025 | the loop over parallel message and reader slices equals the specification's run, the slices staying aligned |
| AggregatorCoverage.EventIsCovered | cdmp-mini/internal/pkg/server/consumer.go:969-1025 | for every event but cancellation the aggregator of the step system can take the same buffers to the same buffers, with the same hand-overs and acks in the same order and nothing else touched |
| VersionedUpdate.RowIsFoldOfChanges | cdmp-mini/internal/pkg/server/consumer.go:2863-2932 | under every interleaving, stale snapshots included, each write raises the version by one, and for up to 2^64 writes the row is the fold of the applied changes |
| VersionedUpdate.OneWritePerVersion | cdmp-mini/internal/pkg/server/consumer.go:2880-2932 | the k-th write is made for the version k above the first, modulo 2^64; so for each expected version at most one write succeeds, exactly up to 2^64 writes |
| VersionedUpdate.OutcomesAreTruthful | cdmp-mini/internal/pkg/server/consumer.go:1897-1917 | a message writes at most once: exactly once when it ends as updated, never when discarded, in conflict or rejected, and when it ends in a retry exactly if its statement took effect and was answered with an error all the same |
| VersionedUpdate.NamedVersionIsRespected | cdmp-mini/internal/pkg/server/consumer.go:1861-1897 | a client that names a version only ever changes a row of that version, with its own change, and a full update only ever writes if it names one; up to 2^64 writes that change was computed from the row it replaced |
| VersionedUpdate.FoldHoldsExactly | cdmp-mini/internal/pkg/server/consumer.go:1895-1897 | the fold is guaranteed for runs of up to n writes if and only if n is at most 2^64, after which versions repeat |
| UpdateOutcomes.OutcomeIsEarned | cdmp-mini/internal/pkg/server/consumer.go:1803-1917 | in every interleaving a message ends in an outcome if and only if what happened to it ends that way: which row it read, whether its change applied and was allowed, how its statements were answered, the third conflict or the third deadlock in a row |
| UpdateOutcomes.DiscardedExactly | cdmp-mini/internal/pkg/server/consumer.go:1861-1889 | discarded are exactly the messages whose change applies to the row they read but that name another version, or are full and name none |
| UpdateConsumer.Consumer.ExecUpdate | cdmp-mini/internal/pkg/server/consumer.go:2863-2893 | the guarded UPDATE replaces the row, records it and reports it exactly when the version matches and the statement takes effect |
| UpdateConsumer.Consumer.UpdateUserInDB | cdmp-mini/internal/pkg/server/consumer.go:2885-2932 | the retry loop, other consumers running in between, sends the statement one to three times; without an error the row of the statement stands over one of the expected version, a conflict means another version, and a duplicate or a conflict wrote nothing |
| UpdateConsumer.Consumer.HandleSingleUpdate | cdmp-mini/internal/pkg/server/consumer.go:1792-1918 | the code for one message is a run of the protocol with at most three tries; it sends its statement exactly when its change applies to the row it read and the version named is that row's, or none is named and the update is not full; it is rejected or discarded exactly otherwise; its outcome tells whether it wrote, and then what it made of the row it read, over a row of that version |
| UpdateConsumer.Consumer.PatchTarget | cdmp-mini/internal/pkg/server/consumer.go:1966-2019 | the attempt loop for one target patches at most three times, gives up as unresolved after exactly three, writes at most once and reports it truthfully |
| ConditionCompiler.BuildUserConditionClause | cdmp-mini/internal/pkg/server/consumer.go:2973-2995 | for every iteration order: succeeds exactly for compilable maps; the text with its arguments is a valid condition true exactly when the map holds, on every row and for every equality, order and LIKE of the database; placeholders equal arguments and are not none; it is never true of a row of NULLs; an error says what is wrong |
| ConditionCompiler.OperatorIsMeaning | cdmp-mini/internal/pkg/server/consumer.go:3016-3089 | the SQL operator compares cell and value as the JSON operator asks |
| ConditionCompiler.ConvertIsMeaning | cdmp-mini/internal/pkg/server/consumer.go:3174-3233 | conversion finds the value that a JSON value stands for in a column of its kind, and fails exactly when there is none |
| ConditionCompiler.MetaIsByName | cdmp-mini/internal/pkg/server/consumer.go:321-333 | the table has exactly the fields that may be named, each with the column of its name and its kind |
| ConditionCompiler.TextMeansAtoms | cdmp-mini/internal/pkg/server/consumer.go:2991-2994 | the AND-joined text, read back and evaluated with three-valued logic, is true exactly when every conjunct is |
| ConditionCompiler.CondsMeaning | cdmp-mini/internal/pkg/server/consumer.go:2997-3172 | the conjuncts are all true exactly when the JSON condition map holds |
| ConditionCompiler.CountTexts | cdmp-mini/internal/pkg/server/consumer.go:2991-2994 | the text has one placeholder for each argument |
| ConditionCompiler.ParseCondition | cdmp-mini/internal/pkg/server/consumer.go:2997-3014 | one field compiles exactly when its JSON is convertible, to the conjuncts it stands for |
| ConditionCompiler.ParseConditionObject | cdmp-mini/internal/pkg/server/consumer.go:3016-3089 | an operator object compiles, in any iteration order, exactly when all its operators do, to the conjuncts that CondsMeaning gives their meaning |
| ConditionCompiler.BuildInClause | cdmp-mini/internal/pkg/server/consumer.go:3141-3172 | a list compiles exactly when it is not empty and all its values convert, to one IN with a placeholder each |
| Windows.AtMostTwice | limiter-lab/limiter/fixed_window.go:117-141 | counts bounded by L per window are bounded by 2L in any half-open interval of a window's length |
| ScriptInterleavings.ExpireIsOwedOnce | limiter-lab/limiter/redis_like.go:40-59 | in every interleaving a live counter without expiry has exactly one caller about to call Expire, no other Expire is pending, and an expiry is never earlier than a window after the first call |
| ScriptInterleavings.AtMostTwiceTheLimit | limiter-lab/limiter/redis_like.go:117-150 | in every interleaving at most 2L calls that counted on a counter with threshold L are admitted in any half-open interval of a window's length |
| ScriptInterleavings.VerdictIsCounted | limiter-lab/limiter/redis_like.go:117-150 | in every interleaving a call is admitted exactly when each threshold it sets was counted once and kept, global first, and limited exactly when its last count exceeded its threshold |
| ScriptInterleavings.IncrCountsItsLife | limiter-lab/limiter/redis_like.go:40-50 | every INCR returns its place in the life of its counter, whoever counts in between, and the lives are a window apart |
| ScriptInterleavings.AloneIsScript | limiter-lab/limiter/redis_like.go:117-150 | a call that nobody interrupts has the script's verdict and leaves the script's store |
| RedisStore.InMemoryRedisStore.EvictIfExpired | limiter-lab/limiter/redis_like.go:87-99 | deletes exactly the expired counter, with its expiry |
| RedisStore.InMemoryRedisStore.DoIncr | limiter-lab/limiter/redis_like.go:40-50 | counts up from zero after an expiry |
| RedisStore.InMemoryRedisStore.DoExpire | limiter-lab/limiter/redis_like.go:52-59 | sets the expiry one window ahead |
| RedisStore.InMemoryRedisStore.DoTTL | limiter-lab/limiter/redis_like.go:61-85 | the time left in whole seconds; deletes a counter that expires between its two clock readings |
| RedisStore.TTLIsWholeSeconds | limiter-lab/limiter/redis_like.go:61-85 | the time left rounded down to whole seconds, and nothing for a counter that is gone or never expires |
| RedisStore.TTLDeletesExpired | limiter-lab/limiter/redis_like.go:61-85 | TTL deletes a counter exactly when it has expired by its second reading of the clock, and nothing else |
| RedisStore.InMemoryRedisStore.EvalWriteLimiterScript | limiter-lab/limiter/redis_like.go:117-150 | counts globally, then by identifier, and stops at the first exceeded limit with the time left |
| FixedWindow.CountIsAdmissions | limiter-lab/limiter/fixed_window.go:117-141 | the stored count of a key is the number of its admissions since windowStart, overrides included |
| FixedWindow.AtMostLimitPerWindow | limiter-lab/limiter/fixed_window.go:117-141 | without overrides at most limit calls of a key are admitted per window |
| FixedWindow.AtMostTwiceTheLimit | limiter-lab/limiter/fixed_window.go:117-141 | and at most twice as many in any half-open interval of a window's length |
| FixedWindow.RejectedExactlyWhenFull | limiter-lab/limiter/fixed_window.go:130-141 | a call is rejected exactly when limit calls were admitted in the current window |
| FixedWindow.RejectedExactlyAtItsThreshold | limiter-lab/limiter/fixed_window.go:123-141 | with overrides, a call is rejected exactly when its own threshold was already reached in the current window |
| FixedWindow.FixedWindowLimiter.AllowInternal | limiter-lab/limiter/fixed_window.go:117-141 | resets on a new window, then admits and counts a call only below the threshold |
| LimiterAgreement.ScriptIsReference | limiter-lab/limiter/redis_like.go:117-150 | the script admits exactly while the window opened by its first call has room, and reports the whole seconds left |
| LimiterAgreement.BothThresholds | limiter-lab/limiter/redis_like.go:117-150 | after any calls with any keys and thresholds: limited globally exactly when the global window is full, else by its own key exactly when that window is full, with the whole seconds left; otherwise passed with the room left |
| LimiterAgreement.AgreeExactlyWhenAligned | limiter-lab/limiter/fixed_window.go:117-141 | script and fixed window decide all calls of all sequences alike exactly when the first call comes at windowStart or at least a window later |
| LimiterAgreement.LimitedUntilRetry | limiter-lab/limiter/redis_like.go:61-85 | every call before t + retryAfter seconds is still limited, whatever is called in between |
| LimiterAgreement.AdmittedExactlyWithRoom | limiter-lab/limiter/redis_like.go:117-142 | from t + (retryAfter + 1) seconds on, a call is admitted exactly when the calls made since the counter expired leave room in the window in force |
| LimiterAgreement.AdmittedAfterRetry | limiter-lab/limiter/redis_like.go:132-142 | the first call from t + (retryAfter + 1) seconds on is admitted exactly when fewer than limit calls were made since the expiry or the first of them is a window old (windows of a second or more) |
| LimiterAgreement.RetryPromisedExactly | limiter-lab/limiter/redis_like.go:132-142 | the promise that this call is admitted, whatever is called meanwhile, is kept for windows of one nanosecond and fails for every longer one |
| FieldText.DoUnescapeValue | nexuscore/component-base/fields/selector.go:306-346 | the loop equals the recursive reading, with both kinds of error |
| FieldText.UnescapeUndoesEscape | nexuscore/component-base/fields/selector.go:281-346 | unescaping undoes escaping exactly for texts that are valid UTF-8 or need no escape |
| FieldText.EscapeUndoesUnescape | nexuscore/component-base/fields/selector.go:281-346 | escaping undoes unescaping exactly for such accepted texts: a bijection on valid UTF-8 |
| FieldText.UnescapeJudges | nexuscore/component-base/fields/selector.go:306-346 | accepted are exactly the texts with only a backslash, a comma or an equals sign behind a backslash, no open comma or equals sign, and no open escape at the end; the error is that of the first fault |
| FieldText.DoSplitTerms | nexuscore/component-base/fields/selector.go:379-403 | cuts at every comma outside an escape, keeping the escapes |
| FieldText.DoSplitTerm | nexuscore/component-base/fields/selector.go:421-432 | splits at the first operator, longest first, as SplitTermExactly describes it on texts |
| FieldText.SplitTermExactly | nexuscore/component-base/fields/selector.go:406-432 | a term is read as field, operator and value in the one way its text allows: `!=`, or `==`, or `=` before a value without a leading `=`; not at all exactly without `=` |
| Selectors.DoMatches | nexuscore/component-base/fields/selector.go:68-178 | the early-return loops decide what the selector means |
| Selectors.DoEmpty | nexuscore/component-base/fields/selector.go:180-194 | the loop decides Empty on any nesting |
| Selectors.DoRequiresExactMatch | nexuscore/component-base/fields/selector.go:196-207 | the loop finds the first exact requirement on any nesting |
| Selectors.DoRequirements | nexuscore/component-base/fields/selector.go:224-232 | the loop lists the requirements in order |
| Selectors.DoTransform | nexuscore/component-base/fields/selector.go:84-94 | the loops rewrite the tree, stop at the first error and drop empty terms |
| Selectors.DoString | nexuscore/component-base/fields/selector.go:234-241 | the loop prints the terms joined with commas |
| Selectors.MatchesItsRequirements | nexuscore/component-base/fields/selector.go:170-232 | a selector matches exactly what meets all its requirements, unless Nothing is in it |
| Selectors.EmptyMeansNoRequirement | nexuscore/component-base/fields/selector.go:180-194 | Empty holds exactly when there is no requirement and no Nothing |
| Selectors.ExactMatchIsFirst | nexuscore/component-base/fields/selector.go:196-207 | the exact match is the first equality on that field among the requirements |
| Selectors.ExactMatchIsSound | nexuscore/component-base/fields/selector.go:20-23 | an exact match is found whenever one is required, and everything matched has that value |
| Selectors.TransformRewritesEach | nexuscore/component-base/fields/selector.go:209-222 | transforming rewrites the requirements one by one in order, failing exactly with the first error |
| Selectors.TransformPrunes | nexuscore/component-base/fields/selector.go:209-222 | no conjunction of the result has a term that requires nothing |
| Selectors.TransformKeepsMeaning | nexuscore/component-base/fields/selector.go:209-222 | a rewriting that keeps each requirement's meaning keeps the selector's |
| Selectors.RenamingKeepsMeaning | nexuscore/component-base/fields/selector.go:209-222 | renaming fields keeps the meaning of arbitrarily nested selectors |
| SelectorParser.DoParseSelector | nexuscore/component-base/fields/selector.go:434-466 | the parsing loop yields the parsed and transformed selector or the first error in sorted order |
| SelectorParser.ParseTermReads | nexuscore/component-base/fields/selector.go:440-459 | field `==` value and field `=` value both require the unescaped value, `!=` excludes it |
| SelectorParser.SplitTermsExactly | nexuscore/component-base/fields/selector.go:379-403 | the terms are the only parts that join to the text, have every comma escaped and end in no open escape before a comma |
| SelectorParser.ParsedMeaning | nexuscore/component-base/fields/selector.go:434-466 | a text is accepted exactly when its nonempty parts are, and then matches what meets all of them |
| SelectorParser.ParsedRequirementsArePrintable | nexuscore/component-base/fields/selector.go:434-466 | parsing only yields printable requirements |
| SelectorParser.RoundTrip | nexuscore/component-base/fields/selector.go:379-466 | printing and parsing give back the same multiset of requirements exactly when each is printable, whatever the sort does |
| SelectorParser.RoundTripMeaning | nexuscore/component-base/fields/selector.go:104-106 | a printable selector matches the same field sets after the round trip |
| SelectorParser.ParsedRoundTrip | nexuscore/component-base/fields/selector.go:359-366 | every accepted text can be parsed, printed and parsed again without loss |
| RedisLock.AtMostOneHolder | cdmp-mini/pkg/lock/redis_lock.go:38-72 | in every run, lost replies included and for all timeouts, at most one instance holds the lock when each counts on its timeout's whole seconds |
| RedisLock.HolderIsUndisturbed | cdmp-mini/pkg/lock/redis_lock.go:50-72 | while an instance holds, no acquire, release or renew of another changes the key |
| RedisLock.LeaseEnds | cdmp-mini/pkg/lock/redis_lock.go:38-72 | in every run an instance that does nothing for the length of its timeout loses the lock to the next acquire; only a zero timeout is for ever |
| RedisLock.ExclusiveExactlyInWholeSeconds | cdmp-mini/pkg/lock/redis_lock.go:117-117 | counting on the full timeout is exclusive in every run exactly when all timeouts are whole positive seconds |
| RedisLock.RedisDistributedLock.Acquire | cdmp-mini/pkg/lock/redis_lock.go:38-47 | sets the key, with the timeout as its expiry, exactly when none is live and the request arrives; an error tells nothing about the key |
| RedisLock.RedisDistributedLock.Release | cdmp-mini/pkg/lock/redis_lock.go:50-72 | deletes the key exactly with the caller's own value, else reports that it is not held |
| RedisLock.RedisDistributedLock.Renew | cdmp-mini/pkg/lock/redis_lock.go:107-128 | resets the expiry to the whole seconds of the timeout, only with the caller's own value; a reported success leaves the key with the caller exactly from one second up |
| ErrorAggregate.DoNewAggregate | nexuscore/errors/aggregate.go:73-88 | drops nil errors in order; nil when none is left |
| ErrorAggregate.DoError | nexuscore/errors/aggregate.go:96-122 | the visit with its seen set gives the distinct messages of the leaves; an aggregate without elements gives the empty text |
| ErrorAggregate.DoIs | nexuscore/errors/aggregate.go:124-151 | the visit stops at the first match and finds one exactly when a leaf is the target, nil elements and empty aggregates included |
| ErrorAggregate.DoFilterOut | nexuscore/errors/aggregate.go:168-189 | the mutually recursive loops filter any nesting |
| ErrorAggregate.DoFlatten | nexuscore/errors/aggregate.go:208-226 | the recursive loop flattens any nesting, nil elements included |
| ErrorAggregate.FlattenListsLeaves | nexuscore/errors/aggregate.go:208-226 | flattening gives one aggregate of the non-aggregate errors in order, or nil |
| ErrorAggregate.FlattenIsIdempotent | nexuscore/errors/aggregate.go:206-226 | flattening twice is flattening once; no aggregate is left inside and no error is lost |
| ErrorAggregate.FilterKeepsUnmatched | nexuscore/errors/aggregate.go:161-204 | what is left is exactly the errors no matcher takes, in order |
| ErrorAggregate.FilterThenFlatten | nexuscore/errors/aggregate.go:168-226 | filtering and flattening commute |
| ErrorAggregate.FilterFlattensOnlyWhatItEmpties | nexuscore/errors/aggregate.go:191-204 | the filtered list is flat exactly when every aggregate in it was emptied |
| ErrorAggregate.ErrorTextOfLeaves | nexuscore/errors/aggregate.go:96-122 | the text is the one message of all leaves, or the different ones in brackets, each once in the order of first occurrence; one-element shortcut included |
| ErrorAggregate.FlattenKeepsTextAndIs | nexuscore/errors/aggregate.go:96-151 | flattening changes neither Error() nor Is() |
| CredentialCache.CacheKeyIsInjective | cdmp-mini/internal/pkg/server/credential_cache.go:91-94 | different credentials have different keys, for any user names, when no stored hash is another behind a bar |
| CredentialCache.Cache.Lookup | cdmp-mini/internal/pkg/server/credential_cache.go:34-52 | answers an unexpired entry and deletes an expired one |
| CredentialCache.Cache.EvictLocked | cdmp-mini/internal/pkg/server/credential_cache.go:74-89 | the scan, in any order, deletes one least recently stored entry |
| CredentialCache.Cache.Store | cdmp-mini/internal/pkg/server/credential_cache.go:54-72 | stores the entry, evicting a least recently stored one when full, and never exceeds the maximum |
| CredentialCache.VerifyPassword | cdmp-mini/internal/pkg/server/auth.go:783-805 | with a sound cache the answer is the uncached one, and the cache stays sound; afterwards it holds every answer, yes or no, and no failure |
| CredentialCache.CacheStaysBounded | cdmp-mini/internal/pkg/server/credential_cache.go:66-71 | the cache never exceeds its maximum, however calls interleave |
| CredentialCache.HitExactlyWhenFresh | cdmp-mini/internal/pkg/server/credential_cache.go:34-52 | in every run a lookup is answered from the cache exactly when it has an entry for the key no older than the time to live |
| CredentialCache.StoreDropsOldest | cdmp-mini/internal/pkg/server/credential_cache.go:66-89 | in every run a store drops another entry only when the cache is full, and then one that no other is older than |
| CredentialCache.AnswersAreCached | cdmp-mini/internal/pkg/server/auth.go:787-804 | whoever is answered, yes or no, at that moment finds the answer in the cache; a failed comparison changes nothing |
| CredentialCache.TruthfulExactlyWhenApart | cdmp-mini/internal/pkg/server/auth.go:783-805 | all answers in all concurrent runs are the uncached ones, for every comparison, exactly when no stored hash is another behind a bar |
| Audit.Manager.AppendRecent | cdmp-mini/internal/pkg/audit/manager.go:348-361 | the in-place shift keeps the buffer equal to the last RecentBuffer submitted events |
| Audit.Manager.Recent | cdmp-mini/internal/pkg/audit/manager.go:364-385 | the newest events first, as many as asked for and kept |
| Audit.Manager.Submit | cdmp-mini/internal/pkg/audit/manager.go:268-292 | every event enters the history; it is accepted exactly when the open channel has room |
| Audit.Manager.Dispatch | cdmp-mini/internal/pkg/audit/manager.go:335-345 | every sink is given the event once |
| Audit.Manager.Drain | cdmp-mini/internal/pkg/audit/manager.go:321-325 | the final range leaves every sink with all accepted events |
| Audit.RecentIsLastSubmitted | cdmp-mini/internal/pkg/audit/manager.go:348-361 | under concurrent submits the history is the last min(n, RecentBuffer) events in order |
| Audit.SinksGetAcceptedEvents | cdmp-mini/internal/pkg/audit/manager.go:317-345 | every sink is given the accepted events once each in order, and all of them once the loop has returned |
| Audit.EverySubmitIsAccountedFor | cdmp-mini/internal/pkg/audit/manager.go:268-292 | each submitted event is accepted, dropped, refused by the closed channel or on its way, and counted once |
| Audit.DropsOnlyWhenFull | cdmp-mini/internal/pkg/audit/manager.go:280-287 | in every run an event is dropped only if the open channel was full, a send panics only on the closed one, and the channel keeps to its capacity |
| Audit.LoopMakesProgress | cdmp-mini/internal/pkg/audit/manager.go:317-333 | every step of the loop brings it nearer to its next wait, and it waits only at an empty channel that is not closed |
| Audit.ShutdownDeliversEverything | cdmp-mini/internal/pkg/audit/manager.go:295-333 | from any state after the close, the loop's own steps end with everything accepted given to every sink |

## Left out

- AllowInternal: counts are unbounded integers; 64-bit overflow of a counter is not modelled.
- EvalWriteLimiterScript: one clock reading per call here; `ScriptInterleavings` lets the clock move between operations.
- PatchTarget: one target at a time; that a failing target ends the whole batch is left out, and a reload that finds the row gone is treated like one that fails (the source skips the target without a retry).
- UpdateUserInDB: preparing the connection and reading the affected rows fail as part of the statement's outcome.
- HandleSingleUpdate: the patch and the normalisation of its fields are an arbitrary function of the snapshot; `v1.User.Patch` is not part of this model.
- AdmittedAfterRetry: for windows shorter than a second, which `retryAfter` cannot express, AdmittedExactlyWithRoom gives the condition.
- RenamingKeepsMeaning: a field renamed to the empty name must not be compared with the empty value, because such a term is dropped by design.
- RouteMessage: a waiting send is watched for a given number of moments, since nothing in the code bounds the wait.
- DoError: errors with a nil inside are excluded, as the source panics on them.
- DoIs: the target is an error; for the nil target, which errors.Is finds in a nil element, nothing is said.
- ErrorTextOfLeaves: an aggregate without any error inside has no leaves to tell of; its text is empty or `[]`.
- DoParseSelector: the byte order of `sort.StringSlice` is a parameter, so the results hold for every order.
- Renew: timeouts are whole milliseconds; the rounding of `Duration.Seconds` to a float is left out, and so is `TryAcquire`, a retry loop around Acquire.
- Submit: a send on the closed channel panics in the caller; the model records it and goes on.
- Pipeline, cancellation: the step system has no cancelled context (`Aggregator` has); back-off, pauses and logging are not steps.
- Pipeline, committer: handling one acknowledgement is one step there, and the retries inside one commit call are one outcome.
- `batchUpdateToDB`, delete and re-create: they do not follow the version guard.
- `DeepCopySelector`: it indexes a zero-length slice on AND terms.
- `SelectorFromSet`, `OneTermEqualSelector` and the like: easy constructors.
- `CreateAggregateFromMessageCountMap`, `AggregateGoroutines`, option validation, sink deduplication: easy beside the rest.
- Implementations of `Aggregate` from outside the package: the repository has none.
- The create pipeline, `PendingCoordinator`, the user cache and session scripts: they rest on code that is not part of this model.
- Kafka, MySQL and Redis clients, HTTP handlers, tokens, metrics, tracing and logging: input and output.
- Consumer rebalancing, Redis failover and clock skew between servers: not expressed in the code.
