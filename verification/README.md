# policyserv, verified

A Dafny model of the parts of policyserv, a Matrix policy server, whose correctness spans several functions or a whole
run: the verdict pipeline and the community manager's group layout, the rate limiters and the hellban, the two
transactional queues, the event pool, and the codecs and scanning loops around them. Code that updates state in place
is modelled by classes, arrays and loops, each proved against a specification function or predicate; the properties
of whole runs are lemmas about those.

Check everything with `dafny verify dfyconfig.toml`.

## Layout

| file | what it models |
|---|---|
| `Basics.dfy` | options, results, and facts about sequences used everywhere |
| `Harms.dfy`, `Slices.dfy` | harm lists, content classes and infos; the same over shared Go slices, with `append`, `Sort` and `Compact` in place |
| `Registry.dfy`, `Pipeline.dfy`, `Manager.dfy` | filter names; gated groups of concurrent filters and the fold over groups; the four-group layout |
| `Outbox.dfy`, `OutboxRuns.dfy` | the EDU queue as objects, and over every interleaving |
| `SqlOutbox.dfy`, `SqlRuns.dfy` | the same queue as a table of rows, and its simulation of the in-memory queue |
| `LearnQueue.dfy`, `LearnRuns.dfy` | the state-learning queue, `LearnState` and the draining task; every interleaving |
| `Counter.dfy`, `Mentions.dfy`, `Limiters.dfy` | the sliding-window counter, mention counting, and the two rate limits with their rounding |
| `LimiterRuns.dfy`, `LimiterFleet.dfy` | every run of a rate limiter, and of the same limiter in several processes |
| `Hellban.dfy`, `HellbanRuns.dfy` | the listener, its cache and the check; every run of the loop from check to ban and back |
| `EventCodec.dfy`, `ClassificationCodec.dfy` | two encodings of a verdict |
| `Pool.dfy`, `PersistedPool.dfy` | singleflight checks over a result store, and over the Postgres encoding |
| `Keyring.dfy`, `InlineImages.dfy` | merging signing keys from several fetchers; the inline image scanner |

## What does not hold as promised

- **A verdict can gain the empty harm** (filter/set.go:84-133 with harms/types.go:88-93). `CheckEvent` hands its own
  accumulator to `NewContentInfo`, which sorts and compacts it in place; `Compact` clears the cells it vacates, and the
  loop keeps appending after them. `Pipeline.RepeatingGroupsGainEmptyHarm` is a concrete case, and
  `Pipeline.OutturnIsVerdictExactly` gives the exact condition for any layout. The manager's layout never meets it:
  `Manager.ManagerVerdictIsExact`.
- **A Neutral or Allowed verdict comes back from Postgres as Prohibited** (storage/psql.go:283-312). Neutral is stored
  as an empty JSON object rather than as an empty string, and the Allowed result is overwritten, against the comment at
  storage/psql.go:292-293. `EventCodec.VerdictSurvivesExactly` says which verdicts survive. So an event can be let
  through when it is first checked and flagged from then on: `PersistedPool.NeutralThenProhibited` is such a run, and
  `PersistedPool.LaterAnswersAgreeExactly` says when later answers equal the first.
- **A legacy list of classifications that starts with a class name is not read as one** (storage/interface.go:93-114).
  `ClassificationCodec.LegacyListsMisread` has two such lists, and `ClassificationCodec.LegacyMeaningExactly` says which
  lists are read as before.
- **A rate limit is not shared between processes**, although frequency/counter.go:30 calls the counter cross-process:
  the topic contains a fresh id (frequency/counter.go:40), so a counter only hears its own increments. Each process lets
  a full limit through: `LimiterFleet.FleetObeysLimitPerProcess` is the bound, `LimiterFleet.FleetReachesBound` a run
  that reaches it, and `LimiterFleet.LimitIsSharedExactly` the exact condition.
- **Resending can keep a hellban alive**, which filter/filter_hellban.go:93-94 sets out to prevent. A banned user's
  event is flagged and echoed as a new hellban; handled after the ban has run out, the echo starts another one:
  `HellbanRuns.OneOffenceManyBans` gives runs with any number of bans for one offence. Resending causes no ban exactly
  if each echo is received while its user is banned (the guard at filter/filter_hellban.go:95):
  `HellbanRuns.ResendingIsHarmlessExactly`. `HellbanRuns.PromptEchoesCauseNoBans` is a sufficient condition.
- **The server's own key can be displaced** (homeserver/keyring.go:79-89). A request for it is meant not to be processed
  further (homeserver/keyring.go:40), but an answer that a fetcher returns unasked replaces it when it is valid for
  longer: `Keyring.OwnAnswerDisplaced`. `Keyring.KnownAreKept` has the exact condition, for cached keys as well.

## Model

| member | source | states |
|---|---|---|
| Harms.BelowIsTransitive | harms/types.go:91 | The order `slices.Sort` uses on harms is transitive; with BelowIsTotal, a strict total order |
| Harms.BelowExactly | harms/types.go:91 | One harm is below another exactly if, where they first differ, it ends or has the smaller character |
| Harms.SortSorts | harms/types.go:91 | Sorting gives an ascending permutation |
| Harms.SquashCompacts | harms/types.go:92 | Compacting an ascending list gives the strictly ascending list of the same elements |
| Harms.CanonIsCanonical | harms/types.go:88-93 | deduplicateHarms yields a strictly ascending list with the same elements, shorter exactly when the input repeats |
| Harms.CanonDecidesElements | harms/types.go:88-93 | deduplicateHarms gives equal outputs exactly for equal element sets |
| Harms.StrictlyAscendingUnique | harms/types.go:88-93 | A canonical list is determined by its elements |
| Harms.NewInfo | harms/types.go:36-47 | A constructed info is canonical and is Prohibited exactly when it has harms; harms force the class, and the harms given are kept as a set |
| Harms.ProhibitedElements | harms/types.go:64-72 | ProhibitedContent has exactly the harms given, or the general one if none is |
| Harms.JoinIsUnion | filter/set_group.go:119-137 | Merging infos takes the maximum class and the union of harms |
| Harms.JoinIsAssociative | filter/set_group.go:119-137 | Merging is associative |
| Harms.JoinLaws | filter/set_group.go:119-137 | Merging is commutative and idempotent, with Neutral as identity |
| Slices.Append | filter/set.go:130 | Go's append: in place or in a new buffer, the result is the concatenation and the old slice reads the same |
| Slices.CloseGaps | harms/types.go:92 | Compact after the first repeat: kept elements move down, vacated cells are zeroed, cells past the slice stay |
| Slices.CompactInPlace | harms/types.go:92 | Compact leaves the caller's slice holding the compacted elements followed by zero harms |
| Slices.DeduplicateHarms | harms/types.go:88-93 | Returns the canonical list over the caller's own buffer, and leaves the caller's slice settled |
| Slices.SettledElements | harms/types.go:88-93 | The caller's slice gains the zero harm exactly when it held a repeat, and otherwise becomes canonical |
| Slices.ContentInfo.Harms | harms/types.go:53-60 | A nil list becomes an empty one; the info's value does not change |
| Slices.NewContentInfo | harms/types.go:36-47 | Builds NewInfo's value, aliasing and rearranging the caller's slice |
| Slices.ProhibitedContent | harms/types.go:64-72 | Builds ProhibitedInfo's value, aliasing and rearranging the caller's slice |
| Slices.NeutralContent | harms/types.go:75-79 | Builds the Neutral info, with a nil list |
| Pipeline.MergeIsJoin | filter/set_group.go:119-137 | A group's info has the highest class of its filters' results and exactly their harms |
| Pipeline.MergeIgnoresArrivalOrder | filter/set_group.go:108-137 | Any arrival order of the same results gives the same info and the same error outcome |
| Pipeline.FilterSet.Dispatch | filter/set_group.go:31-55 | Every filter replies once; missing interfaces reply Neutral, nil infos reply an error; only implementing filters are called |
| Pipeline.FilterSet.Receive | filter/set_group.go:108-117 | The replies are collected in an arbitrary order, none lost or duplicated |
| Pipeline.FilterSet.Combine | filter/set_group.go:119-137 | Errors exactly when a reply carries an error, and otherwise is the merge |
| Pipeline.ReplyMeaning | filter/set_group.go:31-91 | In either mode a reply is an error iff its implementing filter gave an error or no info, and otherwise carries what the filter gave; a missing interface adds nothing |
| Pipeline.GroupMeaning | filter/set_group.go:93-138 | So for the group: errors, class and harms are those of its implementing filters |
| Pipeline.FilterSet.RunFilters | filter/set_group.go:93-138 | In terms of what the filters return: outside its checked classes a group is Neutral and calls nothing; inside, it errors iff an implementing filter gave an error or no info, and otherwise has their highest class and exactly their harms |
| Pipeline.VerdictIsTopClass | filter/set.go:127-129 | The intended verdict has the maximum class over the groups that ran |
| Pipeline.VerdictIsUnion | filter/set.go:130-133 | The intended verdict has exactly the harms of the groups that ran, sorted and without repeats |
| Pipeline.GatesAgree | filter/set.go:123-130 | Despite the rearranged accumulator, the code takes the same gates and sees the same errors as the intended fold |
| Pipeline.AccumulatorHolds | filter/set.go:85-130 | The accumulator holds the harms found so far, plus a zero harm once a repeat has been compacted before the last append |
| Pipeline.OutturnIsVerdictExactly | filter/set.go:84-133 | For any groups: same errors and class as intended, and the same harms if and only if no group before the last repeats a harm or the empty harm was really reported |
| Pipeline.VerdictFailsExactly | filter/set.go:123-126 | The verdict is an error exactly if some filter of a group that ran erred |
| Pipeline.OutturnDecides | filter/set.go:84-133 | The class is the most severe one a filter of a running group gave, and every harm other than the empty one is reported iff such a filter reported it |
| Pipeline.RepeatingGroupsGainEmptyHarm | filter/set.go:84-133 | Concrete groups for which the returned harms contain an empty harm nobody reported |
| Pipeline.ErrorIsFinal | filter/set.go:124-126 | After a group errors no later group runs |
| Pipeline.FilterSet.FoldGroups | filter/set.go:84-133 | The loop over groups, on aliased slices, returns the specified outcome and makes exactly the specified filter calls |
| Pipeline.FilterSet.NextGroup | filter/set.go:119-131 | One iteration, on aliased slices, does what one step of the specified fold does |
| Pipeline.FilterSet.CheckEvent | filter/set.go:76-142 | Non-user senders are flagged without running a filter; otherwise the answer is decided by what the event filters of the running groups gave, as the fold over groups has it |
| Pipeline.FilterSet.CheckText | filter/set.go:144-160 | The same for the text filters |
| Manager.AppendIf | community/manager.go:102-104 | A conditional append keeps the list equal to the enabled filters considered so far, in order |
| Manager.BulkFilters | community/manager.go:100-174 | The third group lists exactly its enabled filters, each once, in order |
| Manager.BuildGroups | community/manager.go:98-210 | On the settings themselves: which group lists each of the 25 filters and when, in order and once each, with the stated checked classes; the one error is a failing scanner that is needed |
| Manager.LayoutFollowsSettings | community/manager.go:98-210 | The specified layout lists each filter exactly when its own settings and the instance ask for it |
| Manager.LayoutIsUnique | community/manager.go:98-210 | The settings determine the groups, contents and order |
| Manager.DefaultLayout | community/manager.go:98-210 | With nothing set and a bare instance the groups are exactly [ProtectLocalUser], [], [StickyEvents], [] |
| Manager.ZeroIsUnset | internal/pointer.go:10-15 | A limit of zero or less, an empty list and `false` give the very groups that leaving the setting unset gives |
| Manager.NewSet | filter/set.go:40-72 | The set instantiates each group's names in order, and fails exactly when some named filter cannot be made |
| Manager.OneReporter | community/manager.go:182-210 | Of the first three groups at most one adds harms |
| Manager.ManagerNeverRepeats | community/manager.go:182-210 | No group before the last repeats a harm, whatever the filters return |
| Manager.ManagerVerdictIsExact | community/manager.go:182-210 | With the manager's layout the returned verdict is the intended one for all filter results |
| Manager.WhichGroupsRun | community/manager.go:182-210 | Without errors: the bulk filters run iff both earlier groups came out Neutral, the last group iff the verdict is Prohibited, and an Allowed first group is final |
| Manager.LastGroupRunsExactly | community/manager.go:182-210 | Without errors, the last group runs if and only if the first group prohibits the event, or it and perhaps the second stay Neutral and the next one prohibits it |
| Manager.CalledOnce | filter/set_group.go:103-106 | A group of distinctly named filters calls each at most once |
| Manager.CalledInGroup | community/manager.go:182-210 | An enabled filter is called by its own group and by no other |
| Manager.ManagedCalls | community/manager.go:182-210 | Per check the rate limiters are called once iff both prefilter groups stayed Neutral, and the hellban postfilter once iff the verdict is Prohibited |
| Outbox.MemoryStorage.InsertEdu | test/memory_storage.go:294-311 | Appends an unassigned EDU to its destination, whoever holds the lock |
| Outbox.MemoryStorage.TakeBatch | test/memory_storage.go:326-333 | Takes the first EDUs in order, 100 or as many as there are, and marks exactly those |
| Outbox.MemoryStorage.BeginMatrixTransaction | test/memory_storage.go:313-355 | Locks the destination and assigns its first batch to a fresh transaction, or changes nothing when there is nothing to send |
| Outbox.MemoryStorage.GetDestinationsNeedingCatchup | test/memory_storage.go:357-370 | Lists, once each, exactly the destinations with an unassigned EDU |
| Outbox.DestinationTransaction.Commit | test/memory_storage.go:423-435 | Removes the transaction's EDUs, keeps the others in order, and unlocks |
| Outbox.DestinationTransaction.Rollback | test/memory_storage.go:437-450 | Unassigns the transaction's EDUs and unlocks; does nothing after a commit |
| Outbox.UnassignedDropsMarks | test/memory_storage.go:425-431 | When the marks are a prefix, committing drops exactly that prefix |
| Outbox.AssignedEnds | test/memory_storage.go:324-333 | Beginning marks exactly the first batch; committing then leaves the rest and rolling back restores the queue |
| Outbox.EndTransaction | homeserver/outbound_transactions.go:53-69 | Commit followed by the deferred rollback removes the batch; the rollback alone restores the queue |
| Outbox.SendNextTransactionTo | homeserver/outbound_transactions.go:29-76 | The first batch leaves the queue exactly if the server accepted it; otherwise the store is as before; nothing is sent from an empty queue |
| OutboxRuns.StepKeepsInv | test/memory_storage.go:294-355 | Each step keeps: marks are the batch prefix owned by the lock holder, batches have 1 to 100 EDUs, commits were accepted; and it adds only what it inserts |
| OutboxRuns.EveryRunConserves | test/memory_storage.go:294-355 | In every run, committed batches followed by the remaining queue are the insertion sequence of each destination |
| OutboxRuns.EduLeavesOnlyAfterAcceptance | homeserver/outbound_transactions.go:53-69 | A step shortens a queue only by committing an accepted batch that heads it |
| OutboxRuns.SendIsARun | homeserver/outbound_transactions.go:29-76 | Begin, send, commit and the deferred rollback together do what SendNextTransactionTo promises: the first batch is committed and gone iff the server accepted it |
| OutboxRuns.OthersAreUntouched | test/memory_storage.go:294-355 | A step concerns only the queue of its destination |
| OutboxRuns.RetryExtendsBatch | homeserver/outbound_transactions.go:53-66 | A rolled-back batch is a prefix of the destination's next batch, whatever happens in between |
| SqlOutbox.LowestIsPrefix | storage/psql.go:707 | The n lowest ids are the first n rows in id order |
| SqlOutbox.InsertAppends | storage/psql.go:657-674 | Inserting under a new highest id appends to the queue |
| SqlOutbox.DeleteDropsHead | storage/psql.go:707 | Deleting the lowest rows leaves the rest of the queue in order |
| SqlOutbox.SqlBatchRefinesQueue | storage/psql.go:676-733 | Whatever order rows are returned in, a transaction takes and leaves what the in-memory store's does, and takes nothing only from an empty queue |
| SqlOutbox.InsertsDoNotDisturbCommit | storage/psql.go:705-732 | Rows inserted while a transaction is open survive its commit, in order |
| SqlOutbox.DeletePrefix | storage/psql.go:707 | Deleting the first k rows drops the first k of the queue |
| SqlRuns.RowsPermuted | storage/psql.go:713-725 | Rows returned in another order carry the same payloads |
| SqlRuns.StepSimulates | storage/psql.go:657-733 | Each insert, begin, send, commit and rollback of the table is simulated by the in-memory queue, up to the order within a batch |
| SqlRuns.EveryRunSimulates | storage/psql.go:657-733 | So is every run, whatever order rows are returned in |
| SqlRuns.EveryRunConserves | storage/psql.go:657-733 | In every run the insertions of a destination are its committed batches, each perhaps reordered, followed by its table in id order |
| LearnQueue.LearnStore.PushStateLearnQueue | test/memory_storage.go:207-211 | Appends the item |
| LearnQueue.LearnStore.PopStateLearnQueue | test/memory_storage.go:213-222 | Moves the head of the queue to the pending items under a new transaction |
| LearnQueue.LearnTransaction.Commit | test/memory_storage.go:393-406 | Drops the item from the pending ones, once |
| LearnQueue.LearnTransaction.Rollback | test/memory_storage.go:408-414 | Puts the item at the back of the queue; does nothing after the transaction ended |
| LearnQueue.LearnState | homeserver/learn_state.go:33-76 | Succeeds exactly when every fetch, lookup, learning and store step does; then it stamps that room as it is after processing, and no other room |
| LearnQueue.PopAndProcess | tasks/state_cache.go:25-54 | Completes the head of the queue exactly if LearnState succeeds on it, and otherwise moves it to the back |
| LearnQueue.CacheLearnedRoomState | tasks/state_cache.go:12-23 | Completes exactly the items before the first that cannot be learned from, in order, leaves nothing pending, and terminates |
| LearnRuns.EndTakesOne | test/memory_storage.go:393-406 | Ending a transaction takes exactly one copy of its item out of the pending ones |
| LearnRuns.StepKeepsInv | test/memory_storage.go:207-222 | Each step conserves the items, keeps items exclusive to one transaction, and completes only learned ones |
| LearnRuns.EveryRunKeepsItems | test/memory_storage.go:387-414 | In every run queued, pending and completed items are together exactly the pushed ones, no item is held twice, and only learned items are completed |
| LearnRuns.FirstInFirstOut | test/memory_storage.go:207-222 | In every run the k-th item popped is the k-th to join the queue, by a push or a rollback, and the others wait in that order |
| LearnRuns.PushedInOrder | test/memory_storage.go:207-211 | Without rollbacks items join in the order they were pushed |
| LearnRuns.RoundIsARun | tasks/state_cache.go:25-54 | A round of the draining task does to the queue what a pop, the attempt to learn, a commit and the deferred rollback do |
| LearnRuns.RollbackAfterCommit | tasks/state_cache.go:27-28 | The deferred rollback after a commit changes nothing |
| Counter.LiveShrinks | frequency/counter.go:108 | As time passes, the number of live timestamps never grows |
| Counter.Counter.Increment | frequency/counter.go:134-146 | Publishes one record stamped with the current time, and counts nothing yet |
| Counter.Counter.Deliver | frequency/counter.go:84-91 | An echo is counted for its entity, in any order of arrival |
| Counter.Counter.Prune | frequency/counter.go:106-111 | One entity's pass keeps every timestamp that is live now or later, and none that was dead at the start |
| Counter.Counter.Cleanup | frequency/counter.go:103-118 | Cleanup is unobservable: what is stored stays as good as everything ever delivered, and no dead entry or empty list remains |
| Counter.Counter.Get | frequency/counter.go:148-165 | Counts the live timestamps among all ever delivered, future ones included; exact up to the clock's movement during the call |
| Counter.Counter.Background | frequency/counter.go:65-121 | Any deliveries and cleanups keep the counter faithful, only add to its history, and neither lose nor repeat a published record |
| Limiters.LargerCountsExceed | filter/filter_frequency.go:76-78 | If a count exceeds the rate, so does every larger one, under any order-preserving rounding |
| Limiters.PassesUpToMost | filter/filter_frequency.go:76-78 | Counts pass exactly up to the largest that does |
| Limiters.Judge | filter/filter_frequency.go:76-81 | Prohibited with exactly the flooding harm if the count exceeds the rate, and Neutral otherwise |
| Limiters.NeutralUpToMost | filter/filter_frequency.go:76-81 | The answer is Neutral exactly up to the largest count that passes |
| Limiters.NeutralWithoutRounding | filter/filter_frequency.go:76-81 | In exact arithmetic, exactly up to sixty times the limit, rounded down |
| Limiters.MostWithoutRounding | filter/filter_frequency.go:76-78 | In exact arithmetic that is sixty times the limit, rounded down |
| Limiters.MostWithRounding | filter/filter_frequency.go:76-78 | With rounding, that many still pass, and it is the largest if and only if the quotient of the next count does not round to the limit |
| Limiters.MostInDoublePrecision | filter/filter_frequency.go:76-78 | In double precision it is the largest whenever the limit is not within rounding distance below a whole number a minute |
| Limiters.CheckFrequency | filter/filter_frequency.go:53-82 | In-scope events publish one record and are Prohibited with exactly the flooding harm if one more than the live count exceeds the rate, and Neutral otherwise, with echoes arriving meanwhile; others publish nothing |
| Limiters.CapIsInvisible | filter/filter_mentions_frequency.go:37-41 | Counting mentions only up to the cap gives the verdict of the full count whenever a count at the cap exceeds the rate |
| Limiters.CapIsInvisibleExactly | filter/filter_mentions_frequency.go:37-41 | The cap never changes a verdict if and only if a count at the cap exceeds the rate, or no count does |
| Limiters.CapWithoutRounding | filter/filter_mentions_frequency.go:39 | In exact arithmetic the cap is the first whole number at least one above sixty times the limit |
| Limiters.CapExceedsRate | filter/filter_mentions_frequency.go:37-41 | In double precision, a count at the cap exceeds every rate from 0 to 10^12 per second |
| Limiters.PublishMentions | filter/filter_mentions_frequency.go:73-79 | One increment per mention, stopping at the first that cannot be published, with echoes arriving meanwhile and no record lost |
| Limiters.JudgeMentions | filter/filter_mentions_frequency.go:66-87 | Reads the window before publishing one increment per mention; the sum decides between Prohibited flooding and Neutral |
| Limiters.CheckMentionFrequency | filter/filter_mentions_frequency.go:60-88 | Prohibited flooding or Neutral by the window count plus the full mention count, although only the capped count is published, as long as the cap exceeds the rate |
| LimiterRuns.LiveCountsMarks | frequency/counter.go:148-165 | The live count is the number of delivered, unexpired increments of the entity |
| LimiterRuns.PromptSeesEarlier | frequency/counter.go:148-165 | A reading after all earlier increments were delivered is at least their number in the window |
| LimiterRuns.EveryRunKeepsInv | frequency/counter.go:65-121 | In every run the stored counts are faithful and prompt readings have seen all earlier increments in the window |
| LimiterRuns.PassedChecksObeyLimit | filter/filter_mentions_frequency.go:81-87 | Passed checks of one sender within less than a window carry together a count that does not exceed the rate |
| LimiterRuns.NeutralVerdictsObeyLimit | filter/filter_frequency.go:71-81 | In any stretch shorter than sixty seconds a sender gets at most the largest passing count of Neutral answers, own echo visible or not |
| LimiterRuns.FrequencyCheckRuns | filter/filter_frequency.go:53-82 | A frequency check is a run: it publishes, reads later, and answers |
| LimiterFleet.TopicsFollowIds | frequency/counter.go:40 | Two counters of one name share a topic exactly if they drew the same id |
| LimiterFleet.EchoCrossesExactly | frequency/counter.go:40-56 | A record reaches another process exactly if both drew the same id |
| LimiterFleet.ProcessesAreAlone | frequency/counter.go:40-56 | With ids of their own, each process runs as if it were the only one |
| LimiterFleet.FleetObeysLimitPerProcess | frequency/counter.go:30-53 | Over p processes a sender gets at most p limits' worth of Neutral verdicts |
| LimiterFleet.BurstReaches | frequency/counter.go:134-165 | n events at one moment, each echoed before the next, are read as 0, 1, ..., n - 1 |
| LimiterFleet.FleetReachesBound | frequency/counter.go:30-53 | A run in which every process lets a full limit through |
| LimiterFleet.LimitIsSharedExactly | frequency/counter.go:30-53 | One limit holds for the whole fleet if and only if it has at most one process or lets nothing through |
| Mentions.CountEach | filter/filter_mentions.go:87-100 | Early-exit counting over a set in any order is the full count truncated at the limit |
| Mentions.CountMentionsToLimit | filter/filter_mentions.go:41-106 | Reaches the limit exactly if the full count does, and equals it below the limit |
| Mentions.CheckMentions | filter/filter_mentions.go:108-119 | Spam exactly when the full count reaches the maximum |
| Mentions.ContainsExactly | filter/filter_mentions.go:87-94 | A needle is found exactly where the text is something, the needle, and something |
| Hellban.HellbanFilter.Listen | filter/filter_hellban.go:70-101 | Until the channel closes, the cache is what the messages of this community make it, in order |
| Hellban.HellbanFilter.CheckEvent | filter/filter_hellban.go:119-145 | The prefilter flags exactly the cached senders; the postfilter publishes one hellban for the sender, or errors |
| Hellban.PeriodsAreDisjoint | filter/filter_hellban.go:93-98 | A user's ban periods each last exactly the configured time and never overlap, so repeats never extend one |
| Hellban.PeriodsStartAtMessages | filter/filter_hellban.go:93-98 | Each period begins at a message received outside every earlier period |
| Hellban.MessagesAreAccounted | filter/filter_hellban.go:93-98 | Each message either starts a period or was received inside one |
| Hellban.CacheHoldsLastPeriod | filter/filter_hellban.go:88-98 | The cache holds the end of each user's last period; other users and communities have no effect |
| Hellban.BannedIffInPeriod | filter/filter_hellban.go:126-131 | A sender is flagged exactly at the moments inside one of its periods |
| HellbanRuns.StepKeepsInv | filter/filter_hellban.go:70-145 | Each step keeps: messages are handled in clock order, and an echo was published during one of its user's bans |
| HellbanRuns.EveryRunKeepsInv | filter/filter_hellban.go:70-145 | So does every interleaving of events, deliveries and the clock |
| HellbanRuns.BanEndsExactly | filter/filter_hellban.go:93-98 | A ban is the user's last, and the user is let through after it, if and only if no message about the user is handled after its end |
| HellbanRuns.EveryBanHasACause | filter/filter_hellban.go:88-98 | Every ban begins with an offence's message, or with the echo of an earlier ban handled after that ban's end |
| HellbanRuns.BeginsExactly | filter/filter_hellban.go:93-98 | A message begins a ban if and only if it is received while its user is not banned |
| HellbanRuns.ResendingIsHarmlessExactly | filter/filter_hellban.go:93-98 | Every ban is begun by an offence's message if and only if each echo is received while its user is banned |
| HellbanRuns.PromptEchoesCauseNoBans | filter/filter_hellban.go:93-98 | In particular, every ban takes an offence of its own if every echo is handled before its ban ends |
| HellbanRuns.FlaggedIsGating | community/manager.go:182-210 | The events that are flagged are those for which the postfilter's group runs |
| HellbanRuns.OneOffenceManyBans | filter/filter_hellban.go:93-98 | For any n, a run with one offence and n further bans, each from an echo handled a moment too late |
| Pool.DoFilter | queue/pool.go:155-201 | Answers what the store reads without filtering, or stores what it answers; errors exactly when a step fails |
| Pool.UndisturbedStepsAnswer | queue/pool.go:155-201 | The interleavable steps of one execution, run together, do what doFilter does |
| Pool.StepKeepsInv | queue/pool.go:109-150 | Each step keeps: one execution in flight per event, answers report what is stored, first sight reported once |
| Pool.EveryRunKeepsInv | queue/pool.go:109-150 | So does every interleaving of submissions |
| Pool.SubmitJoinsOwnEvent | queue/pool.go:109-139 | A new caller waits for an execution of its own event that is not over; a cancelled one starts nothing |
| Pool.CallerKeepsEvent | queue/pool.go:121-148 | From then on it waits for that execution, of that event |
| Pool.CallersGetTheirOwnEvent | queue/pool.go:121-148 | In every run, a caller's successful answer reports what is stored for the event it submitted |
| Pool.ReturnEndsFlight | queue/pool.go:121-139 | Once an execution returns, the next submission of its event starts a new one |
| Pool.AtMostOneInFlight | queue/pool.go:121-139 | At most one doFilter per event ID is in progress |
| Pool.StoredResultIsFinal | queue/pool.go:155-201 | After a store the result never changes, filters never run again for the event, every answer reports it, and no new execution claims the first sight |
| Pool.FirstTimeSeenOnce | queue/pool.go:197-200 | firstTimeSeen is true for at most one execution per event |
| Pool.LaterAnswerIsRead | queue/pool.go:157-166 | A later answer is what the store makes of the first one |
| PersistedPool.RereadIsRead | storage/psql.go:270-348 | What a stored verdict reads as, as a function of the verdict |
| PersistedPool.ReadingIsUnique | storage/psql.go:283-312 | A column has only one reading, whatever the order of its keys |
| PersistedPool.LaterAnswersAgreeExactly | queue/pool.go:155-201 | Over Postgres, a later answer equals the first if and only if that was Prohibited with readable harms; after any other, every later one is Prohibited with the general harm |
| PersistedPool.NeutralThenProhibited | queue/pool.go:155-201 | A run in which one event is first let through and then flagged |
| EventCodec.UpsertEventResult | storage/psql.go:317-348 | Writes one key per harm, and a marker for Allowed |
| EventCodec.GetEventResult | storage/psql.go:283-312 | Any key order gives the Prohibited info with exactly the decoded harms; only empty text reads as Neutral |
| EventCodec.HarmRoundTrip | storage/psql.go:325-331 | A harm decodes to itself unless its vector suffix is `Allowed` or starts with `h:`; then it is lost or comes back shorter |
| EventCodec.KeysAreInjective | storage/psql.go:323-332 | On readable harms the key encoding is injective |
| EventCodec.VerdictSurvivesExactly | storage/psql.go:270-348 | A verdict survives storage if and only if it is Prohibited with readable harms; any other class comes back Prohibited with the general harm |
| ClassificationCodec.Value | storage/interface.go:75-81 | Writes the class name followed by the harms |
| ClassificationCodec.Scan | storage/interface.go:83-119 | Reads an array as specified; other sources leave the info alone, bad JSON errors |
| ClassificationCodec.ScanUndoesValue | storage/interface.go:75-119 | Every constructed info comes back equal, including harms spelled like a class name |
| ClassificationCodec.ScannedMarkers | storage/interface.go:88-113 | The empty array and `Neutral` alone are Neutral, `Allowed` alone is Allowed, `Prohibited` alone has the general harm, and after it a list has exactly its own harms |
| ClassificationCodec.LegacyMeaningExactly | storage/interface.go:104-113 | An array keeps its legacy meaning if and only if it does not start with a class name that gets dropped |
| ClassificationCodec.LegacyListsMisread | storage/interface.go:93-107 | Two concrete lists: one is an error, the other loses its first element |
| ClassificationCodec.ScanErrorsExactly | storage/interface.go:93-103 | Errors exactly on a Neutral or Allowed marker followed by more |
| Keyring.FilterUnsafeKeysOut | homeserver/keyring_fetcher.go:35-51 | Keeps exactly the answers whose key is not on the unsafe list |
| Keyring.KeyStore.AnswerKnown | homeserver/keyring.go:28-55 | A request for the own key is answered with it for a day, one whose cached key is valid at its time with that key; exactly the other requests are queued |
| Keyring.KeepBest | homeserver/keyring.go:59-89 | One fetcher's answers, in any order, replace missing or shorter-lived ones; what is still missing and what is to be stored stay in step |
| Keyring.FetchMissing | homeserver/keyring.go:57-90 | Each fetcher tried is asked for exactly the unanswered requests, and none once nothing is missing |
| Keyring.ConsultedExactly | homeserver/keyring.go:63-78 | A fetcher has a say exactly if it was asked and answered |
| Keyring.KnownAreKept | homeserver/keyring.go:28-89 | A known answer is never asked for, never gets shorter-lived, and stays if and only if no fetcher offers, unasked, a longer-lived safe one |
| Keyring.UnknownAreFetched | homeserver/keyring.go:52-89 | Any other request is in the first fetcher's batch, and an answer to it is one that a fetcher offers |
| Keyring.OwnAnswerDisplaced | homeserver/keyring.go:79-89 | A concrete fetch in which the own key's answer is replaced by an unasked one |
| Keyring.KeyStore.StoreKeys | homeserver/keyring.go:108-123 | Caches exactly the given answers and leaves every other entry |
| Keyring.KeyStore.FetchKeys | homeserver/keyring.go:24-106 | Own and validly cached requests are never passed on, and keep their answer unless a fetcher offers, unasked, a longer-lived one; every other request is passed on and answered only by a fetcher; what is new is cached, and a cache free of unsafe keys stays so |
| Keyring.FetchKeepsCacheSafe | homeserver/keyring.go:57-97 | Fetching never brings an unsafe key into a cache that holds none |
| Keyring.CacheStaysSafe | homeserver/keyring.go:57-97 | So over any sequence of calls the cache holds no unsafe key |
| Keyring.KeepsLongestValid | homeserver/keyring.go:79-89 | Each answer is valid at least as long as every safe fetched answer for its request |
| Keyring.AnswersAreSafe | homeserver/keyring.go:79-89 | Each answer was known before or is a fetcher's answer whose key is not unsafe |
| InlineImages.CheckImage | filter/filter_inline_emoji_size.go:89-132 | Accepts exactly the tags with the emoticon marker and one height of ASCII digits within the maximum |
| InlineImages.DecimalReadsDigits | filter/filter_inline_emoji_size.go:111-118 | A height is read as the number its digits denote, leading zeros or not |
| InlineImages.CheckEvent | filter/filter_inline_emoji_size.go:50-138 | A message with a formatted body is flagged iff some image in it is not acceptable, and otherwise an error iff the tokenizer fails; unreadable content errors, and everything else is Neutral |

## Left out

- HTTP handlers, federation calls, webhooks, metrics, logging and audits (creating the audit context never fails, filter/audit.go:28-41): no state to reason about. Their outcomes are inputs where the code branches on them.
- Single filters other than those above: filter outcomes are inputs to the pipeline, and a filter's outcome does not depend on when in its group it runs.
- Media extraction: whether the event's content parses is an input to `CheckEvent`.
- Glob and regular expression matching, the HTML tokenizer, CSV and JSON: library code. Tokens, decoded messages and decoded maps are inputs.
- Slices.SortInPlace: does not model the steps of the sorting library routine, only what it leaves in the slice.
- Limiters.CheckFrequency: does not fix the bits of floating-point arithmetic; rounding is any function that keeps order, and where accuracy matters one that is off by at most one part in 2^53.
- Limiters.CapExceedsRate: does not cover rates above 10^12 per second, where rounding begins to lose the cap's added one (`Limiters.CapIsInvisibleExactly` has the condition for every rate), nor fused multiply-add, which some processors use for the cap.
- Counter.Counter.Get: does not return an exact count at one instant, because the code reads the clock once per timestamp; the count lies between those at the end and at the start of the call.
- Outbox.MemoryStorage.BeginMatrixTransaction: does not model blocking on the destination's lock; it is the step taken once the lock is free, and in `OutboxRuns` a locked begin is a step that changes nothing.
- Outbox.SendNextTransactionTo: does not model the one-minute timeout and the singleflight around it, which only reduce how often it runs.
- LearnQueue.PopAndProcess: does not model database errors of its own pop and commit, which the in-memory store never has.
- The SQL form of the state-learning queue, with its due times and skipped locked rows, whose order differs from the in-memory one.
- Serial-id visibility gaps, lost connections and replica lag: the database is an atomic store.
- Pool.StoredResultIsFinal: does not cover several processes over one store.
- Sending pool results over the callers' channels, and the goroutine pool's capacity.
- The TTL cache library: the hellban cache maps users to expiry times, and the key cache holds only unexpired entries; an answer's validity at a time is an input predicate.
- The manager's caches, whose fill and invalidation are not atomic, and the conversion of JSON to community settings.
- Strings are sequences of bytes; Unicode case mapping is applied before attribute names and values reach the model.
- `event.SenderID()` parsing, signature checks and redaction.
- Trust sources, keyword, density, length, link and other threshold filters, schedulers and configuration layering: no property of theirs spans more than one function.
