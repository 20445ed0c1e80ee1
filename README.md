# jfix-multiplexer dispatch engine in Dafny

This project models the dispatch engine of `MultiplexerWithPriority`.

Producers send typed messages. Each message is buffered in a FIFO queue for its type. A single worker then hands messages to a bounded output channel. Before each hand-over the worker asks a weighted-fair recommender which type should go next.

The recommender:

- keeps a sliding window of the types recently dispatched;
- sizes the window as the sum of the registered weights;
- recommends first the types whose weight exceeds their count in the window, heaviest first;
- then lists every other registered type, also heaviest first.

The model has one module per source file:

| module | file | models |
|---|---|---|
| `Expiration` | `expiration_date.dfy` | `ExpirationDate`: an absolute deadline in milliseconds. The clock is an explicit `now` parameter. |
| `Messages` | `messages.dfy` | The value types: `MessageType`, `MessageContainer` and the sending result. |
| `Classification` | `classified_statistic.dfy` | Counting the window: a loop filling an insertion-ordered map. |
| `Matching` | `statistic_matcher.dfy` | The positive deficits of expected against observed counts: a loop over the expected types. |
| `Recommendation` | `statistic_storage_recommender.dfy` | The recommender: a class with its window, plus the pure pipeline of construction and recommendation. |
| `TypeBuffer` | `buffer.dfy` | The per-type buffer: a class over a map of queues. |
| `Dispatch` | `multiplexer_with_priority.dfy` | Admission, one dispatch step, a dispatch pass and one worker iteration per state, specified by pure functions over a snapshot of the engine (`Engine`, `Step`, `Pass`, `ForceComplete`). |
| `PriorityScenario` | `priority_scenario.dfy` | The multiplexer's priority test from construction on: creation with the test's weights, the send loop, and the worker iterations that dispatch high, medium, then trivial. |

The helper modules `Wrappers` (Option, Result), `Sequences` (distinctness) and `LinkedMaps` (a map together with its insertion order) model the Java collections the code relies on.

### How the Java types become Dafny

- **`LinkedHashMap`** becomes `LinkedMap`: a key sequence plus a map.
- **`CircularFifoQueue`** becomes a sequence, updated by `Slide`, which drops the oldest entry when the window is full.
- **The buffer's `ConcurrentHashMap`** of queues becomes `queues`, together with `types`, which lists the keys in the order they were created.
- **A `CompletableFuture` promise** becomes a number (`PromiseId`). Its completion is an entry in the ghost map `resolutions`.
- **Messages handed to the output channel** are recorded, in order, in `channelLog`.
- **Channel answers:**
  - the channel's `hasFreeSlot` answer for the k-th dispatch of a pass is `freeSlot(k)`;
  - its answer to the k-th send is `outcome(k)`, which is one of:
    - delivered with a result;
    - a synchronous throw;
    - an asynchronous failure.

### Notes on the code

- `shutdown` and `shutdownNow` assign the state whatever it was (`MultiplexerWithPriority.java:261`, `:270`), so `shutdown` after `shutdownNow` goes back to `Shutdown`. The model does the same.
- The worker's SHUTDOWN branch makes one dispatch pass and then ends the loop, even when messages remain because the channel is busy (`MultiplexerWithPriority.java:352-362`).
- `isExpired` is strict. A deadline equal to `now` is not yet expired, because `Date.before` is strict.
- `CircularFifoQueue` rejects a capacity of zero or less. The recommender's constructor therefore fails both for an empty weight map and for weights that sum to zero or less. The model returns `NoRegisteredTypes` and `NonPositiveCapacity` for these two cases.
- An unregistered type in `send` throws in the source. The model returns `Failure(UnregisteredType)` and changes nothing.

## Model

| member | source | states |
|---|---|---|
| Expiration.ExpirationDate.RemainingMs | src/main/java/ru/fix/multiplexer/ExpirationDate.java:48-50 | the remaining time is non-negative exactly until the deadline, that is while `now` is at or before it, and zero exactly at the deadline |
| Expiration.ExpirationDate.IsExpired | src/main/java/ru/fix/multiplexer/ExpirationDate.java:44-50 | a date is expired at `now` exactly when its remaining time at `now` is negative, i.e. strictly before `now` |
| Expiration.ExpirationDate.DeductSlipTime | src/main/java/ru/fix/multiplexer/ExpirationDate.java:13-60 | the new date has, at every `now`, exactly 50 ms less remaining; whatever was expired stays expired |
| Expiration.ExpiresIn | src/main/java/ru/fix/multiplexer/ExpirationDate.java:18-31 | created at `now` with a timeout, the remaining time at `now` is the timeout, and it is expired then exactly when the timeout is negative |
| Expiration.ExpiresOn | src/main/java/ru/fix/multiplexer/ExpirationDate.java:36-38 | the deadline is the given instant: remaining is `instant - now`, expired exactly when `instant < now` |
| Expiration.NegativeTimeoutIsExpired | src/test/java/ru/fix/multiplexer/ExpirationDateTest.java:15-18 | a negative timeout is already expired |
| Expiration.NonNegativeTimeoutIsNotExpired | src/test/java/ru/fix/multiplexer/ExpirationDateTest.java:20-23 | a non-negative timeout is not expired at creation |
| Expiration.ExpiredStaysExpired | src/main/java/ru/fix/multiplexer/ExpirationDate.java:44-46 | a date expired at some instant is expired at every later instant, so a message once expired is never dispatched later |
| Expiration.SlipTimeShortensRemaining | src/test/java/ru/fix/multiplexer/ExpirationDateTest.java:40-44 | deducting slip time lowers the remaining time by 50 ms, so strictly, and yields a different date |
| Messages.MessageContainer.IsExpired | src/main/java/ru/fix/multiplexer/MessageContainer.java:36-38 | a container is expired exactly when its expiration date has no time remaining, that is when the deadline lies strictly before `now` |
| LinkedMaps.Put | src/main/java/ru/fix/multiplexer/priority/StatisticMatcher.java:30 | putting a key sets its value and appends the key to the insertion order only when it is new |
| Classification.CountPositiveIffPresent | src/main/java/ru/fix/multiplexer/priority/ClassifiedStatistic.java:20-24 | a type has positive count exactly when it occurs in the window |
| Classification.FirstOccurrencesSound | src/main/java/ru/fix/multiplexer/priority/ClassifiedStatistic.java:20-24 | the order of first occurrences lists each occurring type once and no other type |
| Classification.CountsSumToLength | src/main/java/ru/fix/multiplexer/priority/ClassifiedStatistic.java:20-24 | the counts of the distinct types add up to the window's length |
| Classification.CalculateClassifiedStatistics | src/main/java/ru/fix/multiplexer/priority/ClassifiedStatistic.java:20-24 | the result's keys are the distinct window types in order of first occurrence; a type is a key exactly when it occurs; each value is its number of occurrences, at least 1; the values sum to the window's length |
| Classification.EmptyWindowHasNoCounts | src/test/java/ru/fix/multiplexer/priority/ClassifiedStatisticTest.java:14-21 | an empty window has no keys and every count zero |
| Matching.Underserved | src/main/java/ru/fix/multiplexer/priority/StatisticMatcher.java:25-34 | every selected type is one of the expected types, with a positive `expected - observed` difference |
| Matching.Satisfied | src/main/java/ru/fix/multiplexer/priority/StatisticMatcher.java:25-34 | every type of the complementary selection is one of the expected types, with a difference that is not positive |
| Matching.UnderservedMembers | src/main/java/ru/fix/multiplexer/priority/StatisticMatcher.java:27-32 | a type is selected exactly when it is expected and its difference is positive, and left for completion exactly when its difference is not positive; types only in the observed map are never selected |
| Matching.PartsPartition | src/main/java/ru/fix/multiplexer/priority/StatisticStorageRecommender.java:54-57 | the two selections together are as long as the order, and a repetition-free order gives repetition-free selections |
| Matching.Calculate | src/main/java/ru/fix/multiplexer/priority/StatisticMatcher.java:25-34 | the result map holds exactly the expected types with a positive `expected - observed (default 0)`, in expected order, each mapped to that difference |
| Matching.SameSpreadingRecommendsNothing | src/test/java/ru/fix/multiplexer/priority/StatisticMatcherTest.java:32-45 | observing exactly the expected counts selects nothing |
| Matching.CoveredSpreadingRecommendsNothing | src/test/java/ru/fix/multiplexer/priority/StatisticMatcherTest.java:47-63 | observing at least the expected count of every type selects nothing |
| Matching.PartsKeepWeightOrder | src/main/java/ru/fix/multiplexer/priority/StatisticStorageRecommender.java:54-57 | both selections of an order sorted by non-increasing weight are sorted the same way |
| Matching.MatcherExamples | src/test/java/ru/fix/multiplexer/priority/StatisticMatcherTest.java:12-79 | with expected A 10, B 5, C 5: observed A 11, B 3, C 5 selects only B, with difference 2; observed only A 11 selects B and C, each with difference 5 because an absent type counts as 0; observed A 11, B 6, C 5 selects nothing |
| Recommendation.SumWeightsIsMapSum | src/main/java/ru/fix/multiplexer/priority/StatisticStorageRecommender.java:31-37 | summing the weights along any repetition-free listing of the registered types gives the sum of the weight map |
| Recommendation.SortByWeightDescending | src/main/java/ru/fix/multiplexer/priority/StatisticStorageRecommender.java:26-29 | the sorted map has the same entries as the registered map and lists its keys by non-increasing weight |
| Recommendation.SortedOrderIsUnique | src/test/java/ru/fix/multiplexer/priority/StatisticStorageRecommenderTest.java:20-34 | when all weights differ, two repetition-free weight-sorted listings of the same types are equal, so the sort's order is determined |
| Recommendation.LastN | src/main/java/ru/fix/multiplexer/priority/StatisticStorageRecommender.java:18 | the retained suffix is never longer than the capacity nor the history |
| Recommendation.LastNSnoc | src/main/java/ru/fix/multiplexer/priority/StatisticStorageRecommender.java:41-44 | recording one more type in the history appends it to the window, dropping the oldest entry exactly when the window was full |
| Recommendation.Slide | src/main/java/ru/fix/multiplexer/priority/StatisticStorageRecommender.java:41-44 | adding to the window appends the type, drops the oldest entry exactly when the window is at capacity, and the length grows only below capacity |
| Recommendation.ObservedIsCount | src/main/java/ru/fix/multiplexer/priority/StatisticStorageRecommender.java:51-53 | the observed count of a type (0 when absent) is its number of occurrences in the window |
| Recommendation.StatisticStorageRecommender.Create | src/main/java/ru/fix/multiplexer/priority/StatisticStorageRecommender.java:25-39 | fails with no registered types exactly for the empty map, with a non-positive capacity exactly when the weights sum to zero or less; otherwise keeps the registered weights, sets the capacity to their sum, and starts with an empty window |
| Recommendation.StatisticStorageRecommender.Add | src/main/java/ru/fix/multiplexer/priority/StatisticStorageRecommender.java:41-44 | the window becomes `Slide(window, t, capacity)`: the type is appended and the oldest dropped when full; the window is the last `capacity` types of the history and never longer than the capacity; weights and capacity are constant |
| Recommendation.StatisticStorageRecommender.MakeRecommendation | src/main/java/ru/fix/multiplexer/priority/StatisticStorageRecommender.java:51-58 | returns the underserved types in weight order followed by the other registered types in weight order, and changes nothing |
| Recommendation.RecommendFor | src/main/java/ru/fix/multiplexer/priority/StatisticStorageRecommender.java:51-58 | counting, matching and completing with the missing registered types (via `putIfAbsent`) yield exactly the underserved types followed by the satisfied ones |
| Recommendation.StatisticStorageRecommender.TypeIsRegistered | src/main/java/ru/fix/multiplexer/priority/StatisticStorageRecommender.java:61-63 | holds exactly when the type is a registered key |
| Recommendation.RecommendListsEveryTypeOnce | src/main/java/ru/fix/multiplexer/priority/StatisticStorageRecommender.java:56-57 | the recommendation is a permutation of the registered types: same length, no repetition, same members |
| Recommendation.RecommendPrefersDeficits | src/main/java/ru/fix/multiplexer/priority/StatisticStorageRecommender.java:52-57 | every type with a positive deficit precedes every type without one, and types on the same side come heaviest first |
| Recommendation.AllBehindAreUnderserved | src/main/java/ru/fix/multiplexer/priority/StatisticMatcher.java:27-32 | when every type is behind its weight, all are selected in order and none is left for completion |
| Recommendation.ColdStartFollowsWeights | src/test/java/ru/fix/multiplexer/priority/StatisticStorageRecommenderTest.java:74-91 | with an empty window the recommendation is the descending-weight order |
| Recommendation.ConstructionExample | src/test/java/ru/fix/multiplexer/priority/StatisticStorageRecommenderTest.java:20-46 | weights NotVeryImportant 5, Trivial 2, VeryImportant 10 sort to VeryImportant, NotVeryImportant, Trivial, with window capacity 17 |
| Recommendation.WindowCounts | src/test/java/ru/fix/multiplexer/priority/StatisticStorageRecommenderTest.java:48-71 | the window VeryImportant, NotVeryImportant, VeryImportant, VeryImportant counts 3, 1 and 0 |
| Recommendation.RecommendationExample | src/test/java/ru/fix/multiplexer/priority/StatisticStorageRecommenderTest.java:48-91 | with weights 3, 2, 1 and that window the recommendation is NotVeryImportant, Trivial, VeryImportant; with an empty window it is VeryImportant, NotVeryImportant, Trivial |
| TypeBuffer.QueueIn | src/main/java/ru/fix/multiplexer/Buffer.java:37-40 | a non-empty queue of a type is the stored queue of an existing key; an absent key reads as an empty queue |
| TypeBuffer.FlattenEmpty | src/main/java/ru/fix/multiplexer/Buffer.java:45-52 | the buffer's contents are empty exactly when every queue is empty |
| TypeBuffer.FlattenLength | src/main/java/ru/fix/multiplexer/Buffer.java:57-63 | replacing one queue changes the buffer size by the difference of the queue lengths |
| TypeBuffer.FlattenIsTyped | src/main/java/ru/fix/multiplexer/Buffer.java:68-72 | every buffered message sits in the queue of its own type |
| TypeBuffer.Buffer.constructor | src/main/java/ru/fix/multiplexer/Buffer.java:23-32 | a new buffer has no queues |
| TypeBuffer.Buffer.HasMessage | src/main/java/ru/fix/multiplexer/Buffer.java:37-40 | holds exactly when some buffered message has that type |
| TypeBuffer.Buffer.MessageOfTypeIsInItsQueue | src/main/java/ru/fix/multiplexer/Buffer.java:37-40 | some buffered message has type `t` exactly when the queue of `t` exists and is non-empty |
| TypeBuffer.Buffer.IsEmpty | src/main/java/ru/fix/multiplexer/Buffer.java:45-52 | holds exactly when the buffer holds no message, equivalently when every queue is empty |
| TypeBuffer.Buffer.Size | src/main/java/ru/fix/multiplexer/Buffer.java:57-63 | the number of buffered messages over all queues |
| TypeBuffer.Buffer.Add | src/main/java/ru/fix/multiplexer/Buffer.java:68-72 | appends the message to its type's queue, creating the queue (and its position in the key order) when absent; no other queue changes; size grows by one |
| TypeBuffer.Buffer.PollNext | src/main/java/ru/fix/multiplexer/Buffer.java:77-89 | an absent or empty queue yields nothing and changes nothing; otherwise returns and removes the queue's front, leaving every other queue unchanged; size drops by one exactly when something is returned |
| TypeBuffer.Buffer.PollAndProcessAllMessages | src/main/java/ru/fix/multiplexer/Buffer.java:91-104 | hands out every buffered message exactly once, queue by queue in key order and FIFO within a queue, and leaves every queue empty with the keys kept |
| TypeBuffer.FifoScenario | src/test/java/ru/fix/multiplexer/BufferTest.java:32-70 | two messages of one type come out in the order added, then nothing; afterwards the buffer is empty but keeps the type's key |
| TypeBuffer.IndependentQueuesScenario | src/test/java/ru/fix/multiplexer/BufferTest.java:72-114 | with two types, polling in the reverse order still returns each type's own message, leaving size zero |
| Dispatch.Resolve | src/main/java/ru/fix/multiplexer/MultiplexerWithPriority.java:199-228 | a promise completes normally, with `Sent(result)`, exactly when the channel delivers; a synchronous throw or an asynchronous failure completes it exceptionally |
| Dispatch.FirstWaiting | src/main/java/ru/fix/multiplexer/MultiplexerWithPriority.java:231-238 | the index of the first recommended type whose queue is non-empty, all earlier ones empty; the length when there is none |
| Dispatch.Step | src/main/java/ru/fix/multiplexer/MultiplexerWithPriority.java:177-229 | a dispatch step keeps the engine invariant (including that waiting messages hold distinct, still open promises), never changes the registered types or the promise count, and removes exactly one pending message when there is one |
| Dispatch.StepTakesFront | src/main/java/ru/fix/multiplexer/MultiplexerWithPriority.java:185-229 | on a non-empty buffer the step takes the front `m` of the queue of the first recommended type with a waiting message, and that queue loses exactly its front; the pending messages lose exactly `m` (as a multiset); `m`'s promise was open and is now completed, and no other promise is added or changed; an expired `m` completes NotSent with window and channel log unchanged; any other `m` slides its type into the window, is appended to the channel log and completes as the channel answers |
| Dispatch.NeverStalls | src/main/java/ru/fix/multiplexer/MultiplexerWithPriority.java:240-245 | on a non-empty buffer some recommended type has a message, so the "can't find any message" exception is unreachable |
| Dispatch.Pass | src/main/java/ru/fix/multiplexer/MultiplexerWithPriority.java:328-330 | a dispatch pass keeps the engine invariant, the registered types and the promise count |
| Dispatch.PassCounts | src/main/java/ru/fix/multiplexer/MultiplexerWithPriority.java:328-330 | every dispatch of a pass removes one pending message: the pending count drops by the number dispatched |
| Dispatch.PassUsesFreeSlots | src/main/java/ru/fix/multiplexer/MultiplexerWithPriority.java:255-257 | each dispatch of a pass happened while the channel reported a free slot |
| Dispatch.PassStops | src/main/java/ru/fix/multiplexer/MultiplexerWithPriority.java:328-330 | a pass ends only with an empty buffer or a busy channel |
| Dispatch.BusyChannelDispatchesNothing | src/test/java/ru/fix/multiplexer/MultiplexerWithPriorityTest.java:97-112 | when the channel is busy at the start, a pass changes nothing |
| Dispatch.FreeChannelDrainsBuffer | src/test/java/ru/fix/multiplexer/MultiplexerWithPriorityTest.java:74-95 | when the channel always has a free slot, a pass makes one dispatch per pending message and empties the buffer, and every message that waited is settled: NotSent when it is expired, Sent when it is not and the channel delivers everything |
| Dispatch.PassSettles | src/main/java/ru/fix/multiplexer/MultiplexerWithPriority.java:185-229 | every message a pass takes out of the buffer ends the pass with its promise settled as above |
| Dispatch.PassKeepsResolved | src/main/java/ru/fix/multiplexer/MultiplexerWithPriority.java:185-229 | a pass never changes or removes the completion of a promise that was already completed |
| Dispatch.ShutDownAll | src/main/java/ru/fix/multiplexer/MultiplexerWithPriority.java:366-369 | every drained message's promise completes NotSentShuttingDown, and every other promise is left as it was |
| Dispatch.ForceComplete | src/main/java/ru/fix/multiplexer/MultiplexerWithPriority.java:363-377 | the forced drain keeps the types, window, channel log and promise count, keeps every queue but leaves all of them empty, and completes the promise of every message that was waiting with NotSentShuttingDown |
| Dispatch.ForceCompleteResolvesEverything | src/main/java/ru/fix/multiplexer/MultiplexerWithPriority.java:363-377 | the forced drain keeps the invariant; other promises keep their completions; the completed promises afterwards are exactly those completed before plus those of the messages that were waiting |
| Dispatch.MultiplexerWithPriority.Create | src/main/java/ru/fix/multiplexer/MultiplexerWithPriority.java:77-107 | fails exactly for no registered types or a non-positive weight sum; otherwise starts Active with no queues and no types in the buffer, a recommender holding the registered weights with capacity their sum and an empty window, promise counter 0, no completed promises and an empty channel log |
| Dispatch.MultiplexerWithPriority.Send | src/main/java/ru/fix/multiplexer/MultiplexerWithPriority.java:124-158 | keeps the invariant, so waiting messages keep distinct open promises; an unregistered type is refused and nothing changes; otherwise a fresh promise is handed out; while Active the message is appended to its type's queue and the size grows by one; in Shutdown or ForceShutdown the promise completes NotSentShuttingDown and the buffer is untouched |
| Dispatch.MultiplexerWithPriority.FindMessageForProcessing | src/main/java/ru/fix/multiplexer/MultiplexerWithPriority.java:231-248 | pops the front of the first recommended type with a message and touches no other queue; finds nothing and changes nothing when no recommended type has one |
| Dispatch.MultiplexerWithPriority.HasMessageAndPossibleToSendToChannel | src/main/java/ru/fix/multiplexer/MultiplexerWithPriority.java:255-257 | holds exactly when the buffer is non-empty and the channel has a free slot |
| Dispatch.MultiplexerWithPriority.SendStoredNotificationToChannel | src/main/java/ru/fix/multiplexer/MultiplexerWithPriority.java:177-229 | the new buffer, window, promises and channel log are one `Step` of the old ones; an empty buffer is left as it is |
| Dispatch.MultiplexerWithPriority.HandOver | src/main/java/ru/fix/multiplexer/MultiplexerWithPriority.java:187-228 | an expired message completes NotSent and neither reaches the window nor the channel; another is recorded in the window first, then handed to the channel, and its promise completes as the channel answers, so a throwing channel still leaves the type in the window |
| Dispatch.MultiplexerWithPriority.DispatchWhilePossible | src/main/java/ru/fix/multiplexer/MultiplexerWithPriority.java:328-330 | the loop's final state and dispatch count are exactly those of `Pass` from the initial state |
| Dispatch.MultiplexerWithPriority.CompleteShuttingDown | src/main/java/ru/fix/multiplexer/MultiplexerWithPriority.java:366-369 | completes the promise of every drained message with NotSentShuttingDown and nothing else |
| Dispatch.MultiplexerWithPriority.WorkerIteration | src/main/java/ru/fix/multiplexer/MultiplexerWithPriority.java:320-384 | Active: one dispatch pass and the loop goes on; Shutdown: one dispatch pass and the loop ends, whatever remains; ForceShutdown: the forced drain completes everything and the loop ends |
| Dispatch.MultiplexerWithPriority.Shutdown | src/main/java/ru/fix/multiplexer/MultiplexerWithPriority.java:260-266 | the state becomes Shutdown whatever it was, nothing else changes |
| Dispatch.MultiplexerWithPriority.ShutdownNow | src/main/java/ru/fix/multiplexer/MultiplexerWithPriority.java:269-275 | the state becomes ForceShutdown whatever it was, nothing else changes |
| PriorityScenario.ConfigIsValid | src/test/java/ru/fix/multiplexer/util/ConfigBuilder.java:19-26 | the test configuration (high 10, medium 5, trivial 1, capacity 16, ordered high, medium, trivial) is a valid recommender policy: repetition-free, listing exactly the weighted types by non-increasing weight, positive capacity |
| PriorityScenario.RecommendWhileBehind | src/main/java/ru/fix/multiplexer/priority/StatisticStorageRecommender.java:51-58 | while high has been dispatched fewer than 10 times and medium fewer than 5 in the window, the recommendation is high, medium, trivial |
| PriorityScenario.StepByPriority | src/main/java/ru/fix/multiplexer/MultiplexerWithPriority.java:177-229 | in that regime one step dispatches the front of high, else of medium, else of trivial |
| PriorityScenario.PriorityPass | src/main/java/ru/fix/multiplexer/MultiplexerWithPriority.java:328-330 | in that regime a pass with a free channel dispatches all high messages, then all medium, then all trivial |
| PriorityScenario.ColdStartDispatchOrder | src/test/java/ru/fix/multiplexer/MultiplexerWithPriorityTest.java:124-183 | nine buffered messages, three per type, none expired, on an engine with an empty window: a pass on a free channel sends the three high, the three medium, then the three trivial, empties the buffer and settles all nine promises |
| PriorityScenario.CreatedConfiguration | src/test/java/ru/fix/multiplexer/util/ConfigBuilder.java:19-26 | a recommender built from the test's weights has exactly the test configuration: high, medium, trivial order and capacity 16 |
| PriorityScenario.CreateWithTestWeights | src/test/java/ru/fix/multiplexer/MultiplexerWithPriorityTest.java:157-160 | creating the multiplexer with the test's weights succeeds, is Active, has the test configuration and an engine with nothing in it |
| PriorityScenario.ArrivalsAppend | src/test/java/ru/fix/multiplexer/MultiplexerWithPriorityTest.java:164 | the containers two consecutive runs of sends buffer under a type are those of the first run followed by those of the second |
| PriorityScenario.SendAll | src/test/java/ru/fix/multiplexer/MultiplexerWithPriorityTest.java:164 | sending a list of registered messages in order while Active keeps the multiplexer valid and Active, issues one promise per message, and appends to every type's queue exactly that type's messages in send order with their promises; completed promises and the channel log are unchanged |
| PriorityScenario.NineArrivals | src/test/java/ru/fix/multiplexer/MultiplexerWithPriorityTest.java:127-136 | the test's nine sends, trivial, high, medium in that order, put promises 0-2 in the trivial queue, 3-5 in high and 6-8 in medium, and nothing under any other type |
| PriorityScenario.ColdStartSends | src/test/java/ru/fix/multiplexer/MultiplexerWithPriorityTest.java:127-164 | after creation and the nine sends the multiplexer is Active with the test configuration, an empty window and channel log, and each type's queue holds its three messages in send order |
| PriorityScenario.BufferedIsFresh | src/test/java/ru/fix/multiplexer/MultiplexerWithPriorityTest.java:164 | a message sent with a one-hour expiry is not expired at any instant within that hour |
| PriorityScenario.ColdStartSettles | src/test/java/ru/fix/multiplexer/MultiplexerWithPriorityTest.java:164-182 | within the hour, a free-channel pass over the test's nine buffered messages sends them high, medium, trivial, empties the buffer and settles every promise |
| PriorityScenario.ColdStartRun | src/test/java/ru/fix/multiplexer/MultiplexerWithPriorityTest.java:124-183 | the whole test: create, send the nine messages, one worker iteration while the channel is busy, one after it is free; the channel receives high1-3, medium1-3, trivial1-3 in that order, the buffer ends empty, and every promise is settled, Sent when the channel delivers everything |

## Left out

- Threads and blocking are not modelled; the model has one worker iteration as a method instead. This covers:
  - the worker `ExecutorService`, `start` and `close`;
  - the `wait`/`notifyAll` handshake and `onOutputChannelHasFreeSlot`;
  - the sending interval;
  - `Thread.interrupted`;
  - races on the `volatile` state.
- The `CompletableFuture` machinery is folded into the step: the channel's answer is an input, and the promise's completion is recorded at once. This covers `handleAsync`, the `thenRun` re-wake and the asynchronous completion.
- Profiler calls, indicators, logging and `toString` are observational only.
- The delegating `createInstance` overloads, `countMessagesWaitingToProcessing` and the `send` overload taking a `Date` are thin wrappers, left out.
- The wall clock (`Instant.now`, `new Date()`, `System.currentTimeMillis`) is a `now` parameter. A dispatch pass uses one `now` for all its steps. `TemporalUnit` conversion beyond milliseconds is left out.
- Java `int` and `long` arithmetic is not modelled. The model uses mathematical integers, including for the weight sum, which can overflow in the source.
- `CircularFifoQueue` internals are left out; only its ring-buffer behaviour is specified (`Slide`).
- `requireNonNull` checks are left out, because Dafny values cannot be null.
- Recommendation.SortByWeightDescending: does not fix the order among equal weights. The source's order comes from a stable sort over a hash map's iteration order, so it is unspecified. `SortedOrderIsUnique` shows the order is determined when weights differ.
- TypeBuffer.Buffer.PollAndProcessAllMessages: the order of queues is the key creation order `types`. This stands in for the `ConcurrentHashMap` iteration order, which the source does not specify.
- TypeBuffer.Buffer.PollAndProcessAllMessages: returns the drained messages instead of calling a processor. `CompleteShuttingDown` then applies the only processor the core uses, so a failing processor needs no model.
- Dispatch.MultiplexerWithPriority.WorkerIteration: the ForceShutdown `do`-`while` repeats only when producers add messages during the drain. Without concurrency it runs its body once.
- Dispatch.MultiplexerWithPriority.WorkerIteration: the exception `continue` in the Active and Shutdown branches is left out. `NeverStalls` shows the only exception the step raises itself cannot occur, and a channel that throws is an outcome, not an exception.
- The `default` branch of the state switches is left out, because the three states are exhaustive.
- A `CompletableFuture` ignores a second completion, whereas the model's `resolutions` map would overwrite it. The engine invariant's `OpenPromises` shows that no step, send or forced drain completes a promise that is already completed, so the difference never arises.
- `FakeMultiplexer`, `FakeMultiplexerWithExpirableMessage`, the configuration classes, `BufferException`, the interfaces and the test utilities are not part of this model.
