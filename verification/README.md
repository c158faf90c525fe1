# snapp-collector: a verified model of its coordination logic

snapp-collector polls network devices over SNMP and writes what it collects into RRD
files. This project models the logic around the libraries it uses (the threads, queues
and locks, the walk that builds mapping tables, the clock and hash arithmetic, the paged
load of the configuration, its replacement at run time, and the control port) and proves
what that logic keeps over every run.

| file | what it models |
|---|---|
| `PollingPool.dfy`, `PollingSafety.dfy`, `PollingShutdown.dfy`, `PollingTurns.dfy` | the worker pool of a collection class: dispatcher, workers, `finalize` |
| `RrdWriter.dfy`, `RrdWriterInvariant.dfy`, `RrdWriterTheorems.dfy`, `RrdWriterTurns.dfy` | the sharded writer: `push_data`, one consumer per queue, the status thread |
| `OidOrder.dfy`, `SubtreeWalk.dfy` | the GETBULK walks that load a host's tables, and the two maps each fills |
| `SuffixMapping.dfy` | chained lookup of collection suffixes |
| `DeviceClock.dfy` | uptime ticks to timestamps |
| `CollectionGroups.dfy`, `PagedLoad.dfy` | loading a configuration: hosts, collections page by page, tables, mapped suffixes |
| `ReloadHandover.dfy`, `ReloadTheorems.dfy`, `ReloadTurns.dfy` | replacing the running configuration while the pools of old and new ones run |
| `ControlSession.dfy` | command lines and login states of a control connection |
| `SessionPermits.dfy` | the whole program around its limit on open SNMP sessions: configurations, pools, table loader |
| `Fnv.dfy`, `LoadAverage.dfy` | the hash that picks a queue; the moving averages of queue length |
| `Sums.dfy`, `Machine.dfy`, `Options.dfy` | sums over sequences, 32-bit words and C strings, optional values |

## How the model is built

Code that several threads run is a step system: a `State`, one step function per thread
(`WorkerNext`, `DispatcherNext`, `FinalizerNext`, `PusherNext`, `ConsumerNext`, ...), and
runs that interleave enabled steps in any order. A step is one semaphore or mutex call or
one access to shared data; a push and the post that follows it are two steps, because a
waiting thread can slip in between. What the code leaves undefined, such as `front()` on an
empty queue or a read through a pointer to a deleted configuration, sets a `fault` flag, and
the flag is proved never to be set. Histories (`log`, `pushed`, `written`) are part of the
state so that properties of whole runs can be stated about reachable states. Beside what every
step keeps, the `Turns` modules say what gets done: what one thread achieves when it runs on
its own, and that no call, host or configuration is dropped on the way.

The reload model contains the pool model: every class of every configuration ever started is
a `PollingPool` state whose workers and dispatcher step on their own, and deleting a
configuration runs the steps of `finalize` in its classes one after the other.

Code that one thread runs on its own data is imperative: classes with the source's fields
(`HostInfo`, `HostClock`, `ConfigLoader`, `WriterStatus`, `Connection`) and
methods with loops, each proved against a specification function whose properties are
lemmas.

Assumptions about the surroundings:

- A cancelled dispatcher stops in its sleep and nowhere else; after `finalize` it may
  therefore run one more round, and the model lets it.
- Every collection and every table walk ends. On its own a pool takes its session permits from
  a semaphore that other threads use as they like, and may wait for one that is held elsewhere.
  `SessionPermits` puts the pools of all configurations and the table loader on one counter of
  800; there some holder can always give a permit back (`SessionPermits.DeletionNeverStuck`).
- Whether the wait of a writer thread is ever interrupted is left to the surroundings. In this
  program all signals are blocked before the writers start (src/sql-collector.cpp:327-330, 468,
  472) and the writers inherit the mask, so `RrdWriterTheorems.UninterruptedWritesAll`
  describes it; the results about interrupted waits hold for a program without that mask.
- An agent answers a GETBULK with at least one variable. A successful but empty response
  would leave both `name` and `running` unchanged, and the loop would repeat the same
  request.
- The suffix of an instance is a given function of its OID.
- The agent's uptime and the collector's clock are read at the same instant, and a host's
  tick base starts at zero. Its `mapping_done` mark is taken to start unset: the source sets it at
  src/host_info.cpp:29 and initialises it nowhere.
- Database keys are never -1, the value the loader uses for "none yet". The rows of the
  collection query form one fixed sequence.

## Where code and expectation differ

- `push_data` seeds the hash with the enumeration constant `FNV1_32`, which is 2, while
  `fnv.h` asks for the offset basis `FNV1_32_INIT` (src/fnv.h:45-46, 118, 128). The model
  follows the code; any fixed seed gives deterministic routing.
- The writer tests `errno` after a wait that succeeded. If a wait is interrupted, each further
  token is taken and thrown away until a wait times out. A sleeping writer has drained its
  queue if and only if that never happened (`RrdWriterTheorems.SleepingConsumerIsDone`), and
  what was thrown away is never made up for (`RrdWriterTheorems.SwallowedForever`, with
  `RrdWriterTheorems.StrandedDatum` as an instance).
- A "200" answer to `reload` says that a configuration was swapped in since the worker's first
  look at the pointer, which precedes its signal. It was loaded after that look if and only if
  it was not the one under way then
  (`ReloadTheorems.PositiveAnswer`, with `ReloadTheorems.LoadBeganBeforeRequest` as an
  instance). Several reloads go unnoticed if and only if the last one put the captured address
  back (`ReloadTheorems.AnswerCompares`, with `ReloadTheorems.AddressReused` as an instance).
- `value_of[suffix_of[v]] == v` holds for all stored values if and only if a suffix is met
  again only for values that are seen again later (`SubtreeWalk.RoundTripsExactly`).
- A table whose walk got no reply counts as loaded: `load_oid_table` fails only if an OID does
  not parse or a session does not open (`SubtreeWalk.HostInfo.LoadOidTables`).
- A timestamp is right if and only if the base is renewed or less than one wrap old
  (`DeviceClock.AccurateExactly`, with `DeviceClock.GapOfOneWrap` as an instance).
- A control password shorter than three characters can never be entered
  (`ControlSession.LoginPossible`).
- The uptime value 2^32 - 1 is taken for a missing value, so that one reading is skipped
  (`DeviceClock.ClockAccuracy` states which samples get a timestamp).

## Model

| member | source | states |
|---|---|---|
| PollingSafety.InitInv | src/collection_class.cpp:523-594 | the pool `initialize` leaves, min(200, hosts) workers waiting on an empty semaphore, satisfies the invariant |
| PollingPool.WorkersForHosts | src/collection_class.cpp:540-564 | `initialize` makes a worker for every host, up to 200 of them |
| PollingSafety.PopFindsItem | src/collection_class.cpp:481-482 | a worker at the queue finds a host index while the pool runs and a pill afterwards, never nothing |
| PollingSafety.WorkerKeepsInv | src/collection_class.cpp:464-501 | every worker step keeps the pool invariant: mutex, tokens and pills in balance, and the history in order |
| PollingTurns.TakenIsCollected | src/collection_class.cpp:481-496 | in every reachable state the hosts a worker took from the queue are, in order, those whose collection it finished and then the one it has on hand |
| PollingTurns.WorkerTurn | src/collection_class.cpp:472-498 | a worker on its own takes the head of the queue and one token, collects that host under a permit it gives back, and waits again |
| PollingTurns.WorkerPill | src/collection_class.cpp:472-489 | a worker that meets a pill takes it with one token and exits |
| PollingSafety.DispatcherKeepsInv | src/collection_class.cpp:596-645 | every dispatcher step keeps it, also a round run after cancellation was requested; when the dispatcher leaves its critical section while the pool runs, there is work in the queue |
| PollingTurns.DispatcherRound | src/collection_class.cpp:604-623 | one pass of the dispatcher on its own fills an empty queue with all hosts in order and posts one token each, leaves a queue that is not empty alone, and releases the mutex |
| PollingTurns.RoundIsLoaded | src/collection_class.cpp:607-616 | in every reachable state of a running pool with hosts the queue is not empty at the end of a round |
| PollingTurns.DispatcherWakes | src/collection_class.cpp:632 | from its sleep the dispatcher goes on to the next pass, or stops if it was cancelled |
| PollingSafety.FinalizerKeepsInv | src/collection_class.cpp:647-698 | every step of `finalize` keeps it |
| PollingTurns.FinalizerPosts | src/collection_class.cpp:657-682 | `finalize` called with the mutex free requests the cancellation, discards every pending host, leaves one pill and one more token for each worker, and releases the mutex |
| PollingTurns.FinalizerJoins | src/collection_class.cpp:684-697 | once every worker has exited the joins return one after the other and `finalize` with them |
| PollingSafety.PopKeepsRound | src/collection_class.cpp:481-482 | taking the head keeps the queue a tail of one round and the turn counts of all hosts in step with it |
| PollingShutdown.ShutdownSafety | src/collection_class.cpp:472-489 | in every interleaving `front()` never meets an empty queue, collected indices are hosts, no host is taken after `finalize` leaves its critical section, no worker pops after its pill |
| PollingShutdown.OnePillEach | src/collection_class.cpp:673-689 | when `finalize` has returned every worker has taken exactly one pill, posted before, and exited |
| PollingShutdown.SurplusIsDiscarded | src/collection_class.cpp:670-680 | while running, tokens and holders match the queue; after the pills are posted they exceed it by exactly the number of hosts thrown away, so they cover every worker still owed a pill |
| PollingShutdown.FairRounds | src/collection_class.cpp:605-616 | the pending queue is one stretch of 0..n-1, at most n long, ending at n-1 between loads, and no host is two turns ahead of another |
| PollingShutdown.StepUsesUp | src/collection_class.cpp:684-689 | once the pills are posted every step of every thread of the pool lowers a natural-number measure, and other users of the session permits do not change it |
| PollingShutdown.NeverStuck | src/collection_class.cpp:474-498 | until `finalize` has joined all workers some thread of the pool can move, unless a worker waits for a session permit and none is free |
| PollingShutdown.ShutdownReturns | src/collection_class.cpp:670-697 | in every schedule after the pills are posted the pool makes at most a number of steps fixed in advance, and when it can make none `finalize` has returned with all workers gone, or a worker waits for a session permit while no worker of the pool holds one |
| RrdWriter.InternExtends | src/rrd_writer.cpp:380-401 | interning keeps ids dense and one-to-one, never changes an id already given, and the new id reads back as the name |
| RrdWriter.NumShards | src/rrd_writer.cpp:463-466 | the number of writers is the configured one if that is from 1 to 400, and 400 otherwise |
| RrdWriterInvariant.PusherKeepsData | src/rrd_writer.cpp:373-430 | every step of `push_data` keeps: per queue, written, in hand and pending, decoded through the tables, are the updates routed there, in order |
| RrdWriterTurns.RoutedByHash | src/rrd_writer.cpp:367-368 | a call goes to the queue numbered FNV-1 of its file name from the state 2, modulo the number of queues |
| RrdWriterTurns.QueueOf | src/rrd_writer.cpp:367-368 | the hash loop run over the name in memory, and the remainder of its result, give that queue |
| RrdWriterTurns.NeighboursSplit | src/rrd_writer.cpp:367-368 | with more than one queue, two names that differ in the lowest bit of their last octet never share one |
| RrdWriterTurns.CallsEnter | src/rrd_writer.cpp:373-431 | in every reachable state the updates of a caller have entered the queues in the order of its calls, all but the one it is working on, and nothing else has entered |
| RrdWriterTurns.PusherTurn | src/rrd_writer.cpp:366-436 | one call on its own interns both names, puts one datum at the end of the queue the hash selects, posts one token, and releases both locks |
| RrdWriterInvariant.ConsumerKeepsData | src/rrd_writer.cpp:125-240 | every consumer step keeps the same |
| RrdWriterTurns.ConsumerTurn | src/rrd_writer.cpp:125-240 | a consumer on its own turns one token and the head of its queue, decoded, into one write and waits again |
| RrdWriterInvariant.ConsumerKeepsTokens | src/rrd_writer.cpp:125-158 | every consumer step, a repeated wait included, keeps the balance of queue, tokens, holder and swallowed tokens |
| RrdWriterInvariant.PusherKeepsLocks | src/rrd_writer.cpp:373-431 | the mutexes are held by exactly the callers that are between lock and unlock |
| RrdWriterInvariant.StatusKeepsLocks | src/rrd_writer.cpp:561-568 | the status thread holds one queue lock at a time and releases it |
| RrdWriterTurns.StatusRest | src/rrd_writer.cpp:561-568 | the status thread on its own goes through every queue and leaves all as they were |
| RrdWriterTheorems.PerFileFifo | src/rrd_writer.cpp:153-175 | for every file, in every reachable state, written then in hand then pending is exactly the sequence pushed for it, and no other queue carries any of it |
| RrdWriterTheorems.WrittenIsPrefix | src/rrd_writer.cpp:366-436 | what was written for a file is a prefix of what was pushed for it |
| RrdWriterTheorems.IdsKeepMeaning | src/rrd_writer.cpp:174-175 | no step of any thread changes what an id stands for |
| RrdWriterTheorems.TokenAccounting | src/rrd_writer.cpp:153-158 | queue length is at least tokens plus holder, `front()` never meets an empty queue, and the difference is the number of swallowed tokens when no post is pending |
| RrdWriterTheorems.SleepingConsumerIsDone | src/rrd_writer.cpp:125-144 | over every run: a consumer blocked on an empty semaphore has drained its queue if and only if no wait of its run succeeded while `errno` held EINTR |
| RrdWriterTheorems.UninterruptedNeverRepeats | src/rrd_writer.cpp:138-144 | in a run in which neither the wait nor the write of a consumer leaves EINTR no successful wait is repeated |
| RrdWriterTheorems.UninterruptedWritesAll | src/rrd_writer.cpp:125-158 | without interruptions tokens and holder match the queue once no post is pending, and a sleeping consumer has written everything routed to it, in order |
| RrdWriterTheorems.SwallowedForever | src/rrd_writer.cpp:138-144 | in every continuation the queue keeps at least as many updates as tokens were swallowed, and the written ones stay as many behind those pushed |
| RrdWriterTheorems.StrandedDatum | src/rrd_writer.cpp:138-144 | one interrupted wait and one call lead to a state with the consumer asleep and all callers gone from which no schedule ever empties the queue |
| RrdWriterTheorems.LockOrder | src/rrd_writer.cpp:411-430 | a thread that waits for a lock holds only locks earlier in the order global lock, queue lock |
| RrdWriterTheorems.NoCircularWait | src/rrd_writer.cpp:373-431 | no circular wait of any length is reachable among callers, consumers and the status thread |
| RrdWriterTheorems.SomeHolderRuns | src/rrd_writer.cpp:153-180 | the holder of a taken lock can step, or waits for one other lock whose holder can |
| OidOrder.SubtreeConvex | src/host_info.cpp:455-463 | what lies between a root and a member of its subtree in OID order is in the subtree |
| OidOrder.LessTotal | src/host_info.cpp:427-463 | OIDs are totally ordered arc by arc, a prefix first |
| OidOrder.WalkedSubtree | src/host_info.cpp:427-593 | instances delivered up to the first one outside the subtree are the whole subtree |
| SubtreeWalk.HostInfo.Insert | src/host_info.cpp:539-540 | one insertion makes the table that of one more visited instance and touches no other table |
| SubtreeWalk.HostInfo.HandleResponse | src/host_info.cpp:453-558 | one response enters exactly its in-subtree values, goes on only if all were such, and carries on from the last name |
| SubtreeWalk.HostInfo.Walk | src/host_info.cpp:427-593 | against every conforming agent the walk ends; its requests start at the root and go on from the last name of each answer; if all were answered it enters the whole subtree, each instance once and in order and nothing else, and if one was not, all of the subtree up to the name it asked for |
| SubtreeWalk.HostInfo.LoadOidTables | src/host_info.cpp:404-604 | the load fails exactly if an OID does not parse or a session does not open; no table comes or goes; if it succeeds every table holds what the requests and replies of its walk make it, the whole subtree if the agent always answers, and if it fails each table holds that or is empty |
| SubtreeWalk.HostInfo.ThreadStart | src/host_info.cpp:23-39 | the host is marked done exactly if its load did not fail, and then all its tables were walked |
| SubtreeWalk.TableEntries | src/host_info.cpp:539-540 | the two maps hold, for every value and every suffix visited, what its last instance says, and nothing else |
| SubtreeWalk.RoundTripsExactly | src/host_info.cpp:535-540 | `value_of[suffix_of[v]]` is `v` for every stored `v` if and only if every value whose suffix is met again is itself seen again later |
| SubtreeWalk.TableRoundTrips | src/host_info.cpp:535-540 | a loaded table whose subtree has no suffix twice round-trips, also if its walk was cut short |
| SubtreeWalk.SharedSuffixBreaksRoundTrip | src/host_info.cpp:539-540 | an instance: two values met once each under one suffix break the round trip |
| SuffixMapping.MappingRoundTrip | src/snapp_config.cpp:776-795 | a nonempty result means every link was found, and following the opposite maps backwards recovers the premap suffix |
| SuffixMapping.MappingInjective | src/snapp_config.cpp:776-795 | two names never map to the same nonempty suffix |
| SuffixMapping.LookupSucceeds | src/snapp_config.cpp:776-795 | if every table of the sequence is there and leads from one name to the next, the lookup yields the last name |
| SuffixMapping.LookupFails | src/snapp_config.cpp:781-786 | if a table is missing or does not know the name reached, the lookup yields nothing |
| SuffixMapping.LookupDecided | src/snapp_config.cpp:776-795 | every lookup is one or the other |
| SuffixMapping.PassMapped | src/snapp_config.cpp:758-798 | the pass gives each collection of a loaded host its premap suffix, the end of its chain, or nothing at a missing link, and changes nothing else |
| SuffixMapping.LoadedMappingRoundTrip | src/snapp_config.cpp:782-795 | over the tables a host's walks leave, cut short or not, a nonempty result leads back to the premap suffix if no subtree of the chain has a suffix twice |
| DeviceClock.HostClock.Sample | src/collection_class.cpp:366-408 | the block updates base and emits the timestamp of the specification, or nothing for a missing uptime |
| DeviceClock.SampleTracks | src/collection_class.cpp:380-388 | an accepted sample leaves a base within 60 seconds and the timestamp counts whole seconds from it |
| DeviceClock.SampleInNumbers | src/collection_class.cpp:366-408 | 4294967295 is no uptime; a base stays for ticks up to 6000 ahead of it and is renewed otherwise; the timestamp is the base plus whole hundreds of ticks |
| DeviceClock.ClockAccuracy | src/collection_class.cpp:366-408 | over every run of spaced samples a timestamp is emitted exactly for accepted samples and is the current second or the one before |
| DeviceClock.NextStamp | src/collection_class.cpp:380-408 | between consecutive accepted samples the timestamp does not fall, and rises over one second or more |
| DeviceClock.StampsMonotone | src/collection_class.cpp:380-408 | timestamps never fall over a whole run, across rebases and wraps |
| DeviceClock.StampsRise | src/collection_class.cpp:380-408 | any two accepted samples two seconds apart get increasing timestamps |
| DeviceClock.ShortGapsAreSpaced | src/collection_class.cpp:366-379 | polling at gaps under about half a wrap, zero included, is enough for the four results above: only samples of one instant are lost in a row |
| DeviceClock.AccurateExactly | src/collection_class.cpp:380-408 | for samples in order, however far apart, an accepted sample gets the current second or the one before if and only if the base is renewed for it or was set less than one wrap ago |
| DeviceClock.GapOfOneWrap | src/collection_class.cpp:380-388 | an instance: of two samples a wrap and a second apart the second gets a timestamp a whole wrap behind |
| CollectionGroups.GroupClassesAppend | src/snapp_config.cpp:182-237 | adding one row to the groups of all earlier rows gives the groups of all rows |
| CollectionGroups.FlattenGrouped | src/snapp_config.cpp:175-240 | flattening the groups gives back exactly the rows in order |
| CollectionGroups.ClassesOnce | src/snapp_config.cpp:158-162 | with rows ordered by class and host every class has one entry |
| CollectionGroups.HostsOncePerClass | src/snapp_config.cpp:158-162 | and every class one entry per host |
| CollectionGroups.CollectionOrigin | src/snapp_config.cpp:212-237 | every collection of the groups is that of a row of the same host |
| PagedLoad.ConfigLoader.LoadHosts | src/snapp_config.cpp:385-401 | a host is known if and only if it has a row, its tables come from its first row, and each is empty and stands under its own OID |
| PagedLoad.ConfigLoader.AddTables | src/snapp_config.cpp:228-232 | the host gets an empty table under its own OID for every OID of the sequence and loses none, and no other host changes |
| PagedLoad.ConfigLoader.OpenGroups | src/snapp_config.cpp:182-211 | with the carried cursor the class and host of a row are opened if new; it fails exactly on an unknown host |
| PagedLoad.ConfigLoader.LoadRow | src/snapp_config.cpp:179-237 | a row is refused exactly when its host or mapping sequence is unknown, and otherwise joins the groups with its tables in place |
| PagedLoad.ConfigLoader.LoadBlock | src/snapp_config.cpp:136-248 | a page extends the groups, tables and cursor of all earlier rows, or fails exactly on an unresolvable row |
| PagedLoad.ConfigLoader.LoadCollectionClasses | src/snapp_config.cpp:107-131 | for every page size the load ends, succeeds exactly if all rows resolve, builds the groups of all rows at once, leaves every collection of every class with its mapping sequence and all tables of it in place, and gives each host exactly the tables it had and those of its own rows |
| PagedLoad.LoadedComplete | src/snapp_config.cpp:217-233 | tables for all rows are tables for all collections of their groups |
| PagedLoad.ConfigLoader.LoadHostTables | src/host_info.cpp:674-722 | every host ends with the same keys and is marked done exactly if its load did not fail; every table of a host marked done holds what its walk found |
| PagedLoad.ConfigLoader.Resolve | src/snapp_config.cpp:776-795 | the lookup loop yields the last name if every link is there and nothing if one is missing, and adds no table entry if all keys of the sequence exist |
| PagedLoad.ConfigLoader.MapCollectionSuffixes | src/snapp_config.cpp:747-802 | every collection of every class and loaded host gets its premap suffix, or the name its links lead to, or nothing where a link is missing; those of other hosts stay as they are, and if all tables are present the pass creates none |
| PagedLoad.ConfigLoader.InitConfig | src/snapp_config.cpp:826-835 | for a configuration as the load leaves it: every table of every host marked done is walked, then all its collections are mapped; no lookup creates a table, so the suffixes are those of the tables that remain, and each nonempty mapped suffix leads back to its premap suffix if no subtree of its chain has a suffix twice |
| ReloadTheorems.StepKeepsInv | src/sql-collector.cpp:593-624 | every step of the main loop, of every control worker and of every pool keeps the handover invariant |
| ReloadTurns.ReloadStartsClasses | src/sql-collector.cpp:588-613 | a reload brings a new generation with its host table and a freshly initialised pool for each of its classes, beside the old configuration as it was |
| ReloadTurns.DropReturns | src/sql-collector.cpp:597-609 | a failed load is deleted and the main loop waits again with the configuration it had |
| ReloadTurns.NothingLeftBehind | src/sql-collector.cpp:593-624 | whenever the main loop waits for a signal the current configuration is the only one in memory, and no worker of any class of another one is left |
| ReloadTurns.EndJoinsAll | src/sql-collector.cpp:626-628 | when the program has ended no configuration is in memory and no worker of any class is left |
| ReloadTheorems.ReadersSeeLiveConfig | src/snapp_control.cpp:179-190 | until termination every control worker inside the mutex sees a configuration with its host table and all its classes, none of them destroyed |
| ReloadTheorems.WorkersBeforeHosts | src/snapp_config.hpp:49-53 | a worker that has not exited, of any class of any configuration ever started, has its class and its host table in memory, because each deletion runs `finalize` of every class to its end first |
| ReloadTheorems.DeletionMoves | src/collection_class.cpp:715-718 | with permits taken and returned by others at will: while a configuration is deleted the deleting thread, or a thread of the class it is finalizing, can move, unless a worker of that class waits for a permit and none is free (`SessionPermits.DeletionNeverStuck` closes that case) |
| ReloadTheorems.FailureKeepsCurrent | src/sql-collector.cpp:597-609 | nothing but the swap, and no failed load or init, changes the current configuration, its pointer or its classes |
| ReloadTheorems.AnswerCompares | src/snapp_control.cpp:83-106 | for "200" and "550" alike: with no swap between the first look and the last the answer is "550", with one it is "200", with more it is "550" if and only if the last swapped-in address is the captured one |
| ReloadTheorems.PollSees | src/snapp_control.cpp:92-103 | the same for what a worker that still polls would see |
| ReloadTurns.PollLimit | src/snapp_control.cpp:94-106 | a poll that sees no change is followed by another, up to the 55th, which answers "550" |
| ReloadTheorems.SwapCycle | src/sql-collector.cpp:593-624 | behind every swap there is a load, its end and an init of the same generation, in this order, and the load began after a given moment if and only if it was not under way at that moment |
| ReloadTheorems.PositiveAnswer | src/snapp_control.cpp:83-106 | a "200" answer means a configuration that had been loaded and then initialised was swapped in since the worker first looked at the pointer, which is before it sends the signal; the whole cycle came after that look if and only if that load was not under way then |
| ReloadTheorems.LoadBeganBeforeRequest | src/snapp_control.cpp:92-106 | an instance: a request during a load is answered "200" although no load began after it |
| ReloadTheorems.AddressReused | src/snapp_control.cpp:92-106 | an instance: two reloads between polls restore the captured address and all 55 polls end in "550" |
| ControlSession.BlankLineEnds | src/snapp_control.cpp:299-309 | the loop leaves the text before the first line end as the C string in the buffer, a line without line ends that fits it |
| ControlSession.FirstLine | src/snapp_control.cpp:304-309 | the line is the text before the first line feed, carriage return or NUL |
| ControlSession.Keywords | src/snapp_control.cpp:311-341 | what each command looks like: its keyword in any case, and the length the line must have |
| ControlSession.LowerOnlyFoldsCase | src/snapp_control.cpp:312-336 | two characters are the same to the keywords if and only if they are equal or the two cases of one letter |
| ControlSession.OneMeaning | src/snapp_control.cpp:311-341 | no line passes the tests of two commands, so their order does not matter |
| ControlSession.Recognise | src/snapp_control.cpp:311-341 | the chain finds the one command a line means, with its argument, and none otherwise |
| ControlSession.EncodeIsShiftOr | src/snapp_control.cpp:343 | shifting the machine word of any command, -1 included, by eight and or-ing a state gives the encoded number |
| ControlSession.EncodeUnambiguous | src/snapp_control.cpp:343 | the encoded pair determines command and state, the unknown command -1 included |
| ControlSession.Connection.Dispatch | src/snapp_control.cpp:342-417 | the switch on the encoded pair does for each command and state what the response table says, which `ControlSession.EffectsExactly` spells out |
| ControlSession.Connection.Handle | src/snapp_control.cpp:297-417 | a line has the effect of its command in the current state |
| ControlSession.Connection.Serve | src/snapp_control.cpp:289-417 | a connection answers its lines in turn until a `quit` or the last of them, and acts on none after a `quit` |
| ControlSession.StatesRise | src/snapp_control.cpp:351-366 | the login state never moves backwards |
| ControlSession.GuardedCommands | src/snapp_control.cpp:368-383 | a reload or log filter change is preceded by an accepted `user` and, later, a `pass` with the configured password |
| ControlSession.StateExactly | src/snapp_control.cpp:351-366 | the login state says whether a `user` line, and a later `pass` line with the password, came before |
| ControlSession.EffectsExactly | src/snapp_control.cpp:343-417 | for every line of every connection each effect happens if and only if the line means its command and the right lines came before: `reload` reloads exactly after a login and is refused otherwise, `status`, `help` and `quit` work in every state |
| ControlSession.LoginPossible | src/snapp_control.cpp:330-335 | login is possible if and only if the password has three or more characters, fits the buffer and holds no line end |
| SessionPermits.StepKeepsInv | src/host_info.cpp:697-711 | every step of the main loop, the control workers, the pools, the loader and the table threads keeps free permits and holders at 800 |
| SessionPermits.PermitsConserved | src/sql-collector.cpp:62-67 | free permits and holders are always 800, and when the loader has joined its threads it holds none |
| SessionPermits.TablesLoad | src/host_info.cpp:697-711 | a table load that finds one free permit walks every host, joins every walk and leaves the permits as they were |
| SessionPermits.SomeHolderMoves | src/collection_class.cpp:492-496 | when all permits are taken some collection, walk or hand-over of the loader can step, and gives a permit back or passes it to the thread that will; outside a table load it is a collection |
| SessionPermits.ProgramReachable | src/sql-collector.cpp:593-624 | the configurations of the program are in a state the handover model reaches, so all that is proved of the handover holds in the program |
| SessionPermits.RunProjects | src/collection_class.cpp:464-501 | every run of the program is, for each of its pools, a run of the pool model with the shared counter as its permits, so all that is proved of a pool holds of each pool of the program |
| SessionPermits.PoolReachable | src/collection_class.cpp:523-594 | every pool in the program is in a state it could have reached on its own |
| SessionPermits.DeletionNeverStuck | src/collection_class.cpp:647-698 | while a configuration is deleted the deleting thread or a thread of the class it is at can move, or all 800 permits are taken and a worker of some configuration, old or new, can give one back |
| SessionPermits.ShutdownBoundedInProgram | src/collection_class.cpp:670-697 | whatever the rest of the program does, a pool makes at most a fixed number of steps once its pills are posted |
| Fnv.ShiftAndAddMultiplies | src/hash_32.c:102-106 | shifting and adding is multiplication by 0x01000193 modulo 2^32 |
| Fnv.XorBits | src/hash_32.c:108-110 | a bit of the exclusive or is set where exactly one operand has it set |
| Fnv.FnvInNumbers | src/hash_32.c:99-110 | no octets leave the state, and one octet multiplies it by 16777619 modulo 2^32 and then flips the bits of the octet |
| Fnv.FnvBuf | src/hash_32.c:90-114 | the buffer loop computes FNV-1 of the buffer from the given state |
| Fnv.FnvStr | src/hash_32.c:133-156 | the string loop computes FNV-1 of the octets before the first NUL |
| Fnv.StringAgreesWithBuffer | src/hash_32.c:141-152 | on NUL-free data both forms hash the same octets |
| Fnv.Incremental | src/hash_32.c:79-82 | hashing a concatenation continues from the hash of its first part |
| Fnv.StepIsBijection | src/hash_32.c:99-110 | each octet permutes the 32-bit states |
| Fnv.CommonSuffix | src/hash_32.c:99-110 | texts with a common tail collide if and only if their heads do |
| LoadAverage.NoOverflow | src/rrd_writer.cpp:41-44 | below 2^53 the wrapping 64-bit update is the exact weighted mean, rounded down |
| LoadAverage.StaysBetween | src/rrd_writer.cpp:41-44 | the new load lies between the old load and the sample |
| LoadAverage.RunMonotone | src/rrd_writer.cpp:574-575 | longer queues all along never give a smaller average |
| LoadAverage.RunBounded | src/rrd_writer.cpp:574-575 | the average never leaves the range of its start and its samples |
| LoadAverage.FixedPoints | src/rrd_writer.cpp:34-44 | the average stands still if and only if it is at most 12 (one minute) or 60 (five minutes) below the sample |
| LoadAverage.FromAbove | src/rrd_writer.cpp:41-44 | under a constant sample the average falls to it exactly, in at most as many steps as its distance |
| LoadAverage.FromBelow | src/rrd_writer.cpp:41-44 | from below it rises to 12 or 60 short of it and stays there |
| LoadAverage.WriterStatus.CalculateNewStats | src/rrd_writer.cpp:552-587 | one round moves both averages by the sum of the queue lengths, to (1884 old + 164 sum) / 2048 and (2014 old + 34 sum) / 2048, and keeps them in the safe range |
| LoadAverage.TotalAdds | src/rrd_writer.cpp:561-568 | the sum of the lengths is additive over the queues |

## Left out

- Network, database, XML, RRD and regular-expression library calls, sockets, logging, signals and daemonizing: arbitrary results or stated assumptions.
- The text extraction of OID suffixes and values (src/host_info.cpp:494-535): depends on library printing; the suffix is a parameter.
- `load_oid_table_get` (src/host_info.cpp:107-348): dead code behind failing assertions.
- Parsing and printing of data values, file flushing and the fate of a failed RRD update: values are carried unchanged, an attempted write counts as written.
- The status lock and readers of the writer status: they are taken with no other lock held.
- The sleep adjustment of the dispatcher, directory and RRD file creation, and the mapping report: floating point or easy members.
- Cancellation of the dispatcher outside its sleep, its use of a destroyed pool, and a second `initialize` after `finalize`.
- Delivery of reload and termination signals: a signal sent while the main loop is busy is lost, so nothing is claimed about an eventual reload.
- Reads through the configuration pointer after termination has begun: the last deletion is done without the mutex.
- The threads of different hosts during the table load run one after the other: each touches its own host only.
- PagedLoad.ConfigLoader.InitConfig: does not model the creation of RRD files before, which only fails or not, and the start of the classes after, which is a step of `ReloadHandover` and `SessionPermits`.
- Failing database queries during the paged load: a failed query ends the load with an error.
- LoadAverage.WriterStatus.CalculateNewStats: does not model that the queues are read one after the other while they change; it takes the lengths read.
- DeviceClock.HostClock.Sample: does not model that seconds are stored in a 32-bit signed field, which ends in 2038.
