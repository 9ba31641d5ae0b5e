# Verification of the AMF, the UPF and the classification pool

A Dafny 4.11 model of the two network functions and of the promises their code makes:

- `PoolMachine`, `PoolTheorems`, `ThreadPool`: the worker pool as a machine whose steps are the
  atomic actions of its threads (a critical section, a notification, an atomic increment), with
  spurious wakeups and an arbitrary choice of sleeper by `notify_one`; its invariant; shutdown; and
  the pool as an object whose methods are those actions.
- `SessionTable`, `SessionHistory`, `IndexExactness`, `UpfService`: the UPF's session table, address
  index and counters as one thread works on them; what the tables hold and what classify answers in
  terms of past calls; when the index is the inverse of the table; the class.
- `PooledUpf`, `UpfTheorems`, `UpfLiveness`, `BoundedBypass`: any number of RPC handlers together with
  the pool, the tables and the counters, in pooled mode (n workers) and inline mode (no workers); which
  calls return, and how long one can be kept waiting.
- `Registration`, `RegistrationTheorems`, `RegistrationHistory`, `AmfService`: the AMF and the UPF
  with RPCs whose request or reply may be lost. AMF operations hold ctx_mutex_ throughout, so a run
  is a sequence of them; only the metrics scrape looks in between.
- `Addressing`, `Service`, `AddressBlocks`: the address allocator against the index; exactly when a
  registered UE's packets are forwarded; the destination filter against the address blocks it stands
  for. `EndToEnd`: the same under the running UPF.
- `Json`, `RestAmf`, `Simulation`: the REST AMF, its printer and field extractor, and its relation
  to the AMF.
- `Benchmark`: how the load generator divides UEs among threads, and its percentiles.
- `Sums`, `Decimal`: counting over sequences; decimal rendering and its injectivity.

A scheduler's choices are labels, so "every run" is "every sequence of labels the machine allows".
Counters are natural numbers: fewer than 2^64 increments are assumed. Each RPC takes effect at most
once and neither process restarts. A task given to the bare pool returns (`WaitingCallReturns`
proves that the UPF's classification tasks do). The lookup in `classify` is the instant at which a packet takes effect.

## Where the code does not do what is said of it

- The comment at upf/src/upf_server.cpp:184 says that RFC 1918 destinations are blocked. 172.16.0.0/12
  is not; `FilterMissesThirdBlock` says exactly when the filter agrees with the comment.
- transport-bench/rest_amf_server.cpp:3 says "the same AMF registration logic". It is the same
  exactly under the condition of `RegisterSimulates`; `DELETE` of an unknown UE differs in its reply.
- `ue_to_session_` is not the inverse of `sessions_` in general (`SharedAddressLosesSession`);
  `ExactThroughout` gives the exact condition.
- `tasks_completed_` can exceed `tasks_submitted_` (`CompletedCanLead`), and a task pushed after the
  workers have exited is never run (`LateEnqueueStrands`); `TaskConservation` and `StrandedForever`
  say exactly when.
- A ClassifyPacket call that overlaps the pool's destructor and pushes its task after the last
  worker has exited waits for ever (`LateCallHangs`, `StrandedNeverReturns`). It is a failure of
  the service class under overlapping destruction: in upf/src/main.cpp:89 the service outlives
  `g_server->Wait()`, so the shipped program does not bring the overlap about by itself. With a
  scheduler that runs the threads that can move it is the only way for a call not to return: by
  `WaitingCallReturns` every other call that is past its push, or needs none, has returned after a
  number of helping steps fixed when it is pushed, whatever else arrives, and one of these can
  always be taken; by `UnpushedCallMoves` a call not yet pushed can move by itself.
- A registered UE with a live session is not always served (`RegisteredUeIsDropped`): addresses recur
  every 254 NGAP numbers, and releasing a session unindexes its address for whoever else has it.
  `ServedExactly` gives the exact condition.
- The active-UE gauge subtracts two counters read one after the other, in an unspecified order;
  `ScrapeSafeExactly` says for which pairs of instants this cannot underflow.

## Model

| member | source | states |
|---|---|---|
| PoolMachine.StepKeeps | upf/src/thread_pool.h:23-51 | every atomic action of every thread keeps FIFO order, single ownership of tasks, both counter laws, the wakeup bound and the shutdown facts |
| PoolTheorems.WorkerCount | upf/src/thread_pool.h:20-41 | a pool of n threads has n workers in every state of every run |
| PoolTheorems.NoLostWakeup | upf/src/thread_pool.h:27-49 | in every reachable state before shutdown, with a worker asleep the queue is no longer than the workers about to look plus the enqueuers that have not yet notified; if all workers sleep on a non-empty queue, a notify is due |
| PoolTheorems.ExactlyOnceInOrder | upf/src/thread_pool.h:33-37 | tasks are popped in push order, each at most once; a popped task has run once or is with exactly one worker, never both |
| PoolTheorems.TaskConservation | upf/src/thread_pool.h:33-51 | pushed = queued + running + finished-uncounted + completed = submitted + enqueuers before their increment; exactly when completed exceeds submitted |
| PoolTheorems.CompletedCanLead | upf/src/thread_pool.h:44-51 | a run of one worker in which completed exceeds submitted |
| PoolTheorems.ShutdownDrains | upf/src/thread_pool.h:44-71 | after stop_, with no further push (calls that pushed before may still notify and count, interleaved in any way), workers and destructor take a bounded number of steps and can always move without spurious wakeups until all workers exit; then the queue is empty, every pushed task has run exactly once and been counted, and completed = submitted + calls still to count |
| PoolTheorems.DrainProgress | upf/src/thread_pool.h:27-37 | after stop_ some worker or the notify_all can move until all workers have exited |
| PoolTheorems.StrandedForever | upf/src/thread_pool.h:44-51 | with all workers gone the queue holds exactly what was pushed after the last exit, is empty if and only if nothing was, and never runs |
| PoolTheorems.LateEnqueueStrands | upf/src/thread_pool.h:44-51 | a run in which an enqueue overlapping the destructor leaves its task unrun |
| ThreadPool.ThreadPool.WaitAndTake | upf/src/thread_pool.h:26-35 | the locked part of the worker loop is the machine's Check step and keeps the invariant |
| ThreadPool.ThreadPool.PushTask | upf/src/thread_pool.h:45-48 | the locked part of enqueue |
| ThreadPool.ThreadPool.Notify | upf/src/thread_pool.h:49 | notify_one wakes one sleeper of the runtime's choice if there is one |
| ThreadPool.ThreadPool.CountSubmission | upf/src/thread_pool.h:50 | the submit counter moves after push and notify |
| ThreadPool.ThreadPool.RunTask | upf/src/thread_pool.h:36 | task() returns on the worker that popped it |
| ThreadPool.ThreadPool.CountCompleted | upf/src/thread_pool.h:37 | the completed counter moves after task() returns |
| ThreadPool.ThreadPool.BeginDestroy | upf/src/thread_pool.h:63-66 | stop_ is stored under the lock |
| ThreadPool.ThreadPool.NotifyEverybody | upf/src/thread_pool.h:67 | notify_all wakes every sleeper |
| ThreadPool.ThreadPool.constructor | upf/src/thread_pool.h:20-41 | n workers, all about to look, empty queue, zero counters |
| SessionTable.ReplayKeepsTables | upf/src/upf_server.cpp:43-54 | over every sequence of calls each index entry leads to a live session with that address, and ids are fresh |
| SessionHistory.TablesByHistory | upf/src/upf_server.cpp:43-83 | over every legal history: a session is live exactly when established and not released since; the index maps ip to id exactly when id is the latest session for ip and no session with that ip was released since; no session id is minted twice |
| SessionHistory.ClassifyNeverThrows | upf/src/upf_server.cpp:164-174 | the at() lookup never throws, and finds exactly the session the history names |
| SessionHistory.VerdictByHistory | upf/src/upf_server.cpp:153-210 | over every legal history: a packet is forwarded if and only if its destination is unblocked and the call that established the latest undisplaced session for its source asked for a QoS class that admits it; the class reported is the one that call asked for |
| SessionHistory.SessionsHoldRequests | upf/src/upf_server.cpp:45-53 | every live session holds field by field what its establishing call asked for |
| SessionHistory.AnswersByHistory | upf/src/upf_server.cpp:27-88 | over every legal history, field by field: an establish call is refused with invalid_request exactly for an empty SUPI or address, else answered sess-n where n is one more than the establishments that succeeded before; a release succeeds exactly if its session is live, else session_not_found |
| SessionHistory.CountersByHistory | upf/src/upf_server.cpp:94-151 | over every legal history the id counter and the three packet counters are the numbers of establishments, classify calls, FORWARD answers and DROP answers |
| SessionTable.SessionIdExactly | upf/src/upf_server.cpp:147-151 | a text is the session id of number k if and only if it is sess- followed by decimal text without leading zeros that reads as k |
| Decimal.DecExactly | upf/src/upf_server.cpp:147-151 | a text is the rendering of n if and only if it is digits without a leading zero (but 0 itself) that read as n |
| IndexExactness.ExactStep | upf/src/upf_server.cpp:53-83 | one call keeps the index an inverse of the table if and only if it is not an establish for an indexed address |
| IndexExactness.ExactThroughout | upf/src/upf_server.cpp:53-83 | over a whole run the index is the inverse of the table at every point if and only if no establish found its address taken |
| IndexExactness.SharedAddressLosesSession | upf/src/upf_server.cpp:54-83 | a three-call run after which a live session is unindexed and its packets dropped |
| UpfService.UpfServiceImpl.EstablishSession | upf/src/upf_server.cpp:27-62 | the answer and new state are those of the history extended by this call; the id is new; refused exactly for an empty SUPI or address |
| UpfService.UpfServiceImpl.ReleaseSession | upf/src/upf_server.cpp:66-88 | the session is gone, its address unindexed, and an unknown id refused |
| UpfService.UpfServiceImpl.ClassifyInto | upf/src/upf_server.cpp:153-210 | the out-parameters are the specified verdict; forwarding implies a latest session for the source address |
| UpfService.UpfServiceImpl.ClassifyPacket | upf/src/upf_server.cpp:127-140 | inline mode: tables untouched, packets = forwarded + dropped |
| UpfService.UpfServiceImpl.GenerateSessionId | upf/src/upf_server.cpp:147-151 | the id was never minted before, and is the only one this call mints |
| PooledUpf.StepKeeps | upf/src/upf_server.cpp:94-143 | every step of every handler and worker keeps the system invariant |
| UpfTheorems.Linearizable | upf/src/upf_server.cpp:94-210 | every interleaving of establish, release and classify is a legal single-threaded history in which each returned call occurs once, between its start and return, with the answer its caller got, respecting real-time order |
| UpfTheorems.WorkerCount | upf/src/upf_server.cpp:16-22 | a UPF started with n threads has n workers in every state, and is in pooled mode exactly if n is positive |
| UpfTheorems.RealTimeOrder | upf/src/upf_server.cpp:94-143 | in every run, if a call returns and later another is made, the first takes effect before the second |
| UpfTheorems.RepliesAreInlineReplies | upf/src/upf_server.cpp:110-143 | each classify reply is what the inline path returns in the state at one instant, and never an exception |
| UpfTheorems.IndexByHistory | upf/src/upf_server.cpp:43-83 | the history characterisation of both tables in every concurrent state |
| UpfTheorems.WritesWhileWaiting | upf/src/upf_server.cpp:104-126 | a worker writes a handler's response and sets its promise only while that handler waits, each once |
| UpfTheorems.PacketsConserved | upf/src/upf_server.cpp:99-140 | at every instant packets = forwarded + dropped + in flight |
| UpfTheorems.CountersByCalls | upf/src/upf_server.cpp:99-140 | at every instant of every interleaving the packet counter is the number of ClassifyPacket calls entered, and the other two are the numbers of those counted as FORWARD and as DROP |
| UpfTheorems.QuiescentIsSequential | upf/src/upf_server.cpp:94-143 | with every call answered the whole state, counters included, is the single-threaded one |
| UpfTheorems.PoolRefined | upf/src/upf_server.cpp:110-126 | the pool inside the UPF is a run of the pool machine, so every invariant and law proved of its reachable states holds; progress of the UPF is EveryCallReturns and WaitingCallReturns |
| UpfLiveness.EveryCallReturns | upf/src/upf_server.cpp:94-143 | from every reachable state and in every continuation, new calls, spurious wakeups and the destructor included, threads with work take at most Load steps plus 13 for each call that arrives and one for each spurious wakeup; when none can move, an unreturned call is one whose task is queued with every worker gone, all calls have returned if and only if nothing was pushed after the last exit, and a pool being destroyed has no worker left |
| UpfLiveness.StrandedNeverReturns | upf/src/upf_server.cpp:110-126 | a call whose task is queued with every worker gone stays so in every continuation: no lookup, no reply, no promise, no return |
| UpfLiveness.LateCallHangs | upf/src/thread_pool.h:44-51 | a run with one worker and one packet that ends in such a state, with nobody able to move |
| BoundedBypass.WaitingCallReturns | upf/src/upf_server.cpp:94-143 | bounded bypass: a call that is past its push, or needs none, and is not stranded, has returned once Delay helping steps have been taken, in every continuation and whatever else arrives; until then a helping step can be taken without a spurious wakeup |
| BoundedBypass.DelayByPlace | upf/src/thread_pool.h:33-47 | the delay of a call with p tasks ahead of its own among n workers is at most 7 (p + 1) + 6 n + 8, and at most 7 when its task is not queued: later pushes do not count |
| BoundedBypass.UnpushedCallMoves | upf/src/upf_server.cpp:99-126 | a call that is not yet pushed has a step of its own handler enabled |
| Registration.StepKeeps | amf/src/amf_server.cpp:21-106 | every request under every fault keeps the joint AMF and UPF invariant |
| Registration.ContextsNameLiveSessions | amf/src/amf_server.cpp:46-66 | over every run with any faults each context names a live session of its own UE, and no two contexts share a session or an NGAP id |
| RegistrationHistory.RegisteredByHistory | amf/src/amf_server.cpp:38-100 | over every run with any faults a UE has a context exactly when some registration of it was accepted and neither deregistered nor replaced since, and the context is the one that registration left, with the NGAP id its reply named |
| RegistrationHistory.RepliesByHistory | amf/src/amf_server.cpp:21-113 | the reply to any registration or deregistration by history, text by text: each cause with its condition, and the accepted id ngap-n with n = 1000 + the attempts before, failed ones included |
| RegistrationHistory.CountersByRequests | amf/src/amf_server.cpp:49-113 | over every run the NGAP counter is 1000 plus the attempts, and the two counters are the accepted registrations and the deregistrations of registered UEs |
| Registration.UeIpSame | amf/src/amf_server.cpp:121 | two NGAP numbers get one address exactly when they differ by a multiple of 254 |
| Registration.NgapIdInjective | amf/src/amf_server.cpp:108-113 | different counter values render as different NGAP ids |
| Registration.NgapIdExactly | amf/src/amf_server.cpp:108-113 | a text is the NGAP id of number k if and only if it is ngap- followed by decimal text without leading zeros that reads as k |
| RegistrationTheorems.SessionsConserved | amf/src/amf_server.cpp:52-100 | over every run live sessions = contexts + overwriting re-registrations + lost establish replies + releases without effect |
| RegistrationTheorems.BijectionExactly | amf/src/amf_server.cpp:52-100 | contexts and sessions are in bijection if and only if none of those three ever happened |
| RegistrationTheorems.NgapNeverTwice | amf/src/amf_server.cpp:108-113 | no NGAP id is given out twice in a run |
| RegistrationTheorems.RegistrationsConserved | amf/src/amf_server.cpp:61-100 | registrations = deregistrations + contexts + overwriting re-registrations |
| RegistrationTheorems.SnapshotNeverUnderflows | amf/src/main.cpp:51-55 | also between a table write and its increment, deregistrations never exceed registrations; when the gauge equals the table size |
| RegistrationTheorems.ScrapeSafeExactly | amf/src/main.cpp:51-55 | reading the two counters at different instants is safe in all runs if and only if at most one operation separates them in the wrong order |
| AmfService.AmfServiceImpl.Register | amf/src/amf_server.cpp:21-73 | state and reply after Register for each fate of its RPC, keeping the joint invariant |
| AmfService.AmfServiceImpl.Deregister | amf/src/amf_server.cpp:75-106 | state and reply after Deregister for each fate of its RPC, keeping the joint invariant |
| AmfService.AmfServiceImpl.EstablishUpfSession | amf/src/amf_server.cpp:115-141 | the address is taken from the counter after its increment; success exactly when the reply arrives |
| AmfService.AmfServiceImpl.GenerateNgapId | amf/src/amf_server.cpp:108-113 | the id was never minted before, and is the only one this call mints |
| Addressing.FirstRegistration | amf/src/amf_server.h:45-47 | the counters start so that the first UE gets ngap-1000, sess-1 and 10.0.0.240 |
| Addressing.SuccessiveAddresses | amf/src/amf_server.cpp:121 | two attempts with none between them open sessions with successive addresses, the 254th followed by the first |
| Addressing.SessionOpened | amf/src/amf_server.cpp:115-141 | the session an attempt opens, field by field, its last octet a function of the number of attempts before |
| Addressing.RecentAddressesDistinct | amf/src/amf_server.cpp:121 | while live sessions come from the last 254 NGAP ids no two share an address |
| Addressing.RecentLookupIsSearch | upf/src/upf_server.cpp:165-173 | in such runs the indexed lookup agrees with a search of sessions_ |
| Addressing.RegisteredUeIsServed | amf/src/amf_server.cpp:115-141 | in such runs packets from a registered UE to an unblocked destination are forwarded with QoS class 9 (Service.ServedExactly has the exact condition in all runs) |
| Addressing.DeregisteredUeIsDropped | amf/src/amf_server.cpp:91-99 | corollary: in any run, once the release takes effect packets from the UE's address are dropped |
| Addressing.IndexBounded | amf/src/amf_server.cpp:121 | with the AMF as only client the index never exceeds 254 entries |
| Addressing.TooManySessionsShare | amf/src/amf_server.cpp:121 | with more than 254 live sessions, orphans included, two share an address and the index is not exact |
| Addressing.TooManyUesShare | amf/src/amf_server.cpp:121 | the UE-level companion: with more than 254 registered UEs two of them share an address and the index is not exact |
| Service.UpfFollowsLog | amf/src/amf_server.cpp:54-141 | over every run with any faults the UPF is in the state its history of effective calls leads to, and that history is legal, so the theorems about histories hold under the AMF |
| Service.ServedExactly | amf/src/amf_server.cpp:91-121 | over every run with any faults a packet from the address of NGAP number c to an unblocked destination is forwarded with class 9 if and only if, since the latest session opened under a number congruent to c mod 254, no UE with such a number was effectively deregistered; else it is dropped |
| Service.RegisteredUeIsServedExactly | amf/src/amf_server.cpp:46-121 | the same for the address of a registered UE's own live session: being registered is not enough |
| Service.TrafficAnswered | upf/src/upf_server.cpp:153-210 | over every run the answer to any packet from an address the AMF can give out: FORWARD with class 9, DROP with class 9 for a blocked destination, or DROP with class 0 once disturbed |
| Service.StrangerDropped | upf/src/upf_server.cpp:165-170 | over every run a packet from any other source is dropped |
| Service.RegisteredUeIsDropped | amf/src/amf_server.cpp:91-121 | a run after which one UE is registered, its session is live, and its packets are dropped |
| EndToEnd.PacketsUnderTheAmf | upf/src/upf_server.cpp:94-210 | in every interleaving of the running UPF: if the session calls before a classification are those the AMF's requests brought about, whatever was lost, a packet from the address of number c to an unblocked destination is answered FORWARD with class 9 exactly if c is undisturbed after those requests, else dropped, and the caller receives that answer |
| AddressBlocks.FilterIsTwoBlocks | upf/src/upf_server.cpp:184-188 | over all canonical dotted quads the textual tests hold exactly for 10.0.0.0/8 and 192.168.0.0/16 |
| AddressBlocks.BlockedByBeginning | upf/src/upf_server.cpp:184-188 | for any destination text at all: blocked exactly if it begins with one of the two prefixes |
| AddressBlocks.FilterMissesThirdBlock | upf/src/upf_server.cpp:184-188 | the filter agrees with the comment exactly outside 172.16.0.0/12, which contains the next hop |
| AddressBlocks.NoForwardingToUes | amf/src/amf_server.cpp:121 | no packet addressed to an address the AMF assigns is forwarded, whatever the tables hold |
| Json.Find | transport-bench/rest_amf_server.cpp:29-36 | the result is the first match at or after the start, or there is none |
| Json.ExtractExactly | transport-bench/rest_amf_server.cpp:29-36 | the value read is what follows the first occurrence of the key up to the next quote, and a key that does not occur reads as the empty string |
| Json.PrintedText | transport-bench/rest_amf_server.cpp:17-27 | the reply as it goes over the wire, for all fields |
| Json.NgapRoundTrip | transport-bench/rest_amf_server.cpp:17-36 | the NGAP id read back is the printed one up to its first quote, so equal if and only if quote-free |
| Json.CauseRoundTrip | transport-bench/rest_amf_server.cpp:17-36 | with a quote-free NGAP id, the same for the cause: the key cannot match earlier |
| Json.PrintedApart | transport-bench/rest_amf_server.cpp:17-27 | replies with quote-free fields that print alike agree in flag, id, cause and timestamp |
| RestAmf.RestAmfServer.Register | transport-bench/rest_amf_server.cpp:63-90 | 200 exactly if the UE is known and the first registration_type in the body is initial, and then nothing changes; else 201 and it is registered under an id never minted before and held by nobody, which a client reads back from the reply, and nobody else is touched; contexts keep distinct minted ids |
| RestAmf.NoTypeIsAccepted | transport-bench/rest_amf_server.cpp:68-88 | a body in which the registration_type key does not occur is accepted with 201, for a known UE too |
| RestAmf.RestAmfServer.Delete | transport-bench/rest_amf_server.cpp:93-101 | exactly this UE is gone, counters untouched, invariant kept, and success is answered whether or not it was known |
| Simulation.RegisterSimulates | transport-bench/rest_amf_server.cpp:63-90 | from similar states the two AMFs decide a registration alike if and only if the SUPI is non-empty and the UPF exchange is faultless or not needed; then states stay similar |
| Simulation.DeregisterSimulates | transport-bench/rest_amf_server.cpp:93-101 | corollary: deregistration keeps the states similar under every fault; replies agree exactly for registered UEs |
| Simulation.Simulates | transport-bench/rest_amf_server.cpp:63-101 | over every faultless run both AMFs hold the same UEs under the same NGAP ids and decide every registration alike, as read from the printed replies |
| Simulation.BenchmarkBodyReads | transport-bench/bench_compare.cpp:100-101 | the posted body, as written, carries its registration type to the REST AMF |
| Benchmark.BenchmarkCollects | ue-sim/main.cpp:140-164 | in every interleaving exactly threads * (ues / threads) latencies are collected, those pushed and in their order, for distinct SUPIs, and fewer UEs than threads are left out |
| Benchmark.BenchmarksApart | ue-sim/main.cpp:118-153 | the sequential and the concurrent benchmark register disjoint sets of SUPIs |
| Benchmark.SupisRead | ue-sim/main.cpp:118-153 | each SUPI of either benchmark is its fixed prefix and the decimal text of 10000 + i |
| Benchmark.ComputeStats | ue-sim/main.cpp:83-96 | the vector is left sorted, minimum and maximum are samples that enclose all samples, the percentiles are ordered between them |
| Benchmark.PercentileRank | ue-sim/main.cpp:91-93 | more than p percent of the samples are at most the p-th percentile and at most p percent are below it |

## Left out

- gRPC and HTTP transport, signal handling, logging, configuration: foreign calls; an RPC is modelled by its fate.
- The pooled path of ClassifyPacket as a class method: it spans threads, so it is the machine of `PooledUpf`; `UpfService` is the inline mode.
- Process restart and gRPC retries: state is in memory and each RPC takes effect at most once.
- Unlocked reads of map sizes by the metrics exporter, and the C++ memory model: a step is atomic.
- Response timestamps of the UPF and the gRPC AMF: plumbing with no property.
- A handler's three response fields are written in one step: no other thread reads them before the promise is set.
- Several clients of the UPF's session calls beside the AMF: `Registration` assumes the AMF is the only one; `PooledUpf` does not.
- Prometheus text rendering, mean and throughput of the benchmark, success counts: easy or floating point.
- do_classify is declared but not defined in the repository, so it is not part of this model.
- Benchmark.SortInPlace: std::sort is stood for by its result, not by its algorithm.
- Json.CauseRoundTrip: covers quote-free NGAP ids only, the ones the server prints; an id with a quote can contain the cause key.
