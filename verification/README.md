# An event engine, its TCP streams, its timers and its DNS client, in Dafny

This project models the parts of the engine that are easiest to get wrong and
proves what they keep. Each operation that the program performs under a lock is a
method of a class with the program's own fields, proved equal to a function on
values; the theorems are about runs of those functions, in any order the program
allows, with the kernel and the clock as arbitrary inputs.

| file | what it models |
|---|---|
| `Basics.dfy` | bytes, chunk lists, optional values |
| `TcpStream.dfy` | the write side of `TcpStream`: deque, flags, egress limiter |
| `StreamRuns.dfy` | one stream with the engine steps that wake it, and byte conservation |
| `StreamWakeUp.dfy` | wake-ups: never lost without a limit, at most one with it, and where the limiter loses it |
| `StreamRate.dfy` | the long-run egress rate, and that the limiter holds back no more than it must |
| `Timers.dfy` | `Timers`: two indexes that implement one map |
| `TimerEngine.dfy` | the engine's kernel timer coupled to the earliest entry |
| `HandOff.dfy` | event queue, semaphore and workers, any number of threads |
| `DnsFlags.dfy`, `DnsWords.dfy` | flags word, network order, addresses |
| `DnsNames.dfy` | the name encoder and decoder |
| `DnsMessages.dfy` | `resolve`, `decode` and the answer walk |
| `Names.dfy` | the round-robin list of addresses under a name |
| `Resolver.dfy`, `ResolverRuns.dfy` | the query table and the cache, over whole runs |
| `ResolverLifecycle.dfy`, `ResolverProvenance.dfy` | when clients are told, who never is, and where addresses come from |
| `Patterns.dfy`, `Proxy.dfy` | the proxy's pattern search, header hand-over and remote side |

## Where the code is not what one would expect

The code is modelled as it is. Where a natural property fails, the condition under
which it holds is proved instead:

- A rate-limited stream whose write would block keeps neither a timer nor epoll
  interest, and never writes again; one that is registered with data queued already
  is stalled by that. A disconnect aside, nothing else stalls it
  (`StalledIffBlockedOrEarly`, `StalledForever`, `StallingRuns`).
- A hard error strands what is queued behind the chunk it drops
  (`HardErrorStrands`, `Conservation`).
- A re-set of the earliest timer makes the kernel timer late exactly when it stays
  the earliest and its new deadline is before the time armed for, because the kernel
  timer is only set again when the identity of the earliest timer changes
  (`OnTimeIffInTime`, `NeverLateIffInTime`). `setTimer` traps exactly on a date in use.
- `encodeName` writes a length octet that is one short for a name without a dot
  (`EncodesIffTwoLabels`) and 64 octets after a length octet of 63 for a longer
  label (`EncodedAsBlocks`). `decodeName` loses the cursor on the bare root and on
  zero octets inside labels (`CursorExactIffReadable`).
- The answer walk counts an address twice, so it starts every record at its true
  offset exactly when no address record is followed by another record
  (`TrueOffsetsIffNoEarlyAddress`). A usual response with two A records is walked
  past its end (`TwoAddressesRunOff`).
- A query whose socket failed is never completed by an answer
  (`ToldOnLastAnswer`); a timeout sweeps further queries away and tells only one
  client, and a request number taken again overwrites its query
  (`EveryClientServedIffGentle`, `SweptUpRun`). A timeout that meets a query for IPv6
  only is undefined (`TimeoutUndefinedIff`).
- The pattern search does not back up after a mismatch: it finds exactly the
  occurrences that it tries (`FoundIffTried`). The proxy finds a blank line exactly
  after an even number of carriage returns (`OpenIffEvenBlankLine`), and misses it
  after one (`OccurrenceIsMissed`).
- The remote side of the proxy may close its stream while bytes still wait
  (`CutsOffIff`), and once it is destroyed the old header is sent again to a new one
  (`GoneRemoteRepeatsHeader`).

## Model

| member | source | states |
|---|---|---|
| `TcpStreams.TcpStream.Accept` | src/tcpstream.cpp:5-17 | an accepted stream starts connected, with an egress rate of 4 MiB/s |
| `TcpStreams.TcpStream.Connect` | src/tcpstream.cpp:19-39 | an outgoing stream starts unlimited, connected only if `connect` completed at once |
| `TcpStreams.TcpStream.QueueWrite` | src/tcpstream.cpp:174-184 | the whole new state and the trigger; nothing happens for empty data |
| `TcpStreams.TcpStream.HandleWrite` | src/tcpstream.cpp:78-138 | flags, queue and engine calls after a burst, or after connect completion |
| `TcpStreams.TcpStream.WriteBurst` | src/tcpstream.cpp:86-122 | the loop ends as the recursive burst does, whatever the kernel answers; the queued bytes are its decreasing measure |
| `TcpStreams.TcpStream.WriteTurn` | src/tcpstream.cpp:90-121 | one turn of the loop leaves the rest of the burst to the next ones, or ends it with the flags and calls that show how |
| `TcpStreams.TcpStream.WriteFront` | src/tcpstream.cpp:90-95 | a chunk is popped, and what the kernel did not take put back in front; only a hard error drops it |
| `TcpStreams.TcpStream.Disconnect` | src/tcpstream.cpp:166-172 | the engine is asked to forget the stream once only |
| `TcpStreams.TcpStream.WriteQueueEmpty` | src/tcpstream.cpp:186-189 | true exactly for an empty queue |
| `TcpStreams.ConsumeTakesBytes` | src/tcpstream.cpp:94-96 | a partial write splits the queued bytes at what was written |
| `TcpStreams.RunBurst` | src/tcpstream.cpp:86-122 | every queued chunk stays non-empty; a burst that drained is one with an empty queue that was neither limited nor broken |
| `StreamRuns.BurstMovesBytes` | src/tcpstream.cpp:86-122 | what a burst sent, then dropped, then left queued is what was queued; something is dropped only by a hard error |
| `StreamRuns.StepKeepsBytes` | src/tcpstream.cpp:78-184 | every step of stream or engine keeps all offered bytes, in order |
| `StreamRuns.Conservation` | src/tcpstream.cpp:86-122 | on every run nothing is lost or reordered; wire plus queue is what was offered exactly when there was no hard error, and otherwise short by the dropped bytes |
| `StreamRuns.ReportsIff` | src/tcpstream.cpp:123-136 | `writeComplete` is reported exactly for the first burst, for one that emptied the queue, and for a connect completion with an empty queue |
| `StreamRuns.PollsIffBlocked` | src/tcpstream.cpp:140-143 | after a burst of an unlimited stream epoll is wanted exactly when its write would block |
| `StreamRuns.RemovedOnce` | src/tcpstream.cpp:166-172 | on every run only the first disconnect asks the engine to forget the stream |
| `StreamWakeUp.NoLostWakeUp` | src/tcpstream.cpp:78-143 | on every run of an outgoing stream without hard error or disconnect, a non-empty queue has an event on its way or `waitingOutEvent` answers true |
| `StreamWakeUp.OneWakeUpToken` | src/tcpstream.cpp:80-112 | on every run of a limited stream at most one of queued event, egress timer and fired egress event exists, and then `writeTriggered` is set |
| `StreamWakeUp.EgressAssertionHolds` | src/tcpstream.cpp:145-149 | the assertion in `asyncEgress` holds on every run of every stream, before and after a disconnect |
| `StreamWakeUp.StalledForever` | src/tcpstream.cpp:114-117 | a stalled stream never writes again, whatever happens |
| `StreamWakeUp.WakeUpLostIffStalled` | src/tcpstream.cpp:140-143 | on every run of a limited stream, with data queued before or after registration, queued data has no wake-up exactly in the stalled states |
| `StreamWakeUp.StepStallsIff` | src/tcpstream.cpp:97-117 | a disconnect aside, exactly two kinds of step stall a limited stream: a burst whose write would block, and the registration with data queued already |
| `StreamWakeUp.StalledIffBlockedOrEarly` | src/tcpstream.cpp:5-17 | a run without disconnect ends stalled exactly when one of its steps was of these kinds |
| `StreamWakeUp.HardErrorStrands` | src/tcpstream.cpp:118-120 | a burst of an unlimited stream, from a queued event or from epoll, leaves queued data without a wake-up exactly after a hard error |
| `StreamWakeUp.StallingRuns` | src/engine.cpp:116-129 | two runs that stall, one for each reason |
| `StreamRate.BurstStops` | src/tcpstream.cpp:99-113 | all a burst sent but its last write passed the rate test at a clock reading of the burst, the one after some of its writes |
| `StreamRate.DelayPays` | src/tcpstream.cpp:108-109 | the egress delay pays for one chunk of MAX_PACKET_SIZE at (rate + 1), and an excess remains for larger ones |
| `StreamRate.BurstIsPaid` | src/tcpstream.cpp:83-113 | the bytes of one burst against its own time and delay |
| `StreamRate.LongRunRate` | src/tcpstream.cpp:83-113 | between any two points of any run, bytes on the wire times 10^9 are at most (rate + 1) times the time between them, each counted to the end of its pending delay, 2 ns of rounding for each burst, plus the excess of oversized chunks |
| `StreamRate.BurstEndsForAReason` | src/tcpstream.cpp:86-122 | a burst ends only with an empty queue, with a total over the rate at the last clock reading, with a write that would block, or with a hard error |
| `StreamRate.DelayedOnlyWhenOver` | src/tcpstream.cpp:99-110 | the limiter delays only after a burst over its rate, and for no longer than one packet of MAX_PACKET_SIZE takes at the rate |
| `StreamRate.NeverDelayedLonger` | src/tcpstream.cpp:108-110 | on every run the time until a limited stream may write again is at most that |
| `TimerIndex.SizesAgree` | src/timers.cpp:44 | two indexes that hold the same map have the same size |
| `TimerIndex.Timers.GetStartEvent` | src/timers.cpp:57-63 | the earliest entry of the map, if there is one |
| `TimerIndex.Timers.SetTrigger` | src/timers.cpp:48-55 | arms for the earliest entry, not before 1 ns from now, or disarms |
| `TimerIndex.Timers.RemoveTimer` | src/timers.cpp:21-46 | map removal, with the size assertion proved; the old deadline or the time now |
| `TimerIndex.Timers.SetTimer` | src/timers.cpp:80-98 | map update, or a trap exactly when another timer has the date; armed again exactly when the earliest identity changed |
| `TimerIndex.Timers.CancelTimer` | src/timers.cpp:65-78 | map removal and the time left; armed again as above |
| `TimerIndex.Timers.CancelAllTimers` | src/timers.cpp:100-113 | removal of all entries of an owner, with the size assertion proved |
| `TimerIndex.Timers.HandleTimerExpired` | src/timers.cpp:12-19 | removal of the earliest entry, then arming for the next |
| `TimerEngines.ApplyKeepsCoupled` | src/timers.cpp:65-113 | every operation that does not trap keeps dates distinct and the armed event the earliest |
| `TimerEngines.ArmedForDeadline` | src/timers.cpp:48-55 | whenever the earliest timer changes, the kernel timer is set for the whole time to its deadline and at least 1 ns; otherwise it is left alone |
| `TimerEngines.ArmedOnDate` | src/timers.cpp:65-113 | on runs that never re-set the earliest timer the kernel timer is always set for its deadline, neither late nor early |
| `TimerEngines.TimerFate` | src/timers.cpp:65-113 | on every run a timer that nobody touches keeps its deadline until it is queued, once; one that is not pending is never queued |
| `TimerEngines.TouchedFate` | src/timers.cpp:65-113 | a cancelled timer is not queued on any run that does not set it again; a timer that is set is pending with its new deadline |
| `TimerEngines.ArmedIsEarliest` | src/engine.cpp:174-192 | on every run an event is armed exactly when a timer is pending, it is the earliest, and an expiry queues exactly the event it removes |
| `TimerEngines.ApplyKeepsOnTime` | src/timers.cpp:48-55 | an operation that does not bring the earliest timer forward keeps the kernel timer on time |
| `TimerEngines.NeverArmedLate` | src/timers.cpp:80-98 | on runs where re-sets of the earliest timer postpone it, the kernel timer expires by the earliest deadline or 1 ns after it was set |
| `TimerEngines.OnTimeIffInTime` | src/timers.cpp:91-93 | from any state, a re-set of the earliest timer leaves the kernel timer late exactly when it stays the earliest with a deadline before the time armed for |
| `TimerEngines.NeverLateIffInTime` | src/timers.cpp:80-98 | the kernel timer is on time all through a run exactly when no re-set is of that kind |
| `TimerEngines.LateAndNotLate` | src/timers.cpp:91-93 | a run that ends late, and one that brings the deadline forward and is still on time |
| `TimerEngines.ExpiryTakesEarliest` | src/engine.cpp:174-192 | one expiry queues and removes the entry with the least deadline |
| `TimerEngines.DrainsInOrder` | src/engine.cpp:174-192 | as many expiries as pending timers queue each of them once, in the order of the deadlines |
| `TimerEngines.ProgrammedPair` | src/engine.cpp:219-222 | the programmed pair recombines to the delay, is never zero and has nanoseconds below 10^9 |
| `TimerEngines.TimerEngine.SetTimerTrigger` | src/engine.cpp:210-225 | disarms, or keeps the event and programs the pair for its delay |
| `TimerEngines.TimerEngine.DoSetTimer` | src/engine.cpp:157-160 | index and armed event move together |
| `TimerEngines.TimerEngine.DoCancelTimer` | src/engine.cpp:169-172 | index and armed event move together |
| `TimerEngines.TimerEngine.DoCancelAllTimers` | src/engine.cpp:258-261 | index and armed event move together |
| `TimerEngines.TimerEngine.HandleTimerExpired` | src/engine.cpp:174-192 | queues the armed event and takes it out of the index; "Expired timer not found" cannot happen |
| `HandOff.Semaphore.Signal` | src/semaphore.cpp:7-11 | the count goes up by one, and one of the sleepers is woken if there are any |
| `HandOff.Semaphore.TryWait` | src/semaphore.cpp:13-19 | one look at the condition: passes and counts down exactly when the count is positive, else sleeps |
| `HandOff.EventQueue.NewEvent` | src/engine.cpp:116-129 | the push step and the signal step of the thread machine for a registered descriptor, else nothing |
| `HandOff.EventQueue.DoRunAsync` | src/engine.cpp:142-148 | the push step and the signal step of the thread machine |
| `HandOff.EventQueue.Wait` | src/engine.cpp:324 | the wait step of a worker, which holds exactly if it passed |
| `HandOff.EventQueue.Take` | src/engine.cpp:325-334 | the pop step of a worker: the front event, or none from an empty queue |
| `HandOff.StepKeepsAccounted` | src/engine.cpp:116-148 | every critical section of every thread keeps the account of events and signals |
| `HandOff.NoEventStranded` | src/engine.cpp:321-334 | on every run events are popped once and in push order; the queue is no longer than count, unsignalled pushes and unpopped workers together, and exactly as long until `stopWorkers` signals |
| `HandOff.NoSleeperMissed` | src/semaphore.cpp:7-19 | a worker sleeps only while every unit of the count has a notified worker coming for it |
| `HandOff.InternalStepsRank` | src/engine.cpp:321-342 | every step that a thread takes by itself lowers the rank |
| `HandOff.QuiescentIsDrained` | src/engine.cpp:321-334 | when no thread can step, the queue is empty unless every worker has left |
| `HandOff.EveryEventIsTaken` | src/engine.cpp:321-342 | from any reachable state, under any schedule, the threads rest after boundedly many steps with every pushed event popped, in order, unless every worker has left; and if nobody stops the engine and no event ends its worker, every pushed event is popped |
| `HandOff.WorkersStay` | src/engine.cpp:323 | on every run on which nobody stops the engine and no event ends its worker, every worker stays |
| `HandOff.OneRoundStopsAll` | src/engine.cpp:66-84 | once the engine is stopping, one signal for each worker lets all of them leave by the time every thread rests, whatever else happens |
| `DnsFlags.ReqFlags.SetField` | src/query.cpp:15-19 | a setter replaces its bits |
| `DnsFlags.SetThenGet` | src/query.cpp:31-115 | a getter reads what its setter stored, cut to the field's width, and no setter changes another field |
| `DnsFlags.QueryFlags` | src/query.cpp:240-245 | the setters that `resolve` calls give the word with RD alone |
| `DnsFlags.QueryFlagsAreRd` | src/query.cpp:31-115 | every getter reads that word as a standard query asking for recursion |
| `DnsWords.WordBytes` | src/endians.hpp:44-67 | the 16-bit writer's bytes are read back by the 16-bit reader |
| `DnsWords.IpAddr.SetIpV4` | src/types.hpp:28-32 | the array in place, with the IPv4-mapped prefix |
| `DnsWords.IpAddr.Set` | src/types.hpp:42-46 | the array in place, word by word |
| `DnsWords.IpAddr.Get` | src/types.hpp:48-54 | the sixteen octets from which `set` would make this very address |
| `DnsWords.IpAddr.IsIpv4Addr` | src/types.hpp:56-63 | true exactly for the IPv4-mapped prefix |
| `DnsWords.MappedIffHead` | src/types.hpp:56-63 | an address counts as IPv4 exactly when its network octets begin with the IPv4-mapped prefix |
| `DnsWords.AddressesReadBack` | src/types.hpp:28-63 | an IPv4 address reads back in mapped form (section 2.5.5.2 of RFC 4291), an IPv6 one as itself; exactly the mapped ones count as IPv4 |
| `DnsNames.JoinSplit` | src/query.cpp:196-214 | every name is the join of its dot-free labels |
| `DnsNames.GetLen` | src/query.cpp:147-162 | the next length octet and dot position, with the 64-bit wrap-around of `npos` |
| `DnsNames.EncodeName` | src/query.cpp:196-214 | the loop appends exactly the recursive encoding |
| `DnsNames.LabelIsCopied` | src/query.cpp:200-211 | a label is copied as far as its length octet counts down, one octet further if it is longer |
| `DnsNames.EncodedAsBlocks` | src/query.cpp:196-214 | the output for every name of two or more labels of any size that does not begin with a dot |
| `DnsNames.EncodesIffTwoLabels` | src/query.cpp:147-162 | for labels of 1 to 63 octets the output is the label sequence of section 3.1 of RFC 1035 exactly when there are two or more |
| `DnsNames.DecodeName` | src/query.cpp:216-234 | the loop reads exactly what the recursive decoder does |
| `DnsNames.CursorExactIffReadable` | src/query.cpp:216-234 | on every wire name, compressed (section 4.1.4 of RFC 1035) or not, the cursor ends exactly past the name if and only if it is not the bare root and no label has a zero octet; then the text is the labels |
| `DnsNames.NameRoundTrip` | src/query.cpp:196-234 | an encoded name of two or more labels decodes to itself, to its very end |
| `DnsMessages.Resolve` | src/query.cpp:237-260 | header, encoded name, type and class, in network order |
| `DnsMessages.DecodeHeader` | src/query.cpp:186-194 | the six words of the header, or zeros for a message that is too short |
| `DnsMessages.Decode` | src/query.cpp:262-304 | the answer of the value-level walk, or none where the program reads past the end |
| `DnsMessages.ReadQuestions` | src/query.cpp:270-274 | the question loop equals the recursive walk |
| `DnsMessages.ReadRecords` | src/query.cpp:275-302 | the answer loop equals the recursive walk |
| `DnsMessages.ReadRecord` | src/query.cpp:276-301 | one record: address, time to live, and the cursor after the double advance |
| `DnsMessages.QuestionIsPassed` | src/query.cpp:164-171 | a well-formed question is passed exactly and gives its name |
| `DnsMessages.AnswerIsRead` | src/query.cpp:173-184 | a record at its true offset gives its address; the cursor ends exactly past it, or by the length of the address too far |
| `DnsMessages.TrueOffsetsIffNoEarlyAddress` | src/query.cpp:275-302 | every record is started at its true offset exactly when no address record is followed by another record |
| `DnsMessages.AddressesAreDecoded` | src/query.cpp:262-304 | such a response, with any questions and skipped records, decodes to exactly the addresses it holds, under its number, its last question and its last time to live |
| `DnsMessages.TwoAddressesRunOff` | src/query.cpp:281-301 | a compressed response with two A records, at its end, is walked past its end |
| `DnsMessages.LastAddressOnly` | src/query.cpp:275-302 | with one address record, last, that address is the only one returned |
| `DnsMessages.LastAddressIsDecoded` | src/query.cpp:262-304 | a response with any questions and skipped records and one address record, last, decodes to that address, and its network bytes are read back |
| `DnsMessages.QueryIsMessage` | src/query.cpp:237-260 | the query for a legal name is the message of section 4 of RFC 1035 with recursion desired and one Internet question of the type asked for |
| `DnsMessages.QueryRoundTrip` | src/query.cpp:237-304 | `decode(resolve(n, name, t))` gives number n and that name, and ends at the end of the buffer |
| `NameCache.Names.Get` | src/resolverimpl.cpp:64-91 | the loop terminates with the first match in cyclic order from after the last access, or none |
| `NameCache.Names.Put` | src/resolverimpl.cpp:93-98 | the addresses are appended |
| `NameCache.MeetsIff` | src/resolverimpl.cpp:78-87 | which addresses meet a preference, in terms of their network octets |
| `NameCache.GetGivesFamily` | src/resolverimpl.cpp:64-91 | a call hands out a stored address of the family asked for, or none is stored |
| `NameCache.Next` | src/resolverimpl.cpp:73-88 | something is found exactly when some stored address meets the preference, and it is in range and meets it |
| `NameCache.GetTakesNextMatch` | src/resolverimpl.cpp:64-91 | one call takes the match after those passed, wrapping to the first |
| `NameCache.RoundRobin` | src/resolverimpl.cpp:64-91 | the k-th call hands out the k-th match round the circle |
| `NameCache.EachMatchOnce` | src/resolverimpl.cpp:64-91 | m consecutive calls over m matches hand out every match, and none twice |
| `Resolvers.ResolverImpl.Resolve` | src/resolverimpl.cpp:100-129 | a cached name is looked up and told, without a socket; else a query is stored under the next request number, with a client entry and a socket for each type asked for |
| `Resolvers.AsksForFamilies` | src/resolverimpl.cpp:112-127 | A is asked for exactly when IPv4 addresses meet the preference, AAAA exactly when IPv6 ones do; the query keeps the preference and has a client entry for each type |
| `Resolvers.ResolverImpl.Store` | src/resolverimpl.cpp:181-189 | a valid answer's addresses are appended under its name |
| `Resolvers.ResolverImpl.Find` | src/resolverimpl.cpp:192-203 | the look-up on completion |
| `Resolvers.ResolverImpl.RequestComplete` | src/resolverimpl.cpp:162-220 | learn, drop a client entry, and on the last one look up, erase and tell |
| `Resolvers.ResolverImpl.Finish` | src/resolverimpl.cpp:191-206 | the last answer: looked up with the preference of the query, which is erased, and told to its client |
| `Resolvers.ResolverImpl.QueryTimedout` | src/resolverimpl.cpp:136-156 | erases from the query to the end of the iteration and tells one client; defined exactly when none of them lacks a socket; nothing if the query is gone |
| `ResolverRuns.StepKeepsTracked` | src/resolverimpl.cpp:100-220 | every step keeps table, statuses and what was told in agreement |
| `ResolverRuns.ToldAtMostOnce` | src/resolverimpl.cpp:136-220 | on every run no client is told twice or while it is in the table, and one that is neither in the table nor lost was told |
| `ResolverRuns.ToldAsAsked` | src/resolverimpl.cpp:112-114 | on every run each client is looked up for with the very preference with which it called `resolve` |
| `ResolverRuns.TimeoutUndefinedIff` | src/resolverimpl.cpp:146-151 | on every run a timeout runs into `back()` of an empty vector exactly when it sweeps up the query of a client that asked for IPv6 only |
| `ResolverLifecycle.ToldOnLastAnswer` | src/resolverimpl.cpp:112-127 | while outstanding numbers are distinct a query holds as many client entries as sockets that did not answer, never zero, and its client is told exactly on the last answer due when no socket failed |
| `ResolverLifecycle.FreshWhileFewAsked` | src/resolverimpl.cpp:126-127 | outstanding numbers are distinct on every run with no more than 65536 calls of `resolve` |
| `ResolverLifecycle.StepLoses` | src/resolverimpl.cpp:112-156 | the clients that one step loses for ever, exactly |
| `ResolverLifecycle.EveryClientServedIffGentle` | src/resolverimpl.cpp:100-156 | on a run every client was told or still waits exactly when no timeout swept up a second query and no number was taken again while in the table |
| `ResolverLifecycle.SweptUpRun` | src/resolverimpl.cpp:146-153 | a run on which a client is never told |
| `ResolverProvenance.LookUpKeepsFiled` | src/resolverimpl.cpp:64-110 | a look-up gives an address meeting the preference exactly when the logged answers hold one |
| `ResolverProvenance.AddressesComeFromAnswers` | src/resolverimpl.cpp:181-206 | on every run a client is told an address after a look-up exactly when an earlier valid answer with the name looked up holds one of the family with which this client called `resolve`, and it is such a one; a timeout gives none |
| `ResolverProvenance.KnownNamesAreToldAtOnce` | src/resolverimpl.cpp:100-128 | on every run a client that asks is told at once, without a query, exactly when an answer with that name was taken; else it waits for a new query |
| `Patterns.FindFirstPattern` | src/main.cpp:28-42 | the loop equals the recursive scan |
| `Patterns.HitsIff` | src/main.cpp:32 | an octet fits itself, the same letter in the other case, and a question mark in the pattern |
| `Patterns.FoundIsOccurrence` | src/main.cpp:28-42 | what is found ends an occurrence, `first` is one before it unless it is at the beginning, and comparing the two tells, but for one-octet patterns |
| `Patterns.FoundIffTried` | src/main.cpp:28-42 | the search succeeds exactly when the pattern occurs where it is tried: at the beginning and after each octet that broke a try |
| `Patterns.OccurrenceIsMissed` | src/main.cpp:36-39 | a header whose blank line is missed |
| `Patterns.HeaderIsHandedOver` | src/main.cpp:250-291 | a header is opened only with a blank line; the remote side gets all of it, or for CONNECT exactly what follows the blank line |
| `Patterns.OpenIffEvenBlankLine` | src/main.cpp:250-260 | a header is opened exactly when a blank line stands in it after an even number of carriage returns; otherwise it is refused, or too short for one |
| `Patterns.ConnectIffAsked` | src/main.cpp:285-289 | an opened header is handled as CONNECT exactly when the word stands in it where the search tries it |
| `Proxy.Remote.DoWrite` | src/main.cpp:207-219 | waiting bytes go first; without a stream the new ones wait |
| `Proxy.Remote.WriteComplete` | src/main.cpp:194-205 | waiting bytes are handed over, or a stream without a client is closed |
| `Proxy.Remote.Disconnect` | src/main.cpp:169-178 | closes at once exactly when the stream's queue is empty |
| `Proxy.HttpProxy.Received` | src/main.cpp:231-302 | forwards, keeps, refuses or opens, also after the remote side was destroyed; the header and the remote side after it |
| `Proxy.StepKeepsOrder` | src/main.cpp:194-219 | every step keeps handed-over and waiting bytes in order, with the stream's own invariants |
| `Proxy.StepKeepsReports` | src/main.cpp:169-205 | bytes waiting beside a stream, and an open stream without a client and without data, have a report of that stream coming |
| `Proxy.EndToEnd` | src/main.cpp:194-219 | on every run handed-over plus waiting bytes are the header bytes and all writes; without hard error the wire carries the beginning, with wake-ups for what is queued, for what waits, and for a stream whose client left |
| `Proxy.ClientToWire` | src/main.cpp:231-302 | however the client's bytes arrive in pieces, while the remote side lives there is one, and the wire carries the beginning of what the client sent, or of what it sent after a blank line, the latter exactly if the header asks for CONNECT |
| `Proxy.GoneRemoteRepeatsHeader` | src/main.cpp:232-243 | on every run, after a plain request whose remote side was destroyed the next bytes open another, which gets the old header again |
| `Proxy.CutsOffIff` | src/main.cpp:169-205 | which steps close a stream while bytes wait, exactly, with the closings by timer or error among them |
| `Proxy.CutOffRun` | src/main.cpp:169-178 | a run on which a client that leaves early has its bytes cut off |

## Left out

- StreamRate.LongRunRate: assumes that no more is queued at once than fits the limiter's 64-bit product (about 18 GB) and that the egress timer does not fire early.
- StreamWakeUp.NoLostWakeUp: about the predicate `waitingOutEvent`, not about the order of `epoll_ctl` calls of concurrent `Engine::run`s; epoll may report a descriptor whenever that predicate was ever true at a registration.
- StreamWakeUp.StalledIffBlockedOrEarly: runs without a disconnect; a disconnect takes the egress timer away and closes the stream.
- TimerEngines.NeverArmedLate: says nothing about early expiries, which a stale expiry or a re-set of the earliest timer can cause.
- DnsMessages.AddressesAreDecoded: one direction; after an address record that is not last, the walk reads at wrong offsets and what it makes of them depends on the bytes there.
- Resolvers.ResolverImpl.QueryTimedout: the order of the unordered map is an arbitrary input; a record without a stored socket (IPv6-only queries) makes `resolvers.back()` undefined, and runs do not go on after it.
- ResolverLifecycle.ToldOnLastAnswer: assumes that a request number is not taken again while a socket for it is still due, which `FreshWhileFewAsked` proves for the first 65536 calls only.
- Proxy.HttpProxy.Received: host parsing and opening the connection are left out; closing the client's stream and its CONNECT reply are reported as the outcome.
- TcpStreams.RunBurst: `write` on non-empty data never returns 0, and the answers of the kernel are a finite list after which it would block.
- Locks are modelled by what each critical section does; data races outside locks are not modelled.
- The several clock readings inside one timer operation are two: the one for the new date and one for the rest.
- Weak pointers are flags or null references: an owner is alive or not, a stream is attached or gone.
- The inactivity timer of a stream appears as a count of calls; its expiry is the step `Disconnect`.
- `Engine::doAdd`, `doRemove` and `run` appear as phases and steps of one stream, not as a table of sockets.
- Starting and stopping threads, signals and the automatic stop check, apart from the signals of `stopWorkers`.
- UDP sockets: the resolver's sockets answer, fail or stay silent.
- Expiry of cached names: the program stores no expiry either, and the time to live is decoded but unused.
- An outgoing stream whose `connect` fails outright is never given to the engine and is not followed further.
- Socket system calls, connection establishment, logging, counters and hex dumps.
