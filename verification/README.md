# HwGauge, modelled and verified

HwGauge samples CPUs, GPUs, NPUs, the host and a cluster of peers, round after round, and hands what it
sampled to CSV files, a PostgreSQL database, an HTTP server and Prometheus. This project is a Dafny model of
the parts of it that keep state over time, with proofs of what they guarantee over whole runs:

* **The cluster's failure detector.** Every node keeps a key with a time to live in Redis by a heartbeat
  thread; a sampler counts the keys with a paged SCAN. `HeartbeatKey` has the key, its glob pattern and a
  recursive glob matcher; `RedisServer` the server's keyspace over time and what a SCAN promises;
  `NodeCount` what the count says about the nodes; `HeartbeatTiming` the heartbeat loop on the clock;
  `FailureDetector` puts them together. `Hiredis` is the client library with a ledger of everything it has
  handed out; `ClusterImpl` the class over it; `ClusterSample` joins the class and the detector; and
  `HeartbeatThreads` the two threads of one process, step by step, over the mutex, the flag and the link.
* **Delta counters.** `CounterDeltas` is the difference of successive 64-bit readings by device name,
  `SysImpl` the class that reads disks and interfaces, `SysRuns` what it reports over a run.
* **PCM windows and self-healing.** `Pcm`.
* **The scheduler and its rounds.** `Scheduler` is the tick loop's arithmetic, `SharedPower` the power total
  shared by the collectors of a round, `Exposer` the rounds with their errors and the loop itself.
* **The batch writer.** `PgSession` is a PostgreSQL session as a client meets it, `BatchWriter` the calls and
  runs of `writeMetric` over it, `SqlParams` the parameters.
* **The published snapshot.** `HttpApi`, one object and any number of threads.
* **Text.** `CsvReader` is a reader of RFC 4180 text, `CsvLogger` the CSV file over any sequence of program
  runs, `CPUCsvLogger` its CPU columns and the round trip. `NumberScanner` is the C library's scanner of
  numbers, `Numerals` the grammar of what it reads, and `PowerParsing` the two readings of a power sensor's
  output. `Decimal` and `Options` are shared definitions.

What the network, the clock, the counters and the other threads do is left open: it comes in as a script of
outcomes, a sequence of readings, or a choice of steps, and the theorems hold for all of them. Loops and
objects of the original are methods and classes here, proved against specification functions; the theorems
are lemmas about those functions. Doubles are modelled as reals, or as the text they are printed as. Every lemma
is marked `{:induction false}`: each induction is written out.

`dafny verify dfyconfig.toml` checks the project.

Some promises do not hold of the code as it is. For these the model keeps the code's behaviour, and the
exact condition is proved:

* When every node is up or down for the whole scan, the number of active nodes is exact if and only if SCAN repeats
  no key; the code does not remove duplicates.
* Over a run of reports the bytes are exact if and only if the carries of all counters cancel: +1 for every 2^64
  a counter moves between two readings, -1 when it falls, as a device does that restarts in between. For counters
  that only grow, that is when none moves by 2^64 or more; for counters that never move by that much, when none
  falls. `RestartIsReportedAsWrap` is an input that fails.
* After a failed PCM reset the old baseline stays, so the next window is reported over again.
* The power total is exact if and only if no failed reading, which is -1, was added to it.
* A call of the batch writer that gets past BEGIN leaves the session idle or dead if and only if its COMMIT or
  ROLLBACK was sent. Over runs, the table holds complete batches if and only if no COMMIT is executed while a part
  of a batch is pending, which a ROLLBACK that never left the client can leave behind; the condition is a function
  of the outcomes alone. A session left in an aborted transaction takes nothing ever again.
* A sample reports `redisConnected` as 1 although its connection is lost if and only if the ping is answered and the
  scan meets a missing answer, or the ping is not answered and the reconnection, its AUTH or the scan after it fails.
* A CSV file is read back if and only if no name has a double quote in it; the writer does not escape quotes.
* The power fetch returns the number that the probe accepted if and only if a double can hold it, provided the
  first line fits the probe's buffer and no carriage return is inside the number. With one inside, the fetch reads
  the part before it, and they agree if and only if that part is the same number. `ReturnInsideSplitsNumber` and
  `LongLineIsCutOff` are inputs on which the two readings differ.
* A temperature of -1 is stored as NULL, and health codes above INT_MAX are stored changed.

## Model

| member | source | states |
|---|---|---|
| HeartbeatKey.PatternMatchesExactlyKeys | HwGauge/Collector/ClusterCollector/ClusterImpl.hpp:55 | A string matches the SCAN pattern if and only if it is the heartbeat key of some node id |
| HeartbeatKey.KeyIsInjective | HwGauge/Collector/ClusterCollector/ClusterImpl.cpp:161 | Different node ids have different keys |
| HeartbeatKey.NodeOf | HwGauge/Collector/ClusterCollector/ClusterImpl.cpp:161 | Every matching key belongs to a node, which can be read off it |
| RedisServer.LiveMeansRecentSet | HwGauge/Collector/ClusterCollector/ClusterImpl.cpp:162-163 | With SET ... EX ttl, a key is live exactly while the clock is within ttl of its last SET |
| RedisServer.AlwaysLiveIffNoLongGap | HwGauge/Collector/ClusterCollector/ClusterImpl.cpp:162-163 | A key is live at every instant from its first SET until ttl after its last if and only if no gap between SETs is longer than ttl |
| RedisServer.LiveThroughoutIffCovered | HwGauge/Collector/ClusterCollector/ClusterImpl.cpp:162-163 | A key is live for the whole of a scan, whatever came before and comes after, if and only if it was set before the scan and every SET that runs out before the scan ends is followed by another in time |
| RedisServer.LiveSometimeIff | HwGauge/Collector/ClusterCollector/ClusterImpl.cpp:162-163 | A key is live at some time of a scan if and only if it is when the scan begins or a SET takes effect during it |
| NodeCount.CountAtLeastLiveThroughout | HwGauge/Collector/ClusterCollector/ClusterImpl.cpp:189-232 | Under SCAN's contract, and any interleaving of beats and expiries with its pages, the count is at least the number of nodes live throughout the scan |
| NodeCount.CountAtMostLiveSometime | HwGauge/Collector/ClusterCollector/ClusterImpl.cpp:189-232 | With no key returned twice, the count is at most the number of nodes live at some time of the scan |
| NodeCount.CountIsExactIffNoDuplicates | HwGauge/Collector/ClusterCollector/ClusterImpl.cpp:217-221 | When every node is live throughout or not at all, the count is their number if and only if no key came back twice |
| NodeCount.RepeatedKeyIsCountedTwice | HwGauge/Collector/ClusterCollector/ClusterImpl.cpp:217-221 | An input that fails: a scan within SCAN's contract that returns one live node's key on two pages counts two |
| NodeCount.SilentNodeIsNotCounted | HwGauge/Collector/ClusterCollector/ClusterImpl.cpp:189-232 | A node whose last SET ran out before the scan and that sent none during it is not counted |
| HeartbeatTiming.SleepSlices | HwGauge/Collector/ClusterCollector/ClusterImpl.cpp:137-140 | The ten sleeps of a turn move the clock by the sum of their slices and overruns |
| HeartbeatTiming.HeartbeatLoop | HwGauge/Collector/ClusterCollector/ClusterImpl.cpp:127-141 | The times at which the loop's SETs take effect are those of the closed form BeatTime |
| HeartbeatTiming.SleepIsHalfTheTtl | HwGauge/Collector/ClusterCollector/ClusterImpl.cpp:127-140 | For ttl >= 1 the integer divisions lose nothing: the ten slices are exactly 500 ttl milliseconds |
| HeartbeatTiming.SleepWithoutTtl | HwGauge/Collector/ClusterCollector/ClusterImpl.cpp:127-140 | For ttl of 0 or less the minimum interval applies: they are 100 milliseconds |
| HeartbeatTiming.TimeBetweenBeats | HwGauge/Collector/ClusterCollector/ClusterImpl.cpp:127-141 | The time between two beats is 500 ttl ms for each turn, plus the overheads in between |
| HeartbeatTiming.GapFitsExactlyWhen | HwGauge/Collector/ClusterCollector/ClusterImpl.cpp:127-141 | Two successive good beats are within ttl if and only if the overhead fits in the other half, or one beat was lost and there was no overhead at all; two lost beats never fit |
| HeartbeatTiming.BeatsInTimeIffNoLongGap | HwGauge/Collector/ClusterCollector/ClusterImpl.cpp:127-141 | The condition on the turns of the loop is equivalent to there being no gap longer than ttl |
| HeartbeatTiming.AllGoodIsOverheadBound | HwGauge/Collector/ClusterCollector/ClusterImpl.cpp:127-141 | If every SET succeeds the condition is that each turn's overhead is at most 500 ttl milliseconds |
| FailureDetector.NodeStaysLiveIffBeatsInTime | HwGauge/Collector/ClusterCollector/ClusterImpl.cpp:127-163 | For N nodes, each stopped and started any number of times: a node's key is live from its first SET until ttl after its last if and only if every good beat is followed in time, by the timing condition within a loop and by the clock where it was started again |
| FailureDetector.UpAndDown | HwGauge/Collector/ClusterCollector/ClusterImpl.cpp:127-163 | A node is live for the whole of a scan if and only if it beat before it and, from the last beat before the scan on, every beat that runs out before the scan ends is followed in time; at no time of it if and only if its beats ran out before and none came during it |
| FailureDetector.DetectorCountsUpNodes | HwGauge/Collector/ClusterCollector/ClusterImpl.cpp:127-232 | Every node that is up for the scan is counted, none that is down for it is; if SCAN repeats no key the count lies between the nodes up and the nodes not down; and when each is one or the other it is exact if and only if SCAN repeated no key |
| FailureDetector.PunctualNodeIsUp | HwGauge/Collector/ClusterCollector/ClusterImpl.cpp:127-163 | Whatever happened to a node before, it is up for a scan if its beats are followed in time from its last one before the scan on and its last beat has not run out when the scan ends |
| FailureDetector.RecoveredNodeIsCounted | HwGauge/Collector/ClusterCollector/ClusterImpl.cpp:127-163 | A node that lost two beats is down for a scan before its next beat and not counted, and is up for a scan after it and counted |
| ClusterImpl.EveryOperationSettles | HwGauge/Collector/ClusterCollector/ClusterImpl.cpp:154-285 | Whatever the network does, a heartbeat and a sample end with ctx_ set exactly when isConnected_ is, that context the only live one and every reply freed; a sample that throws leaves none |
| ClusterImpl.EveryOperationAuthenticatesFirst | HwGauge/Collector/ClusterCollector/ClusterImpl.cpp:89-102 | With a password configured, no other command goes to a context on which the server has not accepted the AUTH |
| ClusterImpl.EnsuredOnTheWire | HwGauge/Collector/ClusterCollector/ClusterImpl.cpp:55-111 | A usable connection is kept; otherwise the result is up if and only if a good context comes and, with a password, its AUTH is answered with something other than an error; else no context is left; exactly one AUTH is sent, if any |
| ClusterImpl.SetOnTheWire | HwGauge/Collector/ClusterCollector/ClusterImpl.cpp:161-179 | One SET of cluster:node:<id>:heartbeat to 1 with the time to live is sent on the context that is up; it took effect if the answer is there and no error; without an answer the context is gone |
| ClusterImpl.PingOnTheWire | HwGauge/Collector/ClusterCollector/ClusterImpl.cpp:247-272 | One PING likewise |
| ClusterImpl.SampleIsFatalIff | HwGauge/Collector/ClusterCollector/ClusterImpl.cpp:243-272 | A sample throws if and only if there is no usable connection and none can be set up; else its latency is the time of the ping, or -1 if that was not answered or with an error |
| ClusterImpl.CountOnTheWire | HwGauge/Collector/ClusterCollector/ClusterImpl.cpp:189-232 | Over a complete scan counting asks from cursor 0 on, for each page once with the cursor before, and gives the number of keys |
| ClusterImpl.ScanEndsAtBadAnswer | HwGauge/Collector/ClusterCollector/ClusterImpl.cpp:196-227 | After any number of pages a missing answer is an I/O error and loses the context, an error reply a protocol error, and anything else an unexpected format |
| ClusterImpl.ScanCountsAllKeys | HwGauge/Collector/ClusterCollector/ClusterImpl.cpp:189-232 | Over the pages of a complete scan the loop adds up all keys, asks for each page with the cursor of the one before, and stops at cursor 0 |
| ClusterImpl.ClusterImpl.Command | HwGauge/Collector/ClusterCollector/ClusterImpl.cpp:91-249 | Every command needs the mutex held and a live context |
| ClusterImpl.ClusterImpl.Disconnect | HwGauge/Collector/ClusterCollector/ClusterImpl.cpp:43-52 | No context is left, the flag is cleared, and the lock depth is balanced |
| ClusterImpl.ClusterImpl.Authenticate | HwGauge/Collector/ClusterCollector/ClusterImpl.cpp:89-102 | One AUTH on the new context; unless the server accepts it the context is freed again, and the reply in any case |
| ClusterImpl.ClusterImpl.EnsureConnection | HwGauge/Collector/ClusterCollector/ClusterImpl.cpp:55-111 | Refines Ensured: keep a good connection, else free, connect and authenticate, and clean up on each failure |
| ClusterImpl.ClusterImpl.SendHeartbeatPayload | HwGauge/Collector/ClusterCollector/ClusterImpl.cpp:154-179 | Refines Beaten: one SET, with the link dropped on an I/O error, and the reply freed |
| ClusterImpl.ClusterImpl.CountActiveNodes | HwGauge/Collector/ClusterCollector/ClusterImpl.cpp:181-233 | Refines Counted: the cursor loop with its three error exits |
| ClusterImpl.ClusterImpl.Sample | HwGauge/Collector/ClusterCollector/ClusterImpl.cpp:235-285 | Refines Sampled: FatalError without a link, else latency and count, each -1 when it failed |
| ClusterImpl.Build | HwGauge/Collector/ClusterCollector/ClusterImpl.cpp:13-29 | Construction fails exactly if connecting does, and then leaves no context and no reply behind |
| ClusterImpl.Destroy | HwGauge/Collector/ClusterCollector/ClusterImpl.cpp:31-36 | No context survives the destructor |
| ClusterSample.SampleReportsUpNodes | HwGauge/Collector/ClusterCollector/ClusterImpl.cpp:235-285 | Whatever becomes of the ping, a sample that receives a complete scan reports at least the number of nodes up for it; at most that of the nodes not down for it, if SCAN repeated no key; and exactly that of the nodes up, when the others are down, if and only if SCAN repeated no key |
| ClusterSample.ReportsLostConnectionIff | HwGauge/Collector/ClusterCollector/ClusterImpl.cpp:243-284 | A sample reports redisConnected as 1 while it has no connection if and only if the ping is answered and a SCAN answer is missing, or the ping is not answered and the reconnection, its AUTH, or a SCAN after it fails; the count is then -1 |
| ClusterSample.BrokenPingStillReportsConnected | HwGauge/Collector/ClusterCollector/ClusterImpl.cpp:244-258 | Such an input: the connection breaks during the ping and cannot be regained |
| ClusterSample.BrokenScanStillReportsConnected | HwGauge/Collector/ClusterCollector/ClusterImpl.cpp:196-201 | Another: it breaks at the first page of the scan, and only the count shows it |
| HeartbeatThreads.InvHoldsThroughout | HwGauge/Collector/ClusterCollector/ClusterImpl.cpp:19-152 | In every reachable state the mutex depth matches the critical sections entered, there is at most one heartbeat thread, and the link is settled whenever the mutex is free |
| HeartbeatThreads.ReachableStepsAreSafe | HwGauge/Collector/ClusterCollector/ClusterImpl.cpp:43-285 | A thread about to send a command holds the mutex and has a live context; std::terminate is never reached |
| HeartbeatThreads.ReachableCommandsAreAuthenticated | HwGauge/Collector/ClusterCollector/ClusterImpl.cpp:89-285 | With a password configured, in every reachable state every heartbeat, ping and scan of either thread went to a context on which the server had accepted the password |
| HeartbeatThreads.NoReachableDeadlock | HwGauge/Collector/ClusterCollector/ClusterImpl.cpp:113-152 | No reachable state is a deadlock: a controlling thread that waits waits for a heartbeat thread that can move, and never joins while holding the mutex |
| HeartbeatThreads.JoinEndsWithinSixSteps | HwGauge/Collector/ClusterCollector/ClusterImpl.cpp:130-152 | stopHeartbeat returns: while it waits the heartbeat thread has at most six steps left |
| HeartbeatThreads.AtMostOneSetAfterClear | HwGauge/Collector/ClusterCollector/ClusterImpl.cpp:130-152 | After the flag is cleared at most one more SET is sent, and none after join or during disconnect |
| HeartbeatThreads.ExactlyWhatIsDueIsSent | HwGauge/Collector/ClusterCollector/ClusterImpl.cpp:130-272 | Over any run the commands sent besides AUTH and SCAN are exactly: one SET of the node's key with its ttl for every time the heartbeat thread goes past its SET, one PING for every time a sample goes past its ping, in order, each on the context then up and with its answer |
| HeartbeatThreads.OneSetEachTime | HwGauge/Collector/ClusterCollector/ClusterImpl.cpp:132-135 | So the SETs sent are as many as the times the heartbeat thread went past its SET |
| HeartbeatThreads.HeartbeatIsAtomic | HwGauge/Collector/ClusterCollector/ClusterImpl.cpp:132-135 | Whatever the controlling thread does meanwhile, from entering the mutex to leaving it the heartbeat thread does one whole heartbeat to the link, and nothing else happens to it |
| HeartbeatThreads.SampleIsAtomic | HwGauge/Collector/ClusterCollector/ClusterImpl.cpp:235-285 | The same for a sample |
| HeartbeatThreads.TenSlicesBetweenBeats | HwGauge/Collector/ClusterCollector/ClusterImpl.cpp:130-141 | While the flag is set the heartbeat thread sleeps exactly ten slices between leaving the mutex and waiting for it again, and does not end |
| HeartbeatThreads.CallsDoTheirWork | HwGauge/Collector/ClusterCollector/ClusterImpl.cpp:19-152 | startHeartbeat leaves a running thread under a set flag, join leaves none, only the destructor goes on and frees the context, the constructor throws exactly without a connection |
| HeartbeatThreads.BeatReturns | HwGauge/Collector/ClusterCollector/ClusterImpl.cpp:130-141 | Alone, with a connection there or to be had, the heartbeat thread does one heartbeat to the link in five steps |
| HeartbeatThreads.StartReturns | HwGauge/Collector/ClusterCollector/ClusterImpl.cpp:113-143 | Alone, startHeartbeat returns with a thread and the flag set |
| HeartbeatThreads.StopReturns | HwGauge/Collector/ClusterCollector/ClusterImpl.cpp:145-152 | Alone, stopHeartbeat returns with neither, if the thread has ended |
| HeartbeatThreads.SampleReturns | HwGauge/Collector/ClusterCollector/ClusterImpl.cpp:235-285 | Alone, a sample that has or gets a connection returns and has done to the link what sampling does |
| HeartbeatThreads.DestroyReturns | HwGauge/Collector/ClusterCollector/ClusterImpl.cpp:32-52 | Alone, the destructor ends with no thread, no context and the mutex free |
| CounterDeltas.WrappedDifference | HwGauge/Collector/SYSCollector/SYSImpl.cpp:258-259 | Unsigned 64-bit subtraction gives the true increment if and only if that is not negative and below 2^64, across wraparound too |
| CounterDeltas.DeltaIsByDevice | HwGauge/Collector/SYSCollector/SYSImpl.cpp:230-270 | Adding up line by line is adding up device by device |
| CounterDeltas.SegmentsAreTheMaximalOnes | HwGauge/Collector/SYSCollector/SYSImpl.cpp:250-272 | The presence segments of a device are exactly the maximal stretches of readings that list it |
| CounterDeltas.DeviceConservation | HwGauge/Collector/SYSCollector/SYSImpl.cpp:250-272 | What is reported for one device, whatever its counts do, is the sum over its presence segments of last minus first count, less 2^64 for every carry; so it is that sum if and only if the carries are 0 in all |
| CounterDeltas.Conservation | HwGauge/Collector/SYSCollector/SYSImpl.cpp:228-272 | The same over all devices, with devices appearing, vanishing and restarting: conserved if and only if the carries of all devices cancel |
| CounterDeltas.ConservationOfGrowingCounts | HwGauge/Collector/SYSCollector/SYSImpl.cpp:228-272 | When no count falls while its device is listed: conserved if and only if every increment is below 2^64, and never too much |
| CounterDeltas.ConservationOfFittingCounts | HwGauge/Collector/SYSCollector/SYSImpl.cpp:228-272 | When every increment is below 2^64, as for real counters: conserved if and only if no count falls while its device is listed, and never too little |
| CounterDeltas.RestartIsReportedAsWrap | HwGauge/Collector/SYSCollector/SYSImpl.cpp:258-259 | An input that fails: a device that restarts between two readings is reported with almost 2^64 units |
| CounterDeltas.RepeatedNameIsCountedTwice | HwGauge/Collector/SYSCollector/SYSImpl.cpp:250-262 | A device listed twice in one reading is counted twice |
| SysImpl.KeptIsLastSnapshot | HwGauge/Collector/SYSCollector/SYSImpl.cpp:272-326 | The maps kept for the next sample hold, for each quantity, exactly the last reading's value of every device |
| SysImpl.DiskTotalIsDelta | HwGauge/Collector/SYSCollector/SYSImpl.cpp:230-262 | readDisk's sum is the sum of differences of the listed disks' counters |
| SysImpl.NetTotalIsDelta | HwGauge/Collector/SYSCollector/SYSImpl.cpp:295-324 | readNetwork's sum is the sum of differences of the listed interfaces' counters |
| SysImpl.MaxUtilIsTheBusiestDisk | HwGauge/Collector/SYSCollector/SYSImpl.cpp:264-276 | The utilisation metric bounds that of every disk listed before, is reached by one of them, and stays within 0 to 100 |
| SysImpl.UtilIsTheBusyShare | HwGauge/Collector/SYSCollector/SYSImpl.cpp:264-267 | A disk's utilisation is the milliseconds it was busy out of dt seconds, in percent |
| SysImpl.WhichNamesAreDisks | HwGauge/Collector/SYSCollector/SYSImpl.cpp:158-181 | Names with loop, ram, sr or dm- in front are no disks, sd and vd names are disks unless the last character is a digit, nvme names unless they have a p; every other name counts |
| SysImpl.DisksByName | HwGauge/Collector/SYSCollector/SYSImpl.cpp:230-247 | The readings of sectors read and written are those of the listed disks, by name |
| SysImpl.InterfacesByName | HwGauge/Collector/SYSCollector/SYSImpl.cpp:290-314 | The readings of bytes received and sent are those of every interface but lo behind the two heading lines, by its name without the spaces in front |
| SysImpl.MemoryByName | HwGauge/Collector/SYSCollector/SYSImpl.cpp:191-205 | The figures are those of the MemTotal: and MemAvailable: lines, in units of 2^20 kB and percent |
| SysImpl.SYSImpl.ReadMemory | HwGauge/Collector/SYSCollector/SYSImpl.cpp:187-212 | The figures of the last total and available listed, or -1 without a total |
| SysImpl.MemoryIsAPercentageIff | HwGauge/Collector/SYSCollector/SYSImpl.cpp:199-205 | Used and available make up the total; the utilization is a percentage if and only if what is available is between none and all, and exceeds 100 where nothing is listed as available |
| SysImpl.SYSImpl.ReadDisk | HwGauge/Collector/SYSCollector/SYSImpl.cpp:216-277 | The rates of the counter differences since the state held, the busiest disk, and the state replaced by this reading |
| SysImpl.SYSImpl.ReadNetwork | HwGauge/Collector/SYSCollector/SYSImpl.cpp:280-330 | The same for interfaces other than lo, behind the two heading lines |
| SysImpl.SYSImpl.ReadAll | HwGauge/Collector/SYSCollector/SYSImpl.cpp:73-78 | One label's metric and the state after it |
| SysImpl.SYSImpl.Sample | HwGauge/Collector/SYSCollector/SYSImpl.cpp:59-81 | One metric per label, each over the state the label before left and the sample's one dt, which is positive |
| SysImpl.SYSImpl.StorePower | HwGauge/Collector/SYSCollector/SYSImpl.cpp:351-355 | Only a positive reading replaces the cached power |
| SysRuns.LastTimeIsThatOfTheLastCall | HwGauge/Collector/SYSCollector/SYSImpl.cpp:64-68 | Every call keeps its own time, so that the next divides by the time that passed in between, or by 0.0001 if none did |
| SysRuns.MetricByName | HwGauge/Collector/SYSCollector/SYSImpl.cpp:59-81 | Each of the four rates of a metric, by name, times dt and 2^20 is what its counters moved, sectors times 512; memory, busiest disk and power are those of the snapshot and the cache |
| SysRuns.RunReports | HwGauge/Collector/SYSCollector/SYSImpl.cpp:59-81 | Over any run, rate times the time between the calls adds up to the differences between successive readings |
| SysRuns.BytesAreConserved | HwGauge/Collector/SYSCollector/SYSImpl.cpp:59-330 | For disk reads, disk writes, downloads and uploads: rates times the time between the calls, over all samples and labels, are the bytes moved within presence segments, times 512 for sectors, if and only if the carries cancel; otherwise off by 2^64 units for each |
| SysRuns.GrowingBytesAreConserved | HwGauge/Collector/SYSCollector/SYSImpl.cpp:59-330 | When no count falls while its device is listed: if and only if no counter moved by 2^64 or more between two readings |
| SysRuns.FittingBytesAreConserved | HwGauge/Collector/SYSCollector/SYSImpl.cpp:59-330 | When every increment is below 2^64: if and only if no count falls while its device is listed, so that no device restarts between two readings |
| SysRuns.PrimingCallReportsNothing | HwGauge/Collector/SYSCollector/SYSImpl.cpp:36-40 | The first sample reports no traffic |
| Pcm.PCM.ResetPCM | HwGauge/Collector/CPUCollector/PCM.cpp:116-134 | A successful reset takes a new baseline and clears the counter; a failed one changes nothing |
| Pcm.PCM.Sample | HwGauge/Collector/CPUCollector/PCM.cpp:223-306 | One metric per label over the window from the state before, and the window and counter that the four kinds of sample leave |
| Pcm.WindowsTile | HwGauge/Collector/CPUCollector/PCM.cpp:285-303 | Windows meet end to end exactly if no reset is attempted, with a gap after a successful one and an overlap after a failed one |
| Pcm.EnergyIsConserved | HwGauge/Collector/CPUCollector/PCM.cpp:118-303 | Over any run, power (and bandwidth) times elapsed time is what the counters moved in each stretch between successful resets, from its own baseline to its last snapshot, plus what failed resets let be reported twice; counters from before and after a reset are never compared |
| Pcm.EnergyWithoutResets | HwGauge/Collector/CPUCollector/PCM.cpp:228-303 | Without reset attempts that is all the joules from the baseline to the last snapshot |
| Pcm.CountersWithoutResets | HwGauge/Collector/CPUCollector/PCM.cpp:228-303 | The same for the raw counters of a socket, by name: joules, DRAM joules, bytes read and bytes written |
| Pcm.MetricByName | HwGauge/Collector/CPUCollector/PCM.cpp:246-277 | Each field of a metric, by name: power and bandwidth times the window, percentages, MHz and temperature |
| Pcm.SuspiciousMeans | HwGauge/Collector/CPUCollector/PCM.cpp:279-287 | A sample is suspicious if and only if some label shows more than one percent and no label's socket read or wrote a byte |
| Pcm.BeforeIsOneEvent | HwGauge/Collector/CPUCollector/PCM.cpp:127-130 | beforeState and beforeTime always come from the same snapshot event |
| Pcm.CounterIsStreak | HwGauge/Collector/CPUCollector/PCM.cpp:287-300 | After every sample zeroBandwidthCounter is the length of the run of suspicious samples since the last normal one or successful reset |
| Pcm.ResetAttemptedIffStreakReaches50 | HwGauge/Collector/CPUCollector/PCM.cpp:287-293 | A reset is attempted if and only if that run has reached 50 |
| Pcm.ResetsAreFarApart | HwGauge/Collector/CPUCollector/PCM.cpp:287-300 | Successful resets are at least 50 samples apart |
| Pcm.FailedResetIsRetried | HwGauge/Collector/CPUCollector/PCM.cpp:124-132 | After a failed attempt the next suspicious sample attempts again |
| Pcm.FailedResetReportsTwice | HwGauge/Collector/CPUCollector/PCM.cpp:124-126 | After a failed attempt the window's energy and traffic are reported again with those of the next |
| Pcm.BusySocketFailsToReset | HwGauge/Collector/CPUCollector/PCM.cpp:287-293 | An input at which an attempt fails |
| Scheduler.NeverEarly | HwGauge/Exposer/Exposer.cpp:39-51 | No round starts before its tick, nor before any of the candidate times |
| Scheduler.TicksAreEven | HwGauge/Exposer/Exposer.cpp:39-47 | Tick k is k intervals after the first clock reading |
| Scheduler.RoundFollowsAtTickOrAtOnce | HwGauge/Exposer/Exposer.cpp:43-51 | A round done before its next tick is followed there, later by what the sleep overruns; one that is not, at once |
| Scheduler.ClosedForm | HwGauge/Exposer/Exposer.cpp:39-51 | With punctual wake-ups round k starts at the maximum over j <= k of tick j plus the work of rounds j to k-1 |
| Scheduler.LatenessIsLargestExcess | HwGauge/Exposer/Exposer.cpp:39-51 | Round k is at most B late if and only if every stretch of rounds up to it exceeds its share of the schedule by at most B |
| Scheduler.NoDrift | HwGauge/Exposer/Exposer.cpp:39-51 | If every stretch keeps to its share plus B and sleeps overrun by at most e, lateness never exceeds B + e |
| SharedPower.SharedPowerContext.SetContextInfo | HwGauge/Collector/CPUCollector/CPUCollector.hpp:59-66 | Each collector adds its labels' values to its own fields only, so the total grows by what counts of them; SYS gives every label the total so far |
| Exposer.BegunStopsAtFatal | HwGauge/Exposer/Exposer.cpp:76-82 | No collector behind the first fatal error of a round is begun |
| Exposer.RoundEndsAtFirstFatal | HwGauge/Exposer/Exposer.cpp:62-82 | A round ends fatally if and only if a collector meets a fatal error, of sampling or of a sink; then the collectors begun are those up to the first that does, and else all |
| Exposer.RunStopsAtLastRound | HwGauge/Exposer/Exposer.cpp:41-55 | A round that ends fatally, or is stopped, is the last |
| Exposer.Exposer.CollectOne | HwGauge/Collector/Base/DeviceCollector.hpp:80-103 | Sampling comes before the context and the context before the sinks: values count unless sampling threw |
| Exposer.Exposer.Collect | HwGauge/Exposer/Exposer.cpp:58-85 | Every SYS label reports the values of all earlier collectors of this round that reached setContextInfo, even if a later sink threw, and nothing else; afterwards the context is empty, unless the round ended fatally, and then the flag is cleared |
| Exposer.Exposer.Turn | HwGauge/Exposer/Exposer.cpp:41-51 | One round, the next tick, and the sleep if that is still to come |
| Exposer.Exposer.Run | HwGauge/Exposer/Exposer.cpp:34-52 | Exactly the rounds up to the first last one take place, each starting as scheduled and with an empty context, so that the SYS labels of every round report the values of that round alone |
| Exposer.TotalIsExactIffNoSentinel | HwGauge/Collector/Common/Context.hpp:23-28 | The total is the power really read if and only if no sentinel was among the values added, and is never above it |
| Exposer.FailedReadingLowersTotal | HwGauge/Collector/GPUCollector/GPUCollector.hpp:61 | An input that fails: a GPU whose power could not be read, which is -1, beside one of 50 watts makes a total of 49 |
| BatchWriter.NPUDatabase.StartTransaction | HwGauge/Collector/Base/Database.hpp:142-153 | Succeeds if and only if the server executed BEGIN, in a session that is idle or in an open transaction, and the answer arrived; then what was pending stays pending; the table never changes |
| BatchWriter.NPUDatabase.CommitTransaction | HwGauge/Collector/Base/Database.hpp:155-166 | Succeeds if and only if the server executed COMMIT on a live connection and the answer arrived; all that was pending is in the table if and only if the server executed it, answered or not, and nothing is added otherwise |
| BatchWriter.NPUDatabase.RollbackTransaction | HwGauge/Collector/Base/Database.hpp:168-179 | Succeeds likewise and never changes the table; the transaction is over exactly if the command was sent |
| BatchWriter.NPUDatabase.ExecInsert | HwGauge/Collector/Base/Database.hpp:112-139 | Succeeds if and only if the server executed the INSERT, outside an aborted transaction, and the answer arrived; the row is then pending, or outside a transaction in the table; a rejection aborts an open transaction |
| BatchWriter.NPUDatabase.WriteMetric | HwGauge/Collector/NPUCollector/NPUDatabase.cpp:95-146 | Refines Written: BEGIN, the rows in label order, COMMIT; ROLLBACK and return at the first failure; FatalError only on a dead connection |
| BatchWriter.CommittedRowsReadBack | HwGauge/Collector/NPUCollector/NPUDatabase.cpp:20-28 | What a call writes: if its COMMIT is executed, behind the table and what was pending there is one row for each label, in order, of which each of the 19 columns of the INSERT reads back as the named field of the label or metric, with NULL for -1 or empty text; otherwise nothing |
| BatchWriter.ColumnHolds | HwGauge/Collector/NPUCollector/NPUDatabase.cpp:107-135 | Each parameter, at the place of its column in the INSERT statement, reads back as its field |
| BatchWriter.FirstRowsReadBack | HwGauge/Collector/NPUCollector/NPUDatabase.cpp:95-146 | Without a transaction the same holds of the rows that went in, which are those of the first labels |
| BatchWriter.AllDoneGoesIn | HwGauge/Collector/NPUCollector/NPUDatabase.cpp:95-146 | When every command is executed and answered the whole batch goes in and the session is idle again |
| BatchWriter.CallIsAllOrNothing | HwGauge/Collector/NPUCollector/NPUDatabase.cpp:95-146 | From any session, a call writes its batch whole or not at all, under every failure but a ROLLBACK that was never sent |
| BatchWriter.IdleOrDeadIffEndSent | HwGauge/Collector/NPUCollector/NPUDatabase.cpp:101-144 | From any session, a call leaves it idle or dead if and only if the COMMIT or ROLLBACK that ends it was sent, or it did not get past BEGIN and the session was so before or the connection broke |
| BatchWriter.PartialBatchIff | HwGauge/Collector/NPUCollector/NPUDatabase.cpp:137-141 | From any session, a part of the batch is added to what is pending if and only if neither the failed INSERT nor its ROLLBACK was sent |
| BatchWriter.AbortedSessionTakesNothing | HwGauge/Collector/NPUCollector/NPUDatabase.cpp:101 | In an aborted transaction the next BEGIN fails and nothing is written |
| BatchWriter.AbortedForever | HwGauge/Collector/NPUCollector/NPUDatabase.cpp:101 | ... nor by any call after it: the session is never idle or open again |
| BatchWriter.IdleOrDeadThroughoutIff | HwGauge/Collector/NPUCollector/NPUDatabase.cpp:95-146 | Over a run, every call leaves the session idle or dead if and only if every call's COMMIT or ROLLBACK was sent |
| BatchWriter.TableIsMadeOfPieces | HwGauge/Collector/NPUCollector/NPUDatabase.cpp:95-146 | Over any run, under every pattern of failures, the table is what it was and then first parts of some of the batches in call order, and the outcomes alone tell whether all of them are whole |
| BatchWriter.TableHoldsCompleteBatches | HwGauge/Collector/NPUCollector/NPUDatabase.cpp:95-146 | Over any run in which no COMMIT is executed while a part of a batch is pending, the table is what it was and then complete batches in call order |
| BatchWriter.TableHoldsCompleteBatchesIff | HwGauge/Collector/NPUCollector/NPUDatabase.cpp:95-146 | ... and, if no row occurs twice, only over such runs |
| BatchWriter.NoPartLeftNoneSplit | HwGauge/Collector/NPUCollector/NPUDatabase.cpp:137-141 | If no call leaves a part behind, no COMMIT splits a batch |
| BatchWriter.UnsentRollbackSplitsABatch | HwGauge/Collector/Base/Database.hpp:168-179 | A run that fails: a later call commits half of an earlier batch |
| BatchWriter.PartLeftMayBeRolledBack | HwGauge/Collector/Base/Database.hpp:168-179 | A run in which the first call leaves a part pending, the second rolls it back, and the table stays empty: no batch is split |
| BatchWriter.WithoutTransactionAPrefixIsWritten | HwGauge/Collector/NPUCollector/NPUDatabase.cpp:101-145 | Without a transaction a first part of the batch is written |
| SqlParams.IntRoundTrip | HwGauge/Collector/Base/Database.hpp:182-187 | Every int survives the way into the database and back, and NULL arises exactly for -1 |
| SqlParams.LongRoundTrip | HwGauge/Collector/Base/Database.hpp:188-193 | The same for long long |
| SqlParams.IntParamsAreDistinct | HwGauge/Collector/Base/Database.hpp:182-187 | Different ints give different parameters |
| SqlParams.HealthCode | HwGauge/Collector/NPUCollector/NPUDatabase.cpp:132 | The failure code 0xFFFFFFFF of the health query, and only it, becomes NULL; a code is stored unchanged if and only if it fits an int |
| Decimal.PrintParse | HwGauge/Collector/Base/Database.hpp:185 | Parsing the decimal text of an integer gives it back |
| HttpApi.HttpApi.Get | HwGauge/Collector/Base/HttpApi.hpp:64-78 | The page shows the whole snapshot; it indexes out of bounds if and only if there are fewer metrics than labels |
| HttpApi.EveryRunIsLinearizable | HwGauge/Collector/Base/HttpApi.hpp:63-88 | In every interleaving of any number of writers' and readers' steps there is one order of all operations, agreeing with real time, in which each response is the snapshot of the latest write; no reader indexes out of bounds |
| HttpApi.ResponsesAreFreshAndWhole | HwGauge/Collector/Base/HttpApi.hpp:63-88 | A response is exactly the time, labels and metrics of one write, or empty before the first, and no write that returned before the request is newer |
| HttpApi.SomeThreadCanRun | HwGauge/Collector/Base/HttpApi.hpp:63-88 | No reachable state is a deadlock |
| HttpApi.WriteReturns | HwGauge/Collector/Base/HttpApi.hpp:80-88 | A write that is alone returns after seven steps and the snapshot is what it was given |
| HttpApi.ReadReturns | HwGauge/Collector/Base/HttpApi.hpp:63-78 | A read that is alone returns the whole snapshot |
| CsvReader.QuoteIsLost | HwGauge/Collector/CPUCollector/CPUCsvLogger.cpp:35 | A field put between quotes unescaped is not read back if it has a quote in it, whatever comes before and after |
| CsvLogger.CsvLogger.Init | HwGauge/Collector/Base/CsvLogger.hpp:52-64 | The header is written if and only if the file is empty |
| CsvLogger.CsvLogger.Write | HwGauge/Collector/Base/CsvLogger.hpp:66-86 | One row for each label, in order, behind what was there |
| CsvLogger.RunSession | HwGauge/Collector/Base/DeviceCollector.hpp:50-91 | One run of the program: a header if the file was empty, and the rows of all its samples |
| CsvLogger.RunSessions | HwGauge/Collector/Base/CsvLogger.hpp:52-86 | After any sequence of runs the file is one header and then all rows in order |
| CPUCsvLogger.HeaderReads | HwGauge/Collector/CPUCollector/CPUCsvLogger.cpp:25-28 | The header line is read as the twelve column names |
| CPUCsvLogger.RowReads | HwGauge/Collector/CPUCollector/CPUCsvLogger.cpp:30-47 | A row is read as one record with each value under its column, for names with commas and line breaks too |
| CPUCsvLogger.ReadsBackIffNoQuotes | HwGauge/Collector/CPUCollector/CPUCsvLogger.cpp:25-47 | A file is read back as one header and then every row if and only if no name has a double quote in it |
| CPUCsvLogger.FilesReadBackIffNoQuotes | HwGauge/Collector/Base/CsvLogger.hpp:52-86 | The same for the file that any sequence of opens and writes leaves |
| CPUCsvLogger.OriginalsComeBack | HwGauge/Collector/CPUCollector/CPUCsvLogger.cpp:34-35 | Every record has the header's column count and gives back the original index and name |
| NumberScanner.StrtodOfInteger | HwGauge/Collector/SYSCollector/SYSImpl.cpp:140 | Every printed integer is scanned whole, with its value |
| NumberScanner.StrtodOfHex | HwGauge/Collector/SYSCollector/SYSImpl.cpp:140 | Every hexadecimal number is scanned whole, with its value, and not as the 0 it begins with |
| Numerals.NumeralIsRead | HwGauge/Collector/SYSCollector/SYSImpl.cpp:140 | Every text of a sign, digits with or without a point, and an exponent, decimal or hexadecimal, is scanned whole with its value: times ten (sixteen) to the number of digits behind the point it is the digits, shifted by the exponent |
| Numerals.ReadWholeIffNumber | HwGauge/Collector/SYSCollector/SYSImpl.cpp:139-141 | A string is scanned whole, as one number, if and only if it is spaces and then such a text, or one of the words for infinity and NaN |
| Numerals.WordIsRead | HwGauge/Collector/SYSCollector/SYSImpl.cpp:140 | The words are scanned as infinite, of the sign in front, and as no number |
| PowerParsing.FetchPowerFromHardware | HwGauge/Collector/SYSCollector/SYSImpl.cpp:401-433 | Of a sensor's output, put together whatever its chunks, the result is Fetch of the whole |
| PowerParsing.ProbeAcceptsIff | HwGauge/Collector/SYSCollector/SYSImpl.cpp:126-141 | The probe accepts an output if and only if its first line, as far as it fits the buffer, has a comma and behind it, but for line breaks, spaces and a number |
| PowerParsing.ReadingIsProbedAndFetched | HwGauge/Collector/SYSCollector/SYSImpl.cpp:126-141 | A name, a comma and any number, as 212.5 or 1.5e2, with either line break, is accepted as that number, and fetched as it if a double can hold it |
| PowerParsing.FetchReadsToBreak | HwGauge/Collector/SYSCollector/SYSImpl.cpp:401-433 | For any output that the probe accepts and whose first line fits the buffer, the fetch reads the number up to the first line break behind its start |
| PowerParsing.FetchReturnsProbedNumber | HwGauge/Collector/SYSCollector/SYSImpl.cpp:126-141 | If moreover no carriage return is inside the number, the fetch returns the number the probe accepted if and only if that is in range, and -1 otherwise |
| PowerParsing.FetchAgreesIff | HwGauge/Collector/SYSCollector/SYSImpl.cpp:126-141 | Wherever carriage returns are, the two agree if and only if the number is in range and is that of the part before the first of them inside it |
| PowerParsing.IntegerIsProbed | HwGauge/Collector/SYSCollector/SYSImpl.cpp:126-141 | A name, a comma and an integer, with either line break, is accepted as that integer |
| PowerParsing.ReturnInsideSplitsNumber | HwGauge/Collector/SYSCollector/SYSImpl.cpp:135 | A carriage return between digits: the probe reads all of them, as 12, the fetch those before it, as 1 |
| PowerParsing.LongLineIsCutOff | HwGauge/Collector/SYSCollector/SYSImpl.cpp:125-126 | A line longer than the buffer: the probe and the fetch read different numbers |

## Left out

* Foreign code: the PCM, NVML and DCMI libraries, sockets, libpq and hiredis internals, popen, /proc and /sys. Their outcomes are inputs; what is assumed of SCAN is `RedisServer.ScanContract`.
* Redis glob patterns with character classes, node ids with zero bytes, and parsing of the port.
* A node id keeps its time to live when the node is started again.
* Key expiry is taken to be exact: a key is gone as soon as the clock is past its expiry time.
* The latency of the ping is an input; the setting of timeouts is not modelled.
* Failure to create a thread, an interval of ttl so large that it overflows an int, and fairness of the mutex.
* GPU and NPU field-by-field sampling: independent values without state. What the PCM library derives from two snapshots (utilization, frequency, C-states) and the temperature are inputs. That sampling yields one metric per label is proved for PCM and SYS.
* Lines of /proc files are modelled after their fields are parsed; malformed lines are not.
* The shutdown of SYS's power thread, which the original never stops or joins.
* Whether a PCM reset that fails has set the counters back is not known; its next window is taken as the code takes it.
* Moving a PCM object, two snapshots at the same instant, and overflow of zeroBandwidthCounter.
* Exceptions other than the two error classes, a stop() that comes before run() sets the flag, and a run() after one that ended fatally.
* Rounding of doubles. Times of the scheduler are whole clock ticks.
* Printed doubles: a number is a CSV field without commas, quotes or line breaks, and an SQL parameter is the text given. The truncation of util_mem to int is not modelled.
* writeInfo and the CPU and GPU writers, which have the shape of the NPU writer; the GPU, NPU, SYS and cluster CSV loggers, which have the shape of the CPU one; creating tables.
* The CSV stream's errors, and the file's name and directory. RFC 4180 ends lines with CRLF; the file's lines end with LF, which the reader accepts too.
* Zero bytes in a sensor's output, and locales in which the decimal point is not a point.
* Prometheus, JSON text, printing, logging, command line parsing and scripts.
- CounterDeltas.Conservation: assumes that no reading lists a device twice, and that is needed, as RepeatedNameIsCountedTwice shows.
- BatchWriter.TableHoldsCompleteBatchesIff: assumes that no row occurs twice, as rows carry the time and the device; the half that the outcomes suffice needs no such assumption. With a row that occurs twice a split need not show: take c = b in UnsentRollbackSplitsABatch.
- BatchWriter.NPUDatabase.constructor: begins with a session; connecting, and what happens when that fails, is foreign code.
- PowerParsing.FetchPowerFromHardware: takes the output of a sensor command; the DCMI form and a failing popen are not modelled.
- SysImpl.SYSImpl.constructor: the opening of the files and the priming sample at its end are left to the caller, because the latter is an ordinary call of Sample.
- Exposer.Exposer.Run: a stop() from outside takes effect at the end of a round, where the loop looks at its flag.
- HttpApi.EveryRunIsLinearizable: writers pass one metric per label, as every collector's sampling does.
