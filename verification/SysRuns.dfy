/** What SYSImpl reports over a whole run of samples. */
module SysRuns {
  import opened CounterDeltas
  import opened SysImpl

  // One call of sample(): when, what the files held for each label, and the metrics returned.
  datatype Call = Call(now: real, snaps: seq<Snapshot>, power: real, results: seq<Metrics>)

  ghost predicate IsCall(before: SysState, call: Call) {
    |call.results| == |call.snaps| && AllFitTo(call.results, before, call.now, call.snaps, |call.snaps|, call.power)
  }

  // The state before call k of a run that began, with nothing kept, at time t0.
  function StateAt(t0: real, calls: seq<Call>, k: nat): SysState
    requires k <= |calls|
  {
    if k == 0 then SysState(t0, map[], map[])
    else StateBefore(StateAt(t0, calls, k - 1), calls[k - 1].now, calls[k - 1].snaps, |calls[k - 1].snaps|)
  }

  // The first k calls are calls of sample(), each in the state the one before left.
  ghost predicate IsRunOf(t0: real, calls: seq<Call>, k: nat)
    requires k <= |calls|
  {
    k > 0 ==> IsRunOf(t0, calls, k - 1) && IsCall(StateAt(t0, calls, k - 1), calls[k - 1])
  }

  ghost predicate IsRun(t0: real, calls: seq<Call>) {
    IsRunOf(t0, calls, |calls|)
  }

  // The bytes that a rate in MB/s amounts to over dt seconds.
  function BytesOver(rate: real, dt: real): real {
    rate * 1048576.0 * dt
  }

  // Rate times elapsed time, over the first n results of a call, in bytes.
  function CallBytes(call: Call, q: Quantity, dt: real, n: nat): real
    requires n <= |call.results|
  {
    if n == 0 then 0.0
    else CallBytes(call, q, dt, n - 1) + BytesOver(Rate(call.results[n - 1], q), dt)
  }

  // The time from the call before to call k, or from the beginning; a ten-thousandth of a second if
  // the clock did not move on.
  function Elapsed(t0: real, calls: seq<Call>, k: nat): real
    requires k < |calls|
  {
    var since := if k == 0 then t0 else calls[k - 1].now;
    if calls[k].now > since then calls[k].now - since else 0.0001
  }

  function RunBytes(t0: real, calls: seq<Call>, q: Quantity, k: nat): real
    requires k <= |calls|
  {
    if k == 0 then 0.0
    else
      RunBytes(t0, calls, q, k - 1)
      + CallBytes(calls[k - 1], q, Elapsed(t0, calls, k - 1), |calls[k - 1].results|)
  }

  // Every call keeps its own time for the next, which divides by the time that passed.
  lemma {:induction false} LastTimeIsThatOfTheLastCall(t0: real, calls: seq<Call>, k: nat)
    requires k <= |calls|
    ensures StateAt(t0, calls, k).lastTime == if k == 0 then t0 else calls[k - 1].now
    ensures k < |calls| ==> Dt(StateAt(t0, calls, k).lastTime, calls[k].now) == Elapsed(t0, calls, k)
  {
  }

  // The readings of a call, and of the first k calls.
  function CallReadings(call: Call, q: Quantity): seq<seq<Reading>> {
    seq(|call.snaps|, i requires 0 <= i < |call.snaps| => Readings(call.snaps[i], q))
  }

  function RunReadings(calls: seq<Call>, q: Quantity, k: nat): seq<seq<Reading>>
    requires k <= |calls|
  {
    if k == 0 then [] else RunReadings(calls, q, k - 1) + CallReadings(calls[k - 1], q)
  }

  lemma {:induction false} ReportedOfPrefix(readings: seq<seq<Reading>>, more: seq<seq<Reading>>, k: nat)
    requires k <= |readings|
    ensures Reported(readings + more, k) == Reported(readings, k)
  {
    if k > 0 {
      ReportedOfPrefix(readings, more, k - 1);
      assert HeldBefore(readings + more, k - 1) == HeldBefore(readings, k - 1);
    }
  }

  // The rate is in MB/s of the sample's own dt, so multiplying by it gives the bytes back.
  lemma {:induction false} RateTimesDt(units: nat, q: Quantity, dt: real)
    requires dt > 0.0
    ensures BytesOver(MBps(units, q, dt), dt) == Bytes(q, units) as real
  {
  }

  lemma {:induction false} RateOf(m: Metrics, before: SysState, snap: Snapshot, dt: real, power: real, q: Quantity)
    requires dt > 0.0 && MetricsOf(m, before, snap, dt, power)
    ensures BytesOver(Rate(m, q), dt) == Bytes(q, Delta(Held(before, q), Readings(snap, q))) as real
  {
    RateTimesDt(Delta(Held(before, q), Readings(snap, q)), q, dt);
  }

  lemma {:induction false} BytesOverIs(rate: real, dt: real)
    ensures BytesOver(rate, dt) == rate * 1024.0 * 1024.0 * dt
  {
  }

  // The fields of a metric by name: over dt seconds, 512 bytes for every sector and the bytes of every
  // interface; the memory of the snapshot, the busiest disk, and the power cached.
  lemma {:induction false} MetricByName(m: Metrics, before: SysState, snap: Snapshot, dt: real, power: real)
    requires dt > 0.0 && MetricsOf(m, before, snap, dt, power)
    ensures BytesOver(m.diskReadMBps, dt) == (512 * Delta(Held(before, DiskRead), Readings(snap, DiskRead))) as real
    ensures BytesOver(m.diskWriteMBps, dt) == (512 * Delta(Held(before, DiskWritten), Readings(snap, DiskWritten))) as real
    ensures BytesOver(m.netDownloadMBps, dt) == Delta(Held(before, NetDown), Readings(snap, NetDown)) as real
    ensures BytesOver(m.netUploadMBps, dt) == Delta(Held(before, NetUp), Readings(snap, NetUp)) as real
    ensures Rate(m, DiskRead) == m.diskReadMBps && Rate(m, DiskWritten) == m.diskWriteMBps
    ensures Rate(m, NetDown) == m.netDownloadMBps && Rate(m, NetUp) == m.netUploadMBps
    ensures m.memory == MemoryOf(snap.mem) && m.systemPowerWatts == power
    ensures m.maxDiskUtilPercent == AtMost100(MaxUtil(before.disk, snap.disk, dt))
  {
    RateOf(m, before, snap, dt, power, DiskRead);
    RateOf(m, before, snap, dt, power, DiskWritten);
    RateOf(m, before, snap, dt, power, NetDown);
    RateOf(m, before, snap, dt, power, NetUp);
  }

  // What the n-th label of a call moved since the state before it.
  ghost function LabelDelta(before: SysState, call: Call, q: Quantity, n: nat): nat
    requires 0 < n <= |call.snaps|
  {
    Delta(Held(StateBefore(before, call.now, call.snaps, n - 1), q), Readings(call.snaps[n - 1], q))
  }

  lemma {:induction false} LabelBytes(before: SysState, call: Call, q: Quantity, n: nat)
    requires IsCall(before, call) && 0 < n <= |call.snaps|
    ensures BytesOver(Rate(call.results[n - 1], q), Dt(before.lastTime, call.now))
         == Bytes(q, LabelDelta(before, call, q, n)) as real
  {
    LabelOfSample(call.results, before, call.now, call.snaps, |call.snaps|, call.power, n - 1);
    RateOf(call.results[n - 1], StateBefore(before, call.now, call.snaps, n - 1), call.snaps[n - 1],
           Dt(before.lastTime, call.now), call.power, q);
  }

  ghost function CallDelta(before: SysState, call: Call, q: Quantity, n: nat): nat
    requires n <= |call.snaps|
  {
    if n == 0 then 0 else CallDelta(before, call, q, n - 1) + LabelDelta(before, call, q, n)
  }

  ghost predicate LabelAddsUp(before: SysState, call: Call, q: Quantity, dt: real, n: nat)
    requires 0 < n <= |call.snaps| && n <= |call.results|
  {
    BytesOver(Rate(call.results[n - 1], q), dt) == Bytes(q, LabelDelta(before, call, q, n)) as real
  }

  lemma {:induction false} LabelsAddUp(before: SysState, call: Call, q: Quantity, dt: real, n: nat)
    requires n <= |call.snaps| && |call.results| == |call.snaps|
    requires forall i :: 0 < i <= n ==> LabelAddsUp(before, call, q, dt, i)
    ensures CallBytes(call, q, dt, n) == Bytes(q, CallDelta(before, call, q, n)) as real
  {
    if n > 0 {
      LabelsAddUp(before, call, q, dt, n - 1);
      assert LabelAddsUp(before, call, q, dt, n);
    }
  }

  lemma {:induction false} CallBytesAreDeltas(before: SysState, call: Call, q: Quantity)
    requires IsCall(before, call)
    ensures CallBytes(call, q, Dt(before.lastTime, call.now), |call.snaps|)
         == Bytes(q, CallDelta(before, call, q, |call.snaps|)) as real
  {
    var dt := Dt(before.lastTime, call.now);
    forall i | 0 < i <= |call.snaps| ensures LabelAddsUp(before, call, q, dt, i) { LabelBytes(before, call, q, i); }
    LabelsAddUp(before, call, q, dt, |call.snaps|);
  }

  // The values of the last reading, and what all readings together report.
  function AllHeld(readings: seq<seq<Reading>>): map<string, nat> {
    HeldBefore(readings, |readings|)
  }

  function AllReported(readings: seq<seq<Reading>>): nat {
    Reported(readings, |readings|)
  }

  // The values before reading i of `more`, and what its first n readings report, after `held`.
  function HeldIn(held: map<string, nat>, more: seq<seq<Reading>>, i: nat): map<string, nat>
    requires i <= |more|
  {
    if i == 0 then held else StateOf(more[i - 1])
  }

  function Moved(held: map<string, nat>, more: seq<seq<Reading>>, n: nat): nat
    requires n <= |more|
  {
    if n == 0 then 0 else Moved(held, more, n - 1) + Delta(HeldIn(held, more, n - 1), more[n - 1])
  }

  lemma {:induction false} MoreHeld(past: seq<seq<Reading>>, more: seq<seq<Reading>>, n: nat)
    requires n <= |more|
    ensures HeldBefore(past + more, |past| + n) == HeldIn(AllHeld(past), more, n)
  {
    if n > 0 { assert (past + more)[|past| + n - 1] == more[n - 1]; }
  }

  lemma {:induction false} MoreReported(past: seq<seq<Reading>>, more: seq<seq<Reading>>, n: nat)
    requires n <= |more|
    ensures Reported(past + more, |past| + n) == AllReported(past) + Moved(AllHeld(past), more, n)
  {
    if n == 0 {
      ReportedOfPrefix(past, more, |past|);
    } else {
      MoreReported(past, more, n - 1);
      MoreHeld(past, more, n - 1);
      assert (past + more)[|past| + n - 1] == more[n - 1];
    }
  }

  lemma {:induction false} LabelHolds(before: SysState, call: Call, q: Quantity, n: nat)
    requires n <= |call.snaps|
    ensures Held(StateBefore(before, call.now, call.snaps, n), q) == HeldIn(Held(before, q), CallReadings(call, q), n)
  {
    if n > 0 { KeptIsLastSnapshot(call.now, call.snaps[n - 1], q); }
  }

  lemma {:induction false} LabelDeltaIs(before: SysState, call: Call, q: Quantity, n: nat)
    requires 0 < n <= |call.snaps|
    ensures LabelDelta(before, call, q, n)
         == Delta(HeldIn(Held(before, q), CallReadings(call, q), n - 1), CallReadings(call, q)[n - 1])
  {
    LabelHolds(before, call, q, n - 1);
  }

  lemma {:induction false} CallDeltaIsMoved(before: SysState, call: Call, q: Quantity, n: nat)
    requires n <= |call.snaps|
    ensures CallDelta(before, call, q, n) == Moved(Held(before, q), CallReadings(call, q), n)
  {
    if n > 0 {
      CallDeltaIsMoved(before, call, q, n - 1);
      LabelDeltaIs(before, call, q, n);
    }
  }

  // What the first k calls moved, each label since the state before it.
  ghost function RunDelta(t0: real, calls: seq<Call>, q: Quantity, k: nat): nat
    requires k <= |calls|
  {
    if k == 0 then 0
    else RunDelta(t0, calls, q, k - 1) + CallDelta(StateAt(t0, calls, k - 1), calls[k - 1], q, |calls[k - 1].snaps|)
  }

  lemma {:induction false} RunBytesAreDeltas(t0: real, calls: seq<Call>, q: Quantity, k: nat)
    requires k <= |calls| && IsRunOf(t0, calls, k)
    ensures RunBytes(t0, calls, q, k) == Bytes(q, RunDelta(t0, calls, q, k)) as real
  {
    if k > 0 {
      RunBytesAreDeltas(t0, calls, q, k - 1);
      LastTimeIsThatOfTheLastCall(t0, calls, k - 1);
      CallBytesAreDeltas(StateAt(t0, calls, k - 1), calls[k - 1], q);
    }
  }

  lemma {:induction false} NextCallHolds(past: seq<seq<Reading>>, more: seq<seq<Reading>>, before: SysState, call: Call,
                                         q: Quantity)
    requires Held(before, q) == AllHeld(past) && more == CallReadings(call, q)
    ensures Held(StateBefore(before, call.now, call.snaps, |call.snaps|), q) == AllHeld(past + more)
  {
    MoreHeld(past, more, |more|);
    LabelHolds(before, call, q, |call.snaps|);
  }

  lemma {:induction false} NextCallReports(past: seq<seq<Reading>>, more: seq<seq<Reading>>, held: map<string, nat>,
                                           moved: nat)
    requires held == AllHeld(past) && moved == Moved(held, more, |more|)
    ensures AllReported(past + more) == AllReported(past) + moved
  {
    MoreReported(past, more, |more|);
  }

  lemma {:induction false} RunReportsDeltas(t0: real, calls: seq<Call>, q: Quantity, k: nat)
    requires k <= |calls|
    ensures Held(StateAt(t0, calls, k), q) == AllHeld(RunReadings(calls, q, k))
    ensures AllReported(RunReadings(calls, q, k)) == RunDelta(t0, calls, q, k)
  {
    if k == 0 {
      assert Held(StateAt(t0, calls, 0), q) == map[];
    } else {
      RunReportsDeltas(t0, calls, q, k - 1);
      var past, more := RunReadings(calls, q, k - 1), CallReadings(calls[k - 1], q);
      NextCallHolds(past, more, StateAt(t0, calls, k - 1), calls[k - 1], q);
      CallDeltaIsMoved(StateAt(t0, calls, k - 1), calls[k - 1], q, |calls[k - 1].snaps|);
      NextCallReports(past, more, Held(StateAt(t0, calls, k - 1), q),
                      CallDelta(StateAt(t0, calls, k - 1), calls[k - 1], q, |calls[k - 1].snaps|));
    }
  }

  // Over the whole run: rate times elapsed time, summed over all samples and labels, is the sum
  // of the counter differences between successive readings.
  lemma {:induction false} RunReports(t0: real, calls: seq<Call>, q: Quantity, k: nat)
    requires k <= |calls| && IsRunOf(t0, calls, k)
    ensures Held(StateAt(t0, calls, k), q) == AllHeld(RunReadings(calls, q, k))
    ensures RunBytes(t0, calls, q, k) == Bytes(q, AllReported(RunReadings(calls, q, k))) as real
  {
    RunBytesAreDeltas(t0, calls, q, k);
    RunReportsDeltas(t0, calls, q, k);
  }

  // Byte conservation: for each of disk reads, disk writes, downloads and uploads, the rates
  // reported over a run add up to the bytes the devices moved while they were listed, less the bytes
  // of 2^64 units for every carry; so they add up to those bytes exactly when the carries cancel.
  // `truth` holds the counts that the 64-bit counters show.
  lemma {:induction false} BytesAreConserved(t0: real, calls: seq<Call>, q: Quantity, truth: seq<seq<Reading>>,
                                             names: seq<string>)
    requires IsRun(t0, calls)
    requires RunReadings(calls, q, |calls|) == ShownRun(truth)
    requires Enumerates(names, truth)
    requires forall j :: 0 <= j < |truth| ==> DistinctNames(truth[j])
    ensures RunBytes(t0, calls, q, |calls|)
         == Bytes(q, TrueTotal(truth, names)) as real - Bytes(q, U64 * TotalCarries(truth, names)) as real
    ensures RunBytes(t0, calls, q, |calls|) == Bytes(q, TrueTotal(truth, names)) as real <==> TotalCarries(truth, names) == 0
  {
    RunReports(t0, calls, q, |calls|);
    Conservation(truth, names);
  }

  // For counts that never fall while their device is listed: exactly when no counter moved by 2^64
  // or more between two readings.
  lemma {:induction false} GrowingBytesAreConserved(t0: real, calls: seq<Call>, q: Quantity, truth: seq<seq<Reading>>,
                                                    names: seq<string>)
    requires IsRun(t0, calls)
    requires RunReadings(calls, q, |calls|) == ShownRun(truth)
    requires Enumerates(names, truth) && NoneFalls(truth, names)
    requires forall j :: 0 <= j < |truth| ==> DistinctNames(truth[j])
    ensures RunBytes(t0, calls, q, |calls|) == Bytes(q, TrueTotal(truth, names)) as real <==> AllFit(truth, names)
  {
    BytesAreConserved(t0, calls, q, truth, names);
    CarriesOfGrowingCounters(truth, names);
  }

  // For increments below 2^64, as those of any real counter are: exactly when no count falls while its
  // device is listed; no device restarts between two readings.
  lemma {:induction false} FittingBytesAreConserved(t0: real, calls: seq<Call>, q: Quantity, truth: seq<seq<Reading>>,
                                                    names: seq<string>)
    requires IsRun(t0, calls)
    requires RunReadings(calls, q, |calls|) == ShownRun(truth)
    requires Enumerates(names, truth) && AllFit(truth, names)
    requires forall j :: 0 <= j < |truth| ==> DistinctNames(truth[j])
    ensures RunBytes(t0, calls, q, |calls|) == Bytes(q, TrueTotal(truth, names)) as real <==> NoneFalls(truth, names)
  {
    BytesAreConserved(t0, calls, q, truth, names);
    CarriesOfFittingCounters(truth, names);
  }

  // The first call, with one label, reports no traffic at all: it only primes the counters.
  lemma {:induction false} PrimingCallReportsNothing(t0: real, calls: seq<Call>, q: Quantity)
    requires |calls| > 0 && |calls[0].snaps| == 1 && IsRunOf(t0, calls, 1)
    ensures Rate(calls[0].results[0], q) == 0.0
  {
    var call := calls[0];
    assert IsCall(StateAt(t0, calls, 0), call);
    LabelOfSample(call.results, StateAt(t0, calls, 0), call.now, call.snaps, 1, call.power, 0);
    var before := StateBefore(StateAt(t0, calls, 0), call.now, call.snaps, 0);
    assert Held(before, q) == map[];
    PrimingReportsNothing(Readings(call.snaps[0], q));
  }
}
