/** PCM::sample: CPU metrics over the window between two snapshots of the socket counters, and
    the self-healing reset of counters that seem to hang (PCM.cpp). */
module Pcm {

  // The accumulated counters of one socket.
  datatype Counters = Counters(joules: real, dramJoules: real, bytesRead: real, bytesWritten: real)

  // One snapshot event: the counters of all sockets, and when they were taken.
  datatype Stamp = Stamp(sockets: seq<Counters>, at: real)

  // program() after cleanup() either fails or succeeds, and then a new baseline is taken.
  datatype Reset = ResetFails | ResetSucceeds(baseline: Stamp)

  // What else there is for a label: what the PCM library makes of the two snapshots (as fractions,
  // and hertz), and the temperature read from its file.
  datatype Derived = Derived(
    execUsage: real, averageFrequency: real, c0Residency: real, c6Residency: real, temperature: real)

  // What one call of sample() meets: the snapshot it takes, what is derived for each label, and how
  // a reset would go.
  datatype Input = Input(after: Stamp, derived: seq<Derived>, reset: Reset)

  datatype Metric = Metric(
    cpuUtilization: real, cpuFrequency: real, c0Residency: real, c6Residency: real,
    powerUsage: real, memoryPowerUsage: real,
    memoryReadBandwidth: real, memoryWriteBandwidth: real, temperature: real)

  // beforeState with beforeTime, and zeroBandwidthCounter.
  datatype PcmState = PcmState(before: Stamp, zeroBandwidth: nat)

  const RESET_AFTER := 50

  predicate InRange(labels: seq<nat>, stamp: Stamp) {
    forall i :: 0 <= i < |labels| ==> labels[i] < |stamp.sockets|
  }

  // Labels are socket numbers; every snapshot shows all sockets, and the clock moves on.
  predicate Fits(s: PcmState, labels: seq<nat>, input: Input) {
    && |input.derived| == |labels|
    && s.before.at < input.after.at
    && InRange(labels, s.before) && InRange(labels, input.after)
    && (input.reset.ResetSucceeds? ==> input.after.at < input.reset.baseline.at && InRange(labels, input.reset.baseline))
  }

  datatype Quantity = CpuEnergy | DramEnergy | MegabytesRead | MegabytesWritten

  function Amount(c: Counters, q: Quantity): real {
    match q
    case CpuEnergy => c.joules
    case DramEnergy => c.dramJoules
    case MegabytesRead => c.bytesRead / 1000000.0
    case MegabytesWritten => c.bytesWritten / 1000000.0
  }

  function Rate(m: Metric, q: Quantity): real {
    match q
    case CpuEnergy => m.powerUsage
    case DramEnergy => m.memoryPowerUsage
    case MegabytesRead => m.memoryReadBandwidth
    case MegabytesWritten => m.memoryWriteBandwidth
  }

  // What accumulated on socket s between two snapshots.
  function Between(before: Stamp, after: Stamp, s: nat, q: Quantity): real
    requires s < |before.sockets| && s < |after.sockets|
  {
    Amount(after.sockets[s], q) - Amount(before.sockets[s], q)
  }

  function MetricOf(before: Stamp, after: Stamp, s: nat, d: Derived): Metric
    requires before.at < after.at && s < |before.sockets| && s < |after.sockets|
  {
    var elapsed := after.at - before.at;
    var b, a := before.sockets[s], after.sockets[s];
    Metric(100.0 * d.execUsage, d.averageFrequency / 1000000.0, 100.0 * d.c0Residency, 100.0 * d.c6Residency,
           (a.joules - b.joules) / elapsed,
           (a.dramJoules - b.dramJoules) / elapsed,
           (a.bytesRead - b.bytesRead) / 1000000.0 / elapsed,
           (a.bytesWritten - b.bytesWritten) / 1000000.0 / elapsed,
           d.temperature)
  }

  // The processor works but no socket moved any memory.
  predicate Suspicious(s: PcmState, labels: seq<nat>, input: Input)
    requires Fits(s, labels, input)
  {
    && (exists i :: 0 <= i < |labels| && 100.0 * input.derived[i].execUsage > 1.0)
    && (forall i :: 0 <= i < |labels| ==>
          Between(s.before, input.after, labels[i], MegabytesRead) <= 0.0
          && Between(s.before, input.after, labels[i], MegabytesWritten) <= 0.0)
  }

  datatype Kind = Normal | Suspected | ResetOk | ResetFailed

  function KindOf(s: PcmState, labels: seq<nat>, input: Input): Kind
    requires Fits(s, labels, input)
  {
    if !Suspicious(s, labels, input) then Normal
    else if s.zeroBandwidth + 1 < RESET_AFTER then Suspected
    else if input.reset.ResetSucceeds? then ResetOk else ResetFailed
  }

  // The next window starts at this sample's snapshot, at the new baseline after a reset, and where
  // it started before if the reset failed.
  function Sampled(s: PcmState, labels: seq<nat>, input: Input): PcmState
    requires Fits(s, labels, input)
  {
    match KindOf(s, labels, input)
    case Normal => PcmState(input.after, 0)
    case Suspected => PcmState(input.after, s.zeroBandwidth + 1)
    case ResetOk => PcmState(input.reset.baseline, 0)
    case ResetFailed => PcmState(s.before, s.zeroBandwidth + 1)
  }

  class PCM {
    var beforeState: seq<Counters>
    var afterState: seq<Counters>
    var beforeTime: real
    var zeroBandwidthCounter: nat

    function View(): PcmState
      reads this
    {
      PcmState(Stamp(beforeState, beforeTime), zeroBandwidthCounter)
    }

    constructor (baseline: Stamp)
      ensures View() == PcmState(baseline, 0)
    {
      beforeState, beforeTime := baseline.sockets, baseline.at;
      afterState := [];
      zeroBandwidthCounter := 0;
    }

    method ResetPCM(reset: Reset)
      modifies this
      ensures View() == if reset.ResetSucceeds? then PcmState(reset.baseline, 0) else old(View())
    {
      if reset.ResetSucceeds? {
        beforeState := reset.baseline.sockets;
        beforeTime := reset.baseline.at;
        zeroBandwidthCounter := 0;
      }
    }

    method Sample(labels: seq<nat>, input: Input) returns (metrics: seq<Metric>)
      requires Fits(View(), labels, input)
      modifies this
      ensures View() == Sampled(old(View()), labels, input)
      ensures |metrics| == |labels|
      ensures forall i :: 0 <= i < |labels| ==>
                metrics[i] == MetricOf(old(View()).before, input.after, labels[i], input.derived[i])
    {
      afterState := input.after.sockets;
      var afterTime := input.after.at;
      var elapsed := afterTime - beforeTime;
      metrics := [];
      var isSystemActive := false;
      var allBandwidthZero := true;
      for i := 0 to |labels|
        invariant View() == old(View()) && afterState == input.after.sockets
        invariant |metrics| == i
        invariant forall j :: 0 <= j < i ==>
                    metrics[j] == MetricOf(View().before, input.after, labels[j], input.derived[j])
        invariant isSystemActive <==> exists j :: 0 <= j < i && 100.0 * input.derived[j].execUsage > 1.0
        invariant allBandwidthZero <==>
                    forall j :: 0 <= j < i ==>
                      Between(View().before, input.after, labels[j], MegabytesRead) <= 0.0
                      && Between(View().before, input.after, labels[j], MegabytesWritten) <= 0.0
      {
        var before, after := beforeState[labels[i]], afterState[labels[i]];
        var readBytes := after.bytesRead - before.bytesRead;
        var writeBytes := after.bytesWritten - before.bytesWritten;
        var m := Metric(100.0 * input.derived[i].execUsage,
                        input.derived[i].averageFrequency / 1000000.0,
                        100.0 * input.derived[i].c0Residency,
                        100.0 * input.derived[i].c6Residency,
                        (after.joules - before.joules) / elapsed,
                        (after.dramJoules - before.dramJoules) / elapsed,
                        readBytes / 1000000.0 / elapsed,
                        writeBytes / 1000000.0 / elapsed,
                        input.derived[i].temperature);
        metrics := metrics + [m];
        if m.cpuUtilization > 1.0 { isSystemActive := true; }
        if readBytes > 0.0 || writeBytes > 0.0 { allBandwidthZero := false; }
      }
      if isSystemActive && allBandwidthZero {
        zeroBandwidthCounter := zeroBandwidthCounter + 1;
        if zeroBandwidthCounter >= 50 {
          ResetPCM(input.reset);
          return;
        }
      } else {
        zeroBandwidthCounter := 0;
      }
      beforeState, afterState := afterState, beforeState;
      beforeTime := afterTime;
    }
  }

  // --- Runs ----------------------------------------------------------------------------------------

  // states[k] is the state before sample k, and the last one that after the last sample.
  ghost predicate IsRun(states: seq<PcmState>, labels: seq<nat>, inputs: seq<Input>) {
    && |states| == |inputs| + 1
    && forall k :: 0 <= k < |inputs| ==>
         Fits(states[k], labels, inputs[k]) && states[k + 1] == Sampled(states[k], labels, inputs[k])
  }

  // What each sample was.
  ghost function Kinds(states: seq<PcmState>, labels: seq<nat>, inputs: seq<Input>): (kinds: seq<Kind>)
    requires IsRun(states, labels, inputs)
    ensures |kinds| == |inputs|
  {
    seq(|inputs|, k requires 0 <= k < |inputs| => KindOf(states[k], labels, inputs[k]))
  }

  // --- Windows -------------------------------------------------------------------------------------

  // Windows meet end to end exactly when no reset is attempted; a successful reset leaves a gap,
  // and after a failed one the next window covers this one again.
  lemma {:induction false} WindowsTile(s: PcmState, labels: seq<nat>, input: Input)
    requires Fits(s, labels, input)
    ensures var next := Sampled(s, labels, input).before;
      match KindOf(s, labels, input)
      case Normal => next == input.after
      case Suspected => next == input.after
      case ResetOk => next == input.reset.baseline && input.after.at < next.at
      case ResetFailed => next == s.before && next.at < input.after.at
    ensures Sampled(s, labels, input).before.at == input.after.at
       <==> KindOf(s, labels, input) in {Normal, Suspected}
  {
  }

  // --- Energy and traffic ----------------------------------------------------------------------------

  // Rate times elapsed time of one sample, for the label in position i.
  function ReportedBy(s: PcmState, labels: seq<nat>, input: Input, i: nat, q: Quantity): real
    requires Fits(s, labels, input) && i < |labels|
  {
    Rate(MetricOf(s.before, input.after, labels[i], input.derived[i]), q) * (input.after.at - s.before.at)
  }

  lemma {:induction false} RateTimesElapsed(s: PcmState, labels: seq<nat>, input: Input, i: nat, q: Quantity)
    requires Fits(s, labels, input) && i < |labels|
    ensures ReportedBy(s, labels, input, i, q) == Between(s.before, input.after, labels[i], q)
  {
  }

  function Reported(states: seq<PcmState>, labels: seq<nat>, inputs: seq<Input>, k: nat, i: nat, q: Quantity): real
    requires IsRun(states, labels, inputs) && k <= |inputs| && i < |labels|
  {
    if k == 0 then 0.0
    else Reported(states, labels, inputs, k - 1, i, q) + ReportedBy(states[k - 1], labels, inputs[k - 1], i, q)
  }

  // What a failed reset lets the next sample report a second time.
  function Repeated(states: seq<PcmState>, labels: seq<nat>, inputs: seq<Input>, k: nat, i: nat, q: Quantity): real
    requires IsRun(states, labels, inputs) && k <= |inputs| && i < |labels|
  {
    if k == 0 then 0.0
    else
      Repeated(states, labels, inputs, k - 1, i, q)
      + (if KindOf(states[k - 1], labels, inputs[k - 1]) == ResetFailed
         then Between(states[k - 1].before, inputs[k - 1].after, labels[i], q) else 0.0)
  }

  lemma {:induction false} StatesInRange(states: seq<PcmState>, labels: seq<nat>, inputs: seq<Input>, k: nat)
    requires IsRun(states, labels, inputs) && k <= |inputs| && InRange(labels, states[0].before)
    ensures InRange(labels, states[k].before)
  {
    if k > 0 {
      StatesInRange(states, labels, inputs, k - 1);
      assert states[k - 1 + 1] == Sampled(states[k - 1], labels, inputs[k - 1]);
    }
  }

  // A successful reset sets the counters back, so that only counters of one stretch between two
  // successful resets can be compared: where the stretch began that sample k belongs to.
  function StretchStart(states: seq<PcmState>, labels: seq<nat>, inputs: seq<Input>, k: nat): (start: nat)
    requires IsRun(states, labels, inputs) && k <= |inputs|
    ensures start <= k && (start > 0 ==> KindOf(states[start - 1], labels, inputs[start - 1]) == ResetOk)
    ensures forall j :: start <= j < k ==> KindOf(states[j], labels, inputs[j]) != ResetOk
  {
    if k == 0 || KindOf(states[k - 1], labels, inputs[k - 1]) == ResetOk then k
    else StretchStart(states, labels, inputs, k - 1)
  }

  // What the counters moved in the stretches that ended before sample k: each from the baseline it
  // began with to the last snapshot before its reset.
  function Closed(states: seq<PcmState>, labels: seq<nat>, inputs: seq<Input>, k: nat, i: nat, q: Quantity): real
    requires IsRun(states, labels, inputs) && k <= |inputs| && i < |labels| && InRange(labels, states[0].before)
  {
    if k == 0 then 0.0
    else
      Closed(states, labels, inputs, k - 1, i, q)
      + (if KindOf(states[k - 1], labels, inputs[k - 1]) == ResetOk then
           var start := StretchStart(states, labels, inputs, k - 1);
           StatesInRange(states, labels, inputs, start);
           Between(states[start].before, inputs[k - 1].after, labels[i], q)
         else 0.0)
  }

  // ... and in the current stretch, up to the current baseline.
  function Accumulated(states: seq<PcmState>, labels: seq<nat>, inputs: seq<Input>, k: nat, i: nat, q: Quantity): real
    requires IsRun(states, labels, inputs) && k <= |inputs| && i < |labels| && InRange(labels, states[0].before)
  {
    var start := StretchStart(states, labels, inputs, k);
    StatesInRange(states, labels, inputs, start);
    StatesInRange(states, labels, inputs, k);
    Closed(states, labels, inputs, k, i, q) + Between(states[start].before, states[k].before, labels[i], q)
  }

  // One more sample adds its window, unless that stays open after a failed reset.
  lemma {:induction false} AccumulatedStep(states: seq<PcmState>, labels: seq<nat>, inputs: seq<Input>, k: nat,
                                           i: nat, q: Quantity)
    requires IsRun(states, labels, inputs) && k < |inputs| && i < |labels| && InRange(labels, states[0].before)
    ensures Accumulated(states, labels, inputs, k + 1, i, q) == Accumulated(states, labels, inputs, k, i, q)
         + (if KindOf(states[k], labels, inputs[k]) == ResetFailed then 0.0
            else Between(states[k].before, inputs[k].after, labels[i], q))
  {
    StatesInRange(states, labels, inputs, k);
    StatesInRange(states, labels, inputs, StretchStart(states, labels, inputs, k));
    WindowsTile(states[k], labels, inputs[k]);
  }

  // Conservation over any run: what the samples report, each rate times its window, adds up to what
  // the counters moved from the baseline of each stretch between successful resets to its last
  // snapshot, plus what was reported twice after failed resets.
  lemma {:induction false} EnergyIsConserved(states: seq<PcmState>, labels: seq<nat>, inputs: seq<Input>, k: nat,
                                             i: nat, q: Quantity)
    requires IsRun(states, labels, inputs) && k <= |inputs| && i < |labels| && InRange(labels, states[0].before)
    ensures Reported(states, labels, inputs, k, i, q)
         == Accumulated(states, labels, inputs, k, i, q) + Repeated(states, labels, inputs, k, i, q)
  {
    if k > 0 {
      EnergyIsConserved(states, labels, inputs, k - 1, i, q);
      AccumulatedStep(states, labels, inputs, k - 1, i, q);
      RateTimesElapsed(states[k - 1], labels, inputs[k - 1], i, q);
    }
  }

  lemma {:induction false} NothingRepeatedWithoutReset(states: seq<PcmState>, labels: seq<nat>, inputs: seq<Input>,
                                                       k: nat, i: nat, q: Quantity)
    requires IsRun(states, labels, inputs) && k <= |inputs| && i < |labels| && InRange(labels, states[0].before)
    requires forall j :: 0 <= j < k ==> Kinds(states, labels, inputs)[j] in {Normal, Suspected}
    ensures Repeated(states, labels, inputs, k, i, q) == 0.0 && Closed(states, labels, inputs, k, i, q) == 0.0
    ensures StretchStart(states, labels, inputs, k) == 0
  {
    if k > 0 {
      NothingRepeatedWithoutReset(states, labels, inputs, k - 1, i, q);
      assert Kinds(states, labels, inputs)[k - 1] == KindOf(states[k - 1], labels, inputs[k - 1]);
    }
  }

  // In a run without reset attempts, power times elapsed time adds up to all the joules (and
  // bandwidth to all the megabytes) between the baseline and the last snapshot.
  lemma {:induction false} EnergyWithoutResets(states: seq<PcmState>, labels: seq<nat>, inputs: seq<Input>, i: nat,
                                               q: Quantity)
    requires IsRun(states, labels, inputs) && |inputs| > 0 && i < |labels|
    requires forall j :: 0 <= j < |inputs| ==> Kinds(states, labels, inputs)[j] in {Normal, Suspected}
    ensures InRange(labels, states[0].before) && InRange(labels, inputs[|inputs| - 1].after)
    ensures Reported(states, labels, inputs, |inputs|, i, q)
         == Between(states[0].before, inputs[|inputs| - 1].after, labels[i], q)
  {
    var n := |inputs|;
    assert Fits(states[0], labels, inputs[0]) && Fits(states[n - 1], labels, inputs[n - 1]);
    EnergyIsConserved(states, labels, inputs, n, i, q);
    NothingRepeatedWithoutReset(states, labels, inputs, n, i, q);
    assert Kinds(states, labels, inputs)[n - 1] == KindOf(states[n - 1], labels, inputs[n - 1]);
    assert states[n - 1 + 1] == Sampled(states[n - 1], labels, inputs[n - 1]);
  }

  // The same of the raw counters of a socket, by name: joules, and megabytes of a million bytes.
  lemma {:induction false} CountersWithoutResets(states: seq<PcmState>, labels: seq<nat>, inputs: seq<Input>, i: nat)
    requires IsRun(states, labels, inputs) && |inputs| > 0 && i < |labels|
    requires forall j :: 0 <= j < |inputs| ==> Kinds(states, labels, inputs)[j] in {Normal, Suspected}
    ensures InRange(labels, states[0].before) && InRange(labels, inputs[|inputs| - 1].after)
    ensures var b, a := states[0].before.sockets[labels[i]], inputs[|inputs| - 1].after.sockets[labels[i]];
      && Reported(states, labels, inputs, |inputs|, i, CpuEnergy) == a.joules - b.joules
      && Reported(states, labels, inputs, |inputs|, i, DramEnergy) == a.dramJoules - b.dramJoules
      && Reported(states, labels, inputs, |inputs|, i, MegabytesRead) == (a.bytesRead - b.bytesRead) / 1000000.0
      && Reported(states, labels, inputs, |inputs|, i, MegabytesWritten) == (a.bytesWritten - b.bytesWritten) / 1000000.0
  {
    EnergyWithoutResets(states, labels, inputs, i, CpuEnergy);
    EnergyWithoutResets(states, labels, inputs, i, DramEnergy);
    EnergyWithoutResets(states, labels, inputs, i, MegabytesRead);
    EnergyWithoutResets(states, labels, inputs, i, MegabytesWritten);
  }

  // The fields of one metric, by name, over the window from `before` to `after`.
  lemma {:induction false} MetricByName(before: Stamp, after: Stamp, s: nat, d: Derived)
    requires before.at < after.at && s < |before.sockets| && s < |after.sockets|
    ensures var m, b, a, elapsed := MetricOf(before, after, s, d), before.sockets[s], after.sockets[s], after.at - before.at;
      && m.powerUsage * elapsed == a.joules - b.joules
      && m.memoryPowerUsage * elapsed == a.dramJoules - b.dramJoules
      && m.memoryReadBandwidth * 1000000.0 * elapsed == a.bytesRead - b.bytesRead
      && m.memoryWriteBandwidth * 1000000.0 * elapsed == a.bytesWritten - b.bytesWritten
    ensures var m := MetricOf(before, after, s, d);
      && Rate(m, CpuEnergy) == m.powerUsage && Rate(m, DramEnergy) == m.memoryPowerUsage
      && Rate(m, MegabytesRead) == m.memoryReadBandwidth && Rate(m, MegabytesWritten) == m.memoryWriteBandwidth
      && m.cpuUtilization == 100.0 * d.execUsage && m.cpuFrequency * 1000000.0 == d.averageFrequency
      && m.c0Residency == 100.0 * d.c0Residency && m.c6Residency == 100.0 * d.c6Residency && m.temperature == d.temperature
  {
    var b, a, elapsed := before.sockets[s], after.sockets[s], after.at - before.at;
    Quotient(a.joules - b.joules, elapsed);
    Quotient(a.dramJoules - b.dramJoules, elapsed);
    Quotient((a.bytesRead - b.bytesRead) / 1000000.0, elapsed);
    Quotient((a.bytesWritten - b.bytesWritten) / 1000000.0, elapsed);
    var read := (a.bytesRead - b.bytesRead) / 1000000.0 / elapsed;
    var write := (a.bytesWritten - b.bytesWritten) / 1000000.0 / elapsed;
    assert read * 1000000.0 * elapsed == read * elapsed * 1000000.0;
    assert write * 1000000.0 * elapsed == write * elapsed * 1000000.0;
  }

  lemma {:induction false} Quotient(x: real, y: real)
    requires y > 0.0
    ensures x / y * y == x
  {
  }

  // A sample is suspicious exactly if the metric of some label shows more than one percent, and the
  // memory controllers of no label's socket read or wrote a byte in the window.
  lemma {:induction false} SuspiciousMeans(s: PcmState, labels: seq<nat>, input: Input)
    requires Fits(s, labels, input)
    ensures Suspicious(s, labels, input)
       <==> && (exists i :: 0 <= i < |labels| && MetricOf(s.before, input.after, labels[i], input.derived[i]).cpuUtilization > 1.0)
            && (forall i :: 0 <= i < |labels| ==>
                  input.after.sockets[labels[i]].bytesRead <= s.before.sockets[labels[i]].bytesRead
                  && input.after.sockets[labels[i]].bytesWritten <= s.before.sockets[labels[i]].bytesWritten)
  {
    if i :| 0 <= i < |labels| && 100.0 * input.derived[i].execUsage > 1.0 {
      assert MetricOf(s.before, input.after, labels[i], input.derived[i]).cpuUtilization > 1.0;
    }
    forall i | 0 <= i < |labels|
      ensures Between(s.before, input.after, labels[i], MegabytesRead) <= 0.0
         <==> input.after.sockets[labels[i]].bytesRead <= s.before.sockets[labels[i]].bytesRead
      ensures Between(s.before, input.after, labels[i], MegabytesWritten) <= 0.0
         <==> input.after.sockets[labels[i]].bytesWritten <= s.before.sockets[labels[i]].bytesWritten
    {
    }
  }

  // beforeState and beforeTime always come from one and the same snapshot event: the first
  // baseline, the snapshot of an earlier sample, or the baseline of an earlier reset.
  lemma {:induction false} BeforeIsOneEvent(states: seq<PcmState>, labels: seq<nat>, inputs: seq<Input>, k: nat)
    requires IsRun(states, labels, inputs) && k <= |inputs|
    ensures || states[k].before == states[0].before
            || (exists j :: 0 <= j < k && states[k].before == inputs[j].after)
            || (exists j :: 0 <= j < k && inputs[j].reset.ResetSucceeds? && states[k].before == inputs[j].reset.baseline)
  {
    if k > 0 {
      BeforeIsOneEvent(states, labels, inputs, k - 1);
      assert states[k - 1 + 1] == Sampled(states[k - 1], labels, inputs[k - 1]);
    }
  }

  // --- Self-healing ------------------------------------------------------------------------------------

  // The last n samples were all suspicious, none of them brought a successful reset, and n cannot
  // be made larger.
  ghost predicate IsStreak(kinds: seq<Kind>, n: nat) {
    && n <= |kinds|
    && (forall j :: |kinds| - n <= j < |kinds| ==> kinds[j] in {Suspected, ResetFailed})
    && (n < |kinds| ==> kinds[|kinds| - n - 1] in {Normal, ResetOk})
  }

  // After every sample the counter is the length of the current run of suspicious samples.
  lemma {:induction false} CounterIsStreak(states: seq<PcmState>, labels: seq<nat>, inputs: seq<Input>, k: nat)
    requires IsRun(states, labels, inputs) && k <= |inputs| && states[0].zeroBandwidth == 0
    ensures IsStreak(Kinds(states, labels, inputs)[..k], states[k].zeroBandwidth)
  {
    if k > 0 {
      CounterIsStreak(states, labels, inputs, k - 1);
      var kinds := Kinds(states, labels, inputs);
      assert kinds[..k] == kinds[..k - 1] + [KindOf(states[k - 1], labels, inputs[k - 1])];
      assert states[k - 1 + 1] == Sampled(states[k - 1], labels, inputs[k - 1]);
    }
  }

  // A reset is attempted exactly at the suspicious samples that make the run at least 50 long.
  lemma {:induction false} ResetAttemptedIffStreakReaches50(states: seq<PcmState>, labels: seq<nat>,
                                                            inputs: seq<Input>, k: nat, n: nat)
    requires IsRun(states, labels, inputs) && k < |inputs| && states[0].zeroBandwidth == 0
    requires IsStreak(Kinds(states, labels, inputs)[..k], n)
    ensures Kinds(states, labels, inputs)[k] in {ResetOk, ResetFailed}
       <==> Suspicious(states[k], labels, inputs[k]) && n + 1 >= 50
  {
    CounterIsStreak(states, labels, inputs, k);
    StreakIsUnique(Kinds(states, labels, inputs)[..k], n, states[k].zeroBandwidth);
  }

  lemma {:induction false} StreakIsUnique(kinds: seq<Kind>, m: nat, n: nat)
    requires IsStreak(kinds, m) && IsStreak(kinds, n)
    ensures m == n
  {
  }

  // Successful resets are at least 50 samples apart, and the first comes no earlier than the
  // fiftieth sample.
  lemma {:induction false} ResetsAreFarApart(states: seq<PcmState>, labels: seq<nat>, inputs: seq<Input>, i: int,
                                             j: nat)
    requires IsRun(states, labels, inputs) && states[0].zeroBandwidth == 0
    requires -1 <= i < j < |inputs| && Kinds(states, labels, inputs)[j] == ResetOk
    requires i == -1 || Kinds(states, labels, inputs)[i] == ResetOk
    ensures j - i >= 50
  {
    var kinds := Kinds(states, labels, inputs);
    CounterIsStreak(states, labels, inputs, j);
    var n := states[j].zeroBandwidth;
    assert n + 1 >= 50;
    assert forall m :: 0 <= m < j ==> kinds[..j][m] == kinds[m];
  }

  // After a failed attempt every further suspicious sample attempts again.
  lemma {:induction false} FailedResetIsRetried(states: seq<PcmState>, labels: seq<nat>, inputs: seq<Input>, k: nat)
    requires IsRun(states, labels, inputs) && k + 1 < |inputs| && Kinds(states, labels, inputs)[k] == ResetFailed
    ensures Kinds(states, labels, inputs)[k + 1] != Suspected
  {
  }

  // A reset that fails: what the first window reported is reported again with the next.
  lemma {:induction false} FailedResetReportsTwice(s: PcmState, labels: seq<nat>, first: Input, second: Input,
                                                   i: nat, q: Quantity)
    requires Fits(s, labels, first) && KindOf(s, labels, first) == ResetFailed
    requires Fits(Sampled(s, labels, first), labels, second) && i < |labels|
    ensures ReportedBy(s, labels, first, i, q) + ReportedBy(Sampled(s, labels, first), labels, second, i, q)
         == Between(s.before, second.after, labels[i], q) + Between(s.before, first.after, labels[i], q)
  {
    RateTimesElapsed(s, labels, first, i, q);
    RateTimesElapsed(Sampled(s, labels, first), labels, second, i, q);
  }

  // One socket, busy and without memory traffic, that has used so many joules at some time.
  function Busy(joules: real, at: real): Input {
    Input(Stamp([Counters(joules, 0.0, 0.0, 0.0)], at), [Derived(0.5, 0.0, 0.0, 0.0, 0.0)], ResetFails)
  }

  // There the reset is attempted at the fiftieth sample, and fails.
  lemma {:induction false} BusySocketFailsToReset()
    ensures var s := PcmState(Busy(0.0, 0.0).after, 49);
            Fits(s, [0], Busy(10.0, 1.0)) && KindOf(s, [0], Busy(10.0, 1.0)) == ResetFailed
  {
    var s, input := PcmState(Busy(0.0, 0.0).after, 49), Busy(10.0, 1.0);
    assert 100.0 * input.derived[0].execUsage > 1.0;
    assert Suspicious(s, [0], input);
  }
}
