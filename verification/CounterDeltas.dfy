/** Differences of ever-growing 64-bit counters over a run of readings in which devices come and
    go (the pattern of readDisk and readNetwork in SYSImpl.cpp). */
module CounterDeltas {

  const U64 := 0x1_0000_0000_0000_0000

  // What an unsigned 64-bit counter shows of an unbounded count.
  function Wrap(count: int): (shown: nat)
    ensures shown < U64
  {
    count % U64
  }

  // Unsigned 64-bit subtraction.
  function SubU64(a: nat, b: nat): nat {
    Wrap(a - b)
  }

  lemma {:induction false} ShiftByMultiple(x: int, k: int)
    ensures Wrap(x + U64 * k) == Wrap(x)
  {
    assert x + U64 * k == U64 * (x / U64 + k) + x % U64;
  }

  // The difference shown is the true increment exactly when that is not negative and below 2^64,
  // even if the counter wrapped around in between.
  lemma {:induction false} WrappedDifference(before: nat, after: nat)
    ensures SubU64(Wrap(after), Wrap(before)) == Wrap(after - before)
    ensures SubU64(Wrap(after), Wrap(before)) == after - before <==> 0 <= after - before < 0x1_0000_0000_0000_0000
  {
    ShiftByMultiple(after - before, before / U64 - after / U64);
  }

  // --- One reading -----------------------------------------------------------------------------

  // One counter of one device, as listed in a reading.
  datatype Reading = Reading(name: string, value: nat)

  // The map kept for the next reading: a later line of the same name overwrites an earlier one.
  function StateOf(lines: seq<Reading>): map<string, nat> {
    if lines == [] then map[]
    else StateOf(lines[..|lines| - 1])[lines[|lines| - 1].name := lines[|lines| - 1].value]
  }

  // What one reading adds up, given the map of the reading before.
  function Delta(last: map<string, nat>, lines: seq<Reading>): nat {
    if lines == [] then 0
    else
      var line := lines[|lines| - 1];
      Delta(last, lines[..|lines| - 1]) + (if line.name in last then SubU64(line.value, last[line.name]) else 0)
  }

  ghost predicate DistinctNames(lines: seq<Reading>) {
    forall i, j :: 0 <= i < j < |lines| ==> lines[i].name != lines[j].name
  }

  predicate Distinct(names: seq<string>) {
    forall i, j :: 0 <= i < j < |names| ==> names[i] != names[j]
  }

  function StepDelta(last: map<string, nat>, cur: map<string, nat>, name: string): nat {
    if name in last && name in cur then SubU64(cur[name], last[name]) else 0
  }

  function DeltaByName(last: map<string, nat>, cur: map<string, nat>, names: seq<string>): nat {
    if names == [] then 0
    else DeltaByName(last, cur, names[..|names| - 1]) + StepDelta(last, cur, names[|names| - 1])
  }

  lemma {:induction false} OneMoreDevice(last: map<string, nat>, cur: map<string, nat>, name: string, value: nat,
                                         names: seq<string>)
    requires Distinct(names) && name !in cur
    ensures DeltaByName(last, cur[name := value], names)
         == DeltaByName(last, cur, names) + (if name in names then StepDelta(last, cur[name := value], name) else 0)
  {
    if names != [] {
      var rest := names[..|names| - 1];
      OneMoreDevice(last, cur, name, value, rest);
      assert names == rest + [names[|names| - 1]];
    }
  }

  lemma {:induction false} NoDevices(last: map<string, nat>, names: seq<string>)
    ensures DeltaByName(last, map[], names) == 0
  {
    if names != [] { NoDevices(last, names[..|names| - 1]); }
  }

  lemma {:induction false} StateKeys(lines: seq<Reading>)
    ensures forall n :: n in StateOf(lines) <==> exists i :: 0 <= i < |lines| && lines[i].name == n
  {
    if lines != [] { StateKeys(lines[..|lines| - 1]); }
  }

  // Adding up line by line is adding up device by device, when no device is listed twice.
  lemma {:induction false} DeltaIsByDevice(last: map<string, nat>, lines: seq<Reading>, names: seq<string>)
    requires DistinctNames(lines) && Distinct(names)
    requires forall i :: 0 <= i < |lines| ==> lines[i].name in names
    ensures Delta(last, lines) == DeltaByName(last, StateOf(lines), names)
  {
    if lines == [] {
      NoDevices(last, names);
    } else {
      var rest := lines[..|lines| - 1];
      var line := lines[|lines| - 1];
      DeltaIsByDevice(last, rest, names);
      StateKeys(rest);
      OneMoreDevice(last, StateOf(rest), line.name, line.value, names);
    }
  }

  // --- A run of readings ------------------------------------------------------------------------

  // The values as the counters show them.
  function Shown(lines: seq<Reading>): seq<Reading> {
    seq(|lines|, i requires 0 <= i < |lines| => Reading(lines[i].name, Wrap(lines[i].value)))
  }

  // The map held before reading k; nothing is held before the first.
  function HeldBefore(readings: seq<seq<Reading>>, k: nat): map<string, nat>
    requires k <= |readings|
  {
    if k == 0 then map[] else StateOf(readings[k - 1])
  }

  // All that the first k readings reported.
  function Reported(readings: seq<seq<Reading>>, k: nat): nat
    requires k <= |readings|
  {
    if k == 0 then 0
    else Reported(readings, k - 1) + Delta(HeldBefore(readings, k - 1), readings[k - 1])
  }

  function ShownRun(truth: seq<seq<Reading>>): seq<seq<Reading>> {
    seq(|truth|, k requires 0 <= k < |truth| => Shown(truth[k]))
  }

  // --- One device over the run -------------------------------------------------------------------

  datatype Presence = Absent | Present(count: nat)

  function At(truth: seq<seq<Reading>>, name: string, k: nat): Presence
    requires k < |truth|
  {
    var state := StateOf(truth[k]);
    if name in state then Present(state[name]) else Absent
  }

  function Column(truth: seq<seq<Reading>>, name: string): seq<Presence> {
    seq(|truth|, k requires 0 <= k < |truth| => At(truth, name, k))
  }

  predicate Stays(col: seq<Presence>, k: nat)
    requires k < |col|
  {
    k > 0 && col[k - 1].Present? && col[k].Present?
  }

  function Increment(col: seq<Presence>, k: nat): int
    requires k < |col|
  {
    if Stays(col, k) then col[k].count - col[k - 1].count else 0
  }

  function ShownIncrement(col: seq<Presence>, k: nat): nat
    requires k < |col|
  {
    if Stays(col, k) then SubU64(Wrap(col[k].count), Wrap(col[k - 1].count)) else 0
  }

  function ShownTotal(col: seq<Presence>, k: nat): nat
    requires k <= |col|
  {
    if k == 0 then 0 else ShownTotal(col, k - 1) + ShownIncrement(col, k - 1)
  }

  // Among the first n readings, [first, last] is a stretch that lists the device throughout, and
  // it cannot be made longer.
  ghost predicate IsMaximalSegment(col: seq<Presence>, n: nat, first: nat, last: nat)
    requires n <= |col|
  {
    && first <= last < n
    && (forall k :: first <= k <= last ==> col[k].Present?)
    && (first > 0 ==> col[first - 1].Absent?)
    && (last + 1 < n ==> col[last + 1].Absent?)
  }

  datatype Segment = Segment(first: nat, last: nat)

  // The segments after one more reading, the n-th.
  function Extended(col: seq<Presence>, n: nat, before: seq<Segment>): seq<Segment>
    requires n < |col|
  {
    if col[n].Absent? then before
    else if Stays(col, n) && |before| > 0 then before[..|before| - 1] + [Segment(before[|before| - 1].first, n)]
    else before + [Segment(n, n)]
  }

  // The maximal segments of the first n readings, in order.
  function Segments(col: seq<Presence>, n: nat): seq<Segment>
    requires n <= |col|
  {
    if n == 0 then [] else Extended(col, n - 1, Segments(col, n - 1))
  }

  ghost predicate Covered(segs: seq<Segment>, k: nat) {
    exists i :: 0 <= i < |segs| && segs[i].first <= k <= segs[i].last
  }

  // `segs` are maximal segments, in order and apart, that cover every listing of the device.
  ghost predicate SegmentsRight(col: seq<Presence>, n: nat, segs: seq<Segment>)
    requires n <= |col|
  {
    && (forall i :: 0 <= i < |segs| ==> IsMaximalSegment(col, n, segs[i].first, segs[i].last))
    && (forall i, j :: 0 <= i < j < |segs| ==> segs[i].last + 1 < segs[j].first)
    && (forall k :: 0 <= k < n && col[k].Present? ==> Covered(segs, k))
    && (n > 0 && col[n - 1].Present? ==> |segs| > 0 && segs[|segs| - 1].last == n - 1)
  }

  lemma {:induction false} KeepSegments(col: seq<Presence>, n: nat, before: seq<Segment>)
    requires n < |col| && col[n].Absent? && SegmentsRight(col, n, before)
    ensures SegmentsRight(col, n + 1, before)
  {
  }

  lemma {:induction false} AddSegment(col: seq<Presence>, n: nat, before: seq<Segment>)
    requires n < |col| && col[n].Present? && !Stays(col, n) && SegmentsRight(col, n, before)
    ensures SegmentsRight(col, n + 1, before + [Segment(n, n)])
  {
    var segs := before + [Segment(n, n)];
    forall i | 0 <= i < |before|
      ensures IsMaximalSegment(col, n + 1, before[i].first, before[i].last) && before[i].last + 1 < n
    {
      assert IsMaximalSegment(col, n, before[i].first, before[i].last);
    }
    forall k | 0 <= k <= n && col[k].Present? ensures Covered(segs, k) {
      if k < n {
        assert Covered(before, k);
        var i :| 0 <= i < |before| && before[i].first <= k <= before[i].last;
        assert segs[i] == before[i];
      } else {
        assert segs[|before|].first <= k <= segs[|before|].last;
      }
    }
  }

  lemma {:induction false} ProlongSegment(col: seq<Presence>, n: nat, before: seq<Segment>)
    requires n < |col| && Stays(col, n) && SegmentsRight(col, n, before)
    ensures |before| > 0
    ensures SegmentsRight(col, n + 1, before[..|before| - 1] + [Segment(before[|before| - 1].first, n)])
  {
    var m := |before| - 1;
    var segs := before[..m] + [Segment(before[m].first, n)];
    forall i | 0 <= i < m ensures IsMaximalSegment(col, n + 1, before[i].first, before[i].last) {
      assert IsMaximalSegment(col, n, before[i].first, before[i].last);
      assert before[i].last + 1 < before[m].first <= before[m].last;
    }
    assert IsMaximalSegment(col, n, before[m].first, before[m].last);
    assert IsMaximalSegment(col, n + 1, before[m].first, n);
    forall k | 0 <= k <= n && col[k].Present? ensures Covered(segs, k) {
      if k < n {
        assert Covered(before, k);
        var i :| 0 <= i < |before| && before[i].first <= k <= before[i].last;
        assert segs[i].first <= k <= segs[i].last;
      } else {
        assert segs[m].first <= k <= segs[m].last;
      }
    }
  }

  lemma {:induction false} ExtendedIsRight(col: seq<Presence>, n: nat, before: seq<Segment>)
    requires n < |col| && SegmentsRight(col, n, before)
    ensures SegmentsRight(col, n + 1, Extended(col, n, before))
  {
    if col[n].Absent? {
      KeepSegments(col, n, before);
    } else if Stays(col, n) {
      ProlongSegment(col, n, before);
    } else {
      AddSegment(col, n, before);
    }
  }

  lemma {:induction false} SegmentsAreRight(col: seq<Presence>, n: nat)
    requires n <= |col|
    ensures SegmentsRight(col, n, Segments(col, n))
  {
    if n > 0 {
      SegmentsAreRight(col, n - 1);
      ExtendedIsRight(col, n - 1, Segments(col, n - 1));
    }
  }

  // The list holds exactly the maximal segments.
  lemma {:induction false} SegmentsAreTheMaximalOnes(col: seq<Presence>, s: Segment)
    ensures s in Segments(col, |col|) <==> IsMaximalSegment(col, |col|, s.first, s.last)
  {
    SegmentsAreRight(col, |col|);
    var segs := Segments(col, |col|);
    if IsMaximalSegment(col, |col|, s.first, s.last) {
      assert Covered(segs, s.first);
      var i :| 0 <= i < |segs| && segs[i].first <= s.first <= segs[i].last;
      assert IsMaximalSegment(col, |col|, segs[i].first, segs[i].last);
      assert segs[i] == s;
    }
  }

  // The count shown in a reading; segments only begin and end where there is one.
  function CountAt(col: seq<Presence>, k: nat): nat {
    if k < |col| && col[k].Present? then col[k].count else 0
  }

  // Over the segments: last count minus first count.
  function SegmentSum(col: seq<Presence>, segs: seq<Segment>): int {
    if segs == [] then 0
    else
      var s := segs[|segs| - 1];
      SegmentSum(col, segs[..|segs| - 1]) + CountAt(col, s.last) - CountAt(col, s.first)
  }

  function SegmentTotal(col: seq<Presence>, n: nat): int
    requires n <= |col|
  {
    SegmentSum(col, Segments(col, n))
  }

  lemma {:induction false} ExtendedSum(col: seq<Presence>, n: nat, before: seq<Segment>)
    requires n < |col| && (Stays(col, n) ==> |before| > 0 && before[|before| - 1].last == n - 1)
    ensures SegmentSum(col, Extended(col, n, before)) == SegmentSum(col, before) + Increment(col, n)
  {
  }

  lemma {:induction false} SegmentTotalGrows(col: seq<Presence>, n: nat)
    requires n < |col|
    ensures SegmentTotal(col, n + 1) == SegmentTotal(col, n) + Increment(col, n)
  {
    SegmentsAreRight(col, n);
    ExtendedSum(col, n, Segments(col, n));
  }

  // --- Conservation for one device -------------------------------------------------------------

  function IncrementTotal(col: seq<Presence>, n: nat): int
    requires n <= |col|
  {
    if n == 0 then 0 else IncrementTotal(col, n - 1) + Increment(col, n - 1)
  }

  lemma {:induction false} SegmentsAddUpIncrements(col: seq<Presence>, n: nat)
    requires n <= |col|
    ensures SegmentTotal(col, n) == IncrementTotal(col, n)
  {
    if n > 0 {
      SegmentsAddUpIncrements(col, n - 1);
      SegmentTotalGrows(col, n - 1);
    }
  }

  // How many times 2^64 an increment is beyond what its 64-bit difference shows: positive if it is
  // 2^64 or more, negative if the count fell, as it does when a device restarts between readings.
  function Carry(increment: int): int {
    increment / U64
  }

  lemma {:induction false} CarryOfFall(fall: nat)
    requires 0 < fall <= U64
    ensures Carry(0 - fall) == -1
  {
  }

  function Carries(col: seq<Presence>, n: nat): int
    requires n <= |col|
  {
    if n == 0 then 0 else Carries(col, n - 1) + Carry(Increment(col, n - 1))
  }

  lemma {:induction false} ShownIncrementIs(col: seq<Presence>, k: nat)
    requires k < |col|
    ensures ShownIncrement(col, k) == Increment(col, k) - U64 * Carry(Increment(col, k))
  {
    if Stays(col, k) { WrappedDifference(col[k - 1].count, col[k].count); }
  }

  lemma {:induction false} ShownIncrements(col: seq<Presence>, n: nat)
    requires n <= |col|
    ensures ShownTotal(col, n) == IncrementTotal(col, n) - U64 * Carries(col, n)
  {
    if n > 0 {
      ShownIncrements(col, n - 1);
      ShownIncrementIs(col, n - 1);
    }
  }

  // What is reported for a device, whatever its counts do, is the sum over its presence segments of
  // last count minus first count, less 2^64 for every carry; so it is that sum exactly when the
  // carries cancel.
  lemma {:induction false} DeviceConservation(col: seq<Presence>, n: nat)
    requires n <= |col|
    ensures ShownTotal(col, n) == SegmentTotal(col, n) - U64 * Carries(col, n)
    ensures ShownTotal(col, n) == SegmentTotal(col, n) <==> Carries(col, n) == 0
  {
    SegmentsAddUpIncrements(col, n);
    ShownIncrements(col, n);
  }

  // Counters that never go back while the device is listed.
  ghost predicate NeverFalls(col: seq<Presence>) {
    forall k :: 0 <= k < |col| && Stays(col, k) ==> col[k - 1].count <= col[k].count
  }

  ghost predicate IncrementsFit(col: seq<Presence>, n: nat)
    requires n <= |col|
  {
    forall k :: 0 <= k < n ==> Increment(col, k) < U64
  }

  ghost predicate EveryIncrementFits(col: seq<Presence>) {
    IncrementsFit(col, |col|)
  }

  // For these nothing cancels: the carries are none exactly when no single increment reached 2^64.
  lemma {:induction false} CarriesOfGrowingCounter(col: seq<Presence>, n: nat)
    requires NeverFalls(col) && n <= |col|
    ensures Carries(col, n) >= 0
    ensures Carries(col, n) == 0 <==> IncrementsFit(col, n)
  {
    if n > 0 {
      CarriesOfGrowingCounter(col, n - 1);
      assert Increment(col, n - 1) >= 0;
      assert IncrementsFit(col, n) <==> IncrementsFit(col, n - 1) && Increment(col, n - 1) < U64;
    }
  }

  ghost predicate NoFall(col: seq<Presence>, n: nat)
    requires n <= |col|
  {
    forall k :: 0 <= k < n ==> Increment(col, k) >= 0
  }

  lemma {:induction false} NeverFallsIsNoFall(col: seq<Presence>)
    ensures NeverFalls(col) <==> NoFall(col, |col|)
  {
    if NoFall(col, |col|) {
      forall k | 0 <= k < |col| && Stays(col, k) ensures col[k - 1].count <= col[k].count {
        assert Increment(col, k) >= 0;
      }
    }
  }

  // For increments below 2^64 nothing cancels either: the carries are none exactly when no count
  // fell.
  lemma {:induction false} CarriesOfFittingCounter(col: seq<Presence>, n: nat)
    requires n <= |col| && IncrementsFit(col, n)
    ensures Carries(col, n) <= 0
    ensures Carries(col, n) == 0 <==> NoFall(col, n)
  {
    if n > 0 {
      CarriesOfFittingCounter(col, n - 1);
      assert Increment(col, n - 1) < U64;
      assert NoFall(col, n) <==> NoFall(col, n - 1) && Increment(col, n - 1) >= 0;
    }
  }

  // --- Conservation over all devices -----------------------------------------------------------

  lemma {:induction false} StateOfShown(lines: seq<Reading>)
    ensures StateOf(Shown(lines)).Keys == StateOf(lines).Keys
    ensures forall n :: n in StateOf(lines) ==> StateOf(Shown(lines))[n] == Wrap(StateOf(lines)[n])
  {
    if lines != [] {
      StateOfShown(lines[..|lines| - 1]);
      assert Shown(lines)[..|lines| - 1] == Shown(lines[..|lines| - 1]);
    }
  }

  // Reported by the first k readings for the given devices.
  function ReportedFor(truth: seq<seq<Reading>>, names: seq<string>, k: nat): nat
    requires k <= |truth|
  {
    if names == [] then 0
    else ReportedFor(truth, names[..|names| - 1], k) + ShownTotal(Column(truth, names[|names| - 1]), k)
  }

  function TrueTotal(truth: seq<seq<Reading>>, names: seq<string>): int {
    if names == [] then 0
    else TrueTotal(truth, names[..|names| - 1]) + SegmentTotal(Column(truth, names[|names| - 1]), |truth|)
  }

  lemma {:induction false} ShownStep(truth: seq<seq<Reading>>, name: string, k: nat)
    requires k < |truth|
    ensures ShownIncrement(Column(truth, name), k)
         == StepDelta(HeldBefore(ShownRun(truth), k), StateOf(ShownRun(truth)[k]), name)
  {
    StateOfShown(truth[k]);
    if k > 0 { StateOfShown(truth[k - 1]); }
  }

  lemma {:induction false} OneMoreReading(truth: seq<seq<Reading>>, names: seq<string>, k: nat)
    requires k < |truth|
    ensures ReportedFor(truth, names, k + 1) == ReportedFor(truth, names, k)
         + DeltaByName(HeldBefore(ShownRun(truth), k), StateOf(ShownRun(truth)[k]), names)
  {
    if names != [] {
      OneMoreReading(truth, names[..|names| - 1], k);
      ShownStep(truth, names[|names| - 1], k);
    }
  }

  lemma {:induction false} NothingReportedYet(truth: seq<seq<Reading>>, names: seq<string>)
    ensures ReportedFor(truth, names, 0) == 0
  {
    if names != [] { NothingReportedYet(truth, names[..|names| - 1]); }
  }

  // `names` lists, once each, all devices that any reading lists.
  ghost predicate Enumerates(names: seq<string>, truth: seq<seq<Reading>>) {
    && Distinct(names)
    && forall k, i :: 0 <= k < |truth| && 0 <= i < |truth[k]| ==> truth[k][i].name in names
  }

  lemma {:induction false} ReportedByDevice(truth: seq<seq<Reading>>, names: seq<string>, k: nat)
    requires Enumerates(names, truth) && k <= |truth|
    requires forall j :: 0 <= j < |truth| ==> DistinctNames(truth[j])
    ensures Reported(ShownRun(truth), k) == ReportedFor(truth, names, k)
  {
    if k == 0 {
      NothingReportedYet(truth, names);
    } else {
      ReportedByDevice(truth, names, k - 1);
      OneMoreReading(truth, names, k - 1);
      var lines := ShownRun(truth)[k - 1];
      assert DistinctNames(truth[k - 1]);
      forall i | 0 <= i < |lines| ensures lines[i].name in names { assert truth[k - 1][i].name in names; }
      DeltaIsByDevice(HeldBefore(ShownRun(truth), k - 1), lines, names);
    }
  }

  // The carries of all devices over the whole run.
  function TotalCarries(truth: seq<seq<Reading>>, names: seq<string>): int {
    if names == [] then 0
    else TotalCarries(truth, names[..|names| - 1]) + Carries(Column(truth, names[|names| - 1]), |truth|)
  }

  lemma {:induction false} TotalsByDevice(truth: seq<seq<Reading>>, names: seq<string>)
    ensures ReportedFor(truth, names, |truth|) == TrueTotal(truth, names) - U64 * TotalCarries(truth, names)
  {
    if names != [] {
      TotalsByDevice(truth, names[..|names| - 1]);
      DeviceConservation(Column(truth, names[|names| - 1]), |truth|);
    }
  }

  // Conservation over any run, with devices appearing, vanishing and restarting and counters
  // wrapping: all that was reported is the sum, over every device's maximal presence segments, of
  // last count minus first count, less 2^64 for every carry. So it is that sum exactly when the
  // carries of all devices cancel.
  lemma {:induction false} Conservation(truth: seq<seq<Reading>>, names: seq<string>)
    requires Enumerates(names, truth)
    requires forall j :: 0 <= j < |truth| ==> DistinctNames(truth[j])
    ensures Reported(ShownRun(truth), |truth|) == TrueTotal(truth, names) - U64 * TotalCarries(truth, names)
    ensures Reported(ShownRun(truth), |truth|) == TrueTotal(truth, names) <==> TotalCarries(truth, names) == 0
  {
    ReportedByDevice(truth, names, |truth|);
    TotalsByDevice(truth, names);
  }

  ghost predicate NoneFalls(truth: seq<seq<Reading>>, names: seq<string>) {
    forall i :: 0 <= i < |names| ==> NeverFalls(Column(truth, names[i]))
  }

  ghost predicate AllFit(truth: seq<seq<Reading>>, names: seq<string>) {
    forall i :: 0 <= i < |names| ==> EveryIncrementFits(Column(truth, names[i]))
  }

  lemma {:induction false} AllFitGrows(truth: seq<seq<Reading>>, names: seq<string>, name: string)
    ensures AllFit(truth, names + [name]) <==> AllFit(truth, names) && EveryIncrementFits(Column(truth, name))
    ensures NoneFalls(truth, names + [name]) <==> NoneFalls(truth, names) && NeverFalls(Column(truth, name))
  {
    var longer := names + [name];
    assert longer[|names|] == name;
    assert forall i :: 0 <= i < |names| ==> longer[i] == names[i];
  }

  // When no count falls while its device is listed, the carries are none exactly when no increment
  // between two readings reached 2^64, and nothing is ever reported too much.
  lemma {:induction false} CarriesOfGrowingCounters(truth: seq<seq<Reading>>, names: seq<string>)
    requires NoneFalls(truth, names)
    ensures TotalCarries(truth, names) >= 0
    ensures TotalCarries(truth, names) == 0 <==> AllFit(truth, names)
  {
    if names != [] {
      var n := |names| - 1;
      assert names == names[..n] + [names[n]];
      AllFitGrows(truth, names[..n], names[n]);
      CarriesOfGrowingCounters(truth, names[..n]);
      CarriesOfGrowingCounter(Column(truth, names[n]), |truth|);
    }
  }

  // So for growing counts conservation is the absence of such an increment.
  lemma {:induction false} ConservationOfGrowingCounts(truth: seq<seq<Reading>>, names: seq<string>)
    requires Enumerates(names, truth) && NoneFalls(truth, names)
    requires forall j :: 0 <= j < |truth| ==> DistinctNames(truth[j])
    ensures Reported(ShownRun(truth), |truth|) <= TrueTotal(truth, names)
    ensures Reported(ShownRun(truth), |truth|) == TrueTotal(truth, names) <==> AllFit(truth, names)
  {
    Conservation(truth, names);
    CarriesOfGrowingCounters(truth, names);
  }

  // When every increment is below 2^64, as for any real counter, the carries are none exactly when no
  // count falls while its device is listed, and nothing is ever reported too little.
  lemma {:induction false} CarriesOfFittingCounters(truth: seq<seq<Reading>>, names: seq<string>)
    requires AllFit(truth, names)
    ensures TotalCarries(truth, names) <= 0
    ensures TotalCarries(truth, names) == 0 <==> NoneFalls(truth, names)
  {
    if names != [] {
      var n := |names| - 1;
      assert names == names[..n] + [names[n]];
      AllFitGrows(truth, names[..n], names[n]);
      CarriesOfFittingCounters(truth, names[..n]);
      CarriesOfFittingCounter(Column(truth, names[n]), |truth|);
      NeverFallsIsNoFall(Column(truth, names[n]));
    }
  }

  lemma {:induction false} ConservationOfFittingCounts(truth: seq<seq<Reading>>, names: seq<string>)
    requires Enumerates(names, truth) && AllFit(truth, names)
    requires forall j :: 0 <= j < |truth| ==> DistinctNames(truth[j])
    ensures Reported(ShownRun(truth), |truth|) >= TrueTotal(truth, names)
    ensures Reported(ShownRun(truth), |truth|) == TrueTotal(truth, names) <==> NoneFalls(truth, names)
  {
    Conservation(truth, names);
    CarriesOfFittingCounters(truth, names);
  }

  lemma {:induction false} CarriesOfTwo(col: seq<Presence>)
    requires |col| == 2
    ensures IncrementTotal(col, 2) == Increment(col, 1) && Carries(col, 2) == Carry(Increment(col, 1))
  {
    assert Increment(col, 0) == 0 && Carry(0) == 0;
    assert IncrementTotal(col, 0) == 0 && Carries(col, 0) == 0;
    assert IncrementTotal(col, 1) == 0 && Carries(col, 1) == 0;
  }

  lemma {:induction false} OneDevice(truth: seq<seq<Reading>>, name: string)
    ensures TrueTotal(truth, [name]) == SegmentTotal(Column(truth, name), |truth|)
    ensures TotalCarries(truth, [name]) == Carries(Column(truth, name), |truth|)
  {
    assert [name][..0] == [];
    assert TrueTotal(truth, []) == 0 && TotalCarries(truth, []) == 0;
  }

  // A device that restarts between two readings, and is back below its old count, is reported with
  // almost 2^64 units.
  lemma {:induction false} RestartIsReportedAsWrap(name: string, before: nat, after: nat)
    requires after < before < U64
    ensures var truth := [[Reading(name, before)], [Reading(name, after)]];
            && Reported(ShownRun(truth), 2) == 0x1_0000_0000_0000_0000 - (before - after)
            && TrueTotal(truth, [name]) == after - before
  {
    var truth := [[Reading(name, before)], [Reading(name, after)]];
    var col := Column(truth, name);
    assert forall v :: [Reading(name, v)][..0] == [];
    assert StateOf(truth[0])[name] == before && StateOf(truth[1])[name] == after;
    assert col == [Present(before), Present(after)];
    OneDevice(truth, name);
    SegmentsAddUpIncrements(col, 2);
    CarriesOfTwo(col);
    CarryOfFall(before - after);
    Conservation(truth, [name]);
  }

  // The first reading only primes: it reports nothing.
  lemma {:induction false} PrimingReportsNothing(lines: seq<Reading>)
    ensures Delta(map[], lines) == 0
  {
    if lines != [] { PrimingReportsNothing(lines[..|lines| - 1]); }
  }

  // A name listed twice in one reading is counted twice, against the same earlier value.
  lemma {:induction false} RepeatedNameIsCountedTwice(last: map<string, nat>, name: string, value: nat)
    requires name in last
    ensures Delta(last, [Reading(name, value), Reading(name, value)]) == 2 * SubU64(value, last[name])
  {
    var line := Reading(name, value);
    assert [line, line][..1] == [line] && [line][..0] == [];
    assert Delta(last, [line]) == SubU64(value, last[name]);
  }
}
