/** Exposer: rounds of collectors, with recoverable and fatal errors, on the schedule of Scheduler
    (Exposer.cpp, DeviceCollector.hpp). */
module Exposer {
  import opened Options
  import opened SharedPower
  import opened Scheduler

  datatype Error = Recoverable | Fatal

  // How one collector's collect() goes: sample() throws, or it returns its labels' readings,
  // setContextInfo runs, and after that the sinks work or one of them throws.
  datatype Sinks = SinksWork | SinkThrows(error: Error)
  datatype Attempt = SampleThrows(error: Error) | Sampled(readings: seq<Reading>, sinks: Sinks)

  // One collector's part in a round.
  datatype Part = Part(kind: Kind, attempt: Attempt)

  predicate ThrowsFatal(a: Attempt) {
    match a
    case SampleThrows(error) => error.Fatal?
    case Sampled(_, SinkThrows(error)) => error.Fatal?
    case Sampled(_, SinksWork) => false
  }

  // What a collector that reached setContextInfo contributed.
  function Contribution(p: Part): real {
    if p.attempt.Sampled? then Sum(p.kind, p.attempt.readings) else 0.0
  }

  // The power values reported in this round by the first n collectors that reached setContextInfo.
  function ReportedBefore(parts: seq<Part>, n: nat): real
    requires n <= |parts|
  {
    if n == 0 then 0.0 else ReportedBefore(parts, n - 1) + Contribution(parts[n - 1])
  }

  // The collectors of a round up to and including the first that throws a fatal error.
  function Begun(parts: seq<Part>): (n: nat)
    ensures n <= |parts|
    ensures forall i :: 0 <= i < n - 1 ==> !ThrowsFatal(parts[i].attempt)
    ensures n < |parts| ==> n > 0 && ThrowsFatal(parts[n - 1].attempt)
  {
    if parts == [] then 0
    else if ThrowsFatal(parts[0].attempt) then 1
    else 1 + Begun(parts[1..])
  }

  predicate EndsFatally(parts: seq<Part>) {
    exists i :: 0 <= i < |parts| && ThrowsFatal(parts[i].attempt)
  }

  lemma {:induction false} BegunStopsAtFatal(parts: seq<Part>, i: nat)
    requires i < |parts| && ThrowsFatal(parts[i].attempt)
    ensures Begun(parts) <= i + 1
  {
  }

  // A fatal error: of sampling, or of a sink.
  ghost predicate IsFatal(a: Attempt) {
    a == SampleThrows(Fatal) || exists readings :: a == Sampled(readings, SinkThrows(Fatal))
  }

  // A round ends fatally exactly if one of its collectors meets a fatal error, of sampling or of a
  // sink; the collectors begun are then those up to the first that does, and otherwise all.
  lemma {:induction false} RoundEndsAtFirstFatal(parts: seq<Part>)
    ensures EndsFatally(parts) <==> exists i :: 0 <= i < |parts| && IsFatal(parts[i].attempt)
    ensures EndsFatally(parts) ==> Begun(parts) > 0 && IsFatal(parts[Begun(parts) - 1].attempt)
    ensures !EndsFatally(parts) ==> Begun(parts) == |parts|
    ensures forall i :: 0 <= i < Begun(parts) - 1 ==> !IsFatal(parts[i].attempt)
  {
    forall i | 0 <= i < |parts| ensures IsFatal(parts[i].attempt) <==> ThrowsFatal(parts[i].attempt) {
      FatalThrows(parts[i].attempt);
    }
    if i :| 0 <= i < |parts| && ThrowsFatal(parts[i].attempt) { BegunStopsAtFatal(parts, i); }
    BegunReachesEnd(parts);
  }

  lemma {:induction false} FatalThrows(a: Attempt)
    ensures IsFatal(a) <==> ThrowsFatal(a)
  {
    if a.Sampled? && a.sinks == SinkThrows(Fatal) { assert a == Sampled(a.readings, SinkThrows(Fatal)); }
  }

  // The last collector begun is the last of all, or throws a fatal error.
  lemma {:induction false} BegunReachesEnd(parts: seq<Part>)
    ensures Begun(parts) == |parts| || (Begun(parts) > 0 && ThrowsFatal(parts[Begun(parts) - 1].attempt))
    ensures EndsFatally(parts) ==> Begun(parts) > 0 && ThrowsFatal(parts[Begun(parts) - 1].attempt)
  {
    if EndsFatally(parts) {
      var i :| 0 <= i < |parts| && ThrowsFatal(parts[i].attempt);
      BegunStopsAtFatal(parts, i);
    }
  }

  // What SYS gives its labels as totalPowerWatts, for the collector in position i of a round that
  // began with an empty context.
  function Totals(parts: seq<Part>, i: nat): seq<real>
    requires i < |parts|
  {
    if parts[i].kind == SYS && parts[i].attempt.Sampled?
    then seq(|parts[i].attempt.readings|, _ => ReportedBefore(parts, i)) else []
  }

  function RoundTotals(parts: seq<Part>, n: nat): seq<seq<real>>
    requires n <= |parts|
  {
    if n == 0 then [] else RoundTotals(parts, n - 1) + [Totals(parts, n - 1)]
  }

  // What the SYS collectors of a round report, collector by collector, as far as the round gets.
  function Report(parts: seq<Part>): seq<seq<real>> {
    RoundTotals(parts, Begun(parts))
  }

  // What one collector of a round gives its labels: a SYS collector that reached setContextInfo
  // gives each the power values that the collectors before it in this round reported, whatever
  // became of their sinks, and nothing else; no other collector gives a total.
  ghost predicate TotalsOf(parts: seq<Part>, i: nat, totals: seq<real>)
    requires i < |parts|
  {
    if parts[i].kind == SYS && parts[i].attempt.Sampled? then
      && |totals| == |parts[i].attempt.readings|
      && forall l :: 0 <= l < |totals| ==> totals[l] == ReportedBefore(parts, i)
    else totals == []
  }

  // So it is for every collector that the round gets to.
  ghost predicate SysReportsThisRound(parts: seq<Part>, totals: seq<seq<real>>) {
    |totals| == Begun(parts) && forall i :: 0 <= i < |totals| ==> TotalsOf(parts, i, totals[i])
  }

  lemma {:induction false} ReportIsOfThisRound(parts: seq<Part>)
    ensures SysReportsThisRound(parts, Report(parts))
  {
    TotalsPerCollector(parts, Begun(parts));
  }

  lemma {:induction false} TotalsPerCollector(parts: seq<Part>, n: nat)
    requires n <= |parts|
    ensures |RoundTotals(parts, n)| == n && forall i :: 0 <= i < n ==> RoundTotals(parts, n)[i] == Totals(parts, i)
  {
    if n > 0 { TotalsPerCollector(parts, n - 1); }
  }

  // --- Rounds of a run ---------------------------------------------------------------------------

  // One round: how its collectors go, how long collect() takes, how far the sleep after it
  // overruns, and whether stop() is called before the loop looks at its flag again.
  datatype Round = Round(parts: seq<Part>, turn: Turn, stopped: bool)

  predicate IsLast(r: Round) {
    r.stopped || EndsFatally(r.parts)
  }

  // The rounds that take place: up to and including the first after which the flag is down.
  function RoundsRun(rounds: seq<Round>): (n: nat)
    ensures n <= |rounds|
    ensures forall i :: 0 <= i < n - 1 ==> !IsLast(rounds[i])
    ensures n < |rounds| ==> n > 0 && IsLast(rounds[n - 1])
  {
    if rounds == [] then 0
    else if IsLast(rounds[0]) then 1
    else 1 + RoundsRun(rounds[1..])
  }

  lemma {:induction false} RunStopsAtLastRound(rounds: seq<Round>, i: nat)
    requires i < |rounds| && IsLast(rounds[i])
    ensures RoundsRun(rounds) <= i + 1
  {
  }

  predicate NoneLast(rounds: seq<Round>, n: nat)
    requires n <= |rounds|
  {
    forall i :: 0 <= i < n ==> !IsLast(rounds[i])
  }

  lemma {:induction false} RunGoesOn(rounds: seq<Round>, n: nat)
    requires n <= |rounds| && NoneLast(rounds, n)
    ensures RoundsRun(rounds) >= n && (n < |rounds| ==> RoundsRun(rounds) > n)
  {
  }

  function Turns(rounds: seq<Round>): (turns: seq<Turn>)
    ensures |turns| == |rounds|
  {
    seq(|rounds|, k requires 0 <= k < |rounds| => rounds[k].turn)
  }

  // One round of a run as it can be seen from outside: its start, and its power totals.
  datatype RoundLog = RoundLog(start: nat, totals: seq<seq<real>>)

  function LogOf(t0: nat, interval: nat, rounds: seq<Round>, k: nat): RoundLog
    requires k < |rounds|
  {
    RoundLog(StartTime(t0, interval, Turns(rounds), k), Report(rounds[k].parts))
  }

  ghost predicate LogFits(t0: nat, interval: nat, rounds: seq<Round>, log: seq<RoundLog>) {
    |log| <= |rounds| && forall k :: 0 <= k < |log| ==> log[k] == LogOf(t0, interval, rounds, k)
  }

  ghost predicate EachRoundReportsItself(rounds: seq<Round>, log: seq<RoundLog>) {
    |log| <= |rounds| && forall k :: 0 <= k < |log| ==> SysReportsThisRound(rounds[k].parts, log[k].totals)
  }

  lemma {:induction false} LoggedRoundsReportThemselves(t0: nat, interval: nat, rounds: seq<Round>, log: seq<RoundLog>)
    requires LogFits(t0, interval, rounds, log)
    ensures EachRoundReportsItself(rounds, log)
  {
    forall k | 0 <= k < |log| ensures SysReportsThisRound(rounds[k].parts, log[k].totals) {
      ReportIsOfThisRound(rounds[k].parts);
    }
  }

  lemma {:induction false} LogGrows(t0: nat, interval: nat, rounds: seq<Round>, log: seq<RoundLog>, round: RoundLog)
    requires LogFits(t0, interval, rounds, log) && |log| < |rounds|
    requires round == LogOf(t0, interval, rounds, |log|)
    ensures LogFits(t0, interval, rounds, log + [round])
  {
  }

  // How many rounds took place when the loop ends after k of them.
  lemma {:induction false} RunEnds(rounds: seq<Round>, k: nat, running: bool)
    requires k <= |rounds|
    requires if running then k == |rounds| && NoneLast(rounds, k)
             else k > 0 && NoneLast(rounds, k - 1) && IsLast(rounds[k - 1])
    ensures RoundsRun(rounds) == k
  {
    if running {
      RunGoesOn(rounds, k);
    } else {
      RunStopsAtLastRound(rounds, k - 1);
      RunGoesOn(rounds, k - 1);
    }
  }

  class Exposer {
    var running: bool
    const interval: nat
    const sharedPower: SharedPowerContext

    constructor (interval: nat, sharedPower: SharedPowerContext)
      ensures !running && this.interval == interval && this.sharedPower == sharedPower
    {
      running := false;
      this.interval := interval;
      this.sharedPower := sharedPower;
    }

    method Stop()
      modifies `running
      ensures !running
    {
      running := false;
    }

    // collect() of one collector.
    method CollectOne(part: Part) returns (error: Option<Error>, totals: seq<real>)
      modifies sharedPower
      ensures error == match part.attempt {
          case SampleThrows(e) => Some(e)
          case Sampled(_, SinkThrows(e)) => Some(e)
          case Sampled(_, SinksWork) => None
        }
      ensures Total(sharedPower.View()) == old(Total(sharedPower.View())) + Contribution(part)
      ensures totals == if part.kind == SYS && part.attempt.Sampled?
                        then seq(|part.attempt.readings|, i => old(Total(sharedPower.View()))) else []
    {
      match part.attempt {
        case SampleThrows(e) =>
          return Some(e), [];
        case Sampled(readings, sinks) =>
          totals := sharedPower.SetContextInfo(part.kind, readings);
          error := if sinks.SinkThrows? then Some(sinks.error) else None;
      }
    }

    // One round. The context is empty again afterwards, unless the round ended fatally.
    method Collect(parts: seq<Part>) returns (totals: seq<seq<real>>)
      requires sharedPower.View() == EMPTY
      modifies `running, sharedPower
      ensures totals == Report(parts) && SysReportsThisRound(parts, totals)
      ensures running == (old(running) && !EndsFatally(parts))
      ensures !EndsFatally(parts) ==> sharedPower.View() == EMPTY
      ensures EndsFatally(parts) ==> Total(sharedPower.View()) == ReportedBefore(parts, Begun(parts))
    {
      ReportIsOfThisRound(parts);
      totals := [];
      var i := 0;
      while i < |parts|
        invariant 0 <= i <= |parts| && running == old(running)
        invariant forall j :: 0 <= j < i ==> !ThrowsFatal(parts[j].attempt)
        invariant Total(sharedPower.View()) == ReportedBefore(parts, i)
        invariant totals == RoundTotals(parts, i)
      {
        var error, more := CollectOne(parts[i]);
        totals := totals + [more];
        assert more == Totals(parts, i);
        i := i + 1;
        if error == Some(Recoverable) { continue; }
        if error == Some(Fatal) {
          BegunStopsAtFatal(parts, i - 1);
          assert Begun(parts) == i;
          Stop();
          return;
        }
      }
      assert Begun(parts) == |parts|;
      sharedPower.ReSet();
    }

    // The body of the loop: one round, and the sleep to the next tick if that is still to come.
    method Turn(round: Round, tick: nat, start: nat) returns (nextTick: nat, now: nat, totals: seq<seq<real>>)
      requires running && sharedPower.View() == EMPTY
      modifies `running, sharedPower
      ensures running == !IsLast(round)
      ensures running ==> sharedPower.View() == EMPTY
      ensures totals == Report(round.parts)
      ensures nextTick == tick + interval
      ensures now == NextStart(start + round.turn.duration, nextTick, round.turn.oversleep)
    {
      totals := Collect(round.parts);
      now := start + round.turn.duration;
      nextTick := tick + interval;
      if now < nextTick { now := nextTick + round.turn.oversleep; }
      if round.stopped { Stop(); }
    }

    // The loop, from the first clock reading t0 on. It yields when each round starts and what its
    // SYS collectors report. `rounds` is as much of the future as is needed.
    method Run(t0: nat, rounds: seq<Round>) returns (log: seq<RoundLog>)
      requires sharedPower.View() == EMPTY
      modifies `running, sharedPower
      ensures |log| == RoundsRun(rounds)
      ensures LogFits(t0, interval, rounds, log)
      ensures EachRoundReportsItself(rounds, log)
    {
      running := true;
      var nextTick := t0;
      var now := t0;
      log := [];
      var k := 0;
      while running && k < |rounds|
        invariant 0 <= k <= |rounds| && |log| == k
        invariant nextTick == Tick(t0, interval, k)
        invariant now == StartTime(t0, interval, Turns(rounds), k)
        invariant running ==> sharedPower.View() == EMPTY && NoneLast(rounds, k)
        invariant !running ==> k > 0 && NoneLast(rounds, k - 1) && IsLast(rounds[k - 1])
        invariant LogFits(t0, interval, rounds, log)
        decreases |rounds| - k
      {
        var start := now;
        var totals;
        nextTick, now, totals := Turn(rounds[k], nextTick, start);
        LogGrows(t0, interval, rounds, log, RoundLog(start, totals));
        log := log + [RoundLog(start, totals)];
        k := k + 1;
      }
      LoggedRoundsReportThemselves(t0, interval, rounds, log);
      RunEnds(rounds, k, running);
    }
  }

  // --- What the totals mean ------------------------------------------------------------------------

  // A failed reading is -1.
  predicate IsSentinel(watts: real) {
    watts == -1.0
  }

  function Valid(watts: real): real {
    if IsSentinel(watts) then 0.0 else watts
  }

  // The sum a reader of the metric expects: the component power that was really read.
  function RealSum(kind: Kind, readings: seq<Reading>): real {
    if readings == [] then 0.0
    else
      var r := readings[|readings| - 1];
      RealSum(kind, readings[..|readings| - 1]) + Counted(kind, Reading(Valid(r.watts), Valid(r.memoryWatts)))
  }

  function RealBefore(parts: seq<Part>, n: nat): real
    requires n <= |parts|
  {
    if n == 0 then 0.0
    else RealBefore(parts, n - 1)
         + (if parts[n - 1].attempt.Sampled? then RealSum(parts[n - 1].kind, parts[n - 1].attempt.readings) else 0.0)
  }

  predicate HasSentinel(kind: Kind, r: Reading) {
    (kind in {CPU, GPU, NPU} && IsSentinel(r.watts)) || (kind == CPU && IsSentinel(r.memoryWatts))
  }

  ghost predicate SentinelFree(kind: Kind, readings: seq<Reading>) {
    forall i :: 0 <= i < |readings| ==> !HasSentinel(kind, readings[i])
  }

  lemma {:induction false} SentinelsLowerTheSum(kind: Kind, readings: seq<Reading>)
    ensures Sum(kind, readings) <= RealSum(kind, readings)
    ensures Sum(kind, readings) == RealSum(kind, readings) <==> SentinelFree(kind, readings)
  {
    if readings != [] {
      var rest, r := readings[..|readings| - 1], readings[|readings| - 1];
      SentinelsLowerTheSum(kind, rest);
      assert SentinelFree(kind, readings) <==> SentinelFree(kind, rest) && !HasSentinel(kind, r) by {
        assert forall i :: 0 <= i < |rest| ==> rest[i] == readings[i];
      }
    }
  }

  ghost predicate AllSentinelFree(parts: seq<Part>, n: nat)
    requires n <= |parts|
  {
    forall i :: 0 <= i < n && parts[i].attempt.Sampled? ==> SentinelFree(parts[i].kind, parts[i].attempt.readings)
  }

  // The total is never above the power really read, and equals it exactly when none of the values
  // added up was the sentinel of a failed reading.
  lemma {:induction false} TotalIsExactIffNoSentinel(parts: seq<Part>, n: nat)
    requires n <= |parts|
    ensures ReportedBefore(parts, n) <= RealBefore(parts, n)
    ensures ReportedBefore(parts, n) == RealBefore(parts, n) <==> AllSentinelFree(parts, n)
  {
    if n > 0 {
      TotalIsExactIffNoSentinel(parts, n - 1);
      if parts[n - 1].attempt.Sampled? {
        SentinelsLowerTheSum(parts[n - 1].kind, parts[n - 1].attempt.readings);
      }
    }
  }

  lemma {:induction false} SumsOfTwo(kind: Kind, a: Reading, b: Reading)
    ensures Sum(kind, [a, b]) == Counted(kind, a) + Counted(kind, b)
    ensures kind == GPU ==> RealSum(kind, [a, b]) == Valid(a.watts) + Valid(b.watts)
  {
    assert [a, b][..1] == [a] && [a][..0] == [];
    assert Sum(kind, [a]) == Counted(kind, a);
    assert kind == GPU ==> RealSum(kind, [a]) == Valid(a.watts);
  }

  lemma {:induction false} OnePart(part: Part)
    requires part.attempt.Sampled?
    ensures ReportedBefore([part], 1) == Sum(part.kind, part.attempt.readings)
    ensures RealBefore([part], 1) == RealSum(part.kind, part.attempt.readings)
  {
    assert ReportedBefore([part], 0) == 0.0 && RealBefore([part], 0) == 0.0;
  }

  // A GPU whose power could not be read beside one of 50 watts: the total is a watt short.
  lemma {:induction false} FailedReadingLowersTotal()
    ensures var parts := [Part(GPU, Sampled([Reading(50.0, 0.0), Reading(-1.0, 0.0)], SinksWork))];
            ReportedBefore(parts, 1) == 49.0 && RealBefore(parts, 1) == 50.0
  {
    SumsOfTwo(GPU, Reading(50.0, 0.0), Reading(-1.0, 0.0));
    OnePart(Part(GPU, Sampled([Reading(50.0, 0.0), Reading(-1.0, 0.0)], SinksWork)));
  }
}
