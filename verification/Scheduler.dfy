/** The absolute-tick schedule of Exposer::run: when each round starts (Exposer.cpp). Times are in
    clock ticks. */
module Scheduler {

  // One turn of the loop: how long collect() takes, and by how much a sleep overruns its target.
  datatype Turn = Turn(duration: nat, oversleep: nat)

  // next_tick after k turns.
  function Tick(t0: nat, interval: nat, k: nat): nat {
    if k == 0 then t0 else Tick(t0, interval, k - 1) + interval
  }

  // Ticks are as far apart as the interval, counted from the beginning.
  lemma {:induction false} TicksAreEven(t0: nat, interval: nat, k: nat)
    ensures Tick(t0, interval, k) == t0 + k * interval
  {
    if k > 0 { TicksAreEven(t0, interval, k - 1); }
  }

  // The loop sleeps until the next tick unless it is already past it.
  function NextStart(done: nat, tick: nat, oversleep: nat): nat {
    if done < tick then tick + oversleep else done
  }

  function StartTime(t0: nat, interval: nat, turns: seq<Turn>, k: nat): nat
    requires k <= |turns|
  {
    if k == 0 then t0
    else NextStart(StartTime(t0, interval, turns, k - 1) + turns[k - 1].duration,
                   Tick(t0, interval, k), turns[k - 1].oversleep)
  }

  // A round that is done before the next tick is followed at that tick, and as much later as the
  // sleep overruns; one that is not, at once. The tick is counted from the beginning.
  lemma {:induction false} RoundFollowsAtTickOrAtOnce(t0: nat, interval: nat, turns: seq<Turn>, k: nat)
    requires k < |turns|
    ensures var done, tick := StartTime(t0, interval, turns, k) + turns[k].duration, t0 + (k + 1) * interval;
            StartTime(t0, interval, turns, k + 1) == if done < tick then tick + turns[k].oversleep else done
  {
    TicksAreEven(t0, interval, k + 1);
  }

  // Total duration of turns i..j.
  function Work(turns: seq<Turn>, i: nat, j: nat): nat
    requires i <= j <= |turns|
  {
    if i == j then 0 else Work(turns, i, j - 1) + turns[j - 1].duration
  }

  // Round k would start then if the schedule were met at round j and every later round followed
  // the one before at once.
  function Candidate(t0: nat, interval: nat, turns: seq<Turn>, j: nat, k: nat): nat
    requires j <= k <= |turns|
  {
    Tick(t0, interval, j) + Work(turns, j, k)
  }

  predicate PunctualWakeUps(turns: seq<Turn>) {
    forall i :: 0 <= i < |turns| ==> turns[i].oversleep == 0
  }

  // A round never starts before its tick, nor before any candidate.
  lemma {:induction false} NeverEarly(t0: nat, interval: nat, turns: seq<Turn>, j: nat, k: nat)
    requires j <= k <= |turns|
    ensures Candidate(t0, interval, turns, j, k) <= StartTime(t0, interval, turns, k)
    ensures Tick(t0, interval, k) <= StartTime(t0, interval, turns, k)
  {
    if j < k { NeverEarly(t0, interval, turns, j, k - 1); }
    if j == k && k > 0 { NeverEarly(t0, interval, turns, k - 1, k - 1); }
  }

  // With punctual wake-ups the k-th round starts at one of the candidates, which with NeverEarly
  // makes it their maximum.
  lemma {:induction false} StartsAtACandidate(t0: nat, interval: nat, turns: seq<Turn>, k: nat) returns (j: nat)
    requires k <= |turns| && PunctualWakeUps(turns)
    ensures j <= k && StartTime(t0, interval, turns, k) == Candidate(t0, interval, turns, j, k)
  {
    if k == 0 {
      j := 0;
    } else if StartTime(t0, interval, turns, k - 1) + turns[k - 1].duration < Tick(t0, interval, k) {
      j := k;
    } else {
      j := StartsAtACandidate(t0, interval, turns, k - 1);
    }
  }

  lemma {:induction false} ClosedForm(t0: nat, interval: nat, turns: seq<Turn>, k: nat, start: nat)
    requires k <= |turns| && PunctualWakeUps(turns)
    ensures start == StartTime(t0, interval, turns, k)
       <==> (forall j :: 0 <= j <= k ==> Candidate(t0, interval, turns, j, k) <= start)
            && (exists j :: 0 <= j <= k && Candidate(t0, interval, turns, j, k) == start)
  {
    forall j | 0 <= j <= k ensures Candidate(t0, interval, turns, j, k) <= StartTime(t0, interval, turns, k) {
      NeverEarly(t0, interval, turns, j, k);
    }
    var best := StartsAtACandidate(t0, interval, turns, k);
    assert Candidate(t0, interval, turns, best, k) == StartTime(t0, interval, turns, k);
  }

  lemma {:induction false} TickDifference(t0: nat, interval: nat, j: nat, k: nat)
    requires j <= k
    ensures Tick(t0, interval, k) == Tick(t0, interval, j) + (k - j) * interval
    decreases k
  {
    if j < k {
      TickDifference(t0, interval, j, k - 1);
      assert (k - j) * interval == (k - 1 - j) * interval + interval;
    }
  }

  // Every stretch of turns up to round k fits its share of the schedule, but for `slack`.
  ghost predicate StretchesFit(interval: nat, turns: seq<Turn>, k: nat, slack: nat)
    requires k <= |turns|
  {
    forall j :: 0 <= j <= k ==> Work(turns, j, k) <= (k - j) * interval + slack
  }

  // With punctual wake-ups round k is at most `slack` late if and only if every stretch of turns
  // that ends there exceeds its share of the schedule by at most `slack`.
  lemma {:induction false} LatenessIsLargestExcess(t0: nat, interval: nat, turns: seq<Turn>, k: nat, slack: nat)
    requires k <= |turns| && PunctualWakeUps(turns)
    ensures StartTime(t0, interval, turns, k) <= Tick(t0, interval, k) + slack <==> StretchesFit(interval, turns, k, slack)
  {
    forall j | 0 <= j <= k
      ensures Candidate(t0, interval, turns, j, k) <= StartTime(t0, interval, turns, k)
      ensures Candidate(t0, interval, turns, j, k) == Tick(t0, interval, k) - (k - j) * interval + Work(turns, j, k)
    {
      NeverEarly(t0, interval, turns, j, k);
      TickDifference(t0, interval, j, k);
    }
    var best := StartsAtACandidate(t0, interval, turns, k);
    assert Candidate(t0, interval, turns, best, k) == Tick(t0, interval, k) - (k - best) * interval + Work(turns, best, k);
    if StretchesFit(interval, turns, k, slack) {
      assert Work(turns, best, k) <= (k - best) * interval + slack;
    } else {
      var j :| 0 <= j <= k && Work(turns, j, k) > (k - j) * interval + slack;
      assert Candidate(t0, interval, turns, j, k) <= StartTime(t0, interval, turns, k);
    }
  }

  // Some candidate, plus one oversleep, bounds the start.
  lemma {:induction false} StartNearACandidate(t0: nat, interval: nat, turns: seq<Turn>, k: nat,
                                               e: nat) returns (j: nat)
    requires k <= |turns| && forall i :: 0 <= i < k ==> turns[i].oversleep <= e
    ensures j <= k && StartTime(t0, interval, turns, k) <= Candidate(t0, interval, turns, j, k) + e
  {
    if k == 0 {
      j := 0;
    } else if StartTime(t0, interval, turns, k - 1) + turns[k - 1].duration < Tick(t0, interval, k) {
      j := k;
    } else {
      j := StartNearACandidate(t0, interval, turns, k - 1, e);
    }
  }

  // No drift: with sleeps that overrun by at most e, lateness stays within slack + e however many
  // rounds there have been; oversleeps do not add up.
  lemma {:induction false} NoDrift(t0: nat, interval: nat, turns: seq<Turn>, k: nat, slack: nat, e: nat)
    requires k <= |turns| && StretchesFit(interval, turns, k, slack)
    requires forall i :: 0 <= i < k ==> turns[i].oversleep <= e
    ensures Tick(t0, interval, k) <= StartTime(t0, interval, turns, k) <= Tick(t0, interval, k) + slack + e
  {
    NeverEarly(t0, interval, turns, k, k);
    var j := StartNearACandidate(t0, interval, turns, k, e);
    TickDifference(t0, interval, j, k);
    assert Work(turns, j, k) <= (k - j) * interval + slack;
  }
}
