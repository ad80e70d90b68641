/** The timing of one node's heartbeat thread: lock, SET, ten slices of sleep, again. */
module HeartbeatTiming {
  import opened RedisServer

  // C++ integer division rounds towards zero.
  function TruncDiv(a: int, b: int): int
    requires b > 0
  {
    if a >= 0 then a / b else -((-a) / b)
  }

  function IntervalMs(ttlSeconds: int): int {
    var intervalMs := TruncDiv(ttlSeconds * 1000, 2);
    if intervalMs < 100 then 100 else intervalMs
  }

  // One turn of the heartbeat loop, as the world lets it go: the time until the SET takes effect
  // at the server (waiting for the lock, connecting, sending), whether it does, the time until the
  // reply is handled, and by how much each of the ten sleeps overruns.
  datatype Round = Round(before: nat, ok: bool, after: nat, overruns: seq<nat>)

  ghost predicate WellFormed(rounds: seq<Round>) {
    forall k :: 0 <= k < |rounds| ==> |rounds[k].overruns| == 10
  }

  function Sum(xs: seq<nat>): nat {
    if xs == [] then 0 else Sum(xs[..|xs| - 1]) + xs[|xs| - 1]
  }

  function SliceMs(ttlSeconds: int): nat {
    TruncDiv(IntervalMs(ttlSeconds), 10)
  }

  // The slices of one turn, each with its overrun.
  function SleepTime(ttlSeconds: int, overruns: seq<nat>): nat {
    if overruns == [] then 0
    else SleepTime(ttlSeconds, overruns[..|overruns| - 1]) + SliceMs(ttlSeconds) + overruns[|overruns| - 1]
  }

  // When the loop comes to turn k, having been entered at time t0.
  function TurnTime(t0: nat, ttlSeconds: int, rounds: seq<Round>, k: nat): nat
    requires k <= |rounds|
  {
    if k == 0 then t0
    else TurnTime(t0, ttlSeconds, rounds, k - 1) + rounds[k - 1].before + rounds[k - 1].after
         + SleepTime(ttlSeconds, rounds[k - 1].overruns)
  }

  // When the SET of turn k takes effect.
  function BeatTime(t0: nat, ttlSeconds: int, rounds: seq<Round>, k: nat): nat
    requires k < |rounds|
  {
    TurnTime(t0, ttlSeconds, rounds, k) + rounds[k].before
  }

  // The ten slices of sleep between two beats, on the clock.
  method SleepSlices(ttlSeconds: int, now: nat, overruns: seq<nat>) returns (clock: nat)
    requires |overruns| == 10
    ensures clock == now + SleepTime(ttlSeconds, overruns)
  {
    var intervalMs := TruncDiv(ttlSeconds * 1000, 2);
    if intervalMs < 100 { intervalMs := 100; }
    clock := now;
    for i := 0 to 10
      invariant clock == now + SleepTime(ttlSeconds, overruns[..i])
    {
      assert overruns[..i + 1][..i] == overruns[..i];
      clock := clock + TruncDiv(intervalMs, 10) + overruns[i];
    }
    assert overruns[..10] == overruns;
  }

  // The heartbeat loop while its flag stays set: the times at which its SETs take effect.
  method HeartbeatLoop(t0: nat, ttlSeconds: int, rounds: seq<Round>) returns (beats: seq<nat>)
    requires WellFormed(rounds)
    ensures |beats| == |rounds|
    ensures forall k :: 0 <= k < |rounds| ==> beats[k] == BeatTime(t0, ttlSeconds, rounds, k)
  {
    beats := [];
    var clock := t0;
    for k := 0 to |rounds|
      invariant clock == TurnTime(t0, ttlSeconds, rounds, k)
      invariant |beats| == k
      invariant forall i :: 0 <= i < k ==> beats[i] == BeatTime(t0, ttlSeconds, rounds, i)
    {
      var round := rounds[k];
      clock := clock + round.before;
      beats := beats + [clock];
      clock := SleepSlices(ttlSeconds, clock + round.after, round.overruns);
    }
  }

  // --- What the timing amounts to --------------------------------------------------------------

  // For a time to live of at least a second the ten slices are half of it, exactly.
  lemma {:induction false} SleepIsHalfTheTtl(ttlSeconds: int, overruns: seq<nat>)
    requires ttlSeconds >= 1 && |overruns| == 10
    ensures SleepTime(ttlSeconds, overruns) == 500 * ttlSeconds + Sum(overruns)
  {
    assert ttlSeconds * 1000 / 2 == 500 * ttlSeconds;
    assert SliceMs(ttlSeconds) == 50 * ttlSeconds;
    SlicesAddUp(ttlSeconds, overruns);
  }

  // For none, or a negative one, they are a tenth of a second.
  lemma {:induction false} SleepWithoutTtl(ttlSeconds: int, overruns: seq<nat>)
    requires ttlSeconds <= 0 && |overruns| == 10
    ensures SleepTime(ttlSeconds, overruns) == 100 + Sum(overruns)
  {
    SlicesAddUp(ttlSeconds, overruns);
    assert SliceMs(ttlSeconds) == 10;
  }

  lemma {:induction false} SlicesAddUp(ttlSeconds: int, overruns: seq<nat>)
    ensures SleepTime(ttlSeconds, overruns) == |overruns| * SliceMs(ttlSeconds) + Sum(overruns)
  {
    if overruns != [] { SlicesAddUp(ttlSeconds, overruns[..|overruns| - 1]); }
  }

  // Everything in the time from beat k to beat k+1 that is not the nominal sleep.
  function Overhead(rounds: seq<Round>, k: nat): nat
    requires k + 1 < |rounds|
  {
    rounds[k].after + Sum(rounds[k].overruns) + rounds[k + 1].before
  }

  function TotalOverhead(rounds: seq<Round>, i: nat, j: nat): nat
    requires i <= j < |rounds|
  {
    if i == j then 0 else TotalOverhead(rounds, i, j - 1) + Overhead(rounds, j - 1)
  }

  lemma {:induction false} TimeBetweenBeats(t0: nat, ttlSeconds: int, rounds: seq<Round>, i: nat, j: nat)
    requires WellFormed(rounds) && ttlSeconds >= 1 && i <= j < |rounds|
    ensures BeatTime(t0, ttlSeconds, rounds, j)
         == BeatTime(t0, ttlSeconds, rounds, i) + Times(j - i, 500 * ttlSeconds) + TotalOverhead(rounds, i, j)
  {
    if i < j {
      TimeBetweenBeats(t0, ttlSeconds, rounds, i, j - 1);
      SleepIsHalfTheTtl(ttlSeconds, rounds[j - 1].overruns);
    }
  }

  // n periods of length `period`.
  function Times(n: nat, period: nat): (r: nat)
    ensures r == n * period
  {
    if n == 0 then 0 else Times(n - 1, period) + period
  }

  lemma {:induction false} TimesGrows(n: nat, m: nat, period: nat)
    requires n <= m
    ensures Times(n, period) <= Times(m, period)
  {
  }

  // Whether two successive good beats, of turns i < j, are close enough: no beat lost in between
  // and the overhead fits in the other half of the time to live, or one beat lost and no overhead
  // at all. Two lost beats in a row are never close enough.
  predicate CloseEnough(ttlSeconds: int, rounds: seq<Round>, i: nat, j: nat)
    requires i < j < |rounds|
  {
    (j == i + 1 && Overhead(rounds, i) <= 500 * ttlSeconds)
    || (j == i + 2 && Overhead(rounds, i) == 0 && Overhead(rounds, i + 1) == 0)
  }

  lemma {:induction false} GapFitsExactlyWhen(t0: nat, ttlSeconds: int, rounds: seq<Round>, i: nat, j: nat)
    requires WellFormed(rounds) && ttlSeconds >= 1 && i < j < |rounds|
    ensures CloseEnough(ttlSeconds, rounds, i, j)
       <==> BeatTime(t0, ttlSeconds, rounds, j) <= BeatTime(t0, ttlSeconds, rounds, i) + 1000 * ttlSeconds
  {
    var half := 500 * ttlSeconds;
    TimeBetweenBeats(t0, ttlSeconds, rounds, i, j);
    assert Times(1, half) == half && Times(2, half) == 2 * half && Times(3, half) == 3 * half;
    if j == i + 1 {
      assert TotalOverhead(rounds, i, i) == 0;
    } else if j == i + 2 {
      assert TotalOverhead(rounds, i, i + 1) == TotalOverhead(rounds, i, i) + Overhead(rounds, i);
    } else {
      TimesGrows(3, j - i, half);
    }
  }

  // --- The beats that took effect -----------------------------------------------------------

  // Indices of the turns, among the first n, whose SET succeeded.
  function GoodRounds(rounds: seq<Round>, n: nat): (good: seq<nat>)
    requires n <= |rounds|
    ensures forall m :: 0 <= m < |good| ==> good[m] < n && rounds[good[m]].ok
    ensures forall m :: 0 <= m < |good| - 1 ==> good[m] < good[m + 1]
    ensures forall k :: 0 <= k < n && rounds[k].ok ==> k in good
  {
    if n == 0 then []
    else GoodRounds(rounds, n - 1) + (if rounds[n - 1].ok then [n - 1] else [])
  }

  // The times at which the server executes this node's SETs.
  function GoodBeats(t0: nat, ttlSeconds: int, rounds: seq<Round>): (times: seq<nat>) {
    var good := GoodRounds(rounds, |rounds|);
    seq(|good|, m requires 0 <= m < |good| => BeatTime(t0, ttlSeconds, rounds, good[m]))
  }

  ghost predicate BeatsInTime(ttlSeconds: int, rounds: seq<Round>) {
    var good := GoodRounds(rounds, |rounds|);
    forall m :: 0 <= m < |good| - 1 ==> CloseEnough(ttlSeconds, rounds, good[m], good[m + 1])
  }

  lemma {:induction false} BeatsInTimeIffNoLongGap(t0: nat, ttlSeconds: int, rounds: seq<Round>)
    requires WellFormed(rounds) && ttlSeconds >= 1
    ensures BeatsInTime(ttlSeconds, rounds) <==> NoLongGap(GoodBeats(t0, ttlSeconds, rounds), 1000 * ttlSeconds)
  {
    var good := GoodRounds(rounds, |rounds|);
    var times := GoodBeats(t0, ttlSeconds, rounds);
    forall m | 0 <= m < |good| - 1
      ensures CloseEnough(ttlSeconds, rounds, good[m], good[m + 1])
         <==> times[m + 1] <= times[m] + 1000 * ttlSeconds
    {
      GapFitsExactlyWhen(t0, ttlSeconds, rounds, good[m], good[m + 1]);
    }
  }

  // When every SET succeeds, the condition is on each turn's overhead alone.
  lemma {:induction false} AllGoodIsOverheadBound(ttlSeconds: int, rounds: seq<Round>)
    requires forall k :: 0 <= k < |rounds| ==> rounds[k].ok
    ensures BeatsInTime(ttlSeconds, rounds)
       <==> forall k :: 0 <= k < |rounds| - 1 ==> Overhead(rounds, k) <= 500 * ttlSeconds
  {
    AllGoodRounds(rounds, |rounds|);
  }

  lemma {:induction false} SeqGrows(n: nat)
    ensures seq(n + 1, k => k) == seq(n, k => k) + [n]
  {
  }

  lemma {:induction false} AllGoodRounds(rounds: seq<Round>, n: nat)
    requires n <= |rounds| && forall k :: 0 <= k < n ==> rounds[k].ok
    ensures GoodRounds(rounds, n) == seq(n, k => k)
  {
    if n > 0 {
      AllGoodRounds(rounds, n - 1);
      SeqGrows(n - 1);
    }
  }
}
