/** The Redis server as the cluster's nodes see it: heartbeat keys with a time to live, and paged
    SCANs, in the one order in which the server executes the commands of all nodes. Time is in
    milliseconds. The promises SCAN makes are the predicate ScanContract; how the server keeps
    them is not part of this model. */
module RedisServer {
  import opened HeartbeatKey

  datatype Op =
    | Set(key: string, ttl: nat)                 // SET key 1 EX ..., ttl in milliseconds
    | Page(scanner: nat, keys: seq<string>)      // one SCAN reply, for the scan `scanner`

  datatype Event = Event(at: nat, op: Op)

  ghost predicate Ordered(run: seq<Event>) {
    forall i, j :: 0 <= i <= j < |run| ==> run[i].at <= run[j].at
  }

  // When each key expires, after the first i commands.
  function Store(run: seq<Event>, i: nat): map<string, nat>
    requires i <= |run|
  {
    if i == 0 then map[]
    else if run[i - 1].op.Set? then Store(run, i - 1)[run[i - 1].op.key := run[i - 1].at + run[i - 1].op.ttl]
    else Store(run, i - 1)
  }

  // A key is gone once the clock is past its expiry time.
  predicate Live(run: seq<Event>, key: string, i: nat, t: nat)
    requires i <= |run|
  {
    key in Store(run, i) && t <= Store(run, i)[key]
  }

  // (i, t) is a point of the run: i commands are done and the clock shows t.
  predicate Instant(run: seq<Event>, i: nat, t: nat) {
    i <= |run| && (i > 0 ==> run[i - 1].at <= t) && (i < |run| ==> t <= run[i].at)
  }

  // --- Scans -----------------------------------------------------------------------------

  // Command a is the first page of a scan and command b the last one.
  ghost predicate ScanWindow(run: seq<Event>, scanner: nat, a: nat, b: nat) {
    a <= b < |run| && run[a].op.Page? && run[a].op.scanner == scanner
    && run[b].op.Page? && run[b].op.scanner == scanner
  }

  ghost predicate During(run: seq<Event>, a: nat, b: nat, i: nat, t: nat)
    requires a <= b < |run|
  {
    a <= i <= b && Instant(run, i, t) && run[a].at <= t <= run[b].at
  }

  ghost predicate LiveThroughout(run: seq<Event>, key: string, a: nat, b: nat)
    requires a <= b < |run|
  {
    forall i: nat, t: nat :: During(run, a, b, i, t) ==> Live(run, key, i, t)
  }

  ghost predicate LiveSometime(run: seq<Event>, key: string, a: nat, b: nat)
    requires a <= b < |run|
  {
    exists i: nat, t: nat :: During(run, a, b, i, t) && Live(run, key, i, t)
  }

  // The keys of the pages of one scan, in the order received; a key may come back twice.
  function Returned(run: seq<Event>, scanner: nat, a: nat, end: nat): seq<string>
    requires a <= end <= |run|
    decreases end - a
  {
    if a == end then []
    else (if run[a].op.Page? && run[a].op.scanner == scanner then run[a].op.keys else [])
         + Returned(run, scanner, a + 1, end)
  }

  // What SCAN ... MATCH promises: a matching key present from start to end is returned, and only
  // matching keys that were present at some time are.
  ghost predicate ScanContract(run: seq<Event>, scanner: nat, a: nat, b: nat) {
    ScanWindow(run, scanner, a, b)
    && (forall key :: GlobMatch(PATTERN, key) && LiveThroughout(run, key, a, b)
          ==> key in Returned(run, scanner, a, b + 1))
    && (forall key :: key in Returned(run, scanner, a, b + 1)
          ==> GlobMatch(PATTERN, key) && LiveSometime(run, key, a, b))
  }

  // --- The commands of one key ---------------------------------------------------------------

  predicate IsSet(e: Event, key: string) {
    e.op.Set? && e.op.key == key
  }

  // The times of the SETs of `key` among the first i commands.
  function SetTimes(run: seq<Event>, key: string, i: nat): seq<nat>
    requires i <= |run|
  {
    if i == 0 then []
    else SetTimes(run, key, i - 1) + (if IsSet(run[i - 1], key) then [run[i - 1].at] else [])
  }

  ghost predicate UniformTtl(run: seq<Event>, key: string, ttl: nat) {
    forall j :: 0 <= j < |run| && IsSet(run[j], key) ==> run[j].op.ttl == ttl
  }

  lemma {:induction false} SetTimesPrefix(run: seq<Event>, key: string, i: nat, n: nat)
    requires i <= n <= |run|
    ensures SetTimes(run, key, i) <= SetTimes(run, key, n)
    decreases n
  {
    if i < n {
      SetTimesPrefix(run, key, i, n - 1);
      assert SetTimes(run, key, n - 1) <= SetTimes(run, key, n);
    }
  }

  lemma {:induction false} SetTimesEarlier(run: seq<Event>, key: string, i: nat)
    requires i <= |run| && Ordered(run)
    ensures i == 0 ==> SetTimes(run, key, i) == []
    ensures i > 0 ==> forall m :: 0 <= m < |SetTimes(run, key, i)| ==> SetTimes(run, key, i)[m] <= run[i - 1].at
  {
    if i == 0 {
      assert SetTimes(run, key, i) == [];
    } else {
      SetTimesEarlier(run, key, i - 1);
      var before, times := SetTimes(run, key, i - 1), SetTimes(run, key, i);
      forall m | 0 <= m < |times| ensures times[m] <= run[i - 1].at {
        if m < |before| { assert times[m] == before[m] <= run[i - 2].at; }
      }
    }
  }

  lemma {:induction false} SetTimesLater(run: seq<Event>, key: string, i: nat, n: nat)
    requires i < n <= |run| && Ordered(run)
    ensures forall m :: |SetTimes(run, key, i)| <= m < |SetTimes(run, key, n)| ==>
              run[i].at <= SetTimes(run, key, n)[m]
    decreases n
  {
    if i + 1 < n { SetTimesLater(run, key, i, n - 1); }
  }

  // With one time to live for all SETs of a key, its expiry is the last SET plus that time.
  lemma {:induction false} LiveMeansRecentSet(run: seq<Event>, key: string, ttl: nat, i: nat, t: nat)
    requires i <= |run| && UniformTtl(run, key, ttl)
    ensures var times := SetTimes(run, key, i);
            Live(run, key, i, t) <==> |times| > 0 && t <= times[|times| - 1] + ttl
  {
    if i > 0 { LiveMeansRecentSet(run, key, ttl, i - 1, t); }
  }

  // `times` never leaves a gap longer than ttl.
  predicate NoLongGap(times: seq<nat>, ttl: nat) {
    forall k :: 0 <= k < |times| - 1 ==> times[k + 1] <= times[k] + ttl
  }

  // The key is there at every point from its first SET until ttl after its last.
  ghost predicate AlwaysLive(run: seq<Event>, key: string, ttl: nat) {
    var times := SetTimes(run, key, |run|);
    |times| > 0 ==> forall i: nat, t: nat ::
      Instant(run, i, t) && |SetTimes(run, key, i)| > 0 && t <= times[|times| - 1] + ttl ==> Live(run, key, i, t)
  }

  lemma {:induction false} LiveWithoutLongGap(run: seq<Event>, key: string, ttl: nat, i: nat, t: nat)
    requires Ordered(run) && UniformTtl(run, key, ttl) && Instant(run, i, t)
    requires NoLongGap(SetTimes(run, key, |run|), ttl)
    requires var times := SetTimes(run, key, |run|);
             |SetTimes(run, key, i)| > 0 && |times| > 0 && t <= times[|times| - 1] + ttl
    ensures Live(run, key, i, t)
  {
    var times := SetTimes(run, key, |run|);
    var m := |SetTimes(run, key, i)|;
    SetTimesPrefix(run, key, i, |run|);
    LiveMeansRecentSet(run, key, ttl, i, t);
    if m < |times| {
      assert i < |run|;
      SetTimesLater(run, key, i, |run|);
      assert t <= run[i].at <= times[m] <= times[m - 1] + ttl;
    }
  }

  // Position of the command that made SetTimes reach length m.
  lemma {:induction false} FindSet(run: seq<Event>, key: string, m: nat, n: nat) returns (i: nat)
    requires n <= |run| && 0 < m <= |SetTimes(run, key, n)|
    ensures 0 < i <= n && IsSet(run[i - 1], key) && |SetTimes(run, key, i)| == m
    ensures |SetTimes(run, key, i - 1)| == m - 1
    ensures SetTimes(run, key, i)[m - 1] == run[i - 1].at
    decreases n
  {
    if |SetTimes(run, key, n)| == m && IsSet(run[n - 1], key) {
      i := n;
    } else {
      i := FindSet(run, key, m, n - 1);
    }
  }

  // Some point of the run shows the time t, between two given positions.
  lemma {:induction false} FindInstant(run: seq<Event>, lo: nat, hi: nat, t: nat) returns (i: nat)
    requires Ordered(run) && 0 < lo <= hi < |run| && run[lo - 1].at <= t <= run[hi].at
    ensures lo <= i <= hi && Instant(run, i, t)
    decreases hi - lo
  {
    if t <= run[lo].at {
      i := lo;
    } else {
      i := FindInstant(run, lo + 1, hi, t);
    }
  }

  lemma {:induction false} LongGapKills(run: seq<Event>, key: string, ttl: nat, k: nat)
    requires Ordered(run) && UniformTtl(run, key, ttl)
    requires var times := SetTimes(run, key, |run|);
             k + 1 < |times| && times[k + 1] > times[k] + ttl
    ensures !AlwaysLive(run, key, ttl)
  {
    var times := SetTimes(run, key, |run|);
    var lo := FindSet(run, key, k + 1, |run|);
    var hi := FindSet(run, key, k + 2, |run|);
    SetTimesPrefix(run, key, lo, |run|);
    SetTimesPrefix(run, key, hi, |run|);
    if hi <= lo { SetTimesPrefix(run, key, hi, lo); }
    assert times[k] == run[lo - 1].at && times[k + 1] == run[hi - 1].at;
    var t := times[k] + ttl + 1;
    var i := FindInstant(run, lo, hi - 1, t);
    SetTimesPrefix(run, key, lo, i);
    SetTimesPrefix(run, key, i, hi - 1);
    assert SetTimes(run, key, i) == SetTimes(run, key, lo);
    LiveMeansRecentSet(run, key, ttl, i, t);
    SetTimesLater(run, key, hi - 1, |run|);
    assert times[|times| - 1] >= run[hi - 1].at >= t;
    assert !Live(run, key, i, t);
  }

  // A heartbeat keeps its key alive at every instant if and only if it never leaves a gap longer
  // than the time to live.
  lemma {:induction false} AlwaysLiveIffNoLongGap(run: seq<Event>, key: string, ttl: nat)
    requires Ordered(run) && UniformTtl(run, key, ttl)
    ensures AlwaysLive(run, key, ttl) <==> NoLongGap(SetTimes(run, key, |run|), ttl)
  {
    var times := SetTimes(run, key, |run|);
    if NoLongGap(times, ttl) {
      forall i: nat, t: nat | Instant(run, i, t) && |SetTimes(run, key, i)| > 0
        ensures |times| > 0 && (t <= times[|times| - 1] + ttl ==> Live(run, key, i, t))
      {
        SetTimesPrefix(run, key, i, |run|);
        if t <= times[|times| - 1] + ttl { LiveWithoutLongGap(run, key, ttl, i, t); }
      }
    } else {
      var k :| 0 <= k < |times| - 1 && times[k + 1] > times[k] + ttl;
      LongGapKills(run, key, ttl, k);
    }
  }

  // --- One key during a window -----------------------------------------------------------------

  // Of these SETs, n are done when a window begins; from the last of them on, each that runs out
  // before `end` is followed by another in time.
  predicate CoveredUntil(times: seq<nat>, ttl: nat, n: nat, end: nat) {
    n > 0 && forall m :: n - 1 <= m < |times| && times[m] + ttl < end
               ==> m + 1 < |times| && times[m + 1] <= times[m] + ttl
  }

  lemma {:induction false} CoveredIsLive(run: seq<Event>, key: string, ttl: nat, a: nat, b: nat, i: nat, t: nat)
    requires Ordered(run) && UniformTtl(run, key, ttl) && a <= b < |run| && During(run, a, b, i, t)
    requires CoveredUntil(SetTimes(run, key, |run|), ttl, |SetTimes(run, key, a)|, run[b].at)
    ensures Live(run, key, i, t)
  {
    var times := SetTimes(run, key, |run|);
    SetTimesPrefix(run, key, a, i);
    SetTimesPrefix(run, key, i, |run|);
    LiveMeansRecentSet(run, key, ttl, i, t);
    var m := |SetTimes(run, key, i)| - 1;
    if times[m] + ttl < t {
      assert m + 1 < |times| && times[m + 1] <= times[m] + ttl;
      SetTimesLater(run, key, i, |run|);
    }
  }

  // A key that is live at a point has been set within ttl, so a SET that ran out before then has
  // another behind it.
  lemma {:induction false} AnotherSet(run: seq<Event>, key: string, ttl: nat, b: nat, m: nat)
    requires Ordered(run) && UniformTtl(run, key, ttl) && b < |run| && Live(run, key, b, run[b].at)
    requires m < |SetTimes(run, key, |run|)| && SetTimes(run, key, |run|)[m] + ttl < run[b].at
    ensures m + 1 < |SetTimes(run, key, b)|
  {
    SetTimesPrefix(run, key, b, |run|);
    SetTimesLater(run, key, b, |run|);
    LiveMeansRecentSet(run, key, ttl, b, run[b].at);
  }

  // Just before that SET the key is still there.
  lemma {:induction false} LiveIsCovered(run: seq<Event>, key: string, ttl: nat, a: nat, b: nat, m: nat)
    requires Ordered(run) && UniformTtl(run, key, ttl) && a <= b < |run| && LiveThroughout(run, key, a, b)
    requires |SetTimes(run, key, a)| <= m + 1 < |SetTimes(run, key, b)|
    ensures SetTimes(run, key, b)[m + 1] <= SetTimes(run, key, b)[m] + ttl
  {
    var hi := FindSet(run, key, m + 2, b);
    if hi <= a { SetTimesPrefix(run, key, hi, a); }
    SetTimesPrefix(run, key, hi, b);
    SetTimesPrefix(run, key, hi - 1, b);
    assert During(run, a, b, hi - 1, run[hi - 1].at);
    LiveMeansRecentSet(run, key, ttl, hi - 1, run[hi - 1].at);
  }

  // A key is live for the whole of a window, whatever happened before and happens after, if and only
  // if its SETs cover the window.
  lemma {:induction false} LiveThroughoutIffCovered(run: seq<Event>, key: string, ttl: nat, a: nat, b: nat)
    requires Ordered(run) && UniformTtl(run, key, ttl) && a <= b < |run|
    ensures LiveThroughout(run, key, a, b)
       <==> CoveredUntil(SetTimes(run, key, |run|), ttl, |SetTimes(run, key, a)|, run[b].at)
  {
    var times, n := SetTimes(run, key, |run|), |SetTimes(run, key, a)|;
    if CoveredUntil(times, ttl, n, run[b].at) {
      forall i: nat, t: nat | During(run, a, b, i, t) ensures Live(run, key, i, t) {
        CoveredIsLive(run, key, ttl, a, b, i, t);
      }
    }
    if LiveThroughout(run, key, a, b) {
      assert During(run, a, b, a, run[a].at);
      LiveMeansRecentSet(run, key, ttl, a, run[a].at);
      forall m | n - 1 <= m < |times| && times[m] + ttl < run[b].at
        ensures m + 1 < |times| && times[m + 1] <= times[m] + ttl
      {
        assert During(run, a, b, b, run[b].at);
        AnotherSet(run, key, ttl, b, m);
        LiveIsCovered(run, key, ttl, a, b, m);
        SetTimesPrefix(run, key, b, |run|);
      }
    }
  }

  // A key is live at some point of a window if and only if it is at the first, or set during it.
  lemma {:induction false} LiveSometimeIff(run: seq<Event>, key: string, ttl: nat, a: nat, b: nat)
    requires Ordered(run) && UniformTtl(run, key, ttl) && a <= b < |run|
    ensures var before := SetTimes(run, key, a);
            LiveSometime(run, key, a, b) <==>
            |before| < |SetTimes(run, key, b)| || (before != [] && run[a].at <= before[|before| - 1] + ttl)
  {
    var n := |SetTimes(run, key, a)|;
    assert During(run, a, b, a, run[a].at);
    LiveMeansRecentSet(run, key, ttl, a, run[a].at);
    if n < |SetTimes(run, key, b)| {
      var hi := FindSet(run, key, n + 1, b);
      if hi <= a { SetTimesPrefix(run, key, hi, a); }
      LiveMeansRecentSet(run, key, ttl, hi, run[hi - 1].at);
      assert During(run, a, b, hi, run[hi - 1].at) && Live(run, key, hi, run[hi - 1].at);
    }
    forall i: nat, t: nat | During(run, a, b, i, t) && Live(run, key, i, t)
      ensures n < |SetTimes(run, key, b)| || (n > 0 && run[a].at <= SetTimes(run, key, a)[n - 1] + ttl)
    {
      LiveMeansRecentSet(run, key, ttl, i, t);
      SetTimesPrefix(run, key, a, i);
      SetTimesPrefix(run, key, i, b);
    }
  }
}
