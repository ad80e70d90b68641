/** The failure detector as a whole: N heartbeat threads, one server, and the count of a scan. */
module FailureDetector {
  import opened HeartbeatKey
  import opened RedisServer
  import opened HeartbeatTiming
  import opened NodeCount

  // One heartbeat loop: when it began, and how every turn of it went.
  datatype Loop = Loop(t0: nat, rounds: seq<Round>)

  // One node: its time to live, and its heartbeat loops, one after the other: it may be stopped or
  // crash, and be started again.
  datatype Node = Node(ttlSeconds: int, loops: seq<Loop>)

  // The cluster's nodes, by identifier.
  type Cluster = map<string, Node>

  // A turn of one of the loops.
  datatype Beat = Beat(loop: nat, turn: nat)

  predicate IsBeat(node: Node, b: Beat) {
    b.loop < |node.loops| && b.turn < |node.loops[b.loop].rounds|
  }

  // The beats of loop k whose SET succeeded.
  function LoopBeats(node: Node, k: nat): (beats: seq<Beat>)
    requires k < |node.loops|
    ensures forall m :: 0 <= m < |beats| ==> IsBeat(node, beats[m]) && beats[m].loop == k
    ensures forall m :: 0 <= m < |beats| - 1 ==> beats[m].turn < beats[m + 1].turn
  {
    var rounds := node.loops[k].rounds;
    var good := GoodRounds(rounds, |rounds|);
    seq(|good|, m requires 0 <= m < |good| => Beat(k, good[m]))
  }

  // Those of the first k loops.
  function BeatsOfLoops(node: Node, k: nat): (beats: seq<Beat>)
    requires k <= |node.loops|
    ensures forall m :: 0 <= m < |beats| ==> IsBeat(node, beats[m]) && beats[m].loop < k
    ensures forall m :: 0 <= m < |beats| - 1 && beats[m].loop == beats[m + 1].loop ==> beats[m].turn < beats[m + 1].turn
  {
    if k == 0 then [] else BeatsOfLoops(node, k - 1) + LoopBeats(node, k - 1)
  }

  function NodeBeats(node: Node): seq<Beat> {
    BeatsOfLoops(node, |node.loops|)
  }

  // When the SET of a beat takes effect.
  function TimeOf(node: Node, b: Beat): nat
    requires IsBeat(node, b)
  {
    BeatTime(node.loops[b.loop].t0, node.ttlSeconds, node.loops[b.loop].rounds, b.turn)
  }

  function BeatTimes(node: Node): seq<nat> {
    var beats := NodeBeats(node);
    seq(|beats|, m requires 0 <= m < |beats| => TimeOf(node, beats[m]))
  }

  // A beat is followed by the next in time: by the timing condition within a loop, and by the clock
  // where the node was started again in between.
  predicate Followed(node: Node, b: Beat, next: Beat)
    requires IsBeat(node, b) && IsBeat(node, next) && (b.loop == next.loop ==> b.turn < next.turn)
  {
    if b.loop == next.loop then CloseEnough(node.ttlSeconds, node.loops[b.loop].rounds, b.turn, next.turn)
    else TimeOf(node, next) <= TimeOf(node, b) + 1000 * node.ttlSeconds
  }

  // Every good beat but the last is.
  ghost predicate AllFollowed(node: Node) {
    var beats := NodeBeats(node);
    forall m :: 0 <= m < |beats| - 1 ==> Followed(node, beats[m], beats[m + 1])
  }

  // The server's run holds, for this key, the successful SETs of this node's heartbeat loops.
  ghost predicate Beats(run: seq<Event>, id: string, node: Node) {
    && node.ttlSeconds >= 1
    && (forall k :: 0 <= k < |node.loops| ==> WellFormed(node.loops[k].rounds))
    && UniformTtl(run, Key(id), 1000 * node.ttlSeconds)
    && SetTimes(run, Key(id), |run|) == BeatTimes(node)
  }

  ghost predicate RunOf(run: seq<Event>, cluster: Cluster) {
    && Ordered(run)
    && (forall id :: id in cluster ==> Beats(run, id, cluster[id]))
    && (forall id :: id !in cluster ==> SetTimes(run, Key(id), |run|) == [])
  }

  // The server's times of a node's SETs are those of its good beats, and a beat is followed exactly
  // if the next SET came within ttl.
  lemma {:induction false} BeatAt(run: seq<Event>, id: string, node: Node, m: nat)
    requires Beats(run, id, node) && m < |NodeBeats(node)|
    ensures var beats, times := NodeBeats(node), SetTimes(run, Key(id), |run|);
      && |times| == |beats| && times[m] == TimeOf(node, beats[m])
      && (m + 1 < |beats| ==>
            (Followed(node, beats[m], beats[m + 1]) <==> times[m + 1] <= times[m] + 1000 * node.ttlSeconds))
  {
    var beats := NodeBeats(node);
    if m + 1 < |beats| && beats[m].loop == beats[m + 1].loop {
      var loop := node.loops[beats[m].loop];
      GapFitsExactlyWhen(loop.t0, node.ttlSeconds, loop.rounds, beats[m].turn, beats[m + 1].turn);
    }
  }

  // A node's key is alive from its first SET until ttl after its last if and only if its turns
  // meet the timing condition.
  lemma {:induction false} NodeStaysLiveIffBeatsInTime(run: seq<Event>, cluster: Cluster, id: string)
    requires RunOf(run, cluster) && id in cluster
    ensures AlwaysLive(run, Key(id), 1000 * cluster[id].ttlSeconds) <==> AllFollowed(cluster[id])
  {
    var node := cluster[id];
    AlwaysLiveIffNoLongGap(run, Key(id), 1000 * node.ttlSeconds);
    forall m | 0 <= m < |NodeBeats(node)| - 1
      ensures Followed(node, NodeBeats(node)[m], NodeBeats(node)[m + 1])
         <==> BeatTimes(node)[m + 1] <= BeatTimes(node)[m] + 1000 * node.ttlSeconds
    {
      BeatAt(run, id, node, m);
    }
  }

  // A node is up for a scan: its key was set before the scan began, and from the last good beat
  // before then on, each that ran out before the scan ended was followed in time by another.
  // What its turns did before or do afterwards does not matter.
  ghost predicate UpFor(run: seq<Event>, id: string, node: Node, a: nat, b: nat)
    requires a <= b < |run|
  {
    var beats, n := NodeBeats(node), |SetTimes(run, Key(id), a)|;
    n > 0 && forall m :: n - 1 <= m < |beats| && TimeOf(node, beats[m]) + 1000 * node.ttlSeconds < run[b].at
               ==> m + 1 < |beats| && Followed(node, beats[m], beats[m + 1])
  }

  // A node is down for a scan: its beats before it, if any, ran out before it began, and none
  // followed during it.
  ghost predicate DownFor(run: seq<Event>, id: string, node: Node, a: nat, b: nat)
    requires a <= b < |run|
  {
    var before := SetTimes(run, Key(id), a);
    && SetTimes(run, Key(id), b) == before
    && (before != [] ==> before[|before| - 1] + 1000 * node.ttlSeconds < run[a].at)
  }

  lemma {:induction false} UpIsCovered(run: seq<Event>, id: string, node: Node, a: nat, b: nat)
    requires Beats(run, id, node) && a <= b < |run|
    ensures UpFor(run, id, node, a, b)
       <==> CoveredUntil(SetTimes(run, Key(id), |run|), 1000 * node.ttlSeconds, |SetTimes(run, Key(id), a)|, run[b].at)
  {
    var beats, times, ttl := NodeBeats(node), SetTimes(run, Key(id), |run|), 1000 * node.ttlSeconds;
    assert |times| == |beats|;
    forall m | 0 <= m < |beats|
      ensures times[m] == TimeOf(node, beats[m])
      ensures m + 1 < |beats| ==> (Followed(node, beats[m], beats[m + 1]) <==> times[m + 1] <= times[m] + ttl)
    {
      BeatAt(run, id, node, m);
    }
  }

  lemma {:induction false} UpIff(run: seq<Event>, id: string, node: Node, a: nat, b: nat)
    requires Ordered(run) && Beats(run, id, node) && a <= b < |run|
    ensures UpFor(run, id, node, a, b) <==> LiveThroughout(run, Key(id), a, b)
  {
    UpIsCovered(run, id, node, a, b);
    LiveThroughoutIffCovered(run, Key(id), 1000 * node.ttlSeconds, a, b);
  }

  lemma {:induction false} DownIff(run: seq<Event>, id: string, node: Node, a: nat, b: nat)
    requires Ordered(run) && node.ttlSeconds >= 1 && UniformTtl(run, Key(id), 1000 * node.ttlSeconds) && a <= b < |run|
    ensures DownFor(run, id, node, a, b) <==> !LiveSometime(run, Key(id), a, b)
  {
    SetTimesPrefix(run, Key(id), a, b);
    LiveSometimeIff(run, Key(id), 1000 * node.ttlSeconds, a, b);
  }

  // Up is live for the whole scan, and down is live at no time of it: both exactly.
  lemma {:induction false} UpAndDown(run: seq<Event>, cluster: Cluster, id: string, a: nat, b: nat)
    requires RunOf(run, cluster) && id in cluster && a <= b < |run|
    ensures UpFor(run, id, cluster[id], a, b) <==> LiveThroughout(run, Key(id), a, b)
    ensures DownFor(run, id, cluster[id], a, b) <==> !LiveSometime(run, Key(id), a, b)
  {
    UpIff(run, id, cluster[id], a, b);
    DownIff(run, id, cluster[id], a, b);
  }

  // Who is not in the cluster has no key.
  lemma {:induction false} StrangerIsNeverLive(run: seq<Event>, cluster: Cluster, id: string, a: nat, b: nat)
    requires RunOf(run, cluster) && id !in cluster && a <= b < |run|
    ensures !LiveSometime(run, Key(id), a, b)
  {
    SetTimesPrefix(run, Key(id), a, |run|);
    SetTimesPrefix(run, Key(id), b, |run|);
    forall j | 0 <= j < |run| ensures !IsSet(run[j], Key(id)) {
      SetTimesPrefix(run, Key(id), j + 1, |run|);
      assert SetTimes(run, Key(id), j + 1) == [];
    }
    LiveSometimeIff(run, Key(id), 0, a, b);
  }

  // A node is up as long as it beats, if its turns meet the timing condition from its last beat
  // before the scan on.
  lemma {:induction false} PunctualNodeIsUp(run: seq<Event>, id: string, node: Node, a: nat, b: nat)
    requires Beats(run, id, node) && a <= b < |run| && |SetTimes(run, Key(id), a)| > 0
    requires forall m :: |SetTimes(run, Key(id), a)| - 1 <= m < |NodeBeats(node)| - 1 ==>
               Followed(node, NodeBeats(node)[m], NodeBeats(node)[m + 1])
    requires var times := SetTimes(run, Key(id), |run|);
             |times| > 0 && run[b].at <= times[|times| - 1] + 1000 * node.ttlSeconds
    ensures UpFor(run, id, node, a, b)
  {
    var beats := NodeBeats(node);
    forall m | |SetTimes(run, Key(id), a)| - 1 <= m < |beats|
               && TimeOf(node, beats[m]) + 1000 * node.ttlSeconds < run[b].at
      ensures m + 1 < |beats|
    {
      BeatAt(run, id, node, m);
    }
  }

  ghost function NodesUp(run: seq<Event>, cluster: Cluster, a: nat, b: nat): set<string>
    requires a <= b < |run|
  {
    set id | id in cluster && UpFor(run, id, cluster[id], a, b)
  }

  ghost function NodesNotDown(run: seq<Event>, cluster: Cluster, a: nat, b: nat): set<string>
    requires a <= b < |run|
  {
    set id | id in cluster && !DownFor(run, id, cluster[id], a, b)
  }

  lemma {:induction false} UpAndNotDown(run: seq<Event>, cluster: Cluster, a: nat, b: nat)
    requires RunOf(run, cluster) && a <= b < |run|
    ensures forall id :: id in NodesUp(run, cluster, a, b) <==> id in cluster && LiveThroughout(run, Key(id), a, b)
    ensures forall id :: id in NodesNotDown(run, cluster, a, b) <==> LiveSometime(run, Key(id), a, b)
  {
    forall id
      ensures id in NodesUp(run, cluster, a, b) <==> id in cluster && LiveThroughout(run, Key(id), a, b)
      ensures id in NodesNotDown(run, cluster, a, b) <==> LiveSometime(run, Key(id), a, b)
    {
      if id in cluster { UpAndDown(run, cluster, id, a, b); } else { StrangerIsNeverLive(run, cluster, id, a, b); }
    }
  }

  // The detector: every node that is up for the scan is counted and no node that is down for it is.
  // With no key repeated the count lies between these bounds, and when every node is one or the
  // other it is the number of nodes up exactly if SCAN repeated no key.
  lemma {:induction false} DetectorCountsUpNodes(run: seq<Event>, cluster: Cluster, scanner: nat, a: nat, b: nat)
    requires RunOf(run, cluster) && ScanContract(run, scanner, a, b)
    ensures var keys := Returned(run, scanner, a, b + 1);
            var (up, notDown) := (NodesUp(run, cluster, a, b), NodesNotDown(run, cluster, a, b));
      && (forall id :: id in up ==> Key(id) in keys)
      && (forall id :: Key(id) in keys ==> id in notDown)
      && |up| <= |keys|
      && (NoDuplicates(keys) ==> |keys| <= |notDown|)
      && (up == notDown ==> (|keys| == |up| <==> NoDuplicates(keys)))
  {
    var keys, up := Returned(run, scanner, a, b + 1), NodesUp(run, cluster, a, b);
    UpAndNotDown(run, cluster, a, b);
    CountAtLeastLiveThroughout(run, scanner, a, b, up);
    forall id | id in up ensures Key(id) in keys { PatternMatchesExactlyKeys(Key(id)); }
    if NoDuplicates(keys) { CountAtMostLiveSometime(run, scanner, a, b, NodesNotDown(run, cluster, a, b)); }
    if up == NodesNotDown(run, cluster, a, b) { CountIsExactIffNoDuplicates(run, scanner, a, b, up); }
  }

  // --- Recovery --------------------------------------------------------------------------------------

  // A turn without any overhead.
  function Calm(ok: bool): Round {
    Round(0, ok, 0, [0, 0, 0, 0, 0, 0, 0, 0, 0, 0])
  }

  // Five turns of a node with a time to live of one second; the second and the third SET are lost.
  function OutageRounds(): seq<Round> {
    [Calm(true), Calm(false), Calm(false), Calm(true), Calm(true)]
  }

  function Outage(): Node {
    Node(1, [Loop(0, OutageRounds())])
  }

  // Two scans that each ask once, one during the outage and one after it.
  function OutageRun(id: string): seq<Event> {
    var beat := Set(Key(id), 1000);
    [Event(0, beat), Event(1200, Page(0, [])), Event(1500, beat), Event(1600, Page(1, [Key(id)])), Event(2000, beat)]
  }

  lemma {:induction false} CalmTurn()
    ensures SleepTime(1, Calm(true).overruns) == 500
  {
    var zeros := Calm(true).overruns;
    assert forall n: nat :: n < 10 ==> zeros[..n + 1][..n] == zeros[..n];
    assert Sum(zeros[..0]) == 0 && Sum(zeros[..1]) == 0 && Sum(zeros[..2]) == 0 && Sum(zeros[..3]) == 0;
    assert Sum(zeros[..4]) == 0 && Sum(zeros[..5]) == 0 && Sum(zeros[..6]) == 0 && Sum(zeros[..7]) == 0;
    assert Sum(zeros[..8]) == 0 && Sum(zeros[..9]) == 0 && zeros[..10] == zeros;
    SleepIsHalfTheTtl(1, zeros);
  }

  lemma {:induction false} OutageTurns(k: nat)
    requires k <= 5
    ensures TurnTime(0, 1, OutageRounds(), k) == 500 * k
  {
    if k > 0 {
      OutageTurns(k - 1);
      CalmTurn();
    }
  }

  lemma {:induction false} OnlyFirstGood(rounds: seq<Round>, n: nat)
    requires 1 <= n <= |rounds| && rounds[0].ok && forall k :: 0 < k < n ==> !rounds[k].ok
    ensures GoodRounds(rounds, n) == [0]
  {
    if n > 1 { OnlyFirstGood(rounds, n - 1); } else { assert GoodRounds(rounds, 0) == []; }
  }

  lemma {:induction false} NextGood(rounds: seq<Round>, n: nat, good: seq<nat>)
    requires n < |rounds| && GoodRounds(rounds, n) == good && rounds[n].ok
    ensures GoodRounds(rounds, n + 1) == good + [n]
  {
  }

  lemma {:induction false} GoodAroundOutage(rounds: seq<Round>, n: nat)
    requires 1 <= n && |rounds| == n + 2 && rounds[0].ok && rounds[n].ok && rounds[n + 1].ok
    requires forall k :: 0 < k < n ==> !rounds[k].ok
    ensures GoodRounds(rounds, |rounds|) == [0, n, n + 1]
  {
    OnlyFirstGood(rounds, n);
    NextGood(rounds, n, [0]);
    NextGood(rounds, n + 1, [0] + [n]);
  }

  lemma {:induction false} OneLoop(node: Node)
    requires |node.loops| == 1
    ensures NodeBeats(node) == LoopBeats(node, 0)
  {
    assert BeatsOfLoops(node, 0) == [];
  }

  lemma {:induction false} OutageGood(node: Node)
    requires node == Outage()
    ensures NodeBeats(node) == [Beat(0, 0), Beat(0, 3), Beat(0, 4)]
  {
    OneLoop(node);
    GoodAroundOutage(node.loops[0].rounds, 3);
  }

  lemma {:induction false} OutageBeats(node: Node)
    requires node == Outage()
    ensures BeatTimes(node) == [0, 1500, 2000] && !AllFollowed(node)
  {
    OutageGood(node);
    OutageTurns(0);
    OutageTurns(3);
    OutageTurns(4);
    assert !Followed(node, NodeBeats(node)[0], NodeBeats(node)[1]);
  }

  // The SETs of a run of five commands whose first, third and last set this key.
  lemma {:induction false} SetsOfFive(run: seq<Event>, key: string)
    requires |run| == 5 && IsSet(run[0], key) && !IsSet(run[1], key) && IsSet(run[2], key)
    requires !IsSet(run[3], key) && IsSet(run[4], key)
    ensures SetTimes(run, key, 1) == [run[0].at] && SetTimes(run, key, 3) == [run[0].at, run[2].at]
    ensures SetTimes(run, key, 5) == [run[0].at, run[2].at, run[4].at]
  {
    assert SetTimes(run, key, 0) == [];
    assert SetTimes(run, key, 2) == SetTimes(run, key, 1);
    assert SetTimes(run, key, 4) == SetTimes(run, key, 3);
  }

  lemma {:induction false} OutageNodeBeats(run: seq<Event>, id: string, node: Node)
    requires UniformTtl(run, Key(id), 1000) && SetTimes(run, Key(id), |run|) == [0, 1500, 2000] && node == Outage()
    ensures Beats(run, id, node)
  {
    OutageBeats(node);
    OutageFits(node);
  }

  lemma {:induction false} OutageFits(node: Node)
    requires node == Outage()
    ensures node.ttlSeconds == 1 && |node.loops| == 1 && WellFormed(node.loops[0].rounds)
  {
  }

  lemma {:induction false} OutageSets(run: seq<Event>, id: string)
    requires run == OutageRun(id)
    ensures Ordered(run) && UniformTtl(run, Key(id), 1000)
    ensures SetTimes(run, Key(id), 3) == [0, 1500] && SetTimes(run, Key(id), |run|) == [0, 1500, 2000]
  {
    SetsOfFive(run, Key(id));
  }

  lemma {:induction false} OthersAreSilent(run: seq<Event>, id: string, other: string)
    requires run == OutageRun(id) && other != id
    ensures SetTimes(run, Key(other), |run|) == []
  {
    KeyIsInjective(other, id);
    NoSets(run, Key(other), |run|);
  }

  lemma {:induction false} OutageIsRun(run: seq<Event>, id: string)
    requires run == OutageRun(id)
    ensures RunOf(run, map[id := Outage()])
  {
    OutageSets(run, id);
    OutageNodeBeats(run, id, Outage());
    forall other | other != id ensures SetTimes(run, Key(other), |run|) == [] { OthersAreSilent(run, id, other); }
  }

  lemma {:induction false} NoSets(run: seq<Event>, key: string, n: nat)
    requires n <= |run| && forall j :: 0 <= j < n ==> !IsSet(run[j], key)
    ensures SetTimes(run, key, n) == []
  {
    if n > 0 { NoSets(run, key, n - 1); }
  }

  // Every window has a point.
  lemma {:induction false} SomeInstant(run: seq<Event>, a: nat)
    requires a < |run| && Ordered(run)
    ensures During(run, a, a, a, run[a].at)
  {
  }

  // A cluster of one node: a scan of one page that returns its key when it is up, and nothing when
  // it is down, keeps the contract.
  lemma {:induction false} OneNodeScan(run: seq<Event>, id: string, node: Node, scanner: nat, a: nat, up: bool)
    requires RunOf(run, map[id := node]) && a < |run|
    requires if up then UpFor(run, id, node, a, a) else DownFor(run, id, node, a, a)
    requires run[a].op == Page(scanner, if up then [Key(id)] else [])
    ensures ScanContract(run, scanner, a, a) && Returned(run, scanner, a, a + 1) == if up then [Key(id)] else []
  {
    UpAndNotDown(run, map[id := node], a, a);
    SomeInstant(run, a);
    PatternMatchesExactlyKeys(Key(id));
    assert Returned(run, scanner, a + 1, a + 1) == [];
    forall key | GlobMatch(PATTERN, key) && LiveThroughout(run, key, a, a) ensures up && key == Key(id) {
      var n := NodeOf(key);
      assert LiveSometime(run, Key(n), a, a);
    }
  }

  lemma {:induction false} OutageIsDown(id: string)
    ensures DownFor(OutageRun(id), id, Outage(), 1, 1)
  {
    SetsOfFive(OutageRun(id), Key(id));
  }

  lemma {:induction false} OutageIsUpAgain(run: seq<Event>, id: string, node: Node)
    requires |run| == 5 && Beats(run, id, node) && node.ttlSeconds == 1
    requires SetTimes(run, Key(id), 3) == [0, 1500] && SetTimes(run, Key(id), |run|) == [0, 1500, 2000]
    requires run[3].at == 1600
    ensures UpFor(run, id, node, 3, 3)
  {
    UpIsCovered(run, id, node, 3, 3);
  }

  // A node that lost two beats is not counted before the next one, and is counted again after it.
  lemma {:induction false} RecoveredNodeIsCounted(id: string)
    ensures var run := OutageRun(id);
      && RunOf(run, map[id := Outage()]) && !AllFollowed(Outage())
      && ScanContract(run, 0, 1, 1) && DownFor(run, id, Outage(), 1, 1) && |Returned(run, 0, 1, 2)| == 0
      && ScanContract(run, 1, 3, 3) && UpFor(run, id, Outage(), 3, 3) && |Returned(run, 1, 3, 4)| == 1
  {
    var run := OutageRun(id);
    OutageIsRun(run, id);
    OutageBeats(Outage());
    OutageIsDown(id);
    OutageSets(run, id);
    OutageNodeBeats(run, id, Outage());
    OutageIsUpAgain(run, id, Outage());
    OneNodeScan(run, id, Outage(), 0, 1, false);
    OneNodeScan(run, id, Outage(), 1, 3, true);
  }
}
