/** What the number of keys returned by a complete scan says about the nodes of the cluster,
    however beats, expiries and pages interleave. */
module NodeCount {
  import opened HeartbeatKey
  import opened RedisServer

  ghost predicate NodesLiveThroughout(run: seq<Event>, nodes: set<string>, a: nat, b: nat)
    requires a <= b < |run|
  {
    forall n :: n in nodes ==> LiveThroughout(run, Key(n), a, b)
  }

  // `nodes` contains every node that had its key in the server at some time of the scan.
  ghost predicate CoversNodesLiveSometime(run: seq<Event>, nodes: set<string>, a: nat, b: nat)
    requires a <= b < |run|
  {
    forall n :: LiveSometime(run, Key(n), a, b) ==> n in nodes
  }

  predicate NoDuplicates(keys: seq<string>) {
    forall i, j :: 0 <= i < j < |keys| ==> keys[i] != keys[j]
  }

  ghost function Keys(nodes: set<string>): set<string> {
    set n | n in nodes :: Key(n)
  }

  ghost function Elements(keys: seq<string>): set<string> {
    set k | k in keys
  }

  lemma {:induction false} AsManyKeysAsNodes(nodes: set<string>)
    ensures |Keys(nodes)| == |nodes|
    decreases |nodes|
  {
    if nodes != {} {
      var n :| n in nodes;
      AsManyKeysAsNodes(nodes - {n});
      forall m | m in nodes - {n} ensures Key(m) != Key(n) { KeyIsInjective(m, n); }
      assert Keys(nodes) == Keys(nodes - {n}) + {Key(n)};
    }
  }

  lemma {:induction false} ElementCount(keys: seq<string>)
    ensures |Elements(keys)| <= |keys|
    ensures |Elements(keys)| == |keys| <==> NoDuplicates(keys)
  {
    if |keys| > 0 {
      var rest := keys[..|keys| - 1];
      var k := keys[|keys| - 1];
      ElementCount(rest);
      assert Elements(keys) == Elements(rest) + {k};
      if k in rest {
        var i :| 0 <= i < |rest| && rest[i] == k;
        assert keys[i] == keys[|keys| - 1];
      }
    }
  }

  lemma {:induction false} SubsetSize(small: set<string>, large: set<string>)
    requires small <= large
    ensures |small| <= |large|
    decreases |small|
  {
    if small != {} {
      var k :| k in small;
      SubsetSize(small - {k}, large - {k});
    }
  }

  // The count is at least the number of nodes that were alive for the whole scan.
  lemma {:induction false} CountAtLeastLiveThroughout(run: seq<Event>, scanner: nat, a: nat, b: nat,
                                                      nodes: set<string>)
    requires ScanContract(run, scanner, a, b) && NodesLiveThroughout(run, nodes, a, b)
    ensures |nodes| <= |Returned(run, scanner, a, b + 1)|
  {
    var keys := Returned(run, scanner, a, b + 1);
    forall k | k in Keys(nodes) ensures k in Elements(keys) {
      PatternMatchesExactlyKeys(k);
    }
    AsManyKeysAsNodes(nodes);
    SubsetSize(Keys(nodes), Elements(keys));
    ElementCount(keys);
  }

  // The count is at most the number of nodes alive at some time of the scan, provided SCAN
  // returned no key twice: the count does not remove duplicates.
  lemma {:induction false} CountAtMostLiveSometime(run: seq<Event>, scanner: nat, a: nat, b: nat, nodes: set<string>)
    requires ScanContract(run, scanner, a, b) && CoversNodesLiveSometime(run, nodes, a, b)
    requires NoDuplicates(Returned(run, scanner, a, b + 1))
    ensures |Returned(run, scanner, a, b + 1)| <= |nodes|
  {
    var keys := Returned(run, scanner, a, b + 1);
    forall k | k in Elements(keys) ensures k in Keys(nodes) {
      var n := NodeOf(k);
      assert n in nodes;
    }
    AsManyKeysAsNodes(nodes);
    SubsetSize(Elements(keys), Keys(nodes));
    ElementCount(keys);
  }

  // When every node is either alive for the whole scan or not at all, the count is the exact
  // number of live nodes if and only if SCAN returned no key twice.
  lemma {:induction false} CountIsExactIffNoDuplicates(run: seq<Event>, scanner: nat, a: nat, b: nat,
                                                       nodes: set<string>)
    requires ScanContract(run, scanner, a, b)
    requires NodesLiveThroughout(run, nodes, a, b) && CoversNodesLiveSometime(run, nodes, a, b)
    ensures |Returned(run, scanner, a, b + 1)| == |nodes| <==> NoDuplicates(Returned(run, scanner, a, b + 1))
    ensures Elements(Returned(run, scanner, a, b + 1)) == Keys(nodes)
  {
    var keys := Returned(run, scanner, a, b + 1);
    forall k | k in Keys(nodes) ensures k in Elements(keys) { PatternMatchesExactlyKeys(k); }
    forall k | k in Elements(keys) ensures k in Keys(nodes) {
      var n := NodeOf(k);
      assert n in nodes;
    }
    AsManyKeysAsNodes(nodes);
    ElementCount(keys);
    assert Elements(keys) == Keys(nodes);
    assert |Elements(keys)| == |nodes|;
  }

  // SCAN may return a key on two pages: then one node, alive all the time, is counted as two.
  lemma {:induction false} RepeatedKeyIsCountedTwice(node: string)
    ensures var page := Page(0, [Key(node)]);
            var run := [Event(0, Set(Key(node), 1000)), Event(1, page), Event(2, page)];
            && ScanContract(run, 0, 1, 2)
            && NodesLiveThroughout(run, {node}, 1, 2) && CoversNodesLiveSometime(run, {node}, 1, 2)
            && |Returned(run, 0, 1, 3)| == 2
  {
    var key, page := Key(node), Page(0, [Key(node)]);
    var run := [Event(0, Set(key, 1000)), Event(1, page), Event(2, page)];
    PatternMatchesExactlyKeys(key);
    assert Returned(run, 0, 3, 3) == [] && Returned(run, 0, 2, 3) == [key] && Returned(run, 0, 1, 3) == [key, key];
    assert Store(run, 0) == map[] && Store(run, 1) == map[key := 1000];
    assert Store(run, 2) == Store(run, 1);
    assert During(run, 1, 2, 1, 1) && Live(run, key, 1, 1);
    forall k | LiveThroughout(run, k, 1, 2) || LiveSometime(run, k, 1, 2) ensures k == key {
      if LiveThroughout(run, k, 1, 2) { assert Live(run, k, 1, 1); }
    }
    forall n | LiveSometime(run, Key(n), 1, 2) ensures n == node { KeyIsInjective(n, node); }
  }

  // A node is silent when its last SET ran out before the scan began and none followed.
  ghost predicate SilentBefore(run: seq<Event>, key: string, a: nat, b: nat)
    requires a <= b < |run|
  {
    forall j :: 0 <= j < b && IsSet(run[j], key) ==> run[j].at + run[j].op.ttl < run[a].at
  }

  lemma {:induction false} StoreComesFromASet(run: seq<Event>, key: string, i: nat)
    requires i <= |run| && key in Store(run, i)
    ensures exists j :: 0 <= j < i && IsSet(run[j], key) && Store(run, i)[key] == run[j].at + run[j].op.ttl
  {
    if !IsSet(run[i - 1], key) { StoreComesFromASet(run, key, i - 1); }
  }

  // A node silent for longer than its time to live is not counted.
  lemma {:induction false} SilentNodeIsNotCounted(run: seq<Event>, scanner: nat, a: nat, b: nat, node: string)
    requires ScanContract(run, scanner, a, b) && SilentBefore(run, Key(node), a, b)
    ensures Key(node) !in Returned(run, scanner, a, b + 1)
  {
    var key := Key(node);
    forall i: nat, t: nat | During(run, a, b, i, t) ensures !Live(run, key, i, t) {
      if key in Store(run, i) { StoreComesFromASet(run, key, i); }
    }
    assert !LiveSometime(run, key, a, b);
  }
}
