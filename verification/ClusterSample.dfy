/** From the server to the metric: what sample() reports when its cursor loop received the pages
    of a complete scan, and when it reports a connection that it has lost. */
module ClusterSample {
  import opened Options
  import opened HeartbeatKey
  import opened Hiredis
  import opened ClusterImpl
  import opened RedisServer
  import opened NodeCount
  import opened FailureDetector

  // --- The count -----------------------------------------------------------------------------------

  // There is a link for the ping and, after that or again, one for the scan, on which the pages of
  // a complete scan will be the answers. The ping may go any way.
  ghost predicate WillScan(l: Link, config: Config, pages: seq<ScanPage>) {
    && Safe(l) && Ensured(l, config.password).1
    && var pinged := Pinged(Ensured(l, config.password).0).0;
       && Safe(pinged) && Ensured(pinged, config.password).1
       && CompleteScan(pages) && PageReplies(pages) <= Ensured(pinged, config.password).0.lib.answers
  }

  lemma {:induction false} SampleCountsPages(l: Link, config: Config, elapsedMs: real, pages: seq<ScanPage>)
    requires WillScan(l, config, pages)
    ensures var known := Pinged(Ensured(l, config.password).0).1;
            Sampled(l, config, elapsedMs).1 == Metrics(|PageKeys(pages)|, if known then elapsedMs else -1.0, 1.0)
  {
    EnsuredIsSafe(l, config.password);
    var pinged := Pinged(Ensured(l, config.password).0).0;
    EnsuredIsSafe(pinged, config.password);
    ScanCountsAllKeys(Ensured(pinged, config.password).0, "0", 0, pages);
  }

  // The sampled metric of a cluster: at least the number of nodes that were up for the scan, at most
  // that of the nodes not down for it if SCAN repeated no key, and exactly the number of nodes up,
  // when the others were down, if and only if SCAN repeated no key.
  lemma {:induction false} SampleReportsUpNodes(l: Link, config: Config, elapsedMs: real, pages: seq<ScanPage>,
                                                run: seq<Event>, cluster: Cluster, scanner: nat, a: nat, b: nat)
    requires WillScan(l, config, pages)
    requires RunOf(run, cluster) && ScanContract(run, scanner, a, b)
    requires PageKeys(pages) == Returned(run, scanner, a, b + 1)
    ensures var r := Sampled(l, config, elapsedMs).1;
            var (up, notDown) := (NodesUp(run, cluster, a, b), NodesNotDown(run, cluster, a, b));
      && r.Metrics? && r.activeNodeCount >= |up|
      && (NoDuplicates(PageKeys(pages)) ==> r.activeNodeCount <= |notDown|)
      && (up == notDown ==> (r.activeNodeCount == |up| <==> NoDuplicates(PageKeys(pages))))
  {
    SampleCountsPages(l, config, elapsedMs, pages);
    DetectorCountsUpNodes(run, cluster, scanner, a, b);
  }

  // --- The connection ------------------------------------------------------------------------------

  // With these answers to come, the cursor loop meets one that is missing.
  predicate ScanBreaks(answers: seq<Option<Reply>>, cursor: string)
    decreases |answers|
  {
    if answers == [] || answers[0].None? then true
    else
      match answers[0].value
      case Array(elements) =>
        |elements| == 2 &&
        var cursor' := if elements[0].Str? then elements[0].text else cursor;
        cursor' != "0" && ScanBreaks(answers[1..], cursor')
      case _ => false
  }

  lemma {:induction false} ScanLosesLinkIff(l: Link, cursor: string, count: nat)
    requires l.ctx.Some?
    ensures ScannedFrom(l, cursor, count).0.ctx.None? <==> ScanBreaks(l.lib.answers, cursor)
    ensures ScannedFrom(l, cursor, count).0.ctx.None? <==> ScannedFrom(l, cursor, count).1.IoError?
    decreases |l.lib.answers|
  {
    var answer := NextAnswer(l.lib);
    if answer.Some? && answer.value.Array? && |answer.value.elements| == 2 {
      var elements := answer.value.elements;
      var cursor' := if elements[0].Str? then elements[0].text else cursor;
      var count' := count + (if elements[1].Array? then |elements[1].elements| else 0);
      if cursor' != "0" {
        ScanLosesLinkIff(l.(lib := Exchanged(l.lib, l.ctx.value, Scan(cursor, PATTERN, 100))), cursor', count');
      }
    }
  }

  // The reconnection after a ping without an answer fails: no good context, or the AUTH is not
  // answered or refused. `answers` are those to come after the ping.
  predicate ReconnectFails(connects: seq<Connect>, answers: seq<Option<Reply>>, password: string) {
    || connects == [] || connects[0] != GoodContext
    || (password != "" && (answers == [] || Refused(answers[0])))
  }

  // The link that the ping is sent on will be lost: by the connection outcomes and the answers to
  // come alone. Either the ping is answered and the scan breaks; or it is not, and the reconnection
  // fails or the scan after it breaks.
  predicate WillLoseLink(connects: seq<Connect>, answers: seq<Option<Reply>>, password: string) {
    var afterPing := Rest(answers);
    if answers != [] && answers[0].Some? then ScanBreaks(afterPing, "0")
    else ReconnectFails(connects, afterPing, password)
         || ScanBreaks(if password == "" then afterPing else Rest(afterPing), "0")
  }

  // sample() reports a connection while it has none, if and only if there was a link for the ping
  // and that is lost; the node count is then -1.
  lemma {:induction false} ReportsLostConnectionIff(l: Link, config: Config, elapsedMs: real)
    requires Safe(l)
    ensures var (link, r) := Sampled(l, config, elapsedMs);
            var (up, ok) := Ensured(l, config.password);
            && (r.Metrics? && r.redisConnected == 1.0 && link.ctx.None?
                <==> ok && WillLoseLink(up.lib.connects, up.lib.answers, config.password))
            && (r.Metrics? && link.ctx.None? ==> r.activeNodeCount == -1)
  {
    EnsuredIsSafe(l, config.password);
    var (up, ok) := Ensured(l, config.password);
    if ok {
      var pinged := Pinged(up).0;
      EnsuredIsSafe(pinged, config.password);
      var (again, ok') := Ensured(pinged, config.password);
      assert NextAnswer(up.lib).Some? ==> again == pinged;
      assert NextAnswer(up.lib).None? ==> (ok' <==> !ReconnectFails(up.lib.connects, Rest(up.lib.answers), config.password));
      if ok' { ScanLosesLinkIff(again, "0", 0); }
    }
  }

  // Such an input: the connection breaks during the ping and there is no way back.
  lemma {:induction false} BrokenPingStillReportsConnected(l: Link, config: Config, elapsedMs: real)
    requires Settled(l) && l.ctx.Some? && NextAnswer(l.lib).None? && NextConnect(l.lib) != GoodContext
    ensures Sampled(l, config, elapsedMs).1 == Metrics(-1, -1.0, 1.0)
    ensures Sampled(l, config, elapsedMs).0.lib.live == {}
  {
  }

  // Another: the ping is answered, and the connection breaks at the first page of the scan. Latency
  // and connection look as if all were well.
  lemma {:induction false} BrokenScanStillReportsConnected(l: Link, config: Config, elapsedMs: real)
    requires Settled(l) && l.ctx.Some? && l.lib.answers == [Some(Status("PONG")), None]
    ensures Sampled(l, config, elapsedMs).1 == Metrics(-1, elapsedMs, 1.0)
    ensures Sampled(l, config, elapsedMs).0.ctx == None
  {
    assert l.lib.answers[1..] == [None];
    assert Pinged(l).0.lib.answers == [None];
    ScanLosesLinkIff(Pinged(l).0, "0", 0);
  }
}
