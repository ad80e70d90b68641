/** ClusterImpl: one Redis connection, kept up by whoever needs it and guarded by a recursive
    mutex (ClusterImpl.cpp). The functions say what each critical section does to the connection
    and to the library's ledger; the class does it call by call. */
module ClusterImpl {
  import opened Options
  import opened Hiredis
  import opened HeartbeatKey

  datatype Config = Config(heartbeat: bool, nodeId: string, password: string, ttlSeconds: int)

  // The fields ctx_ and isConnected_, with the library behind them.
  datatype Link = Link(ctx: Option<nat>, connected: bool, lib: Library)

  // The ledger agrees with ctx_: at most one context is live, and it is this one; no reply is held.
  predicate Safe(l: Link) {
    && l.lib.live == (if l.ctx.Some? then {l.ctx.value} else {})
    && (l.ctx.Some? ==> l.ctx.value < l.lib.contexts)
    && l.lib.held == {}
  }

  // What holds whenever the mutex is free.
  predicate Settled(l: Link) {
    Safe(l) && (l.ctx.Some? <==> l.connected)
  }

  // --- What each operation comes to --------------------------------------------------------

  // A command was sent on `ctx` and its reply, if any, has been freed again.
  function Exchanged(lib: Library, ctx: nat, command: Command): Library {
    lib.(answers := Rest(lib.answers), log := lib.log + [Recorded(lib, ctx, command)],
         replies := lib.replies + (if NextAnswer(lib).Some? then 1 else 0))
  }

  function Down(lib: Library): Link {
    Link(None, false, lib.(live := {}))
  }

  function Up(ctx: nat, lib: Library): Link {
    Link(Some(ctx), true, lib.(live := {ctx}))
  }

  predicate Refused(answer: Option<Reply>) {
    answer.None? || answer.value.Error?
  }

  function Ensured(l: Link, password: string): (Link, bool)
    requires Safe(l)
  {
    if l.ctx.Some? && l.connected then (l, true)
    else
      var lib := l.lib.(connects := Rest(l.lib.connects));
      match NextConnect(l.lib)
      case NoContext => (Down(lib), false)
      case BadContext => (Down(lib.(contexts := lib.contexts + 1)), false)
      case GoodContext =>
        var ctx := lib.contexts;
        var grown := lib.(contexts := ctx + 1);
        if password == "" then (Up(ctx, grown), true)
        else
          var authed := Exchanged(grown, ctx, Auth(password));
          if Refused(NextAnswer(lib)) then (Down(authed), false) else (Up(ctx, authed), true)
  }

  // One heartbeat; the flag says whether the SET took effect.
  function Beaten(l: Link, config: Config): (Link, bool)
    requires Safe(l)
  {
    var (up, ok) := Ensured(l, config.password);
    if !ok then (up, false) else SetSent(up, config)
  }

  function SetSent(l: Link, config: Config): (Link, bool)
    requires l.ctx.Some?
  {
    var lib := Exchanged(l.lib, l.ctx.value, SetEx(Key(config.nodeId), "1", config.ttlSeconds));
    if NextAnswer(l.lib).None? then (Down(lib), false)
    else (l.(lib := lib), !NextAnswer(l.lib).value.Error?)
  }

  // The flag says whether the latency is known.
  function Pinged(l: Link): (Link, bool)
    requires l.ctx.Some?
  {
    var lib := Exchanged(l.lib, l.ctx.value, Ping);
    if NextAnswer(l.lib).None? then (Down(lib), false)
    else (l.(lib := lib), !NextAnswer(l.lib).value.Error?)
  }

  datatype CountResult = Count(count: nat) | ConnectionLost | IoError | ProtocolError | UnexpectedFormat

  // The cursor loop from a given cursor, with `count` keys seen so far.
  function ScannedFrom(l: Link, cursor: string, count: nat): (Link, CountResult)
    requires l.ctx.Some?
    decreases |l.lib.answers|
  {
    var lib := Exchanged(l.lib, l.ctx.value, Scan(cursor, PATTERN, 100));
    var l' := l.(lib := lib);
    match NextAnswer(l.lib)
    case None => (Down(lib), IoError)
    case Some(Error(_)) => (l', ProtocolError)
    case Some(Array(elements)) =>
      if |elements| == 2 then
        var cursor' := if elements[0].Str? then elements[0].text else cursor;
        var count' := count + (if elements[1].Array? then |elements[1].elements| else 0);
        if cursor' == "0" then (l', Count(count')) else ScannedFrom(l', cursor', count')
      else (l', UnexpectedFormat)
    case Some(_) => (l', UnexpectedFormat)
  }

  function Counted(l: Link, config: Config): (Link, CountResult)
    requires Safe(l)
  {
    var (up, ok) := Ensured(l, config.password);
    if !ok then (up, ConnectionLost) else ScannedFrom(up, "0", 0)
  }

  // sample() either throws FatalError, or gives the latency (-1 when the ping failed) and the
  // number of active nodes (-1 when counting failed). redisConnected is always 1 in a result.
  datatype SampleResult = Fatal | Metrics(activeNodeCount: int, latencyMs: real, redisConnected: real)

  function NodeMetric(r: CountResult): int {
    if r.Count? then r.count else -1
  }

  function Sampled(l: Link, config: Config, elapsedMs: real): (Link, SampleResult)
    requires Safe(l)
  {
    var (up, ok) := Ensured(l, config.password);
    if !ok then (up, Fatal)
    else
      var (pinged, known) := Pinged(up);
      EnsuredIsSafe(l, config.password);
      var (counted, r) := Counted(pinged, config);
      (counted, Metrics(NodeMetric(r), if known then elapsedMs else -1.0, 1.0))
  }

  // --- ... and what that means on the wire -----------------------------------------------------

  // A connection can be set up: a good context comes, and if there is a password the server answers
  // its AUTH with something other than an error.
  predicate CanConnect(lib: Library, password: string) {
    && lib.connects != [] && lib.connects[0] == GoodContext
    && (password == "" || (lib.answers != [] && lib.answers[0].Some? && !lib.answers[0].value.Error?))
  }

  // A usable connection is kept. Without one there is one attempt: it ends up on the new context if
  // that is good and the password, if any, is accepted, and otherwise with no context at all. An
  // AUTH, and nothing else, is sent, exactly on a good context and with a password.
  lemma {:induction false} EnsuredOnTheWire(l: Link, password: string)
    requires Safe(l)
    ensures var (l', ok) := Ensured(l, password);
            var ctx, asks := l.lib.contexts, l.lib.connects != [] && l.lib.connects[0] == GoodContext && password != "";
            if l.ctx.Some? && l.connected then l' == l && ok
            else
              && (ok <==> CanConnect(l.lib, password))
              && (ok ==> l'.ctx == Some(ctx) && l'.connected && l'.lib.live == {ctx})
              && (!ok ==> l'.ctx == None && !l'.connected && l'.lib.live == {})
              && l'.lib.log == l.lib.log + (if asks then [Sent(ctx, Auth(password), NextAnswer(l.lib))] else [])
              && l'.lib.connects == Rest(l.lib.connects)
              && l'.lib.answers == if asks then Rest(l.lib.answers) else l.lib.answers
  {
  }

  // A heartbeat on a usable link is one SET of the node's key, with the time to live, on the context
  // that is up; it took effect if the answer is there and is no error, and the context is dropped
  // exactly if there is no answer.
  lemma {:induction false} SetOnTheWire(l: Link, config: Config)
    requires l.ctx.Some?
    ensures var (l', took) := SetSent(l, config);
            var answer := NextAnswer(l.lib);
            var command := SetEx("cluster:node:" + config.nodeId + ":heartbeat", "1", config.ttlSeconds);
            && l'.lib.log == l.lib.log + [Sent(l.ctx.value, command, answer)]
            && l'.lib.answers == Rest(l.lib.answers) && l'.lib.connects == l.lib.connects
            && (took <==> answer.Some? && !answer.value.Error?)
            && l'.ctx == (if answer.Some? then l.ctx else None) && (answer.None? ==> l'.lib.live == {})
  {
  }

  lemma {:induction false} PingOnTheWire(l: Link)
    requires l.ctx.Some?
    ensures var (l', known) := Pinged(l);
            var answer := NextAnswer(l.lib);
            && l'.lib.log == l.lib.log + [Sent(l.ctx.value, Ping, answer)]
            && l'.lib.answers == Rest(l.lib.answers) && l'.lib.connects == l.lib.connects
            && (known <==> answer.Some? && !answer.value.Error?)
            && l'.ctx == (if answer.Some? then l.ctx else None) && (answer.None? ==> l'.lib.live == {})
  {
  }

  // A sample is fatal exactly if there is no usable connection and none can be set up. Otherwise its
  // latency is the time the ping took if that was answered without an error, and -1 if not.
  lemma {:induction false} SampleIsFatalIff(l: Link, config: Config, elapsedMs: real)
    requires Safe(l)
    ensures var r := Sampled(l, config, elapsedMs).1;
            var answer := NextAnswer(Ensured(l, config.password).0.lib);
            && (r.Fatal? <==> !(l.ctx.Some? && l.connected) && !CanConnect(l.lib, config.password))
            && (r.Metrics? ==> r.latencyMs == (if answer.Some? && !answer.value.Error? then elapsedMs else -1.0)
                               && r.redisConnected == 1.0)
  {
    EnsuredOnTheWire(l, config.password);
  }

  // --- Ownership ---------------------------------------------------------------------------

  lemma {:induction false} EnsuredIsSafe(l: Link, password: string)
    requires Safe(l)
    ensures var (l', ok) := Ensured(l, password); Settled(l') && (ok <==> l'.ctx.Some?)
  {
  }

  lemma {:induction false} ScanSettles(l: Link, cursor: string, count: nat)
    requires Settled(l) && l.ctx.Some?
    ensures Settled(ScannedFrom(l, cursor, count).0)
    decreases |l.lib.answers|
  {
    var answer := NextAnswer(l.lib);
    if answer.Some? && answer.value.Array? && |answer.value.elements| == 2 {
      var elements := answer.value.elements;
      var cursor' := if elements[0].Str? then elements[0].text else cursor;
      var count' := count + (if elements[1].Array? then |elements[1].elements| else 0);
      if cursor' != "0" {
        ScanSettles(l.(lib := Exchanged(l.lib, l.ctx.value, Scan(cursor, PATTERN, 100))), cursor', count');
      }
    }
  }

  lemma {:induction false} CountSettles(l: Link, config: Config)
    requires Safe(l)
    ensures Settled(Counted(l, config).0)
  {
    EnsuredIsSafe(l, config.password);
    var (up, ok) := Ensured(l, config.password);
    if ok { ScanSettles(up, "0", 0); }
  }

  // Whatever the network does, each critical section ends with ctx_ set exactly when isConnected_
  // is, that context the only live one, and every reply freed.
  lemma {:induction false} EveryOperationSettles(l: Link, config: Config, elapsedMs: real)
    requires Safe(l)
    ensures Settled(Beaten(l, config).0)
    ensures Settled(Sampled(l, config, elapsedMs).0)
    ensures Sampled(l, config, elapsedMs).1.Fatal? ==> Sampled(l, config, elapsedMs).0.lib.live == {}
  {
    EnsuredIsSafe(l, config.password);
    var (up, ok) := Ensured(l, config.password);
    if ok { CountSettles(Pinged(up).0, config); }
  }

  // One turn of the cursor loop: it sends one SCAN, and ends or goes on.
  lemma {:induction false} ScanTurn(l: Link, cursor: string, count: nat) returns (more: bool, cursor': string, count': nat)
    requires l.ctx.Some?
    ensures var next := l.(lib := Exchanged(l.lib, l.ctx.value, Scan(cursor, PATTERN, 100)));
            if more then ScannedFrom(l, cursor, count) == ScannedFrom(next, cursor', count') && l.lib.answers != []
            else ScannedFrom(l, cursor, count).0.lib.log == next.lib.log
  {
    var answer := NextAnswer(l.lib);
    more, cursor', count' := false, cursor, count;
    if answer.Some? && answer.value.Array? && |answer.value.elements| == 2 {
      var elements := answer.value.elements;
      cursor' := if elements[0].Str? then elements[0].text else cursor;
      count' := count + (if elements[1].Array? then |elements[1].elements| else 0);
      more := cursor' != "0";
    }
  }

  // --- Authentication ------------------------------------------------------------------------

  // Among the first n commands is an AUTH on this context that the server accepted.
  ghost predicate AuthAccepted(log: seq<Sent>, n: nat, ctx: nat, password: string)
    requires n <= |log|
  {
    exists i :: 0 <= i < n && log[i].ctx == ctx && log[i].command == Auth(password)
              && log[i].answer.Some? && !log[i].answer.value.Error?
  }

  // Every command but AUTH goes to a context on which AUTH was accepted earlier.
  ghost predicate AuthFirstLog(log: seq<Sent>, password: string) {
    forall i :: 0 <= i < |log| ==> log[i].command == Auth(password) || AuthAccepted(log, i, log[i].ctx, password)
  }

  // ... and the current context is one of those.
  ghost predicate AuthFirst(l: Link, password: string) {
    AuthFirstLog(l.lib.log, password) && (l.ctx.Some? ==> AuthAccepted(l.lib.log, |l.lib.log|, l.ctx.value, password))
  }

  lemma {:induction false} AcceptedStays(log: seq<Sent>, sent: Sent, n: nat, ctx: nat, password: string)
    requires n <= |log| && AuthAccepted(log, n, ctx, password)
    ensures AuthAccepted(log + [sent], n, ctx, password) && AuthAccepted(log + [sent], |log| + 1, ctx, password)
  {
    var i :| 0 <= i < n && log[i].ctx == ctx && log[i].command == Auth(password)
             && log[i].answer.Some? && !log[i].answer.value.Error?;
    assert (log + [sent])[i] == log[i];
  }

  lemma {:induction false} LogKeepsAuthFirst(log: seq<Sent>, sent: Sent, password: string)
    requires AuthFirstLog(log, password)
    requires sent.command == Auth(password) || AuthAccepted(log, |log|, sent.ctx, password)
    ensures AuthFirstLog(log + [sent], password)
    ensures sent.command != Auth(password) || !Refused(sent.answer) ==>
              AuthAccepted(log + [sent], |log| + 1, sent.ctx, password)
  {
    var longer := log + [sent];
    forall i | 0 <= i < |longer| && longer[i].command != Auth(password)
      ensures AuthAccepted(longer, i, longer[i].ctx, password)
    {
      if i < |log| {
        assert longer[i] == log[i];
        AcceptedStays(log, sent, i, log[i].ctx, password);
      } else {
        AcceptedStays(log, sent, |log|, sent.ctx, password);
      }
    }
    assert longer[|log|] == sent;
    if sent.command != Auth(password) { AcceptedStays(log, sent, |log|, sent.ctx, password); }
  }

  lemma {:induction false} EnsuredKeepsAuthFirst(l: Link, password: string)
    requires Safe(l) && password != "" && AuthFirst(l, password)
    ensures AuthFirst(Ensured(l, password).0, password)
  {
    LogKeepsAuthFirst(l.lib.log, Recorded(l.lib, l.lib.contexts, Auth(password)), password);
  }

  lemma {:induction false} ScanKeepsAuthFirst(l: Link, cursor: string, count: nat, password: string)
    requires l.ctx.Some? && AuthFirst(l, password)
    ensures AuthFirst(ScannedFrom(l, cursor, count).0, password)
    decreases |l.lib.answers|
  {
    var scan := Scan(cursor, PATTERN, 100);
    CommandKeepsAuthFirst(l, scan, password);
    var answer := NextAnswer(l.lib);
    if answer.Some? && answer.value.Array? && |answer.value.elements| == 2 {
      var elements := answer.value.elements;
      var cursor' := if elements[0].Str? then elements[0].text else cursor;
      var count' := count + (if elements[1].Array? then |elements[1].elements| else 0);
      if cursor' != "0" {
        ScanKeepsAuthFirst(l.(lib := Exchanged(l.lib, l.ctx.value, scan)), cursor', count', password);
      }
    }
  }

  lemma {:induction false} CommandKeepsAuthFirst(l: Link, command: Command, password: string)
    requires l.ctx.Some? && AuthFirst(l, password) && !command.Auth?
    ensures AuthFirst(l.(lib := Exchanged(l.lib, l.ctx.value, command)), password)
    ensures AuthFirst(Down(Exchanged(l.lib, l.ctx.value, command)), password)
  {
    LogKeepsAuthFirst(l.lib.log, Recorded(l.lib, l.ctx.value, command), password);
  }

  lemma {:induction false} SetKeepsAuthFirst(l: Link, config: Config)
    requires l.ctx.Some? && AuthFirst(l, config.password)
    ensures AuthFirst(SetSent(l, config).0, config.password)
  {
    CommandKeepsAuthFirst(l, SetEx(Key(config.nodeId), "1", config.ttlSeconds), config.password);
  }

  lemma {:induction false} PingKeepsAuthFirst(l: Link, password: string)
    requires l.ctx.Some? && AuthFirst(l, password)
    ensures AuthFirst(Pinged(l).0, password)
  {
    CommandKeepsAuthFirst(l, Ping, password);
  }

  lemma {:induction false} CountKeepsAuthFirst(l: Link, config: Config)
    requires Safe(l) && config.password != "" && AuthFirst(l, config.password)
    ensures AuthFirst(Counted(l, config).0, config.password)
  {
    EnsuredIsSafe(l, config.password);
    EnsuredKeepsAuthFirst(l, config.password);
    var (up, ok) := Ensured(l, config.password);
    if ok { ScanKeepsAuthFirst(up, "0", 0, config.password); }
  }

  // With a password configured, no operation ever sends a heartbeat, a ping or a scan on a
  // context on which the server has not accepted the password.
  lemma {:induction false} EveryOperationAuthenticatesFirst(l: Link, config: Config, elapsedMs: real)
    requires Safe(l) && config.password != "" && AuthFirst(l, config.password)
    ensures AuthFirst(Beaten(l, config).0, config.password)
    ensures AuthFirst(Sampled(l, config, elapsedMs).0, config.password)
  {
    EnsuredIsSafe(l, config.password);
    EnsuredKeepsAuthFirst(l, config.password);
    var (up, ok) := Ensured(l, config.password);
    if ok {
      SetKeepsAuthFirst(up, config);
      PingKeepsAuthFirst(up, config.password);
      CountKeepsAuthFirst(Pinged(up).0, config);
    }
  }

  // --- SETs issued ---------------------------------------------------------------------------

  // The SETs among the first n commands sent.
  function SetsAmong(log: seq<Sent>, n: nat): nat
    requires n <= |log|
  {
    if n == 0 then 0 else SetsAmong(log, n - 1) + (if log[n - 1].command.SetEx? then 1 else 0)
  }

  function SetCount(log: seq<Sent>): nat {
    SetsAmong(log, |log|)
  }

  lemma {:induction false} SetsAmongLonger(log: seq<Sent>, sent: Sent, n: nat)
    requires n <= |log|
    ensures SetsAmong(log + [sent], n) == SetsAmong(log, n)
  {
    if n > 0 { SetsAmongLonger(log, sent, n - 1); }
  }

  lemma {:induction false} SetCountOfOneMore(log: seq<Sent>, sent: Sent)
    ensures SetCount(log + [sent]) == SetCount(log) + (if sent.command.SetEx? then 1 else 0)
  {
    SetsAmongLonger(log, sent, |log|);
  }

  lemma {:induction false} EnsuredSendsNoSet(l: Link, password: string)
    requires Safe(l)
    ensures SetCount(Ensured(l, password).0.lib.log) == SetCount(l.lib.log)
  {
    SetCountOfOneMore(l.lib.log, Recorded(l.lib, l.lib.contexts, Auth(password)));
  }

  lemma {:induction false} ScanSendsNoSet(l: Link, cursor: string, count: nat)
    requires l.ctx.Some?
    ensures SetCount(ScannedFrom(l, cursor, count).0.lib.log) == SetCount(l.lib.log)
    decreases |l.lib.answers|
  {
    var scan := Scan(cursor, PATTERN, 100);
    SetCountOfOneMore(l.lib.log, Recorded(l.lib, l.ctx.value, scan));
    var answer := NextAnswer(l.lib);
    if answer.Some? && answer.value.Array? && |answer.value.elements| == 2 {
      var elements := answer.value.elements;
      var cursor' := if elements[0].Str? then elements[0].text else cursor;
      var count' := count + (if elements[1].Array? then |elements[1].elements| else 0);
      if cursor' != "0" { ScanSendsNoSet(l.(lib := Exchanged(l.lib, l.ctx.value, scan)), cursor', count'); }
    }
  }

  lemma {:induction false} CountSendsNoSet(l: Link, config: Config)
    requires Safe(l)
    ensures SetCount(Counted(l, config).0.lib.log) == SetCount(l.lib.log)
  {
    EnsuredIsSafe(l, config.password);
    EnsuredSendsNoSet(l, config.password);
    var (up, ok) := Ensured(l, config.password);
    if ok { ScanSendsNoSet(up, "0", 0); }
  }

  // --- What the cursor loop counts -----------------------------------------------------------

  // A well-formed SCAN reply: the next cursor and some keys.
  datatype ScanPage = ScanPage(next: string, keys: seq<string>)

  function PageReply(page: ScanPage): Reply {
    Array([Str(page.next), Array(seq(|page.keys|, i requires 0 <= i < |page.keys| => Str(page.keys[i])))])
  }

  function PageReplies(pages: seq<ScanPage>): seq<Option<Reply>> {
    seq(|pages|, i requires 0 <= i < |pages| => Some(PageReply(pages[i])))
  }

  function PageKeys(pages: seq<ScanPage>): seq<string> {
    if pages == [] then [] else pages[0].keys + PageKeys(pages[1..])
  }

  // A complete scan: only its last page gives the cursor back as "0".
  ghost predicate CompleteScan(pages: seq<ScanPage>) {
    |pages| > 0 && forall i :: 0 <= i < |pages| ==> (pages[i].next == "0" <==> i == |pages| - 1)
  }

  // The commands a complete scan sends, with their answers: it starts at `cursor` and follows the server's cursors.
  function ScanCommands(ctx: nat, cursor: string, pages: seq<ScanPage>): seq<Sent>
    decreases |pages|
  {
    if pages == [] then []
    else
      [Sent(ctx, Scan(cursor, PATTERN, 100), Some(PageReply(pages[0])))] + ScanCommands(ctx, pages[0].next, pages[1..])
  }

  // The loop's effect of one well-formed page.
  lemma {:induction false} ScanStep(l: Link, cursor: string, count: nat, page: ScanPage)
    requires l.ctx.Some? && NextAnswer(l.lib) == Some(PageReply(page))
    ensures (
      var next := l.(lib := Exchanged(l.lib, l.ctx.value, Scan(cursor, PATTERN, 100)));
      ScannedFrom(l, cursor, count)
      == if page.next == "0" then (next, Count(count + |page.keys|))
         else ScannedFrom(next, page.next, count + |page.keys|))
  {
  }

  // Over the pages of a complete scan the loop adds up all keys received, takes no answer beyond
  // the last page, and asks for each page with the cursor of the one before.
  lemma {:induction false} ScanCountsAllKeys(l: Link, cursor: string, count: nat, pages: seq<ScanPage>)
    requires l.ctx.Some? && CompleteScan(pages) && PageReplies(pages) <= l.lib.answers
    ensures ScannedFrom(l, cursor, count).1 == Count(count + |PageKeys(pages)|)
    ensures ScannedFrom(l, cursor, count).0
         == l.(lib := l.lib.(answers := l.lib.answers[|pages|..], replies := l.lib.replies + |pages|,
                             log := l.lib.log + ScanCommands(l.ctx.value, cursor, pages)))
    decreases |pages|
  {
    var page, rest := pages[0], pages[1..];
    assert l.lib.answers[0] == PageReplies(pages)[0];
    ScanStep(l, cursor, count, page);
    var next := l.(lib := Exchanged(l.lib, l.ctx.value, Scan(cursor, PATTERN, 100)));
    if |pages| > 1 {
      RestOfScan(l.lib.answers, pages);
      ScanCountsAllKeys(next, page.next, count + |page.keys|, rest);
      assert l.lib.answers[1..][|rest|..] == l.lib.answers[|pages|..];
    } else {
      assert ScanCommands(l.ctx.value, page.next, rest) == [];
    }
    assert ScanCommands(l.ctx.value, cursor, pages)
        == [Sent(l.ctx.value, Scan(cursor, PATTERN, 100), Some(PageReply(page)))]
           + ScanCommands(l.ctx.value, page.next, rest);
  }

  // Counting on a link with a connection, of which the answers to come are the pages of a complete
  // scan, asks for the keys from cursor 0 on and for every page once, and gives their number.
  lemma {:induction false} CountOnTheWire(l: Link, config: Config, pages: seq<ScanPage>)
    requires Safe(l) && l.ctx.Some? && l.connected && CompleteScan(pages) && PageReplies(pages) <= l.lib.answers
    ensures Counted(l, config).1 == Count(|PageKeys(pages)|)
    ensures Counted(l, config).0.lib.log == l.lib.log + ScanCommands(l.ctx.value, "0", pages)
  {
    ScanCountsAllKeys(l, "0", 0, pages);
  }

  // An answer that is no page.
  predicate IsBad(answer: Option<Reply>) {
    answer.None? || !answer.value.Array? || |answer.value.elements| != 2
  }

  // Whatever pages came before, the first answer that is no page ends the loop: no answer at all is
  // an I/O error, and loses the connection; an error reply is a protocol error; anything else has an
  // unexpected format.
  lemma {:induction false} ScanEndsAtBadAnswer(l: Link, cursor: string, count: nat, pages: seq<ScanPage>)
    requires l.ctx.Some? && PageReplies(pages) <= l.lib.answers
    requires forall i :: 0 <= i < |pages| ==> pages[i].next != "0"
    requires |l.lib.answers| > |pages| && IsBad(l.lib.answers[|pages|])
    ensures var (l', r) := ScannedFrom(l, cursor, count);
            var bad := l.lib.answers[|pages|];
            && r == (if bad.None? then IoError else if bad.value.Error? then ProtocolError else UnexpectedFormat)
            && l'.ctx == (if bad.None? then None else l.ctx)
    decreases |pages|
  {
    if pages != [] {
      assert l.lib.answers[0] == PageReplies(pages)[0];
      ScanStep(l, cursor, count, pages[0]);
      var next := l.(lib := Exchanged(l.lib, l.ctx.value, Scan(cursor, PATTERN, 100)));
      assert next.lib.answers[|pages| - 1] == l.lib.answers[|pages|];
      ScanEndsAtBadAnswer(next, pages[0].next, count + |pages[0].keys|, pages[1..]);
    }
  }

  lemma {:induction false} RestOfScan(answers: seq<Option<Reply>>, pages: seq<ScanPage>)
    requires CompleteScan(pages) && |pages| > 1 && PageReplies(pages) <= answers
    ensures CompleteScan(pages[1..]) && PageReplies(pages[1..]) <= answers[1..]
  {
  }

  // A command whose reply is freed.
  lemma {:induction false} CommandAndFree(lib: Library, ctx: nat, command: Command)
    requires ctx in lib.live && lib.held == {}
    ensures var answer, after := RunCommand(lib, ctx, command), Exchanged(lib, ctx, command);
            if answer.handle.None? then answer.lib == after
            else answer.handle.value.id in answer.lib.held && FreeReply(answer.lib, answer.handle.value) == after
  {
  }

  // --- The class -------------------------------------------------------------------------------

  class ClusterImpl {
    const config: Config
    var ctx: Option<nat>
    var isConnected: bool
    var lib: Library
    var depth: nat              // how often the running thread holds redisMutex_

    function View(): Link
      reads this
    {
      Link(ctx, isConnected, lib)
    }

    constructor (config: Config, lib: Library)
      ensures this.config == config && View() == Link(None, false, lib) && depth == 0
    {
      this.config := config;
      ctx, isConnected := None, false;
      this.lib := lib;
      depth := 0;
    }

    method Lock()
      modifies `depth
      ensures depth == old(depth) + 1
    {
      depth := depth + 1;
    }

    method Unlock()
      requires depth > 0
      modifies `depth
      ensures depth == old(depth) - 1
    {
      depth := depth - 1;
    }

    // Every command goes through here: the mutex is held and the context is live.
    method Command(command: Hiredis.Command) returns (reply: Option<Handle>)
      requires depth > 0 && ctx.Some? && ctx.value in lib.live
      modifies `lib
      ensures lib == RunCommand(old(lib), ctx.value, command).lib
      ensures reply == RunCommand(old(lib), ctx.value, command).handle
    {
      var answer := RunCommand(lib, ctx.value, command);
      lib := answer.lib;
      reply := answer.handle;
    }

    method DropContext()
      requires ctx.Some? ==> ctx.value in lib.live
      modifies `lib, `ctx
      ensures ctx == None
      ensures lib == if old(ctx).Some? then FreeContext(old(lib), old(ctx).value) else old(lib)
    {
      if ctx.Some? {
        lib := FreeContext(lib, ctx.value);
        ctx := None;
      }
    }

    method Disconnect()
      requires Safe(View())
      modifies this
      ensures View() == Down(old(lib)) && depth == old(depth)
    {
      Lock();
      DropContext();
      isConnected := false;
      Unlock();
    }

    // The AUTH on a fresh context, which is dropped again unless the password is accepted.
    method Authenticate() returns (accepted: bool)
      requires depth > 0 && ctx.Some? && lib.live == {ctx.value} && lib.held == {}
      modifies `lib, `ctx
      ensures accepted == !Refused(NextAnswer(old(lib)))
      ensures var authed := Exchanged(old(lib), old(ctx).value, Auth(config.password));
              if accepted then lib == authed && ctx == old(ctx) else lib == authed.(live := {}) && ctx == None
    {
      CommandAndFree(lib, ctx.value, Auth(config.password));
      var reply := Command(Auth(config.password));
      accepted := reply.Some? && !reply.value.reply.Error?;
      if reply.Some? { lib := FreeReply(lib, reply.value); }
      if !accepted { DropContext(); }
    }

    method EnsureConnection() returns (ok: bool)
      requires Safe(View())
      modifies this
      ensures (View(), ok) == Ensured(old(View()), config.password)
      ensures depth == old(depth)
    {
      Lock();
      if ctx.Some? && isConnected {
        Unlock();
        return true;
      }
      DropContext();
      assert lib == old(lib).(live := {});
      var attempt := ConnectWithTimeout(lib);
      lib, ctx := attempt.lib, attempt.ctx;
      if ctx == None || attempt.err {
        DropContext();
        assert lib.live == {};
        isConnected := false;
        Unlock();
        return false;
      }
      assert lib.live == {ctx.value};
      if config.password != "" {
        var accepted := Authenticate();
        if !accepted {
          isConnected := false;
          Unlock();
          return false;
        }
      }
      isConnected := true;
      Unlock();
      return true;
    }

    // The body of the heartbeat loop's critical section.
    method SendHeartbeatPayload() returns (took: bool)
      requires Safe(View()) && depth > 0
      modifies this
      ensures (View(), took) == Beaten(old(View()), config)
      ensures depth == old(depth)
    {
      EnsuredIsSafe(View(), config.password);
      var ok := EnsureConnection();
      if !ok { return false; }
      var key := "cluster:node:" + config.nodeId + ":heartbeat";
      var reply := Command(SetEx(key, "1", config.ttlSeconds));
      if reply.None? {
        isConnected := false;
        DropContext();
        assert lib.live == {};
        return false;
      }
      took := !reply.value.reply.Error?;
      lib := FreeReply(lib, reply.value);
    }

    method CountActiveNodes() returns (r: CountResult)
      requires Safe(View()) && depth > 0
      modifies this
      ensures (View(), r) == Counted(old(View()), config)
      ensures depth == old(depth)
    {
      EnsuredIsSafe(View(), config.password);
      var ok := EnsureConnection();
      if !ok { return ConnectionLost; }
      ghost var start := View();
      var count: nat := 0;
      var cursor := "0";
      var first := true;
      while first || cursor != "0"
        invariant depth == old(depth) && ctx == start.ctx && ctx.Some? && Settled(View())
        invariant ScannedFrom(start, "0", 0)
               == if first || cursor != "0" then ScannedFrom(View(), cursor, count) else (View(), Count(count))
        decreases first || cursor != "0", |lib.answers|
      {
        first := false;
        CommandAndFree(lib, ctx.value, Scan(cursor, PATTERN, 100));
        ghost var asked, here := cursor, View();
        var reply := Command(Scan(cursor, PATTERN, 100));
        if reply.None? {
          isConnected := false;
          DropContext();
          assert lib.live == {};
          return IoError;
        }
        var answer := reply.value.reply;
        lib := FreeReply(lib, reply.value);
        assert View() == here.(lib := Exchanged(here.lib, ctx.value, Scan(asked, PATTERN, 100)));
        if answer.Error? { return ProtocolError; }
        if answer.Array? && |answer.elements| == 2 {
          if answer.elements[0].Str? { cursor := answer.elements[0].text; }
          if answer.elements[1].Array? { count := count + |answer.elements[1].elements|; }
        } else {
          return UnexpectedFormat;
        }
      }
      r := Count(count);
    }

    // `elapsedMs` is the time the ping took.
    method Sample(elapsedMs: real) returns (r: SampleResult)
      requires Safe(View())
      modifies this
      ensures (View(), r) == Sampled(old(View()), config, elapsedMs)
      ensures depth == old(depth)
    {
      Lock();
      EnsuredIsSafe(View(), config.password);
      var ok := EnsureConnection();
      if !ok {
        Unlock();
        return Fatal;
      }
      var latency := -1.0;
      var reply := Command(Ping);
      if reply.None? {
        isConnected := false;
        DropContext();
      } else {
        if !reply.value.reply.Error? { latency := elapsedMs; }
        lib := FreeReply(lib, reply.value);
      }
      var count := CountActiveNodes();
      r := Metrics(NodeMetric(count), latency, 1.0);
      Unlock();
    }
  }

  // Building a ClusterImpl: it connects at once, and if that fails nothing is left behind.
  method Build(config: Config, lib: Library) returns (impl: ClusterImpl?, lib': Library)
    requires lib.live == {} && lib.held == {}
    ensures impl == null <==> !Ensured(Link(None, false, lib), config.password).1
    ensures impl == null ==> lib'.live == {} && lib'.held == {}
    ensures impl != null ==> fresh(impl) && Settled(impl.View()) && impl.ctx.Some? && impl.depth == 0
    ensures impl != null ==> impl.View() == Ensured(Link(None, false, lib), config.password).0
  {
    var c := new ClusterImpl(config, lib);
    EnsuredIsSafe(c.View(), config.password);
    c.Lock();
    var ok := c.EnsureConnection();
    c.Unlock();
    lib' := c.lib;
    impl := if ok then c else null;
  }

  // The destructor, once the heartbeat thread has been joined: no context survives it.
  method Destroy(impl: ClusterImpl)
    requires Safe(impl.View())
    modifies impl
    ensures impl.lib.live == {} && impl.lib.held == {} && impl.ctx == None && !impl.isConnected
  {
    impl.Disconnect();
  }
}
