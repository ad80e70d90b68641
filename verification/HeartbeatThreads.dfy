/** The two threads of a ClusterImpl: the controlling thread (constructor, startHeartbeat,
    stopHeartbeat, sample, destructor) and the heartbeat thread, over one recursive mutex, one
    flag and one connection. A step is what a thread does between two points at which the other
    may see it; inside the mutex the connection changes by the operations of ClusterImpl. */
module HeartbeatThreads {
  import opened Options
  import opened Hiredis
  import opened ClusterImpl
  import HeartbeatKey

  datatype Who = Controller | Heartbeat

  // Where the controlling thread is. `ctor` says that startHeartbeat was called by the
  // constructor, which already holds the mutex; `dtor` that stopHeartbeat was by the destructor.
  datatype ControllerAt =
    | CtorEnter | CtorConnect | CtorThrow | CtorLeave | Failed
    | Idle
    | StartEnter(ctor: bool) | StartCheck(ctor: bool) | StartSpawn(ctor: bool) | StartLeave(ctor: bool)
    | StopClear(dtor: bool) | StopJoin(dtor: bool)
    | SampleEnter | SampleConnect | SamplePing | SampleCount | SampleLeave
    | DisconnectEnter | DisconnectFree | DisconnectLeave | Destroyed

  // Where the heartbeat thread is, if there is one.
  datatype HeartbeatAt =
    | NoThread | LoopTop | Enter | Connect | Send | Leave | Sleep(slices: nat) | Exited

  datatype State = State(
    holder: Option<Who>,      // who holds redisMutex_
    depth: nat,               // ... and how often
    keepRunning: bool,
    joinable: bool,           // heartbeatThread_.joinable()
    terminated: bool,         // std::terminate was called: a thread was assigned over a joinable one
    link: Link,
    controller: ControllerAt,
    heartbeat: HeartbeatAt)

  // What the controlling thread calls next, when it is idle.
  datatype Call = CallStart | CallStop | CallSample | CallDestroy

  datatype Step = ControllerStep(call: Call) | HeartbeatStep

  predicate Init(s: State) {
    && s.holder == None && s.depth == 0 && !s.keepRunning && !s.joinable && !s.terminated
    && s.link.ctx == None && !s.link.connected && s.link.lib.live == {} && s.link.lib.held == {}
    && s.controller == CtorEnter && s.heartbeat == NoThread
  }

  // --- The mutex -----------------------------------------------------------------------------

  predicate CanLock(s: State, who: Who) {
    s.holder == None || s.holder == Some(who)
  }

  function Locked(s: State, who: Who): State {
    s.(holder := Some(who), depth := s.depth + 1)
  }

  function Unlocked(s: State): State
    requires s.depth > 0
  {
    if s.depth == 1 then s.(holder := None, depth := 0) else s.(depth := s.depth - 1)
  }

  // --- Steps ---------------------------------------------------------------------------------

  predicate ControllerEnabled(s: State) {
    match s.controller
    case CtorEnter | SampleEnter | DisconnectEnter | StartEnter(_) => CanLock(s, Controller)
    case StopJoin(_) => s.joinable ==> s.heartbeat == Exited
    case Failed | Destroyed => false
    case _ => true
  }

  predicate HeartbeatEnabled(s: State) {
    match s.heartbeat
    case NoThread | Exited => false
    case Enter => CanLock(s, Heartbeat)
    case _ => true
  }

  // A step inside the mutex needs the mutex, and a usable link.
  predicate MayRun(s: State, step: Step) {
    && !s.terminated
    && (match step
        case ControllerStep(_) =>
          ControllerEnabled(s)
          && (s.controller in {CtorConnect, SampleConnect, SampleCount, DisconnectFree} ==> Safe(s.link))
          && (s.controller == SamplePing ==> s.link.ctx.Some?)
          && (s.controller in {CtorThrow, CtorLeave, SampleLeave, DisconnectLeave} || s.controller.StartLeave? ==> s.depth > 0)
        case HeartbeatStep =>
          HeartbeatEnabled(s)
          && (s.heartbeat == Connect ==> Safe(s.link))
          && (s.heartbeat == Send ==> s.link.ctx.Some?)
          && (s.heartbeat == Leave ==> s.depth > 0))
  }

  function ControllerTaken(s: State, call: Call, config: Config): State
    requires MayRun(s, ControllerStep(call))
  {
    match s.controller
    case CtorEnter => Locked(s, Controller).(controller := CtorConnect)
    case CtorConnect =>
      var (link, ok) := Ensured(s.link, config.password);
      s.(link := link, controller := if !ok then CtorThrow else if config.heartbeat then StartEnter(true) else CtorLeave)
    case CtorThrow => Unlocked(s).(controller := Failed)
    case CtorLeave => Unlocked(s).(controller := Idle)
    case Idle =>
      s.(controller := match call
                       case CallStart => StartEnter(false)
                       case CallStop => StopClear(false)
                       case CallSample => SampleEnter
                       case CallDestroy => StopClear(true))
    case StartEnter(ctor) => Locked(s, Controller).(controller := StartCheck(ctor))
    case StartCheck(ctor) =>
      if s.keepRunning then s.(controller := StartLeave(ctor))
      else s.(keepRunning := true, controller := StartSpawn(ctor))
    case StartSpawn(ctor) =>
      if s.joinable then s.(terminated := true)
      else s.(joinable := true, heartbeat := LoopTop, controller := StartLeave(ctor))
    case StartLeave(ctor) => Unlocked(s).(controller := if ctor then CtorLeave else Idle)
    case StopClear(dtor) => s.(keepRunning := false, controller := StopJoin(dtor))
    case StopJoin(dtor) =>
      s.(joinable := false, heartbeat := NoThread, controller := if dtor then DisconnectEnter else Idle)
    case SampleEnter => Locked(s, Controller).(controller := SampleConnect)
    case SampleConnect =>
      var (link, ok) := Ensured(s.link, config.password);
      s.(link := link, controller := if ok then SamplePing else SampleLeave)
    case SamplePing => s.(link := Pinged(s.link).0, controller := SampleCount)
    case SampleCount => s.(link := Counted(s.link, config).0, controller := SampleLeave)
    case SampleLeave => Unlocked(s).(controller := Idle)
    case DisconnectEnter => Locked(s, Controller).(controller := DisconnectFree)
    case DisconnectFree => s.(link := Down(s.link.lib), controller := DisconnectLeave)
    case DisconnectLeave => Unlocked(s).(controller := Destroyed)
    case Failed => s
    case Destroyed => s
  }

  function HeartbeatTaken(s: State, config: Config): State
    requires MayRun(s, HeartbeatStep)
  {
    match s.heartbeat
    case LoopTop => s.(heartbeat := if s.keepRunning then Enter else Exited)
    case Enter => Locked(s, Heartbeat).(heartbeat := Connect)
    case Connect =>
      var (link, ok) := Ensured(s.link, config.password);
      s.(link := link, heartbeat := if ok then Send else Leave)
    case Send => s.(link := SetSent(s.link, config).0, heartbeat := Leave)
    case Leave => Unlocked(s).(heartbeat := Sleep(0))
    case Sleep(slices) => s.(heartbeat := if slices < 10 && s.keepRunning then Sleep(slices + 1) else LoopTop)
    case NoThread => s
    case Exited => s
  }

  function Taken(s: State, step: Step, config: Config): State
    requires MayRun(s, step)
  {
    match step
    case ControllerStep(call) => ControllerTaken(s, call, config)
    case HeartbeatStep => HeartbeatTaken(s, config)
  }

  ghost predicate Next(s: State, s': State, config: Config) {
    exists step :: MayRun(s, step) && s' == Taken(s, step, config)
  }

  // --- The invariant ---------------------------------------------------------------------------

  // How often the controlling thread holds the mutex, by where it is.
  function ControllerDepth(at: ControllerAt): nat {
    match at
    case CtorConnect | CtorThrow | CtorLeave => 1
    case StartEnter(ctor) => if ctor then 1 else 0
    case StartCheck(ctor) => if ctor then 2 else 1
    case StartSpawn(ctor) => if ctor then 2 else 1
    case StartLeave(ctor) => if ctor then 2 else 1
    case SampleConnect | SamplePing | SampleCount | SampleLeave => 1
    case DisconnectFree | DisconnectLeave => 1
    case _ => 0
  }

  function HeartbeatDepth(at: HeartbeatAt): nat {
    if at in {Connect, Send, Leave} then 1 else 0
  }

  // The mutex is held by exactly the thread that is inside it, as often as it entered.
  predicate MutexMatches(s: State) {
    && ControllerDepth(s.controller) * HeartbeatDepth(s.heartbeat) == 0
    && s.depth == ControllerDepth(s.controller) + HeartbeatDepth(s.heartbeat)
    && s.holder == (if ControllerDepth(s.controller) > 0 then Some(Controller)
                    else if HeartbeatDepth(s.heartbeat) > 0 then Some(Heartbeat) else None)
  }

  predicate Constructing(at: ControllerAt) {
    at in {CtorEnter, CtorConnect, CtorThrow, Failed}
  }

  predicate Destroying(at: ControllerAt) {
    at in {DisconnectEnter, DisconnectFree, DisconnectLeave, Destroyed}
  }

  // There is a heartbeat thread exactly while it is joinable; it runs only under the flag, and it
  // ends only once the flag is cleared.
  predicate ThreadMatches(s: State) {
    && (s.joinable <==> s.heartbeat != NoThread)
    && (s.keepRunning ==> s.joinable || s.controller.StartSpawn?)
    && (s.heartbeat == Exited ==> !s.keepRunning)
    && (s.joinable && !s.keepRunning ==> s.controller.StopJoin?)
    && (s.controller.StopJoin? ==> !s.keepRunning)
    && (s.controller.StartSpawn? ==> s.keepRunning && !s.joinable)
    && (s.controller.StartLeave? ==> s.keepRunning && s.joinable)
    && (s.controller in {StartEnter(true), StartCheck(true)} ==> !s.joinable && !s.keepRunning)
    && (Constructing(s.controller) || Destroying(s.controller) ==> !s.joinable && !s.keepRunning)
  }

  // The ledger is right at every step; ctx_ and isConnected_ agree whenever the mutex is free.
  predicate LinkMatches(s: State) {
    && Settled(s.link)
    && (s.controller == SamplePing || s.heartbeat == Send ==> s.link.ctx.Some?)
    && (s.controller in {CtorThrow, Failed, DisconnectLeave, Destroyed} ==> s.link.lib.live == {})
  }

  predicate Inv(s: State) {
    MutexMatches(s) && ThreadMatches(s) && LinkMatches(s) && !s.terminated
  }

  lemma {:induction false} InitEstablishesInv(s: State)
    requires Init(s)
    ensures Inv(s)
  {
  }

  lemma {:induction false} ControllerKeepsMutex(s: State, call: Call, config: Config)
    requires Inv(s) && MayRun(s, ControllerStep(call))
    ensures MutexMatches(ControllerTaken(s, call, config))
  {
  }

  lemma {:induction false} ControllerKeepsThread(s: State, call: Call, config: Config)
    requires Inv(s) && MayRun(s, ControllerStep(call))
    ensures ThreadMatches(ControllerTaken(s, call, config)) && !ControllerTaken(s, call, config).terminated
  {
  }

  lemma {:induction false} ControllerKeepsLink(s: State, call: Call, config: Config)
    requires Inv(s) && MayRun(s, ControllerStep(call))
    ensures LinkMatches(ControllerTaken(s, call, config))
  {
    EnsuredIsSafe(s.link, config.password);
    CountSettles(s.link, config);
  }

  lemma {:induction false} HeartbeatKeepsInv(s: State, config: Config)
    requires Inv(s) && MayRun(s, HeartbeatStep)
    ensures Inv(HeartbeatTaken(s, config))
  {
  }

  // --- Runs ---------------------------------------------------------------------------------------

  ghost predicate IsRun(run: seq<State>, config: Config) {
    && |run| > 0 && Init(run[0])
    && forall k :: 0 <= k < |run| - 1 ==> Next(run[k], run[k + 1], config)
  }

  lemma {:induction false} InvHoldsThroughout(run: seq<State>, config: Config, k: nat)
    requires IsRun(run, config) && k < |run|
    ensures Inv(run[k])
  {
    if k == 0 {
      InitEstablishesInv(run[0]);
    } else {
      InvHoldsThroughout(run, config, k - 1);
      var s := run[k - 1];
      assert Next(s, run[k - 1 + 1], config);
      var step :| MayRun(s, step) && run[k] == Taken(s, step, config);
      match step {
        case ControllerStep(call) =>
          ControllerKeepsMutex(s, call, config);
          ControllerKeepsThread(s, call, config);
          ControllerKeepsLink(s, call, config);
        case HeartbeatStep => HeartbeatKeepsInv(s, config);
      }
    }
  }

  // Steps i to j of a run, each from a state that fits.
  ghost predicate Steps(run: seq<State>, config: Config, i: nat, j: nat)
    requires i <= j < |run|
  {
    i < j ==> Steps(run, config, i, j - 1) && Inv(run[j - 1]) && Next(run[j - 1], run[j], config)
  }

  lemma {:induction false} StepsOfRun(run: seq<State>, config: Config, i: nat, j: nat)
    requires IsRun(run, config) && i <= j < |run|
    ensures Steps(run, config, i, j)
  {
    if i < j {
      StepsOfRun(run, config, i, j - 1);
      InvHoldsThroughout(run, config, j - 1);
      assert Next(run[j - 1], run[j - 1 + 1], config);
    }
  }

  // --- Safety ---------------------------------------------------------------------------------------

  // In every reachable state a thread about to send a command holds the mutex and has a live
  // context, and a thread that is not waiting for the other can take its step: no step needs a
  // context that is gone, or gives back a mutex that is not held.
  lemma {:induction false} ReachableStepsAreSafe(run: seq<State>, config: Config, k: nat, call: Call)
    requires IsRun(run, config) && k < |run|
    ensures var s := run[k];
      && (s.heartbeat == Send ==> s.holder == Some(Heartbeat) && s.link.ctx.Some? && s.link.ctx.value in s.link.lib.live)
      && (s.controller == SamplePing ==> s.holder == Some(Controller) && s.link.ctx.Some? && s.link.ctx.value in s.link.lib.live)
      && (ControllerEnabled(s) ==> MayRun(s, ControllerStep(call)))
      && (HeartbeatEnabled(s) ==> MayRun(s, HeartbeatStep))
      && (s.holder == None ==> Settled(s.link))
      && |s.link.lib.live| <= 1
      && (s.controller in {Failed, Destroyed} ==> s.link.lib.live == {} && s.link.lib.held == {} && s.heartbeat == NoThread)
      && !s.terminated
  {
    InvHoldsThroughout(run, config, k);
  }

  lemma {:induction false} StepKeepsAuthFirst(s: State, step: Step, config: Config)
    requires Inv(s) && MayRun(s, step) && config.password != "" && AuthFirst(s.link, config.password)
    ensures AuthFirst(Taken(s, step, config).link, config.password)
  {
    EnsuredKeepsAuthFirst(s.link, config.password);
    CountKeepsAuthFirst(s.link, config);
    if s.link.ctx.Some? {
      SetKeepsAuthFirst(s.link, config);
      PingKeepsAuthFirst(s.link, config.password);
    }
  }

  // With a password configured, in every reachable state every heartbeat, ping and scan sent so far,
  // by either thread, went to a context on which the server had accepted the password, and the
  // context that is up for the next one is such.
  lemma {:induction false} ReachableCommandsAreAuthenticated(run: seq<State>, config: Config, k: nat)
    requires IsRun(run, config) && k < |run| && config.password != ""
    requires AuthFirstLog(run[0].link.lib.log, config.password)
    ensures AuthFirst(run[k].link, config.password)
  {
    if k > 0 {
      ReachableCommandsAreAuthenticated(run, config, k - 1);
      InvHoldsThroughout(run, config, k - 1);
      var s := run[k - 1];
      assert Next(s, run[k - 1 + 1], config);
      var step :| MayRun(s, step) && run[k] == Taken(s, step, config);
      StepKeepsAuthFirst(s, step, config);
    }
  }

  // No reachable state is a deadlock: unless the controlling thread is idle or gone for good,
  // some thread can move, and a controlling thread that waits always waits for a heartbeat
  // thread that can. It never waits for that thread while holding the mutex.
  lemma {:induction false} NoReachableDeadlock(run: seq<State>, config: Config, k: nat, call: Call)
    requires IsRun(run, config) && k < |run|
    ensures var s := run[k];
      && (s.controller !in {Failed, Destroyed} ==> MayRun(s, ControllerStep(call)) || MayRun(s, HeartbeatStep))
      && (s.controller.StopJoin? ==> s.holder != Some(Controller))
      && (HeartbeatEnabled(s) || s.heartbeat in {NoThread, Exited} || MayRun(s, ControllerStep(call)))
  {
    InvHoldsThroughout(run, config, k);
  }

  // --- What the threads send ----------------------------------------------------------------------------

  // Everything but the setting up of connections and the scans.
  predicate IsMessage(sent: Sent) {
    !sent.command.Auth? && !sent.command.Scan?
  }

  function Messages(log: seq<Sent>): seq<Sent> {
    if log == [] then []
    else Messages(log[..|log| - 1]) + (if IsMessage(log[|log| - 1]) then [log[|log| - 1]] else [])
  }

  predicate NoMessages(log: seq<Sent>) {
    forall i :: 0 <= i < |log| ==> !IsMessage(log[i])
  }

  lemma {:induction false} MessagesConcat(a: seq<Sent>, b: seq<Sent>)
    ensures Messages(a + b) == Messages(a) + Messages(b)
  {
    if b == [] {
      assert a + b == a;
    } else {
      MessagesConcat(a, b[..|b| - 1]);
      assert (a + b)[..|a + b| - 1] == a + b[..|b| - 1];
    }
  }

  lemma {:induction false} NothingAdded(log: seq<Sent>, added: seq<Sent>)
    requires NoMessages(added)
    ensures Messages(log + added) == Messages(log)
  {
    if added == [] {
      assert log + added == log;
    } else {
      NothingAdded(log, added[..|added| - 1]);
      assert (log + added)[..|log + added| - 1] == log + added[..|added| - 1];
    }
  }

  lemma {:induction false} OneAdded(log: seq<Sent>, sent: Sent)
    ensures Messages(log + [sent]) == Messages(log) + (if IsMessage(sent) then [sent] else [])
  {
    assert (log + [sent])[..|log|] == log;
  }

  lemma {:induction false} EnsuredSendsNoMessage(l: Link, password: string)
    requires Safe(l)
    ensures Messages(Ensured(l, password).0.lib.log) == Messages(l.lib.log)
  {
    EnsuredOnTheWire(l, password);
    OneAdded(l.lib.log, Sent(l.lib.contexts, Auth(password), NextAnswer(l.lib)));
  }

  lemma {:induction false} ScanSendsNoMessage(l: Link, cursor: string, count: nat)
    requires l.ctx.Some?
    ensures Messages(ScannedFrom(l, cursor, count).0.lib.log) == Messages(l.lib.log)
    decreases |l.lib.answers|
  {
    var scan := Scan(cursor, HeartbeatKey.PATTERN, 100);
    OneAdded(l.lib.log, Recorded(l.lib, l.ctx.value, scan));
    var more, cursor', count' := ScanTurn(l, cursor, count);
    if more { ScanSendsNoMessage(l.(lib := Exchanged(l.lib, l.ctx.value, scan)), cursor', count'); }
  }

  lemma {:induction false} CountSendsNoMessage(l: Link, config: Config)
    requires Safe(l)
    ensures Messages(Counted(l, config).0.lib.log) == Messages(l.lib.log)
  {
    EnsuredIsSafe(l, config.password);
    EnsuredSendsNoMessage(l, config.password);
    var (up, ok) := Ensured(l, config.password);
    if ok { ScanSendsNoMessage(up, "0", 0); }
  }

  // The heartbeat thread goes past its SET, and the controlling thread past its PING.
  predicate PastSet(s: State, s': State) {
    s.heartbeat == Send && s'.heartbeat == Leave
  }

  predicate PastPing(s: State, s': State) {
    s.controller == SamplePing && s'.controller == SampleCount
  }

  // What has to be sent in between, on the context that is up.
  function Due(s: State, s': State, config: Config): seq<Sent> {
    if s.link.ctx.None? then []
    else if PastSet(s, s') then
      [Sent(s.link.ctx.value, SetEx("cluster:node:" + config.nodeId + ":heartbeat", "1", config.ttlSeconds),
            NextAnswer(s.link.lib))]
    else if PastPing(s, s') then [Sent(s.link.ctx.value, Ping, NextAnswer(s.link.lib))]
    else []
  }

  lemma {:induction false} SendStepSendsSet(s: State, config: Config)
    requires Inv(s) && MayRun(s, HeartbeatStep) && s.heartbeat == Send
    ensures var s' := HeartbeatTaken(s, config);
            Messages(s'.link.lib.log) == Messages(s.link.lib.log) + Due(s, s', config)
  {
    SetOnTheWire(s.link, config);
    OneAdded(s.link.lib.log, Due(s, HeartbeatTaken(s, config), config)[0]);
  }

  lemma {:induction false} OtherHeartbeatSteps(s: State, config: Config)
    requires Inv(s) && MayRun(s, HeartbeatStep) && s.heartbeat != Send
    ensures var s' := HeartbeatTaken(s, config);
            Due(s, s', config) == [] && s'.link in {s.link, Ensured(s.link, config.password).0}
  {
  }

  lemma {:induction false} HeartbeatSendsWhatIsDue(s: State, config: Config)
    requires Inv(s) && MayRun(s, HeartbeatStep)
    ensures var s' := HeartbeatTaken(s, config);
            Messages(s'.link.lib.log) == Messages(s.link.lib.log) + Due(s, s', config)
  {
    if s.heartbeat == Send {
      SendStepSendsSet(s, config);
    } else {
      OtherHeartbeatSteps(s, config);
      EnsuredSendsNoMessage(s.link, config.password);
      assert Messages(s.link.lib.log) + [] == Messages(s.link.lib.log);
    }
  }

  lemma {:induction false} PingStepSendsPing(s: State, call: Call, config: Config)
    requires Inv(s) && MayRun(s, ControllerStep(call)) && s.controller == SamplePing
    ensures var s' := ControllerTaken(s, call, config);
            Messages(s'.link.lib.log) == Messages(s.link.lib.log) + Due(s, s', config)
  {
    PingOnTheWire(s.link);
    OneAdded(s.link.lib.log, Sent(s.link.ctx.value, Ping, NextAnswer(s.link.lib)));
  }

  // What the other steps of the controlling thread do to the link.
  lemma {:induction false} OtherStepsOnLink(s: State, call: Call, config: Config)
    requires Inv(s) && MayRun(s, ControllerStep(call)) && s.controller != SamplePing
    ensures var s' := ControllerTaken(s, call, config);
            && Due(s, s', config) == []
            && s'.link in {s.link, Ensured(s.link, config.password).0, Counted(s.link, config).0, Down(s.link.lib)}
  {
  }

  lemma {:induction false} ControllerSendsWhatIsDue(s: State, call: Call, config: Config)
    requires Inv(s) && MayRun(s, ControllerStep(call))
    ensures var s' := ControllerTaken(s, call, config);
            Messages(s'.link.lib.log) == Messages(s.link.lib.log) + Due(s, s', config)
  {
    if s.controller == SamplePing {
      PingStepSendsPing(s, call, config);
    } else {
      OtherStepsOnLink(s, call, config);
      EnsuredSendsNoMessage(s.link, config.password);
      CountSendsNoMessage(s.link, config);
      assert Messages(s.link.lib.log) + [] == Messages(s.link.lib.log);
    }
  }

  lemma {:induction false} StepSendsWhatIsDue(s: State, s': State, config: Config)
    requires Inv(s) && Next(s, s', config)
    ensures Messages(s'.link.lib.log) == Messages(s.link.lib.log) + Due(s, s', config)
  {
    var step :| MayRun(s, step) && s' == Taken(s, step, config);
    match step {
      case ControllerStep(call) => ControllerSendsWhatIsDue(s, call, config);
      case HeartbeatStep => HeartbeatSendsWhatIsDue(s, config);
    }
  }

  // All that is due in the first k steps of a run.
  function AllDue(run: seq<State>, config: Config, k: nat): seq<Sent>
    requires k < |run|
  {
    if k == 0 then [] else AllDue(run, config, k - 1) + Due(run[k - 1], run[k], config)
  }

  lemma {:induction false} StepsSendWhatIsDue(run: seq<State>, config: Config, k: nat)
    requires k < |run| && Steps(run, config, 0, k)
    ensures Messages(run[k].link.lib.log) == Messages(run[0].link.lib.log) + AllDue(run, config, k)
  {
    if k > 0 {
      StepsSendWhatIsDue(run, config, k - 1);
      StepSendsWhatIsDue(run[k - 1], run[k], config);
      MessagesGrow(Messages(run[0].link.lib.log), AllDue(run, config, k - 1), Due(run[k - 1], run[k], config));
    }
  }

  lemma {:induction false} MessagesGrow(a: seq<Sent>, b: seq<Sent>, c: seq<Sent>)
    ensures (a + b) + c == a + (b + c)
  {
  }

  // Of all the commands sent in a run, those that are no AUTH and no SCAN are exactly these, in this
  // order: one SET of the node's key with its time to live for every time the heartbeat thread goes
  // past its SET, and one PING for every time a sample goes past its ping, each on the context that
  // was up, with its answer.
  lemma {:induction false} ExactlyWhatIsDueIsSent(run: seq<State>, config: Config, k: nat)
    requires IsRun(run, config) && k < |run|
    ensures Messages(run[k].link.lib.log) == Messages(run[0].link.lib.log) + AllDue(run, config, k)
  {
    StepsOfRun(run, config, 0, k);
    StepsSendWhatIsDue(run, config, k);
  }

  // How often, in the first k steps, the heartbeat thread goes past its SET.
  function TimesPastSet(run: seq<State>, k: nat): nat
    requires k < |run|
  {
    if k == 0 then 0 else TimesPastSet(run, k - 1) + (if PastSet(run[k - 1], run[k]) then 1 else 0)
  }

  lemma {:induction false} SetsInMessages(log: seq<Sent>)
    ensures SetCount(log) == SetCount(Messages(log))
  {
    if log != [] {
      var init, last := log[..|log| - 1], log[|log| - 1];
      SetsInMessages(init);
      assert log == init + [last];
      SetCountOfOneMore(init, last);
      SetCountOfOneMore(Messages(init), last);
      assert Messages(init) + [] == Messages(init);
    }
  }

  lemma {:induction false} SetsDueInStep(before: seq<Sent>, s: State, s': State, config: Config)
    requires Inv(s)
    ensures SetCount(before + Due(s, s', config)) == SetCount(before) + (if PastSet(s, s') then 1 else 0)
  {
    var due := Due(s, s', config);
    if due == [] { assert before + due == before; } else { SetCountOfOneMore(before, due[0]); }
  }

  lemma {:induction false} SetsDue(log: seq<Sent>, run: seq<State>, config: Config, k: nat)
    requires k < |run| && Steps(run, config, 0, k)
    ensures SetCount(log + AllDue(run, config, k)) == SetCount(log) + TimesPastSet(run, k)
  {
    if k == 0 {
      assert log + [] == log;
    } else {
      SetsDue(log, run, config, k - 1);
      MessagesGrow(log, AllDue(run, config, k - 1), Due(run[k - 1], run[k], config));
      SetsDueInStep(log + AllDue(run, config, k - 1), run[k - 1], run[k], config);
    }
  }

  // So no SET is left out and none is sent besides.
  lemma {:induction false} OneSetEachTime(run: seq<State>, config: Config, k: nat)
    requires IsRun(run, config) && k < |run|
    ensures SetCount(run[k].link.lib.log) == SetCount(run[0].link.lib.log) + TimesPastSet(run, k)
  {
    ExactlyWhatIsDueIsSent(run, config, k);
    SetsInMessages(run[k].link.lib.log);
    SetsInMessages(run[0].link.lib.log);
    StepsOfRun(run, config, 0, k);
    SetsDue(Messages(run[0].link.lib.log), run, config, k);
  }

  // --- Critical sections ------------------------------------------------------------------------------------

  // Where a heartbeat or a sample has got the link to that it found at its start.
  predicate BeatingSince(s: State, start: Link, config: Config) {
    Safe(start) &&
    match s.heartbeat
    case Connect => s.link == start
    case Send => Ensured(start, config.password) == (s.link, true)
    case Leave => s.link == Beaten(start, config).0
    case _ => false
  }

  predicate SamplingSince(s: State, start: Link, config: Config) {
    Safe(start) &&
    match s.controller
    case SampleConnect => s.link == start
    case SamplePing => Ensured(start, config.password) == (s.link, true)
    case SampleCount => Ensured(start, config.password).1 && s.link == Pinged(Ensured(start, config.password).0).0
    case SampleLeave => s.link == Sampled(start, config, 0.0).0
    case _ => false
  }

  lemma {:induction false} BeatingGoesOn(s: State, s': State, start: Link, config: Config)
    requires Inv(s) && Next(s, s', config) && s.heartbeat in {Connect, Send}
    requires BeatingSince(s, start, config)
    ensures BeatingSince(s', start, config)
  {
  }

  lemma {:induction false} SamplingGoesOn(s: State, s': State, start: Link, config: Config)
    requires Inv(s) && Next(s, s', config)
    requires s.controller in {SampleConnect, SamplePing, SampleCount} && SamplingSince(s, start, config)
    ensures SamplingSince(s', start, config)
  {
  }

  lemma {:induction false} BeatingAlong(run: seq<State>, config: Config, i: nat, j: nat, start: Link)
    requires i <= j < |run| && Steps(run, config, i, j) && BeatingSince(run[i], start, config)
    requires forall m :: i <= m < j ==> run[m].heartbeat in {Connect, Send}
    ensures BeatingSince(run[j], start, config)
  {
    if i < j {
      BeatingAlong(run, config, i, j - 1, start);
      BeatingGoesOn(run[j - 1], run[j], start, config);
    }
  }

  lemma {:induction false} SamplingAlong(run: seq<State>, config: Config, i: nat, j: nat, start: Link)
    requires i <= j < |run| && Steps(run, config, i, j) && SamplingSince(run[i], start, config)
    requires forall m :: i <= m < j ==> run[m].controller in {SampleConnect, SamplePing, SampleCount}
    ensures SamplingSince(run[j], start, config)
  {
    if i < j {
      SamplingAlong(run, config, i, j - 1, start);
      SamplingGoesOn(run[j - 1], run[j], start, config);
    }
  }

  // Whatever the controlling thread does meanwhile, from entering the mutex to leaving it the
  // heartbeat thread does one whole heartbeat to the link, and nothing else happens to it.
  lemma {:induction false} HeartbeatIsAtomic(run: seq<State>, config: Config, i: nat, j: nat)
    requires IsRun(run, config) && i <= j < |run| && run[i].heartbeat == Connect && run[j].heartbeat == Leave
    requires forall m :: i <= m < j ==> run[m].heartbeat in {Connect, Send}
    ensures Safe(run[i].link) && run[j].link == Beaten(run[i].link, config).0
  {
    InvHoldsThroughout(run, config, i);
    StepsOfRun(run, config, i, j);
    BeatingAlong(run, config, i, j, run[i].link);
  }

  // The same for a sample.
  lemma {:induction false} SampleIsAtomic(run: seq<State>, config: Config, i: nat, j: nat)
    requires IsRun(run, config) && i <= j < |run|
    requires run[i].controller == SampleConnect && run[j].controller == SampleLeave
    requires forall m :: i <= m < j ==> run[m].controller in {SampleConnect, SamplePing, SampleCount}
    ensures Safe(run[i].link) && run[j].link == Sampled(run[i].link, config, 0.0).0
  {
    InvHoldsThroughout(run, config, i);
    StepsOfRun(run, config, i, j);
    SamplingAlong(run, config, i, j, run[i].link);
  }

  // --- The loop -----------------------------------------------------------------------------------------------

  // The slices that the heartbeat thread sleeps from step i to step j.
  function SlicesSlept(run: seq<State>, i: nat, j: nat): nat
    requires i <= j < |run|
  {
    if i == j then 0
    else
      SlicesSlept(run, i, j - 1)
      + (if run[j - 1].heartbeat.Sleep? && run[j].heartbeat.Sleep? && run[j - 1].heartbeat != run[j].heartbeat then 1 else 0)
  }

  // How many it has slept since it left the mutex, by where it is.
  predicate SleptSoFar(at: HeartbeatAt, n: nat) {
    match at
    case Leave => n == 0
    case Sleep(slices) => n == slices <= 10
    case LoopTop | Enter => n == 10
    case _ => false
  }

  lemma {:induction false} SleepGoesOn(s: State, s': State, config: Config, n: nat)
    requires Inv(s) && Next(s, s', config) && s.keepRunning && SleptSoFar(s.heartbeat, n) && s.heartbeat != Enter
    ensures SleptSoFar(s'.heartbeat,
                       if s.heartbeat.Sleep? && s'.heartbeat.Sleep? && s.heartbeat != s'.heartbeat then n + 1 else n)
  {
  }

  lemma {:induction false} SleepingAlong(run: seq<State>, config: Config, i: nat, j: nat)
    requires i <= j < |run| && Steps(run, config, i, j) && run[i].heartbeat == Leave
    requires forall m :: i <= m < j ==> run[m].keepRunning && run[m].heartbeat != Enter
    ensures SleptSoFar(run[j].heartbeat, SlicesSlept(run, i, j))
  {
    if i < j {
      SleepingAlong(run, config, i, j - 1);
      SleepGoesOn(run[j - 1], run[j], config, SlicesSlept(run, i, j - 1));
    }
  }

  // While the flag is set the heartbeat thread, once out of the mutex, sleeps exactly ten slices and
  // then waits for the mutex again; it does not end.
  lemma {:induction false} TenSlicesBetweenBeats(run: seq<State>, config: Config, i: nat, j: nat)
    requires IsRun(run, config) && i <= j < |run| && run[i].heartbeat == Leave
    requires forall m :: i <= m < j ==> run[m].keepRunning && run[m].heartbeat != Enter
    ensures run[j].heartbeat == Enter ==> SlicesSlept(run, i, j) == 10
    ensures run[j].heartbeat in {Leave, LoopTop, Enter} || (run[j].heartbeat.Sleep? && run[j].heartbeat.slices <= 10)
  {
    StepsOfRun(run, config, i, j);
    SleepingAlong(run, config, i, j);
  }

  // --- What each call achieves ----------------------------------------------------------------------------------

  // startHeartbeat leaves a running thread under a set flag, and join() leaves none; only the
  // destructor goes on from there, and it leaves no context. A constructor that gets no connection
  // throws, and one that does starts the heartbeat if that is configured.
  lemma {:induction false} CallsDoTheirWork(run: seq<State>, config: Config, k: nat)
    requires IsRun(run, config) && k + 1 < |run|
    ensures var s, s' := run[k], run[k + 1];
      && (s.controller.StartLeave? ==> s.keepRunning && s.joinable && s.heartbeat != NoThread)
      && (s.controller.StopJoin? && s'.controller != s.controller ==>
            && !s'.joinable && !s'.keepRunning && s'.heartbeat == NoThread
            && s'.controller == if s.controller.dtor then DisconnectEnter else Idle)
      && (s.controller == DisconnectFree && s'.controller != s.controller ==>
            s'.controller == DisconnectLeave && s'.link.ctx == None && s'.link.lib.live == {})
      && (s.controller == CtorConnect && s'.controller != s.controller ==>
            s'.controller == (if s'.link.ctx.None? then CtorThrow else if config.heartbeat then StartEnter(true) else CtorLeave))
  {
    StepsOfRun(run, config, k, k + 1);
  }

  // The state after n steps of one thread alone.
  function Alone(s: State, step: Step, config: Config, n: nat): State {
    if n == 0 then s
    else
      var before := Alone(s, step, config, n - 1);
      if MayRun(before, step) then Taken(before, step, config) else before
  }

  lemma {:induction false} OneMoreAlone(s: State, step: Step, config: Config, n: nat)
    requires MayRun(Alone(s, step, config, n), step)
    ensures Alone(s, step, config, n + 1) == Taken(Alone(s, step, config, n), step, config)
  {
  }

  // The controlling thread is idle, the mutex is free, and the link settled.
  predicate IsIdle(s: State) {
    s.controller == Idle && s.holder == None && s.depth == 0 && !s.terminated && Settled(s.link)
  }

  lemma {:induction false} StartAlone(s: State, config: Config, n: nat)
    requires IsIdle(s) && !s.keepRunning && !s.joinable && 1 <= n <= 4
    ensures var t := s.(holder := Some(Controller), depth := 1);
            Alone(s, ControllerStep(CallStart), config, n) ==
            (if n == 1 then s.(controller := StartEnter(false))
            else if n == 2 then t.(controller := StartCheck(false))
            else if n == 3 then t.(keepRunning := true, controller := StartSpawn(false))
            else t.(keepRunning := true, joinable := true, heartbeat := LoopTop, controller := StartLeave(false)))
  {
    if n > 1 { StartAlone(s, config, n - 1); } else { assert Alone(s, ControllerStep(CallStart), config, 0) == s; }
    OneMoreAlone(s, ControllerStep(CallStart), config, n - 1);
  }

  // A startHeartbeat that is alone returns after five steps: there is a thread, at the top of its
  // loop, and the flag is set.
  lemma {:induction false} StartReturns(s: State, config: Config)
    requires IsIdle(s) && !s.keepRunning && !s.joinable
    ensures Alone(s, ControllerStep(CallStart), config, 5) == s.(keepRunning := true, joinable := true, heartbeat := LoopTop)
  {
    StartAlone(s, config, 4);
    OneMoreAlone(s, ControllerStep(CallStart), config, 4);
  }

  // A stopHeartbeat that is alone with no thread, or with one that has ended, returns after three.
  lemma {:induction false} StopReturns(s: State, config: Config)
    requires IsIdle(s) && (s.joinable ==> s.heartbeat == Exited)
    ensures Alone(s, ControllerStep(CallStop), config, 3) == s.(keepRunning := false, joinable := false, heartbeat := NoThread)
  {
    var step := ControllerStep(CallStop);
    assert Alone(s, step, config, 0) == s;
    OneMoreAlone(s, step, config, 0);
    OneMoreAlone(s, step, config, 1);
    OneMoreAlone(s, step, config, 2);
  }

  lemma {:induction false} SampleAlone(s: State, config: Config, n: nat)
    requires IsIdle(s) && 1 <= n <= 5 && Ensured(s.link, config.password).1
    ensures var t, up := s.(holder := Some(Controller), depth := 1), Ensured(s.link, config.password).0;
            up.ctx.Some? && Safe(Pinged(up).0) &&
            Alone(s, ControllerStep(CallSample), config, n) ==
            (if n == 1 then s.(controller := SampleEnter)
            else if n == 2 then t.(controller := SampleConnect)
            else if n == 3 then t.(controller := SamplePing, link := up)
            else if n == 4 then t.(controller := SampleCount, link := Pinged(up).0)
            else t.(controller := SampleLeave, link := Counted(Pinged(up).0, config).0))
  {
    EnsuredIsSafe(s.link, config.password);
    if n > 1 { SampleAlone(s, config, n - 1); } else { assert Alone(s, ControllerStep(CallSample), config, 0) == s; }
    OneMoreAlone(s, ControllerStep(CallSample), config, n - 1);
  }

  // A sample that is alone, and has or gets a connection, returns after six steps, and has done to
  // the link what sampling does.
  lemma {:induction false} SampleReturns(s: State, config: Config)
    requires IsIdle(s) && Ensured(s.link, config.password).1
    ensures Alone(s, ControllerStep(CallSample), config, 6) == s.(link := Sampled(s.link, config, 0.0).0)
  {
    SampleAlone(s, config, 5);
    OneMoreAlone(s, ControllerStep(CallSample), config, 5);
  }

  lemma {:induction false} DestroyAlone(s: State, config: Config, n: nat)
    requires IsIdle(s) && (s.joinable ==> s.heartbeat == Exited) && 1 <= n <= 5
    ensures var q := s.(keepRunning := false, joinable := false, heartbeat := NoThread);
            var t := q.(holder := Some(Controller), depth := 1);
            Alone(s, ControllerStep(CallDestroy), config, n) ==
            (if n == 1 then s.(controller := StopClear(true))
            else if n == 2 then s.(keepRunning := false, controller := StopJoin(true))
            else if n == 3 then q.(controller := DisconnectEnter)
            else if n == 4 then t.(controller := DisconnectFree)
            else t.(controller := DisconnectLeave, link := Down(s.link.lib)))
  {
    if n > 1 { DestroyAlone(s, config, n - 1); } else { assert Alone(s, ControllerStep(CallDestroy), config, 0) == s; }
    OneMoreAlone(s, ControllerStep(CallDestroy), config, n - 1);
  }

  // The destructor, alone with no thread or one that has ended, is done after six steps: no thread,
  // no context, and the mutex free.
  lemma {:induction false} DestroyReturns(s: State, config: Config)
    requires IsIdle(s) && (s.joinable ==> s.heartbeat == Exited)
    ensures var after := Alone(s, ControllerStep(CallDestroy), config, 6);
            after.controller == Destroyed && after.holder == None && !after.keepRunning && !after.joinable
            && after.heartbeat == NoThread && after.link == Down(s.link.lib)
  {
    DestroyAlone(s, config, 5);
    OneMoreAlone(s, ControllerStep(CallDestroy), config, 5);
  }

  lemma {:induction false} BeatAlone(s: State, config: Config, n: nat)
    requires IsIdle(s) && s.keepRunning && s.heartbeat == LoopTop && Ensured(s.link, config.password).1 && 1 <= n <= 4
    ensures var t, up := s.(holder := Some(Heartbeat), depth := 1), Ensured(s.link, config.password).0;
            up.ctx.Some? &&
            Alone(s, HeartbeatStep, config, n) ==
            (if n == 1 then s.(heartbeat := Enter)
            else if n == 2 then t.(heartbeat := Connect)
            else if n == 3 then t.(heartbeat := Send, link := up)
            else t.(heartbeat := Leave, link := SetSent(up, config).0))
  {
    EnsuredIsSafe(s.link, config.password);
    if n > 1 { BeatAlone(s, config, n - 1); } else { assert Alone(s, HeartbeatStep, config, 0) == s; }
    OneMoreAlone(s, HeartbeatStep, config, n - 1);
  }

  // With the flag set, and a connection there or to be had, the heartbeat thread alone has done one
  // heartbeat to the link after five steps, and starts to sleep.
  lemma {:induction false} BeatReturns(s: State, config: Config)
    requires IsIdle(s) && s.keepRunning && s.heartbeat == LoopTop && Ensured(s.link, config.password).1
    ensures Alone(s, HeartbeatStep, config, 5) == s.(heartbeat := Sleep(0), link := Beaten(s.link, config).0)
  {
    BeatAlone(s, config, 4);
    OneMoreAlone(s, HeartbeatStep, config, 4);
  }

  // --- Shutdown ----------------------------------------------------------------------------------------

  // With the flag cleared, how many more steps the heartbeat thread has.
  function StepsToExit(at: HeartbeatAt): nat {
    match at
    case NoThread => 0
    case Exited => 0
    case LoopTop => 1
    case Sleep(_) => 2
    case Leave => 3
    case Send => 4
    case Connect => 5
    case Enter => 6
  }

  lemma {:induction false} JoinStepCountsDown(s: State, s': State, config: Config)
    requires Inv(s) && Next(s, s', config)
    requires s.controller.StopJoin? && s'.controller.StopJoin?
    ensures Inv(s') && StepsToExit(s'.heartbeat) < StepsToExit(s.heartbeat)
  {
  }

  // stopHeartbeat returns: while the controlling thread waits in join(), only the heartbeat
  // thread moves, and it has at most six steps left.
  lemma {:induction false} JoinEndsWithinSixSteps(run: seq<State>, config: Config, i: nat, j: nat)
    requires IsRun(run, config) && i <= j < |run|
    requires forall k :: i <= k <= j ==> run[k].controller.StopJoin?
    ensures j - i + StepsToExit(run[j].heartbeat) <= StepsToExit(run[i].heartbeat) <= 6
  {
    if i < j {
      JoinEndsWithinSixSteps(run, config, i, j - 1);
      InvHoldsThroughout(run, config, j - 1);
      assert Next(run[j - 1], run[j - 1 + 1], config);
      JoinStepCountsDown(run[j - 1], run[j], config);
    }
  }

  // SETs sent so far, and one more if the heartbeat thread is already past its look at the flag.
  function SetsSentOrDue(s: State): nat {
    SetCount(s.link.lib.log) + (if s.heartbeat in {Enter, Connect, Send} then 1 else 0)
  }

  lemma {:induction false} ControllerSendsNoSet(s: State, call: Call, config: Config)
    requires Inv(s) && MayRun(s, ControllerStep(call))
    ensures SetCount(ControllerTaken(s, call, config).link.lib.log) == SetCount(s.link.lib.log)
  {
    EnsuredSendsNoSet(s.link, config.password);
    CountSendsNoSet(s.link, config);
    if s.controller == SamplePing { SetCountOfOneMore(s.link.lib.log, Recorded(s.link.lib, s.link.ctx.value, Ping)); }
  }

  lemma {:induction false} StepWithFlagClearedAddsNoSet(s: State, s': State, config: Config)
    requires Inv(s) && Next(s, s', config) && !s.keepRunning && !s'.keepRunning
    ensures SetCount(s.link.lib.log) <= SetCount(s'.link.lib.log)
    ensures SetsSentOrDue(s') <= SetsSentOrDue(s)
    ensures !s.joinable ==> !s'.joinable
  {
    var step :| MayRun(s, step) && s' == Taken(s, step, config);
    match step {
      case ControllerStep(call) => ControllerSendsNoSet(s, call, config);
      case HeartbeatStep =>
        EnsuredSendsNoSet(s.link, config.password);
        if s.heartbeat == Send {
          var beat := SetEx(HeartbeatKey.Key(config.nodeId), "1", config.ttlSeconds);
          SetCountOfOneMore(s.link.lib.log, Recorded(s.link.lib, s.link.ctx.value, beat));
        }
    }
  }

  // While the flag stays cleared at most one more SET is sent, whatever the threads do; and none
  // once the thread is joined, which covers the whole of disconnect().
  lemma {:induction false} AtMostOneSetAfterClear(run: seq<State>, config: Config, i: nat, j: nat)
    requires IsRun(run, config) && i <= j < |run|
    requires forall k :: i <= k <= j ==> !run[k].keepRunning
    ensures SetCount(run[j].link.lib.log) <= SetsSentOrDue(run[j]) <= SetsSentOrDue(run[i]) <= SetCount(run[i].link.lib.log) + 1
    ensures SetCount(run[i].link.lib.log) <= SetCount(run[j].link.lib.log)
    ensures !run[i].joinable ==> !run[j].joinable && SetCount(run[j].link.lib.log) == SetCount(run[i].link.lib.log)
    ensures Destroying(run[i].controller) ==> !run[i].joinable
  {
    InvHoldsThroughout(run, config, i);
    InvHoldsThroughout(run, config, j);
    if i < j {
      AtMostOneSetAfterClear(run, config, i, j - 1);
      InvHoldsThroughout(run, config, j - 1);
      assert Next(run[j - 1], run[j - 1 + 1], config);
      StepWithFlagClearedAddsNoSet(run[j - 1], run[j], config);
    }
  }
}
