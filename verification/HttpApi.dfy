/** The latest sample as published over HTTP: three fields that the collecting thread overwrites
    and that server threads read one item at a time, all under data_mutex_ (HttpApi.hpp). */
module HttpApi {

  import opened Options

  datatype Snapshot<L, M> = Snapshot(time: string, labels: seq<L>, metrics: seq<M>)
  datatype Item<L, M> = Item(device: L, metric: M)
  datatype Page<L, M> = Page(timestamp: string, data: seq<Item<L, M>>)

  // What sampling yields.
  predicate OnePerLabel<L, M>(s: Snapshot<L, M>) {
    |s.labels| == |s.metrics|
  }

  // The page holds the first items of the snapshot, and its time.
  predicate ShowsPart<L(==), M(==)>(p: Page<L, M>, s: Snapshot<L, M>) {
    && p.timestamp == s.time
    && |p.data| <= |s.labels| && |p.data| <= |s.metrics|
    && forall i :: 0 <= i < |p.data| ==> p.data[i] == Item(s.labels[i], s.metrics[i])
  }

  predicate Shows<L(==), M(==)>(p: Page<L, M>, s: Snapshot<L, M>) {
    ShowsPart(p, s) && |p.data| == |s.labels|
  }

  // Indexing past the end of last_metrics_ is undefined behaviour in the original.
  datatype Response<L, M> = Ok(page: Page<L, M>) | OutOfBounds

  class HttpApi<L(==), M(==)> {
    var lastTime: string
    var lastLabels: seq<L>
    var lastMetrics: seq<M>

    function Held(): Snapshot<L, M>
      reads this
    {
      Snapshot(lastTime, lastLabels, lastMetrics)
    }

    constructor ()
      ensures Held() == Snapshot("", [], [])
    {
      lastTime, lastLabels, lastMetrics := "", [], [];
    }

    method Write(curTime: string, labels: seq<L>, metrics: seq<M>)
      modifies this
      ensures Held() == Snapshot(curTime, labels, metrics)
    {
      lastTime := curTime;
      lastLabels := labels;
      lastMetrics := metrics;
    }

    method Get() returns (r: Response<L, M>)
      ensures r.OutOfBounds? <==> |lastMetrics| < |lastLabels|
      ensures r.Ok? ==> Shows(r.page, Held())
    {
      var page := Page(lastTime, []);
      for i := 0 to |lastLabels|
        invariant |page.data| == i && ShowsPart(page, Held())
      {
        if i >= |lastMetrics| { return OutOfBounds; }
        page := page.(data := page.data + [Item(lastLabels[i], lastMetrics[i])]);
      }
      return Ok(page);
    }
  }

  // --- Any number of threads ----------------------------------------------------------------------

  // The operations in the order in which they took effect.
  datatype Op<L, M> = Wrote(s: Snapshot<L, M>) | Read(p: Page<L, M>)

  // An operation is called, waits for the mutex, works inside it step by step, leaves it, and
  // returns. `begun` is how many operations had taken effect when it was called, `at` its own
  // place among them.
  datatype Thread<L, M> =
    | Idle
    | WantsWrite(begun: nat, s: Snapshot<L, M>) | Writing(begun: nat, s: Snapshot<L, M>, done: nat)
    | WantsRead(begun: nat) | Locked(begun: nat) | Reading(begun: nat, p: Page<L, M>)
    | Finished(begun: nat, at: nat, op: Op<L, M>)
    | Crashed

  // An operation that returned, after `ended` operations had taken effect.
  datatype Answer<L, M> = Answer(begun: nat, at: nat, ended: nat, op: Op<L, M>)

  datatype State<L, M> = State(
    held: Snapshot<L, M>,
    owner: Option<nat>,
    threads: seq<Thread<L, M>>,
    log: seq<Op<L, M>>,
    answers: seq<Answer<L, M>>)

  datatype Call<L, M> = CallWrite(s: Snapshot<L, M>) | CallGet

  predicate Init<L(==), M(==)>(st: State<L, M>) {
    && st.held == Snapshot("", [], [])
    && st.owner == None && st.log == [] && st.answers == []
    && forall t :: 0 <= t < |st.threads| ==> st.threads[t] == Idle
  }

  predicate Inside<L, M>(th: Thread<L, M>) {
    th.Writing? || th.Locked? || th.Reading?
  }

  // Thread t can take a step; a thread that is idle makes a call.
  predicate MayRun<L, M>(st: State<L, M>, t: nat, call: Call<L, M>) {
    && t < |st.threads|
    && (st.threads[t].WantsWrite? || st.threads[t].WantsRead? ==> st.owner == None)
    && !st.threads[t].Crashed?
    && (call.CallWrite? ==> OnePerLabel(call.s))
  }

  function At<L, M>(st: State<L, M>, t: nat, th: Thread<L, M>): State<L, M>
    requires t < |st.threads|
  {
    st.(threads := st.threads[t := th])
  }

  // Leaving the mutex: here the operation takes effect.
  function Left<L, M>(st: State<L, M>, t: nat, begun: nat, op: Op<L, M>): State<L, M>
    requires t < |st.threads|
  {
    At(st, t, Finished(begun, |st.log|, op)).(owner := None, log := st.log + [op])
  }

  function Next<L, M>(st: State<L, M>, t: nat, call: Call<L, M>): State<L, M>
    requires MayRun(st, t, call)
  {
    match st.threads[t]
    case Idle => At(st, t, if call.CallWrite? then WantsWrite(|st.log|, call.s) else WantsRead(|st.log|))
    case WantsWrite(begun, s) => At(st, t, Writing(begun, s, 0)).(owner := Some(t))
    case Writing(begun, s, done) =>
      if done == 0 then At(st, t, Writing(begun, s, 1)).(held := st.held.(time := s.time))
      else if done == 1 then At(st, t, Writing(begun, s, 2)).(held := st.held.(labels := s.labels))
      else if done == 2 then At(st, t, Writing(begun, s, 3)).(held := st.held.(metrics := s.metrics))
      else Left(st, t, begun, Wrote(s))
    case WantsRead(begun) => At(st, t, Locked(begun)).(owner := Some(t))
    case Locked(begun) => At(st, t, Reading(begun, Page(st.held.time, [])))
    case Reading(begun, p) =>
      var i := |p.data|;
      if i >= |st.held.labels| then Left(st, t, begun, Read(p))
      else if i >= |st.held.metrics| then At(st, t, Crashed)
      else At(st, t, Reading(begun, p.(data := p.data + [Item(st.held.labels[i], st.held.metrics[i])])))
    case Finished(begun, at, op) =>
      At(st, t, Idle).(answers := st.answers + [Answer(begun, at, |st.log|, op)])
    case Crashed => st
  }

  // --- What a register that is read and written in one go would do -----------------------------------

  // What the last write among the first n operations wrote.
  function LastWritten<L, M>(log: seq<Op<L, M>>, n: nat): Snapshot<L, M>
    requires n <= |log|
  {
    if n == 0 then Snapshot("", [], [])
    else if log[n - 1].Wrote? then log[n - 1].s
    else LastWritten(log, n - 1)
  }

  predicate Legal<L(==), M(==)>(log: seq<Op<L, M>>) {
    forall i :: 0 <= i < |log| && log[i].Read? ==> Shows(log[i].p, LastWritten(log, i))
  }

  // The operation took effect between its call and its return, with this result.
  predicate TookEffect<L(==), M(==)>(log: seq<Op<L, M>>, a: Answer<L, M>) {
    a.begun <= a.at < a.ended <= |log| && log[a.at] == a.op
  }

  // No two answers are for the same operation of the log.
  predicate Unshared<L, M>(answers: seq<Answer<L, M>>) {
    forall i, j :: 0 <= i < j < |answers| ==> answers[i].at != answers[j].at
  }

  // The log explains all answers: it is what a register could do, every answer is one of its
  // operations, and an operation that returned before another was called comes before it.
  predicate Linearizable<L(==), M(==)>(st: State<L, M>) {
    && Legal(st.log)
    && (forall i :: 0 <= i < |st.answers| ==> TookEffect(st.log, st.answers[i]))
    && Unshared(st.answers)
    && (forall i, j :: 0 <= i < |st.answers| && 0 <= j < |st.answers| && st.answers[i].ended <= st.answers[j].begun ==>
          st.answers[i].at < st.answers[j].at)
  }

  // --- The invariant -----------------------------------------------------------------------------------

  function Latest<L, M>(st: State<L, M>): Snapshot<L, M> {
    LastWritten(st.log, |st.log|)
  }

  // The fields while a writer has overwritten the first `done` of them.
  function Overwritten<L, M>(was: Snapshot<L, M>, s: Snapshot<L, M>, done: nat): Snapshot<L, M> {
    Snapshot(if done > 0 then s.time else was.time,
             if done > 1 then s.labels else was.labels,
             if done > 2 then s.metrics else was.metrics)
  }

  predicate ThreadFits<L(==), M(==)>(st: State<L, M>, th: Thread<L, M>) {
    match th
    case Idle => true
    case WantsWrite(begun, s) => begun <= |st.log| && OnePerLabel(s)
    case Writing(begun, s, done) =>
      begun <= |st.log| && OnePerLabel(s) && done <= 3 && st.held == Overwritten(Latest(st), s, done)
    case WantsRead(begun) => begun <= |st.log|
    case Locked(begun) => begun <= |st.log| && st.held == Latest(st)
    case Reading(begun, p) => begun <= |st.log| && st.held == Latest(st) && ShowsPart(p, st.held)
    case Finished(begun, at, op) => begun <= at < |st.log| && st.log[at] == op
    case Crashed => false
  }

  predicate MutexFits<L(==), M(==)>(st: State<L, M>) {
    && (forall t :: 0 <= t < |st.threads| && Inside(st.threads[t]) ==> st.owner == Some(t))
    && (st.owner == None ==> st.held == Latest(st))
  }

  predicate AnswersFit<L(==), M(==)>(st: State<L, M>) {
    && (forall i :: 0 <= i < |st.answers| ==> TookEffect(st.log, st.answers[i]))
    && Unshared(st.answers)
  }

  // An operation that has yet to return has its own place in the log.
  predicate PlacesFit<L, M>(st: State<L, M>) {
    && (forall t, i :: 0 <= t < |st.threads| && 0 <= i < |st.answers| && st.threads[t].Finished? ==>
          st.threads[t].at != st.answers[i].at)
    && (forall t, u :: 0 <= t < u < |st.threads| && st.threads[t].Finished? && st.threads[u].Finished? ==>
          st.threads[t].at != st.threads[u].at)
  }

  predicate Inv<L(==), M(==)>(st: State<L, M>) {
    && OnePerLabel(Latest(st)) && Legal(st.log)
    && (forall t :: 0 <= t < |st.threads| ==> ThreadFits(st, st.threads[t]))
    && MutexFits(st) && AnswersFit(st) && PlacesFit(st)
  }

  lemma {:induction false} LastWrittenOfLonger<L, M>(log: seq<Op<L, M>>, op: Op<L, M>, n: nat)
    requires n <= |log|
    ensures LastWritten(log + [op], n) == LastWritten(log, n)
  {
    if n > 0 && !log[n - 1].Wrote? { LastWrittenOfLonger(log, op, n - 1); }
  }

  // One more operation: legal if it is a write, or a read of the latest.
  lemma {:induction false} LogGrows<L, M>(log: seq<Op<L, M>>, op: Op<L, M>)
    requires Legal(log) && (op.Read? ==> Shows(op.p, LastWritten(log, |log|)))
    ensures Legal(log + [op])
    ensures LastWritten(log + [op], |log| + 1) == if op.Wrote? then op.s else LastWritten(log, |log|)
  {
    forall i | 0 <= i <= |log| ensures LastWritten(log + [op], i) == LastWritten(log, i) {
      LastWrittenOfLonger(log, op, i);
    }
  }

  lemma {:induction false} LeavingKeepsInv<L, M>(st: State<L, M>, t: nat, begun: nat, op: Op<L, M>)
    requires Inv(st) && t < |st.threads| && Inside(st.threads[t]) && begun <= |st.log|
    requires op.Read? ==> Shows(op.p, Latest(st)) && st.held == Latest(st)
    requires op.Wrote? ==> OnePerLabel(op.s) && st.held == op.s
    ensures Inv(Left(st, t, begun, op))
  {
    LogGrows(st.log, op);
  }

  // A step that adds nothing to the log: only a thread that holds the mutex changes the fields.
  lemma {:induction false} WorkKeepsInv<L, M>(st: State<L, M>, t: nat, th: Thread<L, M>, held: Snapshot<L, M>,
                                              owner: Option<nat>)
    requires Inv(st) && t < |st.threads| && !st.threads[t].Finished? && !th.Finished?
    requires owner == st.owner || (st.owner == None && owner == Some(t))
    requires held == st.held || (st.owner == Some(t) && owner == Some(t))
    requires Inside(th) ==> owner == Some(t)
    requires ThreadFits(At(st, t, th).(held := held, owner := owner), th)
    ensures Inv(At(st, t, th).(held := held, owner := owner))
  {
  }

  lemma {:induction false} ReturningKeepsInv<L, M>(st: State<L, M>, t: nat)
    requires Inv(st) && t < |st.threads| && st.threads[t].Finished?
    ensures var th := st.threads[t];
            Inv(At(st, t, Idle).(answers := st.answers + [Answer(th.begun, th.at, |st.log|, th.op)]))
  {
  }

  lemma {:induction false} StepKeepsInv<L, M>(st: State<L, M>, t: nat, call: Call<L, M>)
    requires Inv(st) && MayRun(st, t, call)
    ensures Inv(Next(st, t, call))
  {
    var th, after := st.threads[t], Next(st, t, call);
    assert ThreadFits(st, th);
    if th.Finished? {
      ReturningKeepsInv(st, t);
    } else if th.Writing? && th.done == 3 {
      LeavingKeepsInv(st, t, th.begun, Wrote(th.s));
    } else if th.Reading? && |th.p.data| >= |st.held.labels| {
      LeavingKeepsInv(st, t, th.begun, Read(th.p));
    } else {
      WorkKeepsInv(st, t, after.threads[t], after.held, after.owner);
    }
  }

  // --- Runs ----------------------------------------------------------------------------------------------

  // One step of a run: which thread, and its call if it is idle.
  datatype Move<L, M> = Move(thread: nat, call: Call<L, M>)

  // The first n steps lead from state to state.
  predicate IsRun<L(==), M(==)>(states: seq<State<L, M>>, moves: seq<Move<L, M>>, n: nat)
    requires |states| == |moves| + 1 && n <= |moves|
  {
    if n == 0 then Init(states[0])
    else
      && IsRun(states, moves, n - 1)
      && MayRun(states[n - 1], moves[n - 1].thread, moves[n - 1].call)
      && states[n] == Next(states[n - 1], moves[n - 1].thread, moves[n - 1].call)
  }

  lemma {:induction false} InvHoldsThroughout<L, M>(states: seq<State<L, M>>, moves: seq<Move<L, M>>, n: nat)
    requires |states| == |moves| + 1 && n <= |moves| && IsRun(states, moves, n)
    ensures Inv(states[n])
  {
    if n > 0 {
      InvHoldsThroughout(states, moves, n - 1);
      StepKeepsInv(states[n - 1], moves[n - 1].thread, moves[n - 1].call);
    }
  }

  // However the threads interleave, what the calls return is what a register read and written in
  // one go could return, and no reader indexes out of bounds.
  lemma {:induction false} EveryRunIsLinearizable<L, M>(states: seq<State<L, M>>, moves: seq<Move<L, M>>, n: nat)
    requires |states| == |moves| + 1 && n <= |moves| && IsRun(states, moves, n)
    ensures Linearizable(states[n])
    ensures forall t :: 0 <= t < |states[n].threads| ==> !states[n].threads[t].Crashed?
  {
    InvHoldsThroughout(states, moves, n);
  }

  // A response shows, whole, what the latest write wrote, or the empty start if there was none; no
  // write that returned before the request came is newer.
  lemma {:induction false} ResponsesAreFreshAndWhole<L, M>(
    states: seq<State<L, M>>, moves: seq<Move<L, M>>, n: nat, i: nat)
    returns (k: nat)
    requires |states| == |moves| + 1 && n <= |moves| && IsRun(states, moves, n)
    requires i < |states[n].answers| && states[n].answers[i].op.Read?
    ensures k <= states[n].answers[i].at <= |states[n].log|
    ensures forall j :: k <= j < states[n].answers[i].at ==> states[n].log[j].Read?
    ensures k == 0 ==> states[n].answers[i].op.p == Page("", [])
    ensures k > 0 ==> states[n].log[k - 1].Wrote? && Shows(states[n].answers[i].op.p, states[n].log[k - 1].s)
    ensures forall j :: 0 <= j < |states[n].answers| ==>
              (states[n].answers[j].op.Wrote? && states[n].answers[j].ended <= states[n].answers[i].begun ==>
                states[n].answers[j].at < k)
  {
    EveryRunIsLinearizable(states, moves, n);
    k := WriteBehind(states[n].log, states[n].answers[i].at);
  }

  // The last write among the first n operations.
  lemma {:induction false} WriteBehind<L, M>(log: seq<Op<L, M>>, n: nat) returns (k: nat)
    requires n <= |log|
    ensures k <= n
    ensures LastWritten(log, n) == if k == 0 then Snapshot("", [], []) else LastWritten(log, k)
    ensures k > 0 ==> log[k - 1].Wrote?
    ensures forall i :: k <= i < n ==> log[i].Read?
  {
    if n == 0 || log[n - 1].Wrote? { k := n; } else { k := WriteBehind(log, n - 1); }
  }

  // --- Progress ------------------------------------------------------------------------------------------

  // No reachable state is a deadlock: the thread that holds the mutex can take its step, and when it
  // is free any thread can.
  lemma {:induction false} SomeThreadCanRun<L, M>(states: seq<State<L, M>>, moves: seq<Move<L, M>>, n: nat, t: nat)
    requires |states| == |moves| + 1 && n <= |moves| && IsRun(states, moves, n) && t < |states[n].threads|
    ensures states[n].owner == None || Inside(states[n].threads[t]) ==> MayRun(states[n], t, CallGet)
  {
    InvHoldsThroughout(states, moves, n);
    assert ThreadFits(states[n], states[n].threads[t]);
  }

  // The state after n steps of one thread alone.
  function Alone<L(==), M(==)>(st: State<L, M>, t: nat, call: Call<L, M>, n: nat): State<L, M> {
    if n == 0 then st
    else
      var before := Alone(st, t, call, n - 1);
      if MayRun(before, t, call) then Next(before, t, call) else before
  }

  lemma {:induction false} OneMoreAlone<L, M>(st: State<L, M>, t: nat, call: Call<L, M>, n: nat)
    requires MayRun(Alone(st, t, call, n), t, call)
    ensures Alone(st, t, call, n + 1) == Next(Alone(st, t, call, n), t, call)
  {
  }

  // What a thread alone does to a state in which the mutex is free.
  predicate IsStep<L(==), M(==)>(st: State<L, M>, t: nat, after: State<L, M>, th: Thread<L, M>, held: Snapshot<L, M>,
                                 owner: Option<nat>, log: seq<Op<L, M>>)
    requires t < |st.threads|
  {
    after == st.(threads := st.threads[t := th], held := held, owner := owner, log := log)
  }

  lemma {:induction false} WriterAlone<L, M>(st: State<L, M>, t: nat, s: Snapshot<L, M>, n: nat)
    requires t < |st.threads| && st.threads[t] == Idle && st.owner == None && OnePerLabel(s) && n <= 5
    ensures var after, begun := Alone(st, t, CallWrite(s), n), |st.log|;
            n > 0 ==> IsStep(st, t, after, if n == 1 then WantsWrite(begun, s) else Writing(begun, s, n - 2),
                             if n < 2 then st.held else Overwritten(st.held, s, n - 2), if n == 1 then None else Some(t), st.log)
  {
    if n > 0 { WriterAlone(st, t, s, n - 1); }
  }

  // A write that is alone returns after seven steps, and the snapshot is then what it was given.
  lemma {:induction false} WriteReturns<L, M>(st: State<L, M>, t: nat, s: Snapshot<L, M>)
    requires t < |st.threads| && st.threads[t] == Idle && st.owner == None && OnePerLabel(s)
    ensures var after := Alone(st, t, CallWrite(s), 7);
      && after.held == s && after.owner == None && after.threads == st.threads && after.log == st.log + [Wrote(s)]
      && after.answers == st.answers + [Answer(|st.log|, |st.log|, |st.log| + 1, Wrote(s))]
  {
    WriterAlone(st, t, s, 5);
    OneMoreAlone(st, t, CallWrite(s), 5);
    OneMoreAlone(st, t, CallWrite(s), 6);
    assert st.threads[t := Idle] == st.threads;
  }

  // The first n items of a snapshot.
  function Items<L, M>(s: Snapshot<L, M>, n: nat): seq<Item<L, M>>
    requires n <= |s.labels| && n <= |s.metrics|
  {
    seq(n, i requires 0 <= i < n => Item(s.labels[i], s.metrics[i]))
  }

  lemma {:induction false} ReaderAlone<L, M>(st: State<L, M>, t: nat, n: nat)
    requires t < |st.threads| && st.threads[t] == Idle && st.owner == None && OnePerLabel(st.held)
    requires n <= |st.held.labels|
    ensures IsStep(st, t, Alone(st, t, CallGet, n + 3), Reading(|st.log|, Page(st.held.time, Items(st.held, n))),
                   st.held, Some(t), st.log)
  {
    if n == 0 {
      assert Alone(st, t, CallGet, 0) == st;
      OneMoreAlone(st, t, CallGet, 0);
      OneMoreAlone(st, t, CallGet, 1);
      OneMoreAlone(st, t, CallGet, 2);
      assert Items(st.held, 0) == [];
    } else {
      ReaderAlone(st, t, n - 1);
      OneMoreAlone(st, t, CallGet, n + 2);
      assert Items(st.held, n) == Items(st.held, n - 1) + [Item(st.held.labels[n - 1], st.held.metrics[n - 1])];
    }
  }

  // A read that is alone returns, with the whole snapshot, after as many steps and five more as there
  // are labels.
  lemma {:induction false} ReadReturns<L, M>(st: State<L, M>, t: nat)
    requires t < |st.threads| && st.threads[t] == Idle && st.owner == None && OnePerLabel(st.held)
    ensures var after := Alone(st, t, CallGet, |st.held.labels| + 5);
      var page := Page(st.held.time, Items(st.held, |st.held.labels|));
      && after.held == st.held && after.owner == None && after.threads == st.threads && Shows(page, st.held)
      && after.answers == st.answers + [Answer(|st.log|, |st.log|, |st.log| + 1, Read(page))]
  {
    var n := |st.held.labels|;
    ReaderAlone(st, t, n);
    OneMoreAlone(st, t, CallGet, n + 3);
    OneMoreAlone(st, t, CallGet, n + 4);
    assert st.threads[t := Idle] == st.threads;
  }
}
