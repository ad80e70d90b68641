/** NPUDatabase::writeMetric: one batch of rows, in a transaction of its own
    (NPUDatabase.cpp, Database.hpp; the CPU and GPU versions have the same shape). */
module BatchWriter {
  import opened SqlParams
  import opened PgSession

  datatype NPULabel = NPULabel(cardId: int32, deviceId: int32, chipType: string, chipName: string)

  datatype NPUMetrics = NPUMetrics(
    freqAicore: int32, freqAicpu: int32, freqCtrlcpu: int32,
    utilAicore: int32, utilAicpu: int32, utilCtrlcpu: int32, utilVec: int32,
    memTotalMb: int64, memUsageMb: int64, utilMem: int32, utilMembw: int32, freqMem: int32,
    chipPower: Double, health: uint32, temperature: int32, voltage: Double)

  // The 19 parameters of one INSERT, in column order.
  function MetricRow(curTime: string, l: NPULabel, m: NPUMetrics): (row: Row)
    ensures |row| == 19
  {
    [ToSqlParamString(curTime), ToSqlParamInt(l.cardId), ToSqlParamInt(l.deviceId),
     ToSqlParamInt(m.freqAicore), ToSqlParamInt(m.freqAicpu), ToSqlParamInt(m.freqCtrlcpu),
     ToSqlParamInt(m.utilAicore), ToSqlParamInt(m.utilAicpu), ToSqlParamInt(m.utilCtrlcpu), ToSqlParamInt(m.utilVec),
     ToSqlParamLong(m.memTotalMb), ToSqlParamLong(m.memUsageMb),
     ToSqlParamInt(m.utilMem), ToSqlParamInt(m.utilMembw), ToSqlParamInt(m.freqMem),
     ToSqlParamDouble(m.chipPower),
     ToSqlParamInt(AsInt(m.health)), ToSqlParamInt(m.temperature), ToSqlParamDouble(m.voltage)]
  }

  // The rows of a batch, in label order.
  function Batch(curTime: string, labels: seq<NPULabel>, metrics: seq<NPUMetrics>): seq<Row>
    requires |labels| == |metrics|
  {
    seq(|labels|, i requires 0 <= i < |labels| => MetricRow(curTime, labels[i], metrics[i]))
  }

  // --- What a row holds --------------------------------------------------------------------------

  // The columns, in the order of the INSERT statement.
  datatype Column =
    | Timestamp | CardId | DeviceId
    | FreqAicore | FreqAicpu | FreqCtrlcpu
    | UtilAicore | UtilAicpu | UtilCtrlcpu | UtilVec
    | MemTotalMb | MemUsageMb | UtilMem | UtilMembw | FreqMem
    | ChipPower
    | Health | Temperature | Voltage

  // Its place in that order.
  function Place(c: Column): (i: nat)
    ensures i < 19
  {
    match c
    case Timestamp => 0
    case CardId => 1
    case DeviceId => 2
    case FreqAicore => 3
    case FreqAicpu => 4
    case FreqCtrlcpu => 5
    case UtilAicore => 6
    case UtilAicpu => 7
    case UtilCtrlcpu => 8
    case UtilVec => 9
    case MemTotalMb => 10
    case MemUsageMb => 11
    case UtilMem => 12
    case UtilMembw => 13
    case FreqMem => 14
    case ChipPower => 15
    case Health => 16
    case Temperature => 17
    case Voltage => 18
  }

  // What belongs in a column. The column for the health code is a signed integer, in which codes
  // beyond INT_MAX come out negative.
  function Measured(curTime: string, l: NPULabel, m: NPUMetrics, c: Column): Value {
    match c
    case Timestamp => TextValue(curTime)
    case CardId => IntValue(l.cardId as int)
    case DeviceId => IntValue(l.deviceId as int)
    case FreqAicore => IntValue(m.freqAicore as int)
    case FreqAicpu => IntValue(m.freqAicpu as int)
    case FreqCtrlcpu => IntValue(m.freqCtrlcpu as int)
    case UtilAicore => IntValue(m.utilAicore as int)
    case UtilAicpu => IntValue(m.utilAicpu as int)
    case UtilCtrlcpu => IntValue(m.utilCtrlcpu as int)
    case UtilVec => IntValue(m.utilVec as int)
    case MemTotalMb => IntValue(m.memTotalMb as int)
    case MemUsageMb => IntValue(m.memUsageMb as int)
    case UtilMem => IntValue(m.utilMem as int)
    case UtilMembw => IntValue(m.utilMembw as int)
    case FreqMem => IntValue(m.freqMem as int)
    case ChipPower => DoubleValue(m.chipPower)
    case Health => IntValue(if m.health < 0x8000_0000 then m.health as int else m.health as int - 0x1_0000_0000)
    case Temperature => IntValue(m.temperature as int)
    case Voltage => DoubleValue(m.voltage)
  }

  // Every column of the row reads back as what belongs there.
  ghost predicate RowHolds(row: Row, curTime: string, l: NPULabel, m: NPUMetrics) {
    |row| == 19 && forall c: Column :: ReadsAs(row[Place(c)], Measured(curTime, l, m, c))
  }

  lemma {:induction false} DeviceColumnHolds(curTime: string, l: NPULabel, m: NPUMetrics, c: Column)
    requires c in {CardId, DeviceId, FreqAicore, FreqAicpu, FreqCtrlcpu}
    ensures ReadsAs(MetricRow(curTime, l, m)[Place(c)], Measured(curTime, l, m, c))
  {
    match c {
      case CardId => IntRoundTrip(l.cardId);
      case DeviceId => IntRoundTrip(l.deviceId);
      case FreqAicore => IntRoundTrip(m.freqAicore);
      case FreqAicpu => IntRoundTrip(m.freqAicpu);
      case _ => IntRoundTrip(m.freqCtrlcpu);
    }
  }

  lemma {:induction false} LoadColumnHolds(curTime: string, l: NPULabel, m: NPUMetrics, c: Column)
    requires c in {UtilAicore, UtilAicpu, UtilCtrlcpu, UtilVec}
    ensures ReadsAs(MetricRow(curTime, l, m)[Place(c)], Measured(curTime, l, m, c))
  {
    match c {
      case UtilAicore => IntRoundTrip(m.utilAicore);
      case UtilAicpu => IntRoundTrip(m.utilAicpu);
      case UtilCtrlcpu => IntRoundTrip(m.utilCtrlcpu);
      case _ => IntRoundTrip(m.utilVec);
    }
  }

  lemma {:induction false} MemoryColumnHolds(curTime: string, l: NPULabel, m: NPUMetrics, c: Column)
    requires c in {MemTotalMb, MemUsageMb, UtilMem, UtilMembw, FreqMem}
    ensures ReadsAs(MetricRow(curTime, l, m)[Place(c)], Measured(curTime, l, m, c))
  {
    match c {
      case MemTotalMb => LongRoundTrip(m.memTotalMb);
      case MemUsageMb => LongRoundTrip(m.memUsageMb);
      case UtilMem => IntRoundTrip(m.utilMem);
      case UtilMembw => IntRoundTrip(m.utilMembw);
      case _ => IntRoundTrip(m.freqMem);
    }
  }

  lemma {:induction false} HealthReadsBack(health: uint32)
    ensures ReadsAs(ToSqlParamInt(AsInt(health)),
                    IntValue(if health < 0x8000_0000 then health as int else health as int - 0x1_0000_0000))
  {
    IntRoundTrip(AsInt(health));
  }

  lemma {:induction false} EnvironmentParams(curTime: string, l: NPULabel, m: NPUMetrics, row: Row)
    requires row == MetricRow(curTime, l, m)
    ensures row[16] == ToSqlParamInt(AsInt(m.health)) && row[17] == ToSqlParamInt(m.temperature)
  {
  }

  lemma {:induction false} EnvironmentColumnHolds(curTime: string, l: NPULabel, m: NPUMetrics, row: Row, c: Column)
    requires |row| == 19 && row[16] == ToSqlParamInt(AsInt(m.health)) && row[17] == ToSqlParamInt(m.temperature)
    requires c in {Health, Temperature}
    ensures ReadsAs(row[Place(c)], Measured(curTime, l, m, c))
  {
    HealthReadsBack(m.health);
    IntRoundTrip(m.temperature);
  }

  lemma {:induction false} TextColumnHolds(curTime: string, l: NPULabel, m: NPUMetrics, c: Column)
    requires c in {Timestamp, ChipPower, Voltage}
    ensures ReadsAs(MetricRow(curTime, l, m)[Place(c)], Measured(curTime, l, m, c))
  {
  }

  lemma {:induction false} ColumnHolds(curTime: string, l: NPULabel, m: NPUMetrics, c: Column)
    ensures ReadsAs(MetricRow(curTime, l, m)[Place(c)], Measured(curTime, l, m, c))
  {
    match c {
      case CardId | DeviceId | FreqAicore | FreqAicpu | FreqCtrlcpu => DeviceColumnHolds(curTime, l, m, c);
      case UtilAicore | UtilAicpu | UtilCtrlcpu | UtilVec => LoadColumnHolds(curTime, l, m, c);
      case MemTotalMb | MemUsageMb | UtilMem | UtilMembw | FreqMem => MemoryColumnHolds(curTime, l, m, c);
      case Health | Temperature =>
        EnvironmentParams(curTime, l, m, MetricRow(curTime, l, m));
        EnvironmentColumnHolds(curTime, l, m, MetricRow(curTime, l, m), c);
      case Timestamp | ChipPower | Voltage => TextColumnHolds(curTime, l, m, c);
    }
  }

  lemma {:induction false} MetricRowHolds(curTime: string, l: NPULabel, m: NPUMetrics)
    ensures RowHolds(MetricRow(curTime, l, m), curTime, l, m)
  {
    forall c: Column ensures ReadsAs(MetricRow(curTime, l, m)[Place(c)], Measured(curTime, l, m, c)) {
      ColumnHolds(curTime, l, m, c);
    }
  }

  // The rows behind the first n hold the labels and metrics, in order.
  ghost predicate RowsHold(rows: seq<Row>, n: nat, curTime: string, labels: seq<NPULabel>, metrics: seq<NPUMetrics>)
    requires |labels| == |metrics|
  {
    |rows| == n + |labels| && forall i :: 0 <= i < |labels| ==> RowHolds(rows[n + i], curTime, labels[i], metrics[i])
  }

  // The session, and how the commands to come will go; past the end the connection is lost.
  datatype Link = Link(session: Session, script: seq<Outcome>)

  function NextOutcome(script: seq<Outcome>): Outcome {
    if script == [] then LostBefore else script[0]
  }

  function Rest(script: seq<Outcome>): seq<Outcome> {
    if script == [] then [] else script[1..]
  }

  // --- What writeMetric does ---------------------------------------------------------------------

  // From inside the loop on: insert the rows, and commit; or roll back at the first failure.
  function Inserted(l: Link, rows: seq<Row>, useTransaction: bool): Link
    decreases |rows|
  {
    if rows == [] then
      if useTransaction then Link(Commit(l.session, NextOutcome(l.script)).session, Rest(l.script)) else l
    else
      var a := Insert(l.session, rows[0], NextOutcome(l.script));
      var l' := Link(a.session, Rest(l.script));
      if a.ok then Inserted(l', rows[1..], useTransaction)
      else if useTransaction then Link(Rollback(l'.session, NextOutcome(l'.script)).session, Rest(l'.script)) else l'
  }

  function Written(l: Link, rows: seq<Row>, useTransaction: bool): Link {
    if l.session.tx.Dead? then l
    else if useTransaction then
      var a := Begin(l.session, NextOutcome(l.script));
      var l' := Link(a.session, Rest(l.script));
      if a.ok then Inserted(l', rows, true) else l'
    else Inserted(l, rows, false)
  }

  // What a transaction would add to the table if it were committed now.
  function Pending(s: Session): seq<Row> {
    if s.tx.Open? then s.tx.pending else []
  }

  // Where a BEGIN or INSERT that fails leaves the transaction: a lost connection ends the session,
  // and a rejection makes an open transaction fail.
  function FailedTx(tx: Tx, o: Outcome): Tx {
    if o == LostBefore || o == LostAfter then Dead
    else if o == Rejected && tx.Open? then Aborted
    else tx
  }

  // Where a COMMIT or ROLLBACK leaves it: the transaction is over if the server saw the command, and
  // lives on if that was never sent.
  function EndedTx(tx: Tx, o: Outcome): Tx {
    if tx.Dead? || o == LostBefore || o == LostAfter then Dead
    else if o == NotSent then tx
    else Idle
  }

  // Behind the table, and what was pending, come rows that hold the labels and metrics, one each.
  ghost predicate BatchWentIn(before: Link, after: Link, curTime: string, labels: seq<NPULabel>, metrics: seq<NPUMetrics>)
    requires |labels| == |metrics|
  {
    var was := before.session.table + Pending(before.session);
    was <= after.session.table && RowsHold(after.session.table, |was|, curTime, labels, metrics)
  }

  // ... and without a transaction, rows that hold the first of them.
  ghost predicate FirstRowsWentIn(before: Link, after: Link, curTime: string, labels: seq<NPULabel>,
                                  metrics: seq<NPUMetrics>)
    requires |labels| == |metrics|
  {
    var was, table := before.session.table, after.session.table;
    && was <= table && |table| <= |was| + |labels|
    && RowsHold(table, |was|, curTime, labels[..|table| - |was|], metrics[..|table| - |was|])
  }

  datatype WriteResult = NotConnected | Returned

  class NPUDatabase {
    var session: Session
    var script: seq<Outcome>

    function View(): Link
      reads this
    {
      Link(session, script)
    }

    constructor (session: Session, script: seq<Outcome>)
      ensures View() == Link(session, script)
    {
      this.session := session;
      this.script := script;
    }

    // BEGIN changes no table. It succeeds exactly if the server executed it, outside a transaction
    // that has failed, and the answer arrived; inside an open transaction it goes on with that one.
    method StartTransaction() returns (ok: bool)
      modifies this
      ensures ok <==> NextOutcome(old(script)) == Done && (old(session).tx.Idle? || old(session).tx.Open?)
      ensures session.table == old(session).table
      ensures ok ==> session.tx == Open(Pending(old(session)))
      ensures !ok ==> session.tx == FailedTx(old(session).tx, NextOutcome(old(script)))
      ensures View() == Link(Begin(old(session), NextOutcome(old(script))).session, Rest(old(script)))
    {
      var a := Begin(session, NextOutcome(script));
      session, script, ok := a.session, Rest(script), a.ok;
    }

    // COMMIT adds all that is pending, or nothing: all exactly if the server executed it, even if
    // the answer was lost. In a transaction that has failed it succeeds and adds nothing.
    method CommitTransaction() returns (ok: bool)
      modifies this
      ensures ok <==> NextOutcome(old(script)) == Done && !old(session).tx.Dead?
      ensures session.table == old(session).table
              + (if NextOutcome(old(script)) in {Done, LostAfter} then Pending(old(session)) else [])
      ensures session.tx == EndedTx(old(session).tx, NextOutcome(old(script)))
      ensures View() == Link(Commit(old(session), NextOutcome(old(script))).session, Rest(old(script)))
    {
      var a := Commit(session, NextOutcome(script));
      session, script, ok := a.session, Rest(script), a.ok;
    }

    // ROLLBACK adds nothing, and ends the transaction exactly as COMMIT does.
    method RollbackTransaction() returns (ok: bool)
      modifies this
      ensures ok <==> NextOutcome(old(script)) == Done && !old(session).tx.Dead?
      ensures session.table == old(session).table
      ensures session.tx == EndedTx(old(session).tx, NextOutcome(old(script)))
      ensures View() == Link(Rollback(old(session), NextOutcome(old(script))).session, Rest(old(script)))
    {
      var a := Rollback(session, NextOutcome(script));
      session, script, ok := a.session, Rest(script), a.ok;
    }

    // An INSERT that succeeds adds its row to what is pending, or outside a transaction to the
    // table. One that fails leaves both alone, unless its row went in and only the answer was lost.
    method ExecInsert(row: Row) returns (ok: bool)
      modifies this
      ensures ok <==> NextOutcome(old(script)) == Done && (old(session).tx.Idle? || old(session).tx.Open?)
      ensures session.table == old(session).table
              + (if old(session).tx.Idle? && NextOutcome(old(script)) in {Done, LostAfter} then [row] else [])
      ensures ok ==> session.tx == if old(session).tx.Open? then Open(Pending(old(session)) + [row]) else Idle
      ensures !ok ==> session.tx == FailedTx(old(session).tx, NextOutcome(old(script)))
      ensures View() == Link(Insert(old(session), row, NextOutcome(old(script))).session, Rest(old(script)))
    {
      var a := Insert(session, row, NextOutcome(script));
      session, script, ok := a.session, Rest(script), a.ok;
    }

    method WriteMetric(curTime: string, labels: seq<NPULabel>, metrics: seq<NPUMetrics>, useTransaction: bool)
      returns (result: WriteResult)
      requires |labels| == |metrics|
      modifies this
      ensures View() == Written(old(View()), Batch(curTime, labels, metrics), useTransaction)
      ensures result == NotConnected <==> old(session).tx.Dead?
    {
      if session.tx.Dead? { return NotConnected; }
      if useTransaction {
        var ok := StartTransaction();
        if !ok { return Returned; }
      }
      ghost var rows := Batch(curTime, labels, metrics);
      ghost var begun := View();
      for i := 0 to |labels|
        invariant Inserted(begun, rows, useTransaction) == Inserted(View(), rows[i..], useTransaction)
      {
        var row := MetricRow(curTime, labels[i], metrics[i]);
        assert rows[i..][0] == row && rows[i..][1..] == rows[i + 1..];
        var ok := ExecInsert(row);
        if !ok {
          if useTransaction { ok := RollbackTransaction(); }
          return Returned;
        }
      }
      assert rows[|labels|..] == [];
      if useTransaction { var ok := CommitTransaction(); }
      return Returned;
    }
  }

  // --- One call -------------------------------------------------------------------------------------

  // How a call goes, by the outcomes of its commands alone: it does not get past BEGIN; it ends
  // with a COMMIT; with a ROLLBACK after `inserted` rows, because an INSERT failed as `cause` says;
  // or with the connection lost at an INSERT.
  datatype Ending =
    | NotBegun
    | Committing(outcome: Outcome)
    | RollingBack(inserted: nat, cause: Outcome, outcome: Outcome)
    | Disconnected

  function EndingOf(script: seq<Outcome>, left: nat, inserted: nat): Ending {
    if left == 0 then Committing(NextOutcome(script))
    else match NextOutcome(script)
      case Done => EndingOf(Rest(script), left - 1, inserted + 1)
      case LostBefore | LostAfter => Disconnected
      case cause => RollingBack(inserted, cause, NextOutcome(Rest(script)))
  }

  // What is left of the outcomes after the loop and the command that ends it.
  function RestOf(script: seq<Outcome>, left: nat): seq<Outcome> {
    if left == 0 then Rest(script)
    else if NextOutcome(script) == Done then RestOf(Rest(script), left - 1)
    else Rest(Rest(script))
  }

  function CallEnding(l: Link, size: nat): Ending {
    if Begin(l.session, NextOutcome(l.script)).ok then EndingOf(Rest(l.script), size, 0) else NotBegun
  }

  // The command that should have ended the transaction never left the client.
  predicate EndNotSent(e: Ending) {
    (e.Committing? || e.RollingBack?) && e.outcome == NotSent
  }

  // ... and it was the ROLLBACK of a transaction that is still open with part of the batch in it:
  // the INSERT that failed had not been sent either.
  predicate LeavesPart(e: Ending) {
    e.RollingBack? && e.inserted > 0 && e.cause == NotSent && e.outcome == NotSent
  }

  // A COMMIT that the server executed.
  predicate Commits(e: Ending) {
    e.Committing? && (e.outcome == Done || e.outcome == LostAfter)
  }

  // Where a call that got past BEGIN leaves the session, with `pending` from calls before it.
  function AfterEnding(table: seq<Row>, pending: seq<Row>, rows: seq<Row>, e: Ending): Session
    requires !e.NotBegun? && (e.RollingBack? ==> e.inserted <= |rows|)
  {
    match e
    case Disconnected => Session(table, Dead)
    case Committing(o) =>
      Session(if Commits(e) then table + (pending + rows) else table, EndedTx(Open(pending + rows), o))
    case RollingBack(inserted, cause, o) =>
      Session(table, EndedTx(if cause == NotSent then Open(pending + rows[..inserted]) else Aborted, o))
  }

  lemma {:induction false} EndingFits(script: seq<Outcome>, left: nat, inserted: nat)
    ensures var e := EndingOf(script, left, inserted);
            !e.NotBegun? && (e.RollingBack? ==> inserted <= e.inserted < inserted + left && e.cause in {Rejected, NotSent})
    decreases left
  {
    if left > 0 && NextOutcome(script) == Done { EndingFits(Rest(script), left - 1, inserted + 1); }
  }

  // The loop, with `done` of the call's rows inserted already.
  lemma {:induction false} LoopEnds(l: Link, pending: seq<Row>, done: seq<Row>, left: seq<Row>)
    requires l.session.tx == Open(pending + done)
    ensures EndingOf(l.script, |left|, |done|).RollingBack? ==> EndingOf(l.script, |left|, |done|).inserted < |done + left|
    ensures !EndingOf(l.script, |left|, |done|).NotBegun?
    ensures Inserted(l, left, true)
         == Link(AfterEnding(l.session.table, pending, done + left, EndingOf(l.script, |left|, |done|)), RestOf(l.script, |left|))
    decreases |left|
  {
    EndingFits(l.script, |left|, |done|);
    if left == [] {
      assert done + left == done;
    } else {
      var a := Insert(l.session, left[0], NextOutcome(l.script));
      if a.ok {
        assert (pending + done) + [left[0]] == pending + (done + [left[0]]);
        assert (done + [left[0]]) + left[1..] == done + left;
        LoopEnds(Link(a.session, Rest(l.script)), pending, done + [left[0]], left[1..]);
      } else {
        assert (done + left)[..|done|] == done;
      }
    }
  }

  // Where a call leaves any session it may find.
  lemma {:induction false} CallEnds(l: Link, rows: seq<Row>)
    ensures var e, after := CallEnding(l, |rows|), Written(l, rows, true);
            && (e.RollingBack? ==> e.inserted < |rows|)
            && (e.NotBegun? ==> after.session == Session(l.session.table, FailedTx(l.session.tx, NextOutcome(l.script)))
                                || (l.session.tx.Dead? && after == l))
            && (!e.NotBegun? ==>
                  after == Link(AfterEnding(l.session.table, Pending(l.session), rows, e), RestOf(Rest(l.script), |rows|)))
  {
    var a := Begin(l.session, NextOutcome(l.script));
    if a.ok {
      var pending := Pending(l.session);
      assert pending + [] == pending && [] + rows == rows;
      LoopEnds(Link(a.session, Rest(l.script)), pending, [], rows);
    }
  }

  // --- What the rows hold -----------------------------------------------------------------------------

  lemma {:induction false} BatchHolds(before: seq<Row>, curTime: string, labels: seq<NPULabel>, metrics: seq<NPUMetrics>,
                                      n: nat)
    requires |labels| == |metrics| && n <= |labels|
    ensures RowsHold(before + Batch(curTime, labels, metrics)[..n], |before|, curTime, labels[..n], metrics[..n])
  {
    forall i | 0 <= i < n
      ensures RowHolds((before + Batch(curTime, labels, metrics)[..n])[|before| + i], curTime, labels[i], metrics[i])
    {
      MetricRowHolds(curTime, labels[i], metrics[i]);
    }
  }

  lemma {:induction false} WholeBatchHolds(before: seq<Row>, curTime: string, labels: seq<NPULabel>,
                                           metrics: seq<NPUMetrics>)
    requires |labels| == |metrics|
    ensures RowsHold(before + Batch(curTime, labels, metrics), |before|, curTime, labels, metrics)
  {
    var rows := Batch(curTime, labels, metrics);
    BatchHolds(before, curTime, labels, metrics, |labels|);
    assert rows[..|labels|] == rows && labels[..|labels|] == labels && metrics[..|labels|] == metrics;
  }

  lemma {:induction false} WholeBatchWentIn(before: Link, after: Link, was: seq<Row>, curTime: string,
                                            labels: seq<NPULabel>, metrics: seq<NPUMetrics>)
    requires |labels| == |metrics| && was == before.session.table + Pending(before.session)
    requires after.session.table == was + Batch(curTime, labels, metrics)
    ensures BatchWentIn(before, after, curTime, labels, metrics)
  {
    WholeBatchHolds(was, curTime, labels, metrics);
  }

  lemma {:induction false} Regrouped(a: seq<Row>, b: seq<Row>, c: seq<Row>)
    ensures a + (b + c) == (a + b) + c
  {
  }

  lemma {:induction false} TableAfterCall(l: Link, rows: seq<Row>)
    ensures Written(l, rows, true).session.table
         == l.session.table + (if Commits(CallEnding(l, |rows|)) then Pending(l.session) + rows else [])
  {
    CallEnds(l, rows);
  }

  // What a call writes: if its COMMIT is executed, then behind what was in the table, and what was
  // pending, there is one row for each label, in order, of which every column reads back as what was
  // measured; otherwise nothing.
  lemma {:induction false} CommittedRowsReadBack(l: Link, curTime: string, labels: seq<NPULabel>,
                                                 metrics: seq<NPUMetrics>)
    requires |labels| == |metrics|
    ensures var after := Written(l, Batch(curTime, labels, metrics), true);
            if Commits(CallEnding(l, |labels|)) then BatchWentIn(l, after, curTime, labels, metrics)
            else after.session.table == l.session.table
  {
    var rows := Batch(curTime, labels, metrics);
    TableAfterCall(l, rows);
    if Commits(CallEnding(l, |labels|)) {
      Regrouped(l.session.table, Pending(l.session), rows);
      WholeBatchWentIn(l, Written(l, rows, true), l.session.table + Pending(l.session), curTime, labels, metrics);
    }
  }

  // Without a transaction the rows of the first labels go in.
  lemma {:induction false} FirstRowsReadBack(l: Link, curTime: string, labels: seq<NPULabel>, metrics: seq<NPUMetrics>)
    requires |labels| == |metrics| && l.session.tx.Idle?
    ensures FirstRowsWentIn(l, Written(l, Batch(curTime, labels, metrics), false), curTime, labels, metrics)
  {
    var n := WithoutTransactionAPrefixIsWritten(l, Batch(curTime, labels, metrics));
    BatchHolds(l.session.table, curTime, labels, metrics, n);
  }

  lemma {:induction false} AllDoneCommits(script: seq<Outcome>, left: nat, inserted: nat)
    requires |script| > left && forall i :: 0 <= i <= left ==> script[i] == Done
    ensures EndingOf(script, left, inserted) == Committing(Done)
  {
    if left > 0 { AllDoneCommits(script[1..], left - 1, inserted + 1); }
  }

  // When every command of a call from an idle session is executed and answered, its batch goes in
  // and the session is idle again.
  lemma {:induction false} AllDoneGoesIn(l: Link, rows: seq<Row>)
    requires l.session.tx.Idle? && |l.script| >= |rows| + 2
    requires forall i :: 0 <= i < |rows| + 2 ==> l.script[i] == Done
    ensures Written(l, rows, true).session == Session(l.session.table + rows, Idle)
  {
    CallEnds(l, rows);
    AllDoneCommits(l.script[1..], |rows|, 0);
    assert Pending(l.session) + rows == rows;
  }

  // The rows went in after what was pending before, together or not at all: the table is as it
  // was or has all of them, and what stays pending is nothing, what was, or all.
  predicate AllOrNothing(before: Session, after: Session, pending: seq<Row>, rows: seq<Row>) {
    || (after.table == before.table && Pending(after) in {[], pending, pending + rows})
    || (after.table == before.table + (pending + rows) && Pending(after) == [])
  }

  // One call writes its batch entirely or not at all, whatever fails, unless a ROLLBACK that was
  // never sent leaves part of it behind.
  lemma {:induction false} CallIsAllOrNothing(l: Link, rows: seq<Row>)
    requires !LeavesPart(CallEnding(l, |rows|))
    ensures AllOrNothing(l.session, Written(l, rows, true).session, Pending(l.session), rows)
  {
    CallEnds(l, rows);
    assert Pending(l.session) + rows[..0] == Pending(l.session);
  }

  // A call leaves the session idle or dead if and only if the COMMIT or ROLLBACK that ends it was
  // sent; one that does not get past BEGIN, if the session was idle or dead or the connection broke.
  lemma {:induction false} IdleOrDeadIffEndSent(l: Link, rows: seq<Row>)
    ensures var tx, e := Written(l, rows, true).session.tx, CallEnding(l, |rows|);
            tx.Idle? || tx.Dead? <==>
              (if e.NotBegun? then l.session.tx.Idle? || l.session.tx.Dead? || NextOutcome(l.script) in {LostBefore, LostAfter}
               else !EndNotSent(e))
  {
    CallEnds(l, rows);
  }

  // Something, but not all, of the batch has been added to what was pending.
  ghost predicate AddedPart(before: Session, after: Session, rows: seq<Row>) {
    exists n :: 0 < n < |rows| && Pending(after) == Pending(before) + rows[..n]
  }

  // A call leaves a proper, non-empty part of its batch pending, whatever was pending before, if and
  // only if it ends in a ROLLBACK that was never sent after an INSERT that was never sent.
  lemma {:induction false} PartialBatchIff(l: Link, rows: seq<Row>)
    ensures AddedPart(l.session, Written(l, rows, true).session, rows) <==> LeavesPart(CallEnding(l, |rows|))
  {
    CallEnds(l, rows);
    var e := CallEnding(l, |rows|);
    if LeavesPart(e) {
      assert Pending(Written(l, rows, true).session) == Pending(l.session) + rows[..e.inserted];
    } else {
      CallIsAllOrNothing(l, rows);
    }
  }

  // A session left in an aborted transaction takes no further batch: BEGIN itself is rejected.
  lemma {:induction false} AbortedSessionTakesNothing(l: Link, rows: seq<Row>)
    requires l.session.tx.Aborted?
    ensures var s := Written(l, rows, true).session;
            s.table == l.session.table && (s.tx.Aborted? || s.tx.Dead?)
  {
  }

  // --- Runs of calls ---------------------------------------------------------------------------------

  // The link after the first k batches were written, each in a transaction.
  function AfterCalls(l: Link, batches: seq<seq<Row>>, k: nat): Link
    requires k <= |batches|
  {
    if k == 0 then l else Written(AfterCalls(l, batches, k - 1), batches[k - 1], true)
  }

  // So an aborted session takes nothing ever again, and is never idle or open again.
  lemma {:induction false} AbortedForever(l: Link, batches: seq<seq<Row>>, k: nat)
    requires l.session.tx.Aborted? && k <= |batches|
    ensures var s := AfterCalls(l, batches, k).session;
            s.table == l.session.table && (s.tx.Aborted? || s.tx.Dead?)
  {
    if k > 0 {
      AbortedForever(l, batches, k - 1);
      if AfterCalls(l, batches, k - 1).session.tx.Aborted? {
        AbortedSessionTakesNothing(AfterCalls(l, batches, k - 1), batches[k - 1]);
      }
    }
  }

  predicate IdleOrDead(l: Link) {
    l.session.tx.Idle? || l.session.tx.Dead?
  }

  // The first k calls find and leave the session idle or dead.
  predicate IdleOrDeadThroughout(l: Link, batches: seq<seq<Row>>, k: nat)
    requires k <= |batches|
  {
    IdleOrDead(AfterCalls(l, batches, k)) && (k > 0 ==> IdleOrDeadThroughout(l, batches, k - 1))
  }

  predicate EveryEndSent(l: Link, batches: seq<seq<Row>>, k: nat)
    requires k <= |batches|
  {
    k > 0 ==>
      EveryEndSent(l, batches, k - 1) && !EndNotSent(CallEnding(AfterCalls(l, batches, k - 1), |batches[k - 1]|))
  }

  // From an idle session, every call of a run leaves it idle or dead if and only if every call's
  // COMMIT or ROLLBACK was sent.
  lemma {:induction false} IdleOrDeadThroughoutIff(l: Link, batches: seq<seq<Row>>, k: nat)
    requires l.session.tx.Idle? && k <= |batches|
    ensures IdleOrDeadThroughout(l, batches, k) <==> EveryEndSent(l, batches, k)
  {
    if k > 0 {
      IdleOrDeadThroughoutIff(l, batches, k - 1);
      IdleOrDeadIffEndSent(AfterCalls(l, batches, k - 1), batches[k - 1]);
    }
  }

  // --- Which runs split a batch, by their outcomes alone ------------------------------------------------

  // Where the session is after some calls; in a transaction, whether a part of some batch is pending.
  datatype Phase = Idling | InTransaction(part: bool) | Failing | Gone

  // ... with the outcomes still to come, and whether a COMMIT was executed that made a part permanent.
  datatype Progress = Progress(phase: Phase, script: seq<Outcome>, split: bool)

  function NotBegunPhase(p: Phase, o: Outcome): Phase {
    if o == LostBefore || o == LostAfter then Gone
    else if o == Rejected && p.InTransaction? then Failing
    else p
  }

  function PhaseAfter(e: Ending, part: bool): Phase {
    match e
    case NotBegun => Gone
    case Disconnected => Gone
    case Committing(o) => Over(InTransaction(part), o)
    case RollingBack(inserted, cause, o) =>
      Over(if cause == NotSent then InTransaction(part || inserted > 0) else Failing, o)
  }

  function Over(p: Phase, o: Outcome): Phase {
    if o == LostBefore || o == LostAfter then Gone else if o == NotSent then p else Idling
  }

  // One more call, of a batch of the given size.
  function Advanced(g: Progress, size: nat): Progress {
    var o, rest := NextOutcome(g.script), Rest(g.script);
    if g.phase.Gone? then g
    else if o != Done || g.phase.Failing? then Progress(NotBegunPhase(g.phase, o), rest, g.split)
    else
      var e, part := EndingOf(rest, size, 0), g.phase == InTransaction(true);
      Progress(PhaseAfter(e, part), RestOf(rest, size), g.split || (part && Commits(e)))
  }

  function ProgressAfter(script: seq<Outcome>, sizes: seq<nat>, k: nat): Progress
    requires k <= |sizes|
  {
    if k == 0 then Progress(Idling, script, false) else Advanced(ProgressAfter(script, sizes, k - 1), sizes[k - 1])
  }

  // Some COMMIT of the first k calls was executed while a part of a batch was pending.
  predicate SplitsABatch(script: seq<Outcome>, sizes: seq<nat>, k: nat)
    requires k <= |sizes|
  {
    ProgressAfter(script, sizes, k).split
  }

  function Sizes(batches: seq<seq<Row>>): (sizes: seq<nat>)
    ensures |sizes| == |batches|
  {
    seq(|batches|, i requires 0 <= i < |batches| => |batches[i]|)
  }

  // --- What the table is made of -----------------------------------------------------------------------

  // The first rows of a batch.
  datatype Piece = Piece(batch: nat, rows: nat)

  function PieceRows(batches: seq<seq<Row>>, p: Piece): seq<Row> {
    if p.batch < |batches| && p.rows <= |batches[p.batch]| then batches[p.batch][..p.rows] else []
  }

  // The first n pieces, one behind the other.
  function LaidTo(batches: seq<seq<Row>>, pieces: seq<Piece>, n: nat): seq<Row>
    requires n <= |pieces|
  {
    if n == 0 then [] else LaidTo(batches, pieces, n - 1) + PieceRows(batches, pieces[n - 1])
  }

  function Laid(batches: seq<seq<Row>>, pieces: seq<Piece>): seq<Row> {
    LaidTo(batches, pieces, |pieces|)
  }

  predicate Cut(batches: seq<seq<Row>>, p: Piece) {
    p.batch < |batches| && 0 < p.rows < |batches[p.batch]|
  }

  predicate NoneCut(batches: seq<seq<Row>>, pieces: seq<Piece>) {
    forall i :: 0 <= i < |pieces| ==> !Cut(batches, pieces[i])
  }

  predicate PieceFits(batches: seq<seq<Row>>, p: Piece, k: nat) {
    p.batch < k && p.batch < |batches| && (Cut(batches, p) || p.rows == |batches[p.batch]|)
  }

  // Pieces, cut or whole, of batches among the first k, in the order of the batches.
  predicate PiecesFit(batches: seq<seq<Row>>, pieces: seq<Piece>, k: nat) {
    && (forall i :: 0 <= i < |pieces| ==> PieceFits(batches, pieces[i], k))
    && (forall i, j :: 0 <= i < j < |pieces| ==> pieces[i].batch < pieces[j].batch)
  }

  lemma {:induction false} LaidPrefix(batches: seq<seq<Row>>, a: seq<Piece>, b: seq<Piece>, n: nat)
    requires n <= |a|
    ensures LaidTo(batches, a + b, n) == LaidTo(batches, a, n)
  {
    if n > 0 { LaidPrefix(batches, a, b, n - 1); }
  }

  lemma {:induction false} LaidConcat(batches: seq<seq<Row>>, a: seq<Piece>, b: seq<Piece>, n: nat)
    requires n <= |b|
    ensures LaidTo(batches, a + b, |a| + n) == Laid(batches, a) + LaidTo(batches, b, n)
  {
    if n == 0 {
      LaidPrefix(batches, a, b, |a|);
      assert Laid(batches, a) + [] == Laid(batches, a);
    } else {
      LaidConcat(batches, a, b, n - 1);
      var rows := PieceRows(batches, b[n - 1]);
      assert Laid(batches, a) + LaidTo(batches, b, n) == (Laid(batches, a) + LaidTo(batches, b, n - 1)) + rows;
    }
  }

  // One more piece waiting.
  lemma {:induction false} PieceAdded(batches: seq<seq<Row>>, kept: seq<Piece>, waiting: seq<Piece>, k: nat, n: nat)
    requires k < |batches| && PiecesFit(batches, kept + waiting, k) && PieceFits(batches, Piece(k, n), k + 1)
    ensures PiecesFit(batches, kept + (waiting + [Piece(k, n)]), k + 1)
    ensures Laid(batches, waiting + [Piece(k, n)]) == Laid(batches, waiting) + batches[k][..n]
    ensures NoneCut(batches, waiting + [Piece(k, n)]) <==> NoneCut(batches, waiting) && n == |batches[k]|
  {
    var p := Piece(k, n);
    assert kept + (waiting + [p]) == (kept + waiting) + [p];
    LaidPrefix(batches, waiting, [p], |waiting|);
    assert (waiting + [p])[|waiting|] == p;
    assert forall i :: 0 <= i < |waiting| ==> (waiting + [p])[i] == waiting[i];
  }

  // What waits is committed.
  lemma {:induction false} PiecesKept(batches: seq<seq<Row>>, kept: seq<Piece>, waiting: seq<Piece>, k: nat)
    requires PiecesFit(batches, kept + waiting, k)
    ensures PiecesFit(batches, (kept + waiting) + [], k)
    ensures Laid(batches, kept + waiting) == Laid(batches, kept) + Laid(batches, waiting)
    ensures NoneCut(batches, kept + waiting) <==> NoneCut(batches, kept) && NoneCut(batches, waiting)
  {
    assert (kept + waiting) + [] == kept + waiting;
    LaidConcat(batches, kept, waiting, |waiting|);
    assert forall i :: 0 <= i < |kept| ==> (kept + waiting)[i] == kept[i];
    assert forall i :: 0 <= i < |waiting| ==> (kept + waiting)[|kept| + i] == waiting[i];
  }

  // What waits is dropped, or waits on.
  lemma {:induction false} PiecesStay(batches: seq<seq<Row>>, kept: seq<Piece>, waiting: seq<Piece>, k: nat)
    requires PiecesFit(batches, kept + waiting, k)
    ensures PiecesFit(batches, kept + waiting, k + 1) && PiecesFit(batches, kept + [], k + 1)
  {
    assert kept + [] == kept;
    assert forall i :: 0 <= i < |kept| ==> (kept + waiting)[i] == kept[i];
  }

  predicate PhaseFits(p: Phase, tx: Tx) {
    match p
    case Idling => tx.Idle?
    case InTransaction(_) => tx.Open?
    case Failing => tx.Aborted?
    case Gone => tx.Dead?
  }

  // The table is `base` and then the pieces kept, and the pieces waiting are pending.
  predicate Composed(base: seq<Row>, table: seq<Row>, pending: seq<Row>, batches: seq<seq<Row>>, k: nat,
                     kept: seq<Piece>, waiting: seq<Piece>) {
    && PiecesFit(batches, kept + waiting, k)
    && table == base + Laid(batches, kept)
    && pending == Laid(batches, waiting)
  }

  lemma {:induction false} ComposedWaits(base: seq<Row>, table: seq<Row>, pending: seq<Row>, batches: seq<seq<Row>>,
                                         k: nat, kept: seq<Piece>, waiting: seq<Piece>, n: nat)
    returns (more: seq<Piece>)
    requires k < |batches| && Composed(base, table, pending, batches, k, kept, waiting) && n <= |batches[k]|
    requires n > 0 || batches[k] == []
    ensures Composed(base, table, pending + batches[k][..n], batches, k + 1, kept, more)
    ensures NoneCut(batches, more) <==> NoneCut(batches, waiting) && n == |batches[k]|
  {
    PieceAdded(batches, kept, waiting, k, n);
    more := waiting + [Piece(k, n)];
  }

  lemma {:induction false} ComposedIsKept(base: seq<Row>, table: seq<Row>, pending: seq<Row>, batches: seq<seq<Row>>,
                                          k: nat, kept: seq<Piece>, waiting: seq<Piece>)
    requires Composed(base, table, pending, batches, k, kept, waiting)
    ensures Composed(base, table + pending, [], batches, k, kept + waiting, [])
    ensures NoneCut(batches, kept + waiting) <==> NoneCut(batches, kept) && NoneCut(batches, waiting)
  {
    PiecesKept(batches, kept, waiting, k);
    assert base + Laid(batches, kept + waiting) == table + pending;
  }

  lemma {:induction false} ComposedStays(base: seq<Row>, table: seq<Row>, pending: seq<Row>, batches: seq<seq<Row>>,
                                         k: nat, kept: seq<Piece>, waiting: seq<Piece>)
    requires Composed(base, table, pending, batches, k, kept, waiting)
    ensures Composed(base, table, pending, batches, k + 1, kept, waiting)
    ensures Composed(base, table, [], batches, k + 1, kept, [])
  {
    PiecesStay(batches, kept, waiting, k);
  }

  // After k calls: which of the pieces are cut is known from the outcomes.
  predicate Accounts(base: seq<Row>, l: Link, batches: seq<seq<Row>>, k: nat, kept: seq<Piece>, waiting: seq<Piece>,
                     g: Progress) {
    && Composed(base, l.session.table, Pending(l.session), batches, k, kept, waiting)
    && (!l.session.tx.Open? ==> waiting == [])
    && l.script == g.script && PhaseFits(g.phase, l.session.tx)
    && (g.split <==> !NoneCut(batches, kept))
    && (g.phase.InTransaction? ==> (g.phase.part <==> !NoneCut(batches, waiting)))
  }

  // The outcomes alone say where a call leaves the session.
  lemma {:induction false} AdvancedFits(l: Link, rows: seq<Row>, g: Progress)
    requires l.script == g.script && PhaseFits(g.phase, l.session.tx)
    ensures var g', after := Advanced(g, |rows|), Written(l, rows, true);
      && after.script == g'.script && PhaseFits(g'.phase, after.session.tx)
      && (g'.split <==> g.split || (g.phase == InTransaction(true) && Commits(CallEnding(l, |rows|))))
  {
    CallEnds(l, rows);
    EndingFits(Rest(l.script), |rows|, 0);
  }

  // What waits and the whole batch are committed.
  lemma {:induction false} ComposedCommit(base: seq<Row>, table: seq<Row>, pending: seq<Row>, batches: seq<seq<Row>>,
                                          k: nat, kept: seq<Piece>, waiting: seq<Piece>)
    returns (kept': seq<Piece>)
    requires k < |batches| && Composed(base, table, pending, batches, k, kept, waiting)
    ensures Composed(base, table + (pending + batches[k]), [], batches, k + 1, kept', [])
    ensures NoneCut(batches, kept') <==> NoneCut(batches, kept) && NoneCut(batches, waiting)
  {
    var rows := batches[k];
    var more := ComposedWaits(base, table, pending, batches, k, kept, waiting, |rows|);
    assert rows[..|rows|] == rows;
    ComposedIsKept(base, table, pending + rows, batches, k + 1, kept, more);
    kept' := kept + more;
  }

  // A COMMIT that the server executes.
  lemma {:induction false} CommittedCallAccounts(base: seq<Row>, l: Link, batches: seq<seq<Row>>, k: nat,
                                                 kept: seq<Piece>, waiting: seq<Piece>, g: Progress)
    returns (kept': seq<Piece>)
    requires k < |batches| && Accounts(base, l, batches, k, kept, waiting, g)
    requires Commits(CallEnding(l, |batches[k]|))
    ensures Accounts(base, Written(l, batches[k], true), batches, k + 1, kept', [], Advanced(g, |batches[k]|))
  {
    CallEnds(l, batches[k]);
    AdvancedFits(l, batches[k], g);
    kept' := ComposedCommit(base, l.session.table, Pending(l.session), batches, k, kept, waiting);
    if !g.phase.InTransaction? { assert NoneCut(batches, waiting); }
  }

  // One that it does not.
  lemma {:induction false} UncommittedCallAccounts(base: seq<Row>, l: Link, batches: seq<seq<Row>>, k: nat,
                                                   kept: seq<Piece>, waiting: seq<Piece>, g: Progress)
    returns (waiting': seq<Piece>)
    requires k < |batches| && Accounts(base, l, batches, k, kept, waiting, g)
    requires CallEnding(l, |batches[k]|).Committing? && !Commits(CallEnding(l, |batches[k]|))
    ensures Accounts(base, Written(l, batches[k], true), batches, k + 1, kept, waiting', Advanced(g, |batches[k]|))
  {
    var rows, table, pending := batches[k], l.session.table, Pending(l.session);
    CallEnds(l, rows);
    ComposedStays(base, table, pending, batches, k, kept, waiting);
    waiting' := [];
    if CallEnding(l, |rows|).outcome == NotSent {
      waiting' := ComposedWaits(base, table, pending, batches, k, kept, waiting, |rows|);
      assert rows[..|rows|] == rows;
    }
  }

  // A call that gets past BEGIN but not to its COMMIT.
  lemma {:induction false} FailedCallAccounts(base: seq<Row>, l: Link, batches: seq<seq<Row>>, k: nat,
                                              kept: seq<Piece>, waiting: seq<Piece>, g: Progress)
    returns (waiting': seq<Piece>)
    requires k < |batches| && Accounts(base, l, batches, k, kept, waiting, g)
    requires CallEnding(l, |batches[k]|).RollingBack? || CallEnding(l, |batches[k]|).Disconnected?
    ensures Accounts(base, Written(l, batches[k], true), batches, k + 1, kept, waiting', Advanced(g, |batches[k]|))
  {
    var rows, e, table, pending := batches[k], CallEnding(l, |batches[k]|), l.session.table, Pending(l.session);
    CallEnds(l, rows);
    EndingFits(Rest(l.script), |rows|, 0);
    ComposedStays(base, table, pending, batches, k, kept, waiting);
    waiting' := [];
    if e.RollingBack? && e.outcome == NotSent && e.cause == NotSent {
      if e.inserted > 0 {
        waiting' := ComposedWaits(base, table, pending, batches, k, kept, waiting, e.inserted);
      } else {
        assert pending + rows[..0] == pending;
        waiting' := waiting;
      }
    }
  }

  // A call that does not.
  lemma {:induction false} NotBegunCallAccounts(base: seq<Row>, l: Link, batches: seq<seq<Row>>, k: nat,
                                                kept: seq<Piece>, waiting: seq<Piece>, g: Progress)
    returns (waiting': seq<Piece>)
    requires k < |batches| && Accounts(base, l, batches, k, kept, waiting, g)
    requires CallEnding(l, |batches[k]|).NotBegun?
    ensures Accounts(base, Written(l, batches[k], true), batches, k + 1, kept, waiting', Advanced(g, |batches[k]|))
  {
    EndingFits(Rest(l.script), |batches[k]|, 0);
    CallEnds(l, batches[k]);
    ComposedStays(base, l.session.table, Pending(l.session), batches, k, kept, waiting);
    waiting' := if Written(l, batches[k], true).session.tx.Open? then waiting else [];
  }

  lemma {:induction false} CallAccounts(base: seq<Row>, l: Link, after: Link, batches: seq<seq<Row>>, k: nat,
                                        kept: seq<Piece>, waiting: seq<Piece>, g: Progress, g': Progress)
    returns (kept': seq<Piece>, waiting': seq<Piece>)
    requires k < |batches| && Accounts(base, l, batches, k, kept, waiting, g)
    requires after == Written(l, batches[k], true) && g' == Advanced(g, |batches[k]|)
    ensures Accounts(base, after, batches, k + 1, kept', waiting', g')
  {
    kept' := kept;
    match CallEnding(l, |batches[k]|) {
      case NotBegun => waiting' := NotBegunCallAccounts(base, l, batches, k, kept, waiting, g);
      case Committing(_) =>
        if Commits(CallEnding(l, |batches[k]|)) {
          kept' := CommittedCallAccounts(base, l, batches, k, kept, waiting, g);
          waiting' := [];
        } else {
          waiting' := UncommittedCallAccounts(base, l, batches, k, kept, waiting, g);
        }
      case _ => waiting' := FailedCallAccounts(base, l, batches, k, kept, waiting, g);
    }
  }

  lemma {:induction false} NoCallAccounts(l: Link, batches: seq<seq<Row>>)
    requires l.session.tx.Idle?
    ensures Accounts(l.session.table, l, batches, 0, [], [], Progress(Idling, l.script, false))
  {
    assert l.session.table + [] == l.session.table;
  }

  predicate RunAccounts(l: Link, batches: seq<seq<Row>>, k: nat, kept: seq<Piece>, waiting: seq<Piece>)
    requires k <= |batches|
  {
    Accounts(l.session.table, AfterCalls(l, batches, k), batches, k, kept, waiting, ProgressAfter(l.script, Sizes(batches), k))
  }

  lemma {:induction false} NextProgress(script: seq<Outcome>, sizes: seq<nat>, k: nat)
    requires k < |sizes|
    ensures ProgressAfter(script, sizes, k + 1) == Advanced(ProgressAfter(script, sizes, k), sizes[k])
  {
  }

  lemma {:induction false} NextCallAccounts(l: Link, batches: seq<seq<Row>>, k: nat, kept: seq<Piece>, waiting: seq<Piece>)
    returns (kept': seq<Piece>, waiting': seq<Piece>)
    requires 0 < k <= |batches| && RunAccounts(l, batches, k - 1, kept, waiting)
    ensures RunAccounts(l, batches, k, kept', waiting')
  {
    NextProgress(l.script, Sizes(batches), k - 1);
    assert Sizes(batches)[k - 1] == |batches[k - 1]|;
    kept', waiting' := CallAccounts(
      l.session.table, AfterCalls(l, batches, k - 1), AfterCalls(l, batches, k), batches, k - 1, kept, waiting,
      ProgressAfter(l.script, Sizes(batches), k - 1), ProgressAfter(l.script, Sizes(batches), k));
  }

  // Every run, whatever fails: the table is what it was and then first parts of some of the batches,
  // in the order of their calls; all of them are whole unless a COMMIT split a batch.
  lemma {:induction false} TableIsMadeOfPieces(l: Link, batches: seq<seq<Row>>, k: nat)
    returns (kept: seq<Piece>, waiting: seq<Piece>)
    requires l.session.tx.Idle? && k <= |batches|
    ensures RunAccounts(l, batches, k, kept, waiting)
  {
    kept, waiting := [], [];
    NoCallAccounts(l, batches);
    for i := 0 to k
      invariant RunAccounts(l, batches, i, kept, waiting)
    {
      kept, waiting := NextCallAccounts(l, batches, i + 1, kept, waiting);
    }
  }

  // --- Complete batches ------------------------------------------------------------------------------------

  // Indices of batches among the first k, in increasing order.
  predicate InOrder(chosen: seq<nat>, k: nat) {
    && (forall i :: 0 <= i < |chosen| ==> chosen[i] < k)
    && (forall i, j :: 0 <= i < j < |chosen| ==> chosen[i] < chosen[j])
  }

  function Whole(batches: seq<seq<Row>>, chosen: seq<nat>): seq<Piece> {
    seq(|chosen|, i requires 0 <= i < |chosen| =>
      Piece(chosen[i], if chosen[i] < |batches| then |batches[chosen[i]]| else 0))
  }

  // The rows of chosen batches, batch after batch.
  function Chosen(batches: seq<seq<Row>>, chosen: seq<nat>): seq<Row> {
    Laid(batches, Whole(batches, chosen))
  }

  // The table is what it was and then complete batches, in the order of their calls.
  ghost predicate HoldsCompleteBatches(base: seq<Row>, table: seq<Row>, batches: seq<seq<Row>>, k: nat) {
    exists kept :: InOrder(kept, k) && table == base + Chosen(batches, kept)
  }

  lemma {:induction false} UncutPiecesAreChosen(batches: seq<seq<Row>>, pieces: seq<Piece>, k: nat)
    returns (chosen: seq<nat>)
    requires PiecesFit(batches, pieces, k) && NoneCut(batches, pieces)
    ensures InOrder(chosen, k) && Laid(batches, pieces) == Chosen(batches, chosen)
  {
    chosen := seq(|pieces|, i requires 0 <= i < |pieces| => pieces[i].batch);
    assert forall i :: 0 <= i < |pieces| ==> PieceFits(batches, pieces[i], k);
    assert Whole(batches, chosen) == pieces;
  }

  // Atomicity over whole runs, under every pattern of failures in which no COMMIT splits a batch.
  lemma {:induction false} TableHoldsCompleteBatches(l: Link, batches: seq<seq<Row>>, k: nat)
    requires l.session.tx.Idle? && k <= |batches| && !SplitsABatch(l.script, Sizes(batches), k)
    ensures HoldsCompleteBatches(l.session.table, AfterCalls(l, batches, k).session.table, batches, k)
  {
    var kept, waiting := TableIsMadeOfPieces(l, batches, k);
    assert forall i :: 0 <= i < |kept| ==> (kept + waiting)[i] == kept[i];
    var chosen := UncutPiecesAreChosen(batches, kept, k);
  }

  // No row occurs twice: rows carry the time and the device.
  ghost predicate AllDifferent(batches: seq<seq<Row>>) {
    forall a, i, b, j | 0 <= a < |batches| && 0 <= i < |batches[a]| && 0 <= b < |batches| && 0 <= j < |batches[b]| ::
      batches[a][i] == batches[b][j] ==> a == b && i == j
  }

  lemma {:induction false} RowIsLaid(batches: seq<seq<Row>>, pieces: seq<Piece>, n: nat, i: nat, row: Row)
    requires i < n <= |pieces| && row in PieceRows(batches, pieces[i])
    ensures row in LaidTo(batches, pieces, n)
  {
    if i < n - 1 { RowIsLaid(batches, pieces, n - 1, i, row); }
  }

  lemma {:induction false} LaidRowHasPiece(batches: seq<seq<Row>>, pieces: seq<Piece>, n: nat, row: Row) returns (i: nat)
    requires n <= |pieces| && row in LaidTo(batches, pieces, n)
    ensures i < n && row in PieceRows(batches, pieces[i])
  {
    if row in PieceRows(batches, pieces[n - 1]) { i := n - 1; } else { i := LaidRowHasPiece(batches, pieces, n - 1, row); }
  }

  // A laid row that is row m of batch b comes from a piece of that batch that goes beyond m.
  lemma {:induction false} RowOfBatchHasPiece(batches: seq<seq<Row>>, pieces: seq<Piece>, b: nat, m: nat) returns (i: nat)
    requires AllDifferent(batches) && b < |batches| && m < |batches[b]| && batches[b][m] in Laid(batches, pieces)
    ensures i < |pieces| && pieces[i].batch == b && m < pieces[i].rows <= |batches[b]|
  {
    i := LaidRowHasPiece(batches, pieces, |pieces|, batches[b][m]);
    var p := pieces[i];
    var j :| 0 <= j < |PieceRows(batches, p)| && PieceRows(batches, p)[j] == batches[b][m];
    assert batches[p.batch][j] == batches[b][m];
  }

  // The row behind a cut piece is nowhere.
  lemma {:induction false} CutRowIsMissing(batches: seq<seq<Row>>, pieces: seq<Piece>, k: nat, i: nat)
    requires AllDifferent(batches) && PiecesFit(batches, pieces, k) && i < |pieces| && Cut(batches, pieces[i])
    ensures batches[pieces[i].batch][pieces[i].rows] !in Laid(batches, pieces)
  {
    var b, m := pieces[i].batch, pieces[i].rows;
    if batches[b][m] in Laid(batches, pieces) {
      var j := RowOfBatchHasPiece(batches, pieces, b, m);
    }
  }

  // Where one row of a batch is, in complete batches, any other is.
  lemma {:induction false} ChosenRows(batches: seq<seq<Row>>, chosen: seq<nat>, k: nat, b: nat, m: nat)
    requires AllDifferent(batches) && k <= |batches| && InOrder(chosen, k)
    requires b < |batches| && m < |batches[b]| && batches[b][0] in Chosen(batches, chosen)
    ensures batches[b][m] in Chosen(batches, chosen)
  {
    var whole := Whole(batches, chosen);
    var j := RowOfBatchHasPiece(batches, whole, b, 0);
    assert PieceRows(batches, whole[j])[m] == batches[b][m];
    RowIsLaid(batches, whole, |whole|, j, batches[b][m]);
  }

  // A cut piece shows: its first row is there and its next row is not.
  lemma {:induction false} CutPieceShows(batches: seq<seq<Row>>, pieces: seq<Piece>, k: nat, chosen: seq<nat>)
    requires AllDifferent(batches) && PiecesFit(batches, pieces, k) && !NoneCut(batches, pieces)
    requires k <= |batches| && InOrder(chosen, k)
    ensures Laid(batches, pieces) != Chosen(batches, chosen)
  {
    var i :| 0 <= i < |pieces| && Cut(batches, pieces[i]);
    var b := pieces[i].batch;
    assert PieceRows(batches, pieces[i])[0] == batches[b][0];
    RowIsLaid(batches, pieces, |pieces|, i, batches[b][0]);
    CutRowIsMissing(batches, pieces, k, i);
    if batches[b][0] in Chosen(batches, chosen) { ChosenRows(batches, chosen, k, b, pieces[i].rows); }
  }

  // From an idle session, and with no row occurring twice, the table holds complete batches, in the
  // order of their calls, if and only if no COMMIT was executed while part of a batch was pending.
  lemma {:induction false} TableHoldsCompleteBatchesIff(l: Link, batches: seq<seq<Row>>, k: nat)
    requires l.session.tx.Idle? && k <= |batches| && AllDifferent(batches)
    ensures HoldsCompleteBatches(l.session.table, AfterCalls(l, batches, k).session.table, batches, k)
       <==> !SplitsABatch(l.script, Sizes(batches), k)
  {
    if SplitsABatch(l.script, Sizes(batches), k) {
      var base, table := l.session.table, AfterCalls(l, batches, k).session.table;
      var kept, waiting := TableIsMadeOfPieces(l, batches, k);
      assert forall i :: 0 <= i < |kept| ==> (kept + waiting)[i] == kept[i];
      forall chosen | InOrder(chosen, k) ensures table != base + Chosen(batches, chosen) {
        CutPieceShows(batches, kept, k, chosen);
        assert table[|base|..] == Laid(batches, kept);
        assert (base + Chosen(batches, chosen))[|base|..] == Chosen(batches, chosen);
      }
    } else {
      TableHoldsCompleteBatches(l, batches, k);
    }
  }

  // None of the first k calls leaves a part of its batch behind.
  predicate NoPartLeft(l: Link, batches: seq<seq<Row>>, k: nat)
    requires k <= |batches|
  {
    k > 0 ==> NoPartLeft(l, batches, k - 1) && !LeavesPart(CallEnding(AfterCalls(l, batches, k - 1), |batches[k - 1]|))
  }

  // If no call leaves a part behind, no batch is split and no part is pending.
  lemma {:induction false} NoPartLeftNoneSplit(l: Link, batches: seq<seq<Row>>, k: nat)
    requires l.session.tx.Idle? && k <= |batches| && NoPartLeft(l, batches, k)
    ensures !SplitsABatch(l.script, Sizes(batches), k)
    ensures ProgressAfter(l.script, Sizes(batches), k).phase != InTransaction(true)
  {
    if k > 0 {
      NoPartLeftNoneSplit(l, batches, k - 1);
      var kept, waiting := TableIsMadeOfPieces(l, batches, k - 1);
      NoPartLeftByCall(AfterCalls(l, batches, k - 1), batches[k - 1], ProgressAfter(l.script, Sizes(batches), k - 1));
    }
  }

  lemma {:induction false} NoPartLeftByCall(l: Link, rows: seq<Row>, g: Progress)
    requires l.script == g.script && PhaseFits(g.phase, l.session.tx) && g.phase != InTransaction(true)
    requires !LeavesPart(CallEnding(l, |rows|))
    ensures Advanced(g, |rows|).phase != InTransaction(true) && Advanced(g, |rows|).split == g.split
  {
    EndingFits(Rest(g.script), |rows|, 0);
  }

  // A two-row batch whose second INSERT and ROLLBACK are not sent leaves a part behind.
  lemma {:induction false} TwoUnsent(script: seq<Outcome>)
    requires [Done, Done, NotSent, NotSent] <= script
    ensures ProgressAfter(script, [2, 1], 1) == Progress(InTransaction(true), script[4..], false)
  {
    assert EndingOf(script[1..], 2, 0) == EndingOf(script[2..], 1, 1) == RollingBack(1, NotSent, NotSent);
    assert RestOf(script[1..], 2) == RestOf(script[2..], 1) == script[4..];
    assert ProgressAfter(script, [2, 1], 1) == Advanced(ProgressAfter(script, [2, 1], 0), 2);
  }

  // ... and an open transaction with its first row, in a session that was idle.
  lemma {:induction false} SecondRowUnsent(l: Link, a: Row, b: Row)
    requires l.session == Session([], Idle) && [Done, Done, NotSent, NotSent] <= l.script
    ensures Written(l, [a, b], true) == Link(Session([], Open([a])), l.script[4..])
    ensures LeavesPart(CallEnding(l, 2))
  {
    var l1 := Link(Session([], Open([])), l.script[1..]);
    var l2 := Link(Session([], Open([a])), l.script[2..]);
    assert Written(l, [a, b], true) == Inserted(l1, [a, b], true);
    assert [a, b][1..] == [b] && Inserted(l1, [a, b], true) == Inserted(l2, [b], true);
    assert EndingOf(l.script[1..], 2, 0) == EndingOf(l.script[2..], 1, 1) == RollingBack(1, NotSent, NotSent);
  }

  // A batch is split when a two-row batch loses its second INSERT and its ROLLBACK on the client's
  // side: the next batch commits the first row along with its own.
  lemma {:induction false} UnsentRollbackSplitsABatch(a: Row, b: Row, c: Row)
    ensures var l := Link(Session([], Idle), [Done, Done, NotSent, NotSent, Done, Done, Done]);
            AfterCalls(l, [[a, b], [c]], 2).session == Session([a, c], Idle) && SplitsABatch(l.script, [2, 1], 2)
  {
    var l := Link(Session([], Idle), [Done, Done, NotSent, NotSent, Done, Done, Done]);
    var l3 := Link(Session([], Open([a])), [Done, Done, Done]);
    SecondRowUnsent(l, a, b);
    assert l.script[4..] == l3.script;
    assert AfterCalls(l, [[a, b], [c]], 1) == Written(AfterCalls(l, [[a, b], [c]], 0), [a, b], true);
    OneRowCommitted(l3, a, c);
    TwoUnsent(l.script);
    assert EndingOf([Done, Done], 1, 0) == EndingOf([Done], 0, 1) == Committing(Done);
    assert l3.script[1..] == [Done, Done] && [Done, Done][1..] == [Done];
    NextProgress(l.script, [2, 1], 1);
  }

  lemma {:induction false} OneRowCommitted(l: Link, a: Row, c: Row)
    requires l == Link(Session([], Open([a])), [Done, Done, Done])
    ensures Written(l, [c], true).session == Session([a, c], Idle)
  {
    var l4 := Link(Session([], Open([a])), [Done, Done]);
    var l5 := Link(Session([], Open([a, c])), [Done]);
    assert [a] + [c] == [a, c] && [c][1..] == [];
    assert Written(l, [c], true) == Inserted(l4, [c], true) == Inserted(l5, [], true);
  }

  // A part that is left behind need not be committed: here the next batch's INSERT is rejected, and
  // its ROLLBACK takes the part away too.
  lemma {:induction false} PartLeftMayBeRolledBack(a: Row, b: Row, c: Row)
    ensures var l := Link(Session([], Idle), [Done, Done, NotSent, NotSent, Done, Rejected, Done]);
      && LeavesPart(CallEnding(l, 2)) && AfterCalls(l, [[a, b], [c]], 1).session == Session([], Open([a]))
      && AfterCalls(l, [[a, b], [c]], 2).session == Session([], Idle) && !SplitsABatch(l.script, [2, 1], 2)
  {
    var l := Link(Session([], Idle), [Done, Done, NotSent, NotSent, Done, Rejected, Done]);
    var l3 := Link(Session([], Open([a])), [Done, Rejected, Done]);
    var l4 := Link(Session([], Open([a])), [Rejected, Done]);
    SecondRowUnsent(l, a, b);
    assert l.script[4..] == l3.script;
    assert AfterCalls(l, [[a, b], [c]], 1) == Written(AfterCalls(l, [[a, b], [c]], 0), [a, b], true);
    assert Written(l3, [c], true) == Inserted(l4, [c], true);
    TwoUnsent(l.script);
    assert l3.script[1..] == [Rejected, Done] && EndingOf([Rejected, Done], 1, 0) == RollingBack(0, Rejected, Done);
    NextProgress(l.script, [2, 1], 1);
  }

  // Without a transaction, a call from an idle session commits some first rows of its batch.
  lemma {:induction false} WithoutTransactionAPrefixIsWritten(l: Link, rows: seq<Row>) returns (n: nat)
    requires l.session.tx.Idle?
    ensures n <= |rows| && Written(l, rows, false).session.table == l.session.table + rows[..n]
    ensures !Written(l, rows, false).session.tx.Open?
    decreases |rows|
  {
    if rows == [] {
      n := 0;
    } else {
      var a := Insert(l.session, rows[0], NextOutcome(l.script));
      var l' := Link(a.session, Rest(l.script));
      if a.ok {
        var m := WithoutTransactionAPrefixIsWritten(l', rows[1..]);
        n := m + 1;
        assert rows[..n] == [rows[0]] + rows[1..][..m];
      } else {
        n := if NextOutcome(l.script) == LostAfter then 1 else 0;
      }
    }
  }
}
