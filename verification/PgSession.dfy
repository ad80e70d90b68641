/** A PostgreSQL session as a client sees it through libpq: what is committed in one table, and
    the state of the transaction. */
module PgSession {
  import opened SqlParams

  type Row = seq<Param>

  datatype Tx =
    | Idle                          // no transaction
    | Open(pending: seq<Row>)       // in a transaction, with rows not yet committed
    | Aborted                       // in a transaction that has failed
    | Dead                          // the connection is gone

  datatype Session = Session(table: seq<Row>, tx: Tx)

  // How one command can go: executed; rejected by the server; the connection lost before or after
  // the server executed it; or not even sent, because libpq failed on the client's side.
  datatype Outcome = Done | Rejected | LostBefore | LostAfter | NotSent

  datatype Answer = Answer(session: Session, ok: bool)

  // The part of every command that is the same: losing the connection, and not sending.
  function Failed(s: Session, o: Outcome): Answer
    requires o == LostBefore || o == NotSent
  {
    if o == LostBefore then Answer(s.(tx := Dead), false) else Answer(s, false)
  }

  // A command the server rejects aborts the transaction it is in.
  function RejectedIn(s: Session): Session {
    if s.tx.Open? then s.(tx := Aborted) else s
  }

  function Lost(s: Session): Session {
    s.(tx := Dead)
  }

  // BEGIN inside a transaction only warns; in an aborted one it is rejected, like all but the end.
  function Begin(s: Session, o: Outcome): Answer {
    if s.tx.Dead? then Answer(s, false)
    else match o
      case LostBefore | NotSent => Failed(s, o)
      case Rejected => Answer(RejectedIn(s), false)
      case LostAfter => Answer(Lost(s), false)
      case Done => if s.tx.Idle? then Answer(s.(tx := Open([])), true) else Answer(s, s.tx.Open?)
  }

  // INSERT of one row; outside a transaction it commits by itself.
  function Insert(s: Session, row: Row, o: Outcome): Answer {
    if s.tx.Dead? then Answer(s, false)
    else match o
      case LostBefore | NotSent => Failed(s, o)
      case Rejected => Answer(RejectedIn(s), false)
      case LostAfter => Answer(Lost(if s.tx.Idle? then s.(table := s.table + [row]) else s), false)
      case Done =>
        match s.tx
        case Idle => Answer(s.(table := s.table + [row]), true)
        case Open(pending) => Answer(s.(tx := Open(pending + [row])), true)
        case Aborted => Answer(s, false)
        case Dead => Answer(s, false)
  }

  // COMMIT ends the transaction even when it is rejected; in an aborted one it commits nothing.
  function Commit(s: Session, o: Outcome): Answer {
    if s.tx.Dead? then Answer(s, false)
    else
      var committed := if s.tx.Open? then s.(table := s.table + s.tx.pending) else s;
      match o
      case LostBefore | NotSent => Failed(s, o)
      case Rejected => Answer(s.(tx := Idle), false)
      case LostAfter => Answer(Lost(committed), false)
      case Done => Answer(committed.(tx := Idle), true)
  }

  function Rollback(s: Session, o: Outcome): Answer {
    if s.tx.Dead? then Answer(s, false)
    else match o
      case LostBefore | NotSent => Failed(s, o)
      case Rejected => Answer(s.(tx := Idle), false)
      case LostAfter => Answer(Lost(s), false)
      case Done => Answer(s.(tx := Idle), true)
  }
}
