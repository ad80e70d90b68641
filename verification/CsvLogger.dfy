/** A CSV file that samples are appended to: a header when the file is new, and a row for each
    label of each sample (CsvLogger.hpp). Header and format are those of the derived logger. */
module CsvLogger {

  datatype Row<L, M> = Row(time: string, tag: L, metric: M)

  type Format<!L, !M> = (L, M) -> string

  function HeaderLine(header: string): string {
    "Timestamp," + header + "\n"
  }

  function RowLine<L, M>(format: Format<L, M>, row: Row<L, M>): string {
    row.time + "," + format(row.tag, row.metric) + "\n"
  }

  function Lines<L, M>(format: Format<L, M>, rows: seq<Row<L, M>>): seq<string> {
    seq(|rows|, i requires 0 <= i < |rows| => RowLine(format, rows[i]))
  }

  // The first n lines in one text.
  function Joined(lines: seq<string>, n: nat): string
    requires n <= |lines|
  {
    if n == 0 then "" else Joined(lines, n - 1) + lines[n - 1]
  }

  function RowsText<L, M>(format: Format<L, M>, rows: seq<Row<L, M>>): string {
    Joined(Lines(format, rows), |rows|)
  }

  lemma {:induction false} Assoc(a: string, b: string, c: string)
    ensures a + b + c == a + (b + c)
  {
  }

  lemma {:induction false} JoinedPrefix(a: seq<string>, b: seq<string>, n: nat)
    requires n <= |a|
    ensures Joined(a + b, n) == Joined(a, n)
  {
    if n > 0 { JoinedPrefix(a, b, n - 1); }
  }

  lemma {:induction false} JoinedConcat(a: seq<string>, b: seq<string>, n: nat)
    requires n <= |b|
    ensures Joined(a + b, |a| + n) == Joined(a, |a|) + Joined(b, n)
  {
    if n == 0 {
      JoinedPrefix(a, b, |a|);
      assert Joined(a, |a|) + "" == Joined(a, |a|);
    } else {
      JoinedConcat(a, b, n - 1);
      Assoc(Joined(a, |a|), Joined(b, n - 1), b[n - 1]);
    }
  }

  lemma {:induction false} RowsTextConcat<L, M>(format: Format<L, M>, a: seq<Row<L, M>>, b: seq<Row<L, M>>)
    ensures RowsText(format, a + b) == RowsText(format, a) + RowsText(format, b)
  {
    assert Lines(format, a + b) == Lines(format, a) + Lines(format, b);
    JoinedConcat(Lines(format, a), Lines(format, b), |b|);
  }

  lemma {:induction false} RowsTextThen<L, M>(format: Format<L, M>, rows: seq<Row<L, M>>, row: Row<L, M>)
    ensures RowsText(format, rows + [row]) == RowsText(format, rows) + RowLine(format, row)
  {
    assert Lines(format, rows + [row]) == Lines(format, rows) + [RowLine(format, row)];
    JoinedPrefix(Lines(format, rows), [RowLine(format, row)], |rows|);
  }

  // A row streamed out after others.
  lemma {:induction false} RowAppended<L, M>(format: Format<L, M>, start: string, rows: seq<Row<L, M>>,
                                             row: Row<L, M>)
    ensures start + RowsText(format, rows) + row.time + "," + format(row.tag, row.metric) + "\n" ==
            start + RowsText(format, rows + [row])
  {
    RowsTextThen(format, rows, row);
    Regrouped(start, RowsText(format, rows), row.time, format(row.tag, row.metric));
  }

  lemma {:induction false} Regrouped(start: string, rows: string, time: string, text: string)
    ensures start + rows + time + "," + text + "\n" == start + (rows + (time + "," + text + "\n"))
  {
  }

  // Rows written after others.
  lemma {:induction false} RowsAppended<L, M>(format: Format<L, M>, start: string, a: seq<Row<L, M>>,
                                              b: seq<Row<L, M>>)
    ensures start + RowsText(format, a) + RowsText(format, b) == start + RowsText(format, a + b)
  {
    RowsTextConcat(format, a, b);
    Assoc(start, RowsText(format, a), RowsText(format, b));
  }

  // One sample: a metric for each label.
  datatype Batch<L, M> = Batch(time: string, labels: seq<L>, metrics: seq<M>)

  // The rows of the first n labels of a sample.
  function RowsOf<L, M>(b: Batch<L, M>, n: nat): (rows: seq<Row<L, M>>)
    requires n <= |b.labels| && n <= |b.metrics|
    ensures |rows| == n && forall i :: 0 <= i < n ==> rows[i] == Row(b.time, b.labels[i], b.metrics[i])
  {
    if n == 0 then [] else RowsOf(b, n - 1) + [Row(b.time, b.labels[n - 1], b.metrics[n - 1])]
  }

  // The logger with its open file: everything that is in the file.
  class CsvLogger<L, M> {
    const header: string
    const format: Format<L, M>
    var file: string

    // Opened for appending.
    constructor (header: string, format: Format<L, M>, existing: string)
      ensures file == existing && this.header == header && this.format == format
    {
      this.header := header;
      this.format := format;
      file := existing;
    }

    method Init()
      modifies this
      ensures file == if old(file) == "" then HeaderLine(header) else old(file)
    {
      if |file| == 0 {
        file := file + "Timestamp," + header + "\n";
      }
    }

    method Write(timestamp: string, labels: seq<L>, metrics: seq<M>)
      requires |labels| <= |metrics|
      modifies this
      ensures file == old(file) + RowsText(format, RowsOf(Batch(timestamp, labels, metrics), |labels|))
    {
      ghost var b := Batch(timestamp, labels, metrics);
      for i := 0 to |labels|
        invariant file == old(file) + RowsText(format, RowsOf(b, i))
      {
        RowAppended(format, old(file), RowsOf(b, i), Row(timestamp, labels[i], metrics[i]));
        file := file + timestamp + ",";
        file := file + format(labels[i], metrics[i]) + "\n";
      }
    }
  }

  // --- Whole histories of a file ---------------------------------------------------------------------

  // One run of the program: it opens the file, calls Init, and then writes its samples.
  type Session<L, M> = seq<Batch<L, M>>

  predicate OnePerLabel<L, M>(s: Session<L, M>) {
    forall i :: 0 <= i < |s| ==> |s[i].labels| == |s[i].metrics|
  }

  predicate AllOnePerLabel<L, M>(sessions: seq<Session<L, M>>) {
    forall i :: 0 <= i < |sessions| ==> OnePerLabel(sessions[i])
  }

  // The rows of the first n samples of a session, and of the first n sessions.
  function SessionRows<L, M>(s: Session<L, M>, n: nat): seq<Row<L, M>>
    requires OnePerLabel(s) && n <= |s|
  {
    if n == 0 then [] else SessionRows(s, n - 1) + RowsOf(s[n - 1], |s[n - 1].labels|)
  }

  function AllRows<L, M>(sessions: seq<Session<L, M>>, n: nat): seq<Row<L, M>>
    requires AllOnePerLabel(sessions) && n <= |sessions|
  {
    if n == 0 then [] else AllRows(sessions, n - 1) + SessionRows(sessions[n - 1], |sessions[n - 1]|)
  }

  function FileAfter<L, M>(header: string, format: Format<L, M>, sessions: seq<Session<L, M>>, n: nat): string
    requires AllOnePerLabel(sessions) && n <= |sessions|
  {
    if n == 0 then "" else HeaderLine(header) + RowsText(format, AllRows(sessions, n))
  }

  // A file of which `existing` was there before a session.
  function AfterSession<L, M>(header: string, format: Format<L, M>, existing: string, s: Session<L, M>): string
    requires OnePerLabel(s)
  {
    (if existing == "" then HeaderLine(header) else existing) + RowsText(format, SessionRows(s, |s|))
  }

  method RunSession<L, M>(header: string, format: Format<L, M>, existing: string, s: Session<L, M>)
    returns (file: string)
    requires OnePerLabel(s)
    ensures file == AfterSession(header, format, existing, s)
  {
    var logger := new CsvLogger<L, M>(header, format, existing);
    logger.Init();
    ghost var start := logger.file;
    for i := 0 to |s|
      invariant logger.format == format && logger.file == start + RowsText(format, SessionRows(s, i))
    {
      RowsAppended(format, start, SessionRows(s, i), RowsOf(s[i], |s[i].labels|));
      logger.Write(s[i].time, s[i].labels, s[i].metrics);
    }
    file := logger.file;
  }

  lemma {:induction false} SessionAppended<L, M>(header: string, format: Format<L, M>, sessions: seq<Session<L, M>>,
                                                 k: nat)
    requires AllOnePerLabel(sessions) && k < |sessions|
    ensures AfterSession(header, format, FileAfter(header, format, sessions, k), sessions[k])
         == FileAfter(header, format, sessions, k + 1)
  {
    RowsAppended(format, HeaderLine(header), AllRows(sessions, k), SessionRows(sessions[k], |sessions[k]|));
    if k == 0 {
      assert HeaderLine(header) + RowsText(format, AllRows(sessions, 0)) == HeaderLine(header);
    } else {
      assert |FileAfter(header, format, sessions, k)| > 0;
    }
  }

  // Sessions one after another on a file that did not exist: the file holds one header, and then
  // the rows of all of them.
  method RunSessions<L, M>(header: string, format: Format<L, M>, sessions: seq<Session<L, M>>)
    returns (file: string)
    requires AllOnePerLabel(sessions)
    ensures file == FileAfter(header, format, sessions, |sessions|)
  {
    file := "";
    for k := 0 to |sessions|
      invariant file == FileAfter(header, format, sessions, k)
    {
      SessionAppended(header, format, sessions, k);
      file := RunSession(header, format, file, sessions[k]);
    }
  }
}
