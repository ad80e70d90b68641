/** The CSV file of the CPU collector (CPUCsvLogger.cpp), and reading it back. Numbers are modelled
    by the text they are printed as. */
module CPUCsvLogger {
  import opened Options
  import opened Decimal
  import opened CsvReader
  import opened CsvLogger

  datatype CPULabel = CPULabel(index: nat, name: string)

  datatype CPUMetrics = CPUMetrics(
    cpuUtilization: string, cpuFrequency: string, temperature: string, powerUsage: string,
    c0Residency: string, c6Residency: string,
    memoryReadBandwidth: string, memoryWriteBandwidth: string, memoryPowerUsage: string)

  type CPURow = Row<CPULabel, CPUMetrics>

  // Each of the first n fields, followed by a comma.
  function FirstCommas(fields: seq<string>, n: nat): string
    requires n <= |fields|
  {
    if n == 0 then "" else FirstCommas(fields, n - 1) + (fields[n - 1] + ",")
  }

  function Commas(fields: seq<string>): string {
    FirstCommas(fields, |fields|)
  }

  function GetHeader(): string {
    Commas(["Index", "Name", "Util(%)", "Freq(MHz)", "Temp(C)", "Power(W)",
            "C0(%)", "C6(%)", "MemRead(MB/s)", "MemWrite(MB/s)"]) + "MemPower(W)"
  }

  function FormatRow(l: CPULabel, m: CPUMetrics): string {
    ToString(l.index) + ",\"" + l.name + "\","
    + Commas([m.cpuUtilization, m.cpuFrequency, m.temperature, m.powerUsage,
              m.c0Residency, m.c6Residency, m.memoryReadBandwidth, m.memoryWriteBandwidth])
    + m.memoryPowerUsage
  }

  // --- What a reader should find -----------------------------------------------------------------------

  datatype Column =
    | Timestamp | Index | Name | Util | Freq | Temp | Power | C0 | C6 | MemRead | MemWrite | MemPower

  const COLUMNS := [Timestamp, Index, Name, Util, Freq, Temp, Power, C0, C6, MemRead, MemWrite, MemPower]

  function Heading(c: Column): string {
    match c
    case Timestamp => "Timestamp"
    case Index => "Index"
    case Name => "Name"
    case Util => "Util(%)"
    case Freq => "Freq(MHz)"
    case Temp => "Temp(C)"
    case Power => "Power(W)"
    case C0 => "C0(%)"
    case C6 => "C6(%)"
    case MemRead => "MemRead(MB/s)"
    case MemWrite => "MemWrite(MB/s)"
    case MemPower => "MemPower(W)"
  }

  // What a row holds for a column.
  function Under(row: CPURow, c: Column): string {
    match c
    case Timestamp => row.time
    case Index => ToString(row.tag.index)
    case Name => row.tag.name
    case Util => row.metric.cpuUtilization
    case Freq => row.metric.cpuFrequency
    case Temp => row.metric.temperature
    case Power => row.metric.powerUsage
    case C0 => row.metric.c0Residency
    case C6 => row.metric.c6Residency
    case MemRead => row.metric.memoryReadBandwidth
    case MemWrite => row.metric.memoryWriteBandwidth
    case MemPower => row.metric.memoryPowerUsage
  }

  function Headings(): seq<string> {
    seq(|COLUMNS|, i requires 0 <= i < |COLUMNS| => Heading(COLUMNS[i]))
  }

  function RecordOf(row: CPURow): seq<string> {
    seq(|COLUMNS|, i requires 0 <= i < |COLUMNS| => Under(row, COLUMNS[i]))
  }

  // The header, then every row in order.
  function Table(rows: seq<CPURow>): seq<seq<string>> {
    [Headings()] + seq(|rows|, i requires 0 <= i < |rows| => RecordOf(rows[i]))
  }

  // Everything but the name needs no quotes: times and printed numbers have no commas, quotes or
  // line breaks.
  predicate PlainRow(row: CPURow) {
    && Plain(row.time)
    && AllPlain(Values(row.metric)) && Plain(row.metric.memoryPowerUsage)
  }

  predicate PlainRows(rows: seq<CPURow>) {
    forall i :: 0 <= i < |rows| ==> PlainRow(rows[i])
  }

  predicate NoQuoteInNames(rows: seq<CPURow>) {
    forall i :: 0 <= i < |rows| ==> NoQuote(rows[i].tag.name)
  }

  // The values after the name, but for the last.
  function Values(m: CPUMetrics): seq<string> {
    [m.cpuUtilization, m.cpuFrequency, m.temperature, m.powerUsage,
     m.c0Residency, m.c6Residency, m.memoryReadBandwidth, m.memoryWriteBandwidth]
  }

  // --- Reading lines ---------------------------------------------------------------------------------------

  predicate AllPlain(fields: seq<string>) {
    forall i :: 0 <= i < |fields| ==> Plain(fields[i])
  }

  lemma {:induction false} FieldThen(p: Parser, text: string, record: seq<string>, records: seq<seq<string>>,
                                     field: string)
    requires Feed(p, text) == Parser(Start, "", record, records) && Plain(field)
    ensures Feed(p, text + (field + ",")) == Parser(Start, "", record + [field], records)
  {
    FeedConcat(p, text, field + ",");
    PlainField(Parser(Start, "", record, records), field, ',');
  }

  lemma {:induction false} CommasRead(p: Parser, fields: seq<string>, n: nat)
    requires p.Parser? && p.mode == Start && p.field == "" && AllPlain(fields) && n <= |fields|
    ensures Feed(p, FirstCommas(fields, n)) == Parser(Start, "", p.record + fields[..n], p.records)
  {
    if n == 0 {
      assert p.record + fields[..0] == p.record;
    } else {
      CommasRead(p, fields, n - 1);
      FieldThen(p, FirstCommas(fields, n - 1), p.record + fields[..n - 1], p.records, fields[n - 1]);
      assert p.record + fields[..n - 1] + [fields[n - 1]] == p.record + fields[..n];
    }
  }

  // Fields up to the end of a line.
  lemma {:induction false} LineEndRead(p: Parser, fields: seq<string>, last: string)
    requires p.Parser? && p.mode == Start && p.field == "" && AllPlain(fields) && Plain(last)
    ensures Feed(p, Commas(fields) + (last + "\n")) ==
            Parser(Start, "", [], p.records + [p.record + fields + [last]])
  {
    CommasRead(p, fields, |fields|);
    assert fields[..|fields|] == fields;
    FeedConcat(p, Commas(fields), last + "\n");
    PlainField(p.(record := p.record + fields), last, '\n');
  }

  // A line of one plain field, plain fields, and a last one.
  lemma {:induction false} PlainLineRead(first: string, fields: seq<string>, last: string)
    requires Plain(first) && AllPlain(fields) && Plain(last)
    ensures Feed(EMPTY, first + "," + (Commas(fields) + last) + "\n") == Parser(Start, "", [], [[first] + fields + [last]])
  {
    PlainField(EMPTY, first, ',');
    assert EMPTY.record + [first] == [first];
    FeedConcat(EMPTY, first + ",", Commas(fields) + (last + "\n"));
    LineEndRead(Parser(Start, "", [first], []), fields, last);
    assert first + "," + (Commas(fields) + last) + "\n" == first + "," + (Commas(fields) + (last + "\n"));
  }

  // The names in the header are those of the columns, and need no quotes.
  lemma {:induction false} HeadingsListed(fields: seq<string>)
    requires fields == ["Index", "Name", "Util(%)", "Freq(MHz)", "Temp(C)", "Power(W)",
                        "C0(%)", "C6(%)", "MemRead(MB/s)", "MemWrite(MB/s)"]
    ensures ["Timestamp"] + fields + ["MemPower(W)"] == Headings()
  {
  }

  lemma {:induction false} HeadingIsPlain(c: Column)
    ensures Plain(Heading(c))
  {
  }

  lemma {:induction false} HeaderReads()
    ensures Feed(EMPTY, HeaderLine(GetHeader())) == Parser(Start, "", [], [Headings()])
  {
    var fields := ["Index", "Name", "Util(%)", "Freq(MHz)", "Temp(C)", "Power(W)",
                   "C0(%)", "C6(%)", "MemRead(MB/s)", "MemWrite(MB/s)"];
    HeadingsListed(fields);
    forall i | 0 <= i < |fields| ensures Plain(fields[i]) {
      assert fields[i] == (["Timestamp"] + fields + ["MemPower(W)"])[i + 1] == Heading(COLUMNS[i + 1]);
      HeadingIsPlain(COLUMNS[i + 1]);
    }
    HeadingIsPlain(Timestamp);
    HeadingIsPlain(MemPower);
    HeaderLineReads(fields);
  }

  lemma {:induction false} HeaderLineReads(fields: seq<string>)
    requires AllPlain(fields) && Plain("Timestamp") && Plain("MemPower(W)")
    ensures Feed(EMPTY, HeaderLine(Commas(fields) + "MemPower(W)")) ==
            Parser(Start, "", [], [["Timestamp"] + fields + ["MemPower(W)"]])
  {
    PlainLineRead("Timestamp", fields, "MemPower(W)");
    assert "Timestamp," == "Timestamp" + ",";
  }

  lemma {:induction false} ToStringIsPlain(n: nat)
    ensures Plain(ToString(n))
  {
    DigitsRoundTrip(n);
    forall i | 0 <= i < |Digits(n)| ensures IsDigit(Digits(n)[i]) {}
  }

  // The parser behind the quote that opens the name of a row.
  function AtName(records: seq<seq<string>>, row: CPURow): Parser {
    Parser(Quoted, "", [row.time, ToString(row.tag.index)], records)
  }

  lemma {:induction false} RowBegins(records: seq<seq<string>>, row: CPURow)
    requires PlainRow(row)
    ensures Feed(Parser(Start, "", [], records), row.time + "," + (ToString(row.tag.index) + ",") + "\"") == AtName(records, row)
  {
    var p := Parser(Start, "", [], records);
    var index := ToString(row.tag.index);
    ToStringIsPlain(row.tag.index);
    PlainField(p, row.time, ',');
    assert p.record + [row.time] == [row.time] && [row.time] + [index] == [row.time, index];
    FeedConcat(p, row.time + ",", index + ",");
    PlainField(p.(record := [row.time]), index, ',');
    FeedThen(p, row.time + "," + (index + ","), '"');
  }

  // What follows the name's closing quote and its comma.
  function RowEnd(row: CPURow): string {
    Commas(Values(row.metric)) + (row.metric.memoryPowerUsage + "\n")
  }

  lemma {:induction false} RowParts(row: CPURow)
    ensures RowLine(FormatRow, row) ==
            (row.time + "," + (ToString(row.tag.index) + ",") + "\"") + (row.tag.name + "\"," + RowEnd(row))
  {
  }

  lemma {:induction false} NameEnds(p: Parser, name: string)
    requires p.Parser? && p.mode == Quoted && p.field == "" && NoQuote(name)
    ensures Feed(p, name + "\",") == Parser(Start, "", p.record + [name], p.records)
  {
    QuotedRun(p, name);
    assert "" + name == name;
    FeedThen(p, name, '"');
    FeedThen(p, name + "\"", ',');
    assert (name + "\"") + [','] == name + "\",";
  }

  lemma {:induction false} RecordParts(row: CPURow)
    ensures [row.time, ToString(row.tag.index)] + [row.tag.name] + Values(row.metric) + [row.metric.memoryPowerUsage]
            == RecordOf(row)
  {
  }

  // Behind a name without a quote comes the rest of the row.
  lemma {:induction false} RowEnds(records: seq<seq<string>>, row: CPURow)
    requires PlainRow(row) && NoQuote(row.tag.name)
    ensures Feed(AtName(records, row), row.tag.name + "\"," + RowEnd(row)) ==
            Parser(Start, "", [], records + [RecordOf(row)])
  {
    var p, name := AtName(records, row), row.tag.name;
    NameEnds(p, name);
    FeedConcat(p, name + "\",", RowEnd(row));
    var q := Parser(Start, "", p.record + [name], p.records);
    LineEndRead(q, Values(row.metric), row.metric.memoryPowerUsage);
    RecordParts(row);
  }

  lemma {:induction false} RowReads(records: seq<seq<string>>, row: CPURow)
    requires PlainRow(row) && NoQuote(row.tag.name)
    ensures Feed(Parser(Start, "", [], records), RowLine(FormatRow, row)) == Parser(Start, "", [], records + [RecordOf(row)])
  {
    RowParts(row);
    RowBegins(records, row);
    RowEnds(records, row);
    FeedConcat(Parser(Start, "", [], records), row.time + "," + (ToString(row.tag.index) + ",") + "\"",
               row.tag.name + "\"," + RowEnd(row));
  }

  // --- Reading files -----------------------------------------------------------------------------------------

  lemma {:induction false} OneMoreRowReads(file: string, rows: seq<CPURow>, row: CPURow)
    requires PlainRow(row) && NoQuote(row.tag.name)
    requires Feed(EMPTY, file) == Parser(Start, "", [], Table(rows))
    ensures Feed(EMPTY, file + RowLine(FormatRow, row)) == Parser(Start, "", [], Table(rows + [row]))
  {
    FeedConcat(EMPTY, file, RowLine(FormatRow, row));
    RowReads(Table(rows), row);
    assert Table(rows) + [RecordOf(row)] == Table(rows + [row]);
  }

  lemma {:induction false} RowsRead(rows: seq<CPURow>)
    requires PlainRows(rows) && NoQuoteInNames(rows)
    ensures Feed(EMPTY, HeaderLine(GetHeader()) + RowsText(FormatRow, rows)) == Parser(Start, "", [], Table(rows))
  {
    var header := HeaderLine(GetHeader());
    if rows == [] {
      HeaderReads();
      assert header + "" == header;
      assert Table(rows) == [Headings()];
    } else {
      var init, last := rows[..|rows| - 1], rows[|rows| - 1];
      assert PlainRow(last) && rows == init + [last];
      RowsRead(init);
      RowsTextThen(FormatRow, init, last);
      Assoc(header, RowsText(FormatRow, init), RowLine(FormatRow, last));
      OneMoreRowReads(header + RowsText(FormatRow, init), init, last);
    }
  }

  // What comes before a row's name.
  function RowBegin(row: CPURow): string {
    row.time + "," + (ToString(row.tag.index) + ",") + "\""
  }

  lemma {:induction false} RowThenRest(row: CPURow, rest: string)
    ensures RowLine(FormatRow, row) + rest == RowBegin(row) + (row.tag.name + "\"," + (RowEnd(row) + rest))
  {
    RowParts(row);
    SplitText(RowBegin(row), row.tag.name + "\",", RowEnd(row), rest);
  }

  lemma {:induction false} SplitText(a: string, b: string, c: string, d: string)
    ensures (a + (b + c)) + d == a + (b + (c + d))
  {
  }

  // A row with a quote in its name does not come back, whatever follows.
  lemma {:induction false} QuotedNameIsLost(records: seq<seq<string>>, row: CPURow, rest: string)
    requires PlainRow(row) && !NoQuote(row.tag.name)
    requires Finish(Feed(Parser(Start, "", [], records), RowLine(FormatRow, row) + rest)).Some?
    ensures var result := Finish(Feed(Parser(Start, "", [], records), RowLine(FormatRow, row) + rest)).value;
            |result| > |records| && |result[|records|]| > 2 && result[|records|][2] != row.tag.name
  {
    RowBegins(records, row);
    RowThenRest(row, rest);
    FeedConcat(Parser(Start, "", [], records), RowBegin(row), row.tag.name + "\"," + (RowEnd(row) + rest));
    QuoteIsLost(AtName(records, row), row.tag.name, RowEnd(row) + rest);
  }

  // The text of the rows from i on.
  lemma {:induction false} SplitAt(rows: seq<CPURow>, i: nat) returns (rest: string)
    requires i < |rows|
    ensures RowsText(FormatRow, rows) == RowsText(FormatRow, rows[..i]) + (RowLine(FormatRow, rows[i]) + rest)
  {
    rest := RowsText(FormatRow, rows[i + 1..]);
    assert rows == (rows[..i] + [rows[i]]) + rows[i + 1..];
    RowsTextConcat(FormatRow, rows[..i] + [rows[i]], rows[i + 1..]);
    RowsTextThen(FormatRow, rows[..i], rows[i]);
    Assoc(RowsText(FormatRow, rows[..i]), RowLine(FormatRow, rows[i]), rest);
  }

  lemma {:induction false} TableRow(rows: seq<CPURow>, i: nat)
    requires i < |rows|
    ensures |Table(rows[..i])| == i + 1
    ensures |Table(rows)| > i + 1 && |Table(rows)[i + 1]| == |COLUMNS| && Table(rows)[i + 1][2] == rows[i].tag.name
  {
  }

  // If a name has a quote in it, the file is not read back.
  lemma {:induction false} QuoteIsNotReadBack(rows: seq<CPURow>, i: nat)
    requires PlainRows(rows) && i < |rows| && !NoQuote(rows[i].tag.name) && NoQuoteInNames(rows[..i])
    ensures Parse(HeaderLine(GetHeader()) + RowsText(FormatRow, rows)) != Some(Table(rows))
  {
    var header, file := HeaderLine(GetHeader()), HeaderLine(GetHeader()) + RowsText(FormatRow, rows);
    var before, line := RowsText(FormatRow, rows[..i]), RowLine(FormatRow, rows[i]);
    var rest := SplitAt(rows, i);
    assert PlainRow(rows[i]) && PlainRows(rows[..i]);
    RowsRead(rows[..i]);
    Assoc(header, before, line + rest);
    FeedConcat(EMPTY, header + before, line + rest);
    TableRow(rows, i);
    if Parse(file).Some? {
      QuotedNameIsLost(Table(rows[..i]), rows[i], rest);
    }
  }

  // A file is read back as one header and then every row with its value under each heading, exactly
  // if no name has a quote in it.
  lemma {:induction false} ReadsBackIffNoQuotes(rows: seq<CPURow>)
    requires PlainRows(rows)
    ensures Parse(HeaderLine(GetHeader()) + RowsText(FormatRow, rows)) == Some(Table(rows)) <==> NoQuoteInNames(rows)
  {
    if NoQuoteInNames(rows) {
      RowsRead(rows);
    } else {
      var i := FirstQuotedName(rows);
      QuoteIsNotReadBack(rows, i);
    }
  }

  lemma {:induction false} FirstQuotedName(rows: seq<CPURow>) returns (i: nat)
    requires !NoQuoteInNames(rows)
    ensures i < |rows| && !NoQuote(rows[i].tag.name) && NoQuoteInNames(rows[..i])
  {
    i := 0;
    while NoQuote(rows[i].tag.name)
      invariant i < |rows| && forall j :: 0 <= j < i ==> NoQuote(rows[j].tag.name)
      decreases |rows| - i
    {
      i := i + 1;
    }
  }

  // Every record has as many fields as the header, and gives back the row's index and name.
  lemma {:induction false} OriginalsComeBack(rows: seq<CPURow>, i: nat)
    requires i < |rows|
    ensures |Table(rows)| == |rows| + 1 && |Table(rows)[i + 1]| == |Table(rows)[0]| == 12
    ensures ParseInt(Table(rows)[i + 1][1]) == Some(rows[i].tag.index)
    ensures Table(rows)[i + 1][2] == rows[i].tag.name
  {
    PrintParse(rows[i].tag.index);
    assert Table(rows)[i + 1] == RecordOf(rows[i]);
  }

  // Any sequence of runs of the program on a new file.
  lemma {:induction false} FilesReadBackIffNoQuotes(sessions: seq<Session<CPULabel, CPUMetrics>>, n: nat)
    requires AllOnePerLabel(sessions) && 0 < n <= |sessions| && PlainRows(AllRows(sessions, n))
    ensures Parse(FileAfter(GetHeader(), FormatRow, sessions, n)) == Some(Table(AllRows(sessions, n)))
            <==> NoQuoteInNames(AllRows(sessions, n))
  {
    ReadsBackIffNoQuotes(AllRows(sessions, n));
  }
}
