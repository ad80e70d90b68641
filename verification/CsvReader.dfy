/** A strict reader of comma separated values: section 2 of RFC 4180, rules 2 and 4 to 7, with a
    line break that may be LF as well as CRLF. */
module CsvReader {
  import opened Options

  datatype Mode = Start | Bare | Quoted | Closed | AfterCR

  // Closed is after a quote inside a quoted field: the end of the field, or half of an escaped quote.
  datatype Parser =
    | Parser(mode: Mode, field: string, record: seq<string>, records: seq<seq<string>>)
    | Malformed

  const EMPTY := Parser(Start, "", [], [])

  function FieldDone(p: Parser): Parser
    requires p.Parser?
  {
    Parser(Start, "", p.record + [p.field], p.records)
  }

  function RecordDone(p: Parser): Parser
    requires p.Parser?
  {
    Parser(Start, "", [], p.records + [p.record + [p.field]])
  }

  function Separated(p: Parser, c: char): Parser
    requires p.Parser?
  {
    if c == ',' then FieldDone(p)
    else if c == '\n' then RecordDone(p)
    else if c == '\r' then Parser(AfterCR, "", p.record + [p.field], p.records)
    else Malformed
  }

  predicate IsSeparator(c: char) {
    c == ',' || c == '\n' || c == '\r'
  }

  function Step(p: Parser, c: char): Parser {
    if p.Malformed? then p
    else
      match p.mode
      case Start =>
        if c == '"' then p.(mode := Quoted)
        else if IsSeparator(c) then Separated(p, c)
        else p.(mode := Bare, field := p.field + [c])
      case Bare =>
        if c == '"' then Malformed
        else if IsSeparator(c) then Separated(p, c)
        else p.(field := p.field + [c])
      case Quoted =>
        if c == '"' then p.(mode := Closed) else p.(field := p.field + [c])
      case Closed =>
        if c == '"' then p.(mode := Quoted, field := p.field + [c]) else Separated(p, c)
      case AfterCR =>
        if c == '\n' then Parser(Start, "", [], p.records + [p.record]) else Malformed
  }

  function Feed(p: Parser, s: string): Parser {
    if s == "" then p else Step(Feed(p, s[..|s| - 1]), s[|s| - 1])
  }

  // The end of the file ends the last record, if that has begun.
  function Finish(p: Parser): Option<seq<seq<string>>> {
    if p.Malformed? || p.mode == Quoted || p.mode == AfterCR then None
    else if p.mode == Start && p.record == [] then Some(p.records)
    else Some(RecordDone(p).records)
  }

  function Parse(file: string): Option<seq<seq<string>>> {
    Finish(Feed(EMPTY, file))
  }

  // --- Reading piece by piece -------------------------------------------------------------------------

  lemma {:induction false} FeedConcat(p: Parser, a: string, b: string)
    ensures Feed(p, a + b) == Feed(Feed(p, a), b)
  {
    if b == "" {
      assert a + b == a;
    } else {
      var init := b[..|b| - 1];
      assert (a + b)[..|a + b| - 1] == a + init;
      FeedConcat(p, a, init);
    }
  }

  lemma {:induction false} FeedOne(p: Parser, c: char)
    ensures Feed(p, [c]) == Step(p, c)
  {
  }

  lemma {:induction false} FeedThen(p: Parser, s: string, c: char)
    ensures Feed(p, s + [c]) == Step(Feed(p, s), c)
  {
  }

  lemma {:induction false} FeedMalformed(s: string)
    ensures Feed(Malformed, s) == Malformed
  {
    if s != "" { FeedMalformed(s[..|s| - 1]); }
  }

  // Text that needs no quotes around it.
  predicate Plain(s: string) {
    forall i :: 0 <= i < |s| ==> s[i] != '"' && !IsSeparator(s[i])
  }

  predicate NoQuote(s: string) {
    forall i :: 0 <= i < |s| ==> s[i] != '"'
  }

  lemma {:induction false} PlainRun(p: Parser, s: string)
    requires p.Parser? && p.mode == Start && p.field == "" && Plain(s)
    ensures Feed(p, s) == if s == "" then p else p.(mode := Bare, field := s)
  {
    if s != "" {
      var init := s[..|s| - 1];
      assert forall i :: 0 <= i < |init| ==> init[i] == s[i];
      PlainRun(p, init);
      assert init + [s[|s| - 1]] == s;
    }
  }

  lemma {:induction false} QuotedRun(p: Parser, s: string)
    requires p.Parser? && p.mode == Quoted && NoQuote(s)
    ensures Feed(p, s) == p.(field := p.field + s)
  {
    if s == "" {
      assert p.field + s == p.field;
    } else {
      var init := s[..|s| - 1];
      assert forall i :: 0 <= i < |init| ==> init[i] == s[i];
      QuotedRun(p, init);
      assert (p.field + init) + [s[|s| - 1]] == p.field + s;
    }
  }

  // A plain field, up to its separator.
  lemma {:induction false} PlainField(p: Parser, s: string, c: char)
    requires p.Parser? && p.mode == Start && p.field == "" && Plain(s) && (c == ',' || c == '\n')
    ensures Feed(p, s + [c]) ==
            if c == ',' then p.(record := p.record + [s])
            else p.(record := [], records := p.records + [p.record + [s]])
  {
    PlainRun(p, s);
    FeedThen(p, s, c);
  }

  // --- What is read stays read ------------------------------------------------------------------------

  // The parser has reached field f of record r.
  predicate Reached(p: Parser, r: nat, f: nat) {
    && p.Parser?
    && |p.records| >= r
    && (|p.records| == r ==> |p.record| >= f && (p.mode == AfterCR ==> |p.record| > f))
    && (|p.records| > r ==> |p.records[r]| > f)
  }

  predicate Passed(p: Parser, r: nat, f: nat)
    requires Reached(p, r, f)
  {
    |p.records| > r || |p.record| > f
  }

  // As much of field f of record r as has been read.
  function SoFar(p: Parser, r: nat, f: nat): string
    requires Reached(p, r, f)
  {
    if |p.records| > r then p.records[r][f]
    else if |p.record| > f then p.record[f]
    else p.field
  }

  lemma {:induction false} SoFarGrows(p: Parser, s: string, r: nat, f: nat)
    requires Reached(p, r, f) && Feed(p, s).Parser?
    ensures Reached(Feed(p, s), r, f)
    ensures SoFar(p, r, f) <= SoFar(Feed(p, s), r, f)
    ensures Passed(p, r, f) ==> Passed(Feed(p, s), r, f) && SoFar(Feed(p, s), r, f) == SoFar(p, r, f)
  {
    if s != "" { SoFarGrows(p, s[..|s| - 1], r, f); }
  }

  // So the field in the result extends what has been read of it, and is that if it was passed.
  lemma {:induction false} ResultExtends(p: Parser, s: string, r: nat, f: nat)
    requires Reached(p, r, f) && f > 0
    requires Finish(Feed(p, s)).Some?
    ensures |Finish(Feed(p, s)).value| > r && |Finish(Feed(p, s)).value[r]| > f
    ensures SoFar(p, r, f) <= Finish(Feed(p, s)).value[r][f]
    ensures Passed(p, r, f) ==> Finish(Feed(p, s)).value[r][f] == SoFar(p, r, f)
  {
    SoFarGrows(p, s, r, f);
  }

  // --- Quotes inside a quoted field ---------------------------------------------------------------------

  function Quotes(n: nat): (s: string)
    ensures |s| == n && forall i :: 0 <= i < n ==> s[i] == '"'
  {
    seq(n, _ => '"')
  }

  // Quotes are read in pairs; an odd one closes the field.
  lemma {:induction false} QuotesRun(p: Parser, n: nat)
    requires p.Parser? && p.mode == Quoted
    ensures Feed(p, Quotes(n)) == p.(mode := if n % 2 == 0 then Quoted else Closed, field := p.field + Quotes(n / 2))
  {
    if n == 0 {
      assert p.field + Quotes(0) == p.field;
    } else {
      QuotesRun(p, n - 1);
      assert Quotes(n)[..n - 1] == Quotes(n - 1);
      if n % 2 == 0 {
        assert Quotes((n - 1) / 2) + "\"" == Quotes(n / 2);
        assert (p.field + Quotes((n - 1) / 2)) + "\"" == p.field + Quotes(n / 2);
      }
    }
  }

  // The first quotes of s: after a come exactly m of them, and then the rest.
  lemma {:induction false} FirstQuotes(s: string) returns (a: string, m: nat, z: string)
    requires !NoQuote(s)
    ensures s == a + Quotes(m) + z && NoQuote(a) && m > 0
    ensures z != "" ==> z[0] != '"'
  {
    var i := 0;
    while i < |s| && s[i] != '"'
      invariant i <= |s| && NoQuote(s[..i])
    {
      i := i + 1;
    }
    assert s[..|s|] == s;
    var j := i + 1;
    while j < |s| && s[j] == '"'
      invariant i < j <= |s| && s[i..j] == Quotes(j - i)
    {
      assert s[i..j + 1] == s[i..j] + "\"" == Quotes(j + 1 - i);
      j := j + 1;
    }
    a, m, z := s[..i], j - i, s[j..];
    assert s == s[..i] + s[i..j] + s[j..];
  }

  lemma {:induction false} QuoteAt(a: string, m: nat, z: string, k: nat)
    requires k < m
    ensures (a + Quotes(m) + z)[|a| + k] == '"'
  {
  }

  // Half of the quotes, with or without what follows them, are not what s begins with.
  lemma {:induction false} QuotesDiffer(s: string, a: string, m: nat, z: string)
    requires s + "\"," == a + Quotes(m) + z && m > 0 && z != "" && z[0] != '"'
    requires NoQuote(a) && !NoQuote(s)
    ensures m % 2 == 1 ==> s != a + Quotes(m / 2)
    ensures m % 2 == 0 ==> !(a + Quotes(m / 2) + [z[0]] <= s)
  {
    var whole := s + "\",";
    if m == 1 {
      assert a + Quotes(0) == a;
    } else if m % 2 == 1 {
      QuoteAt(a, m, z, m / 2 + 1);
      assert whole[|s| + 1] == ',';
    } else {
      QuoteAt(a, m, z, m / 2);
      var k := |a| + m / 2;
      assert (a + Quotes(m / 2) + [z[0]])[k] == z[0];
      assert k < |s| ==> whole[k] == s[k];
    }
  }

  // Reading text that starts with quoteless a, then m quotes, then z.
  lemma {:induction false} ReadQuotes(p: Parser, a: string, m: nat, c: char, rest: string)
    requires p.Parser? && p.mode == Quoted && p.field == "" && NoQuote(a)
    ensures Feed(p, a + (Quotes(m) + ([c] + rest))) ==
            Feed(Step(p.(mode := if m % 2 == 0 then Quoted else Closed, field := a + Quotes(m / 2)), c), rest)
  {
    FeedConcat(p, a, Quotes(m) + ([c] + rest));
    QuotedRun(p, a);
    assert p.field + a == a;
    FeedConcat(Feed(p, a), Quotes(m), [c] + rest);
    QuotesRun(Feed(p, a), m);
    var read := Feed(Feed(p, a), Quotes(m));
    FeedConcat(read, [c], rest);
    FeedOne(read, c);
  }

  // Written between quotes as it is, text that has a quote in it is never read back, whatever the
  // parser has read before and whatever comes after.
  lemma {:induction false} QuoteIsLost(p: Parser, s: string, rest: string)
    requires p.Parser? && p.mode == Quoted && p.field == "" && |p.record| > 0
    requires !NoQuote(s)
    requires Finish(Feed(p, s + "\"," + rest)).Some?
    ensures |Finish(Feed(p, s + "\"," + rest)).value| > |p.records|
    ensures |Finish(Feed(p, s + "\"," + rest)).value[|p.records|]| > |p.record|
    ensures Finish(Feed(p, s + "\"," + rest)).value[|p.records|][|p.record|] != s
  {
    assert (s + "\",")[|s|] == '"';
    var a, m, z := FirstQuotes(s + "\",");
    assert z != "" by {
      if z == "" { QuoteAt(a, m, z, m - 1); }
    }
    var tail := z[1..] + rest;
    assert s + "\"," + rest == a + (Quotes(m) + ([z[0]] + tail)) by {
      assert z == [z[0]] + z[1..];
    }
    ReadQuotes(p, a, m, z[0], tail);
    QuotesDiffer(s, a, m, z);
    Unread(p, a + Quotes(m / 2), m, z[0], tail, s);
  }

  // The field is passed with what it holds, or goes on with one more character.
  lemma {:induction false} Unread(p: Parser, held: string, m: nat, c: char, rest: string, s: string)
    requires p.Parser? && |p.record| > 0 && c != '"'
    requires m % 2 == 1 ==> s != held
    requires m % 2 == 0 ==> !(held + [c] <= s)
    requires Finish(Feed(Step(p.(mode := if m % 2 == 0 then Quoted else Closed, field := held), c), rest)).Some?
    ensures var result := Finish(Feed(Step(p.(mode := if m % 2 == 0 then Quoted else Closed, field := held), c), rest)).value;
            |result| > |p.records| && |result[|p.records|]| > |p.record| && result[|p.records|][|p.record|] != s
  {
    var after := Step(p.(mode := if m % 2 == 0 then Quoted else Closed, field := held), c);
    if after.Malformed? {
      FeedMalformed(rest);
    } else {
      ResultExtends(after, rest, |p.records|, |p.record|);
    }
  }
}
