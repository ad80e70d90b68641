/** The two readings of a power sensor's output: by the probe that selects a command, and by the
    fetch that later runs it (SYSImpl.cpp). */
module PowerParsing {
  import opened Options
  import opened Decimal
  import opened NumberScanner
  import opened Numerals

  // --- Probe and fetch -----------------------------------------------------------------------------

  const BUFFER := 256

  // What fgets takes from the front of the output: a line with its line break, or as much of it as
  // fits the buffer beside a zero byte.
  function Chunk(s: string): (r: string)
    ensures r <= s && |r| < BUFFER
    ensures s != "" ==> r != ""
    ensures forall i :: 0 <= i < |r| - 1 ==> r[i] != '\n'
    ensures r == s || |r| == BUFFER - 1 || (r != "" && r[|r| - 1] == '\n')
  {
    s[..LineEnd(s, 0)]
  }

  function LineEnd(s: string, i: nat): (e: nat)
    requires i <= |s| && i < BUFFER
    ensures i <= e <= |s| && e < BUFFER
    ensures i < |s| && i < BUFFER - 1 ==> e > i
    ensures forall k :: i <= k < e - 1 ==> s[k] != '\n'
    ensures e == |s| || e == BUFFER - 1 || (e > i && s[e - 1] == '\n')
    decreases |s| - i
  {
    if i == |s| || i == BUFFER - 1 then i
    else if s[i] == '\n' then i + 1
    else LineEnd(s, i + 1)
  }

  function Find(s: string, c: char, from: nat): (r: Option<nat>)
    requires from <= |s|
    ensures r.Some? ==> from <= r.value < |s| && s[r.value] == c
    ensures forall k :: from <= k < (if r.Some? then r.value else |s|) ==> s[k] != c
    decreases |s| - from
  {
    if from == |s| then None else if s[from] == c then Some(from) else Find(s, c, from + 1)
  }

  predicate IsBreak(c: char) {
    c == '\n' || c == '\r'
  }

  // The first n characters but for line breaks.
  function Kept(s: string, n: nat): string
    requires n <= |s|
  {
    if n == 0 then "" else if IsBreak(s[n - 1]) then Kept(s, n - 1) else Kept(s, n - 1) + [s[n - 1]]
  }

  function WithoutBreaks(s: string): string {
    Kept(s, |s|)
  }

  // The number for which the probe selects a command.
  function Probe(output: string): Option<Number> {
    var line := Chunk(output);
    var comma := Find(line, ',', 0);
    if comma.None? then None
    else
      var value := WithoutBreaks(line[comma.value + 1..]);
      if value == "na" || value == "" then None
      else
        var scan := Strtod(value);
        if scan.NoNumber? || scan.end != |value| then None else Some(scan.number)
  }

  predicate IsTrimmed(c: char) {
    c == ' ' || c == '\t' || IsBreak(c)
  }

  function TrimFront(s: string): (k: nat)
    ensures k <= |s| && forall i :: 0 <= i < k ==> IsTrimmed(s[i])
    ensures k < |s| ==> !IsTrimmed(s[k])
  {
    if s == "" || !IsTrimmed(s[0]) then 0 else 1 + TrimFront(s[1..])
  }

  function TrimBack(s: string): (k: nat)
    ensures k <= |s| && forall i :: k <= i < |s| ==> IsTrimmed(s[i])
    ensures k > 0 ==> !IsTrimmed(s[k - 1])
  {
    if s == "" || !IsTrimmed(s[|s| - 1]) then |s| else TrimBack(s[..|s| - 1])
  }

  function Trim(s: string): string {
    var front := s[TrimFront(s)..];
    front[..TrimBack(front)]
  }

  // What fetching returns when it fails.
  const FAILED := Finite(-1.0)

  // The text between the first comma and the next, or the end.
  function SecondField(result: string, comma: nat): string
    requires comma < |result|
  {
    var second := Find(result, ',', comma + 1);
    if second.Some? then result[comma + 1..second.value] else result[comma + 1..]
  }

  // The number that the fetch returns. Which numbers a double cannot hold is left open; for these
  // std::stod throws, as it does where there is no number.
  function Fetch(output: string, outOfRange: Number -> bool): Number {
    var comma := Find(output, ',', 0);
    if comma.None? then FAILED
    else
      var text := Trim(SecondField(output, comma.value));
      if text == "" then FAILED
      else
        var scan := Strtod(text);
        if scan.NoNumber? || outOfRange(scan.number) then FAILED else scan.number
  }

  lemma {:induction false} Regrouped(a: string, b: string, c: string)
    ensures (a + b) + c == a + (b + c)
  {
  }

  // The output of the command, put together from its chunks.
  method ReadOutput(output: string) returns (result: string)
    ensures result == output
  {
    result := "";
    var unread := output;
    while unread != ""
      invariant result + unread == output
      decreases |unread|
    {
      var buffer := Chunk(unread);
      assert unread == buffer + unread[|buffer|..];
      Regrouped(result, buffer, unread[|buffer|..]);
      result := result + buffer;
      unread := unread[|buffer|..];
    }
  }

  method FetchPowerFromHardware(output: string, outOfRange: Number -> bool) returns (watts: Number)
    ensures watts == Fetch(output, outOfRange)
  {
    var result := ReadOutput(output);
    var firstComma := Find(result, ',', 0);
    if firstComma.None? { return FAILED; }
    var numStr := SecondField(result, firstComma.value);
    numStr := numStr[TrimFront(numStr)..];
    numStr := numStr[..TrimBack(numStr)];
    if numStr == "" { return FAILED; }
    var scan := Strtod(numStr);
    if scan.NoNumber? || outOfRange(scan.number) { return FAILED; }
    return scan.number;
  }

  // --- They agree ------------------------------------------------------------------------------------

  // The first line, with its line break, is not cut off by the buffer.
  predicate FirstLineFits(output: string) {
    var line := Chunk(output);
    line == output || (line != "" && line[|line| - 1] == '\n')
  }

  function BreakFrom(s: string, i: nat): (e: nat)
    requires i <= |s|
    ensures i <= e <= |s|
    ensures forall k :: i <= k < e ==> !IsBreak(s[k])
    ensures e < |s| ==> IsBreak(s[e])
    decreases |s| - i
  {
    if i == |s| || IsBreak(s[i]) then i else BreakFrom(s, i + 1)
  }

  // A field is spaces and line breaks, then its head, which is what comes before the next line
  // break, and then its tail.
  function Front(v: string): string {
    v[..SpaceEnd(v, 0)]
  }

  function Head(v: string): string {
    v[SpaceEnd(v, 0)..BreakFrom(v, SpaceEnd(v, 0))]
  }

  function Tail(v: string): string {
    v[BreakFrom(v, SpaceEnd(v, 0))..]
  }

  predicate AllBreaks(s: string) {
    forall i :: 0 <= i < |s| ==> IsBreak(s[i])
  }

  predicate NoBreak(s: string) {
    forall i :: 0 <= i < |s| ==> !IsBreak(s[i])
  }

  // Carriage returns come before the number or after it, if anywhere.
  predicate Unbroken(v: string) {
    AllBreaks(Tail(v))
  }

  // What the first line has behind its first comma.
  function FirstField(output: string): string {
    var line := Chunk(output);
    var comma := Find(line, ',', 0);
    if comma.None? then "" else line[comma.value + 1..]
  }

  lemma {:induction false} NothingRemoved(s: string, n: nat)
    requires n <= |s| && forall i :: 0 <= i < n ==> !IsBreak(s[i])
    ensures Kept(s, n) == s[..n]
  {
    if n > 0 {
      NothingRemoved(s, n - 1);
      assert s[..n] == s[..n - 1] + [s[n - 1]];
    }
  }

  lemma {:induction false} BreaksRemoved(s: string, n: nat)
    requires n <= |s| && forall i :: 0 <= i < n ==> IsBreak(s[i])
    ensures Kept(s, n) == ""
  {
    if n > 0 { BreaksRemoved(s, n - 1); }
  }

  lemma {:induction false} KeptPrefix(a: string, b: string, n: nat)
    requires n <= |a|
    ensures Kept(a + b, n) == Kept(a, n)
  {
    if n > 0 { KeptPrefix(a, b, n - 1); }
  }

  lemma {:induction false} KeptConcat(a: string, b: string, n: nat)
    requires n <= |b|
    ensures Kept(a + b, |a| + n) == WithoutBreaks(a) + Kept(b, n)
  {
    if n == 0 { KeptPrefix(a, b, |a|); } else { KeptConcat(a, b, n - 1); }
  }

  // Every character but a line break is kept, and nothing else comes in.
  lemma {:induction false} KeptChars(s: string, n: nat, c: char)
    requires n <= |s|
    ensures c in Kept(s, n) <==> c in s[..n] && !IsBreak(c)
  {
    if n > 0 {
      KeptChars(s, n - 1, c);
      assert s[..n] == s[..n - 1] + [s[n - 1]];
    }
  }

  lemma {:induction false} EndRemoved(text: string, breaks: string)
    requires NoBreak(text) && AllBreaks(breaks)
    ensures WithoutBreaks(text + breaks) == text
  {
    NothingRemoved(text, |text|);
    BreaksRemoved(breaks, |breaks|);
    KeptConcat(text, breaks, |breaks|);
    assert text[..|text|] == text;
  }

  lemma {:induction false} WithoutBreaksOf(v: string)
    ensures WithoutBreaks(v) == WithoutBreaks(Front(v)) + Head(v) + WithoutBreaks(Tail(v))
  {
    var front, head, tail := Front(v), Head(v), Tail(v);
    NothingRemoved(head, |head|);
    assert head[..|head|] == head && v == front + head + tail;
    KeptConcat(front, head, |head|);
    KeptConcat(front + head, tail, |tail|);
  }

  predicate AllSpaces(s: string) {
    forall i :: 0 <= i < |s| ==> IsSpace(s[i])
  }

  lemma {:induction false} KeptSpaces(s: string)
    requires AllSpaces(s)
    ensures AllSpaces(WithoutBreaks(s))
  {
    var w := WithoutBreaks(s);
    forall i | 0 <= i < |w| ensures IsSpace(w[i]) { KeptChars(s, |s|, w[i]); }
  }

  predicate IsOneNumber(s: string) {
    Strtod(s).Number? && Strtod(s).end == |s|
  }

  predicate IsToken(s: string) {
    s != "" && forall i :: 0 <= i < |s| ==> IsTokenChar(s[i])
  }

  lemma {:induction false} NumberHasFront(v: string)
    requires IsOneNumber(WithoutBreaks(v))
    ensures SpaceEnd(v, 0) < |v|
  {
    if SpaceEnd(v, 0) == |v| {
      KeptSpaces(v);
      WholeNumber(WithoutBreaks(v));
      assert false;
    }
  }

  lemma {:induction false} PartOfToken(w: string, front: string, head: string, tail: string)
    requires w == front + head + tail && head != "" && forall k :: |front| <= k < |w| ==> IsTokenChar(w[k])
    ensures IsToken(head)
  {
    forall i | 0 <= i < |head| ensures IsTokenChar(head[i]) { assert w[|front| + i] == head[i]; }
  }

  lemma {:induction false} NumberStartsBehind(w: string, front: string, head: string, tail: string)
    requires w == front + head + tail && AllSpaces(front) && head != "" && !IsSpace(head[0])
    ensures SpaceEnd(w, 0) == |front|
  {
    assert w[|front|] == head[0];
    SpaceEndIs(w, |front|);
  }

  // Of a field that is one number but for line breaks, the head is a part of that number.
  lemma {:induction false} HeadOfNumber(v: string)
    requires IsOneNumber(WithoutBreaks(v))
    ensures AllSpaces(Front(v)) && IsToken(Head(v))
  {
    NumberHasFront(v);
    KeptSpaces(Front(v));
    WithoutBreaksOf(v);
    NumberStartsBehind(WithoutBreaks(v), WithoutBreaks(Front(v)), Head(v), WithoutBreaks(Tail(v)));
    WholeNumber(WithoutBreaks(v));
    PartOfToken(WithoutBreaks(v), WithoutBreaks(Front(v)), Head(v), WithoutBreaks(Tail(v)));
  }

  lemma {:induction false} NumberHasNoComma(v: string)
    requires IsOneNumber(WithoutBreaks(v))
    ensures ',' !in v
  {
    WholeNumber(WithoutBreaks(v));
    KeptChars(v, |v|, ',');
    assert v[..|v|] == v;
  }

  // Where a comma comes first, however the string goes on.
  lemma {:induction false} FindIs(s: string, c: char, from: nat, at: nat)
    requires from <= at < |s| && s[at] == c && forall k :: from <= k < at ==> s[k] != c
    ensures Find(s, c, from) == Some(at)
  {
  }

  // Trimming takes spaces off the front, and nothing off the end of the token.
  lemma {:induction false} TrimmedText(spaces: string, token: string, x: string) returns (l: nat, x': string)
    requires IsToken(token) && (x == "" || IsBreak(x[0]))
    ensures l <= |spaces| && Trim(spaces + token + x) == spaces[l..] + token + x'
    ensures x' == "" || IsBreak(x'[0])
  {
    var text := spaces + token + x;
    l := TrimFront(text);
    assert text[|spaces|] == token[0];
    var front := text[l..];
    var end := |spaces| + |token| - l;
    assert front[end - 1] == token[|token| - 1];
    var k := TrimBack(front);
    x' := x[..k - end];
    assert front == spaces[l..] + token + x;
  }

  // So it is read as it would be alone.
  lemma {:induction false} TrimmedReads(spaces: string, token: string, x: string)
    requires AllSpaces(spaces) && IsToken(token) && (x == "" || IsBreak(x[0]))
    ensures var text := Trim(spaces + token + x);
      && text != "" && (Strtod(text).Number? <==> Strtod(token).Number?)
      && (Strtod(text).Number? ==> Strtod(text).number == Strtod(token).number)
  {
    var l, x' := TrimmedText(spaces, token, x);
    StrtodAround(spaces[l..], token, x');
  }

  // What a double makes of a text that is read alone.
  function ReadAlone(text: string, outOfRange: Number -> bool): Number {
    var scan := Strtod(text);
    if scan.NoNumber? || outOfRange(scan.number) then FAILED else scan.number
  }

  lemma {:induction false} FetchOfField(output: string, comma: nat, spaces: string, token: string, x: string,
                                        outOfRange: Number -> bool)
    requires Find(output, ',', 0) == Some(comma) && comma < |output|
    requires SecondField(output, comma) == spaces + token + x
    requires AllSpaces(spaces) && IsToken(token) && (x == "" || IsBreak(x[0]))
    ensures Fetch(output, outOfRange) == ReadAlone(token, outOfRange)
  {
    TrimmedReads(spaces, token, x);
  }

  // The field behind the first comma of the whole output starts with that of its first line.
  lemma {:induction false} SecondFieldOfLine(output: string, line: string, comma: nat, v: string)
    returns (more: string)
    requires line <= output && comma < |line| && line[comma + 1..] == v && ',' !in v
    ensures SecondField(output, comma) == v + more
    ensures line == output ==> more == ""
  {
    var second := Find(output, ',', comma + 1);
    assert forall k :: comma + 1 <= k < |line| ==> output[k] == v[k - (comma + 1)] != ',';
    var end := if second.Some? then second.value else |output|;
    assert end >= |line|;
    more := output[|line|..end];
    assert output[comma + 1..end] == output[comma + 1..|line|] + more;
    assert output[comma + 1..|line|] == line[comma + 1..];
  }

  lemma {:induction false} ProbeAccepted(output: string) returns (comma: nat)
    requires Probe(output).Some?
    ensures var line := Chunk(output);
            && Find(line, ',', 0) == Some(comma) && comma < |line|
            && IsOneNumber(WithoutBreaks(line[comma + 1..]))
            && Probe(output).value == Strtod(WithoutBreaks(line[comma + 1..])).number
  {
    comma := Find(Chunk(output), ',', 0).value;
  }

  // A first line that fits and ends with its number is the whole output.
  lemma {:induction false} NoTailNoMore(output: string, comma: nat)
    requires FirstLineFits(output) && comma < |Chunk(output)|
    requires var v := Chunk(output)[comma + 1..]; IsToken(Head(v)) && Tail(v) == ""
    ensures Chunk(output) == output
  {
    var line := Chunk(output);
    var v := line[comma + 1..];
    assert v == Front(v) + Head(v) + Tail(v);
    assert line[|line| - 1] == Head(v)[|Head(v)| - 1];
  }

  // The field that the fetch takes is the one that the probe saw, and what follows a line break in it.
  lemma {:induction false} FetchedField(output: string) returns (comma: nat, more: string)
    requires FirstLineFits(output) && Probe(output).Some?
    ensures Find(output, ',', 0) == Some(comma) && comma < |output|
    ensures IsOneNumber(WithoutBreaks(FirstField(output)))
    ensures SecondField(output, comma) == FirstField(output) + more
    ensures Tail(FirstField(output)) == "" ==> more == ""
  {
    comma := ProbeAccepted(output);
    var v := FirstField(output);
    NumberHasNoComma(v);
    more := SecondFieldOfLine(output, Chunk(output), comma, v);
    FindIs(output, ',', 0, comma);
    if Tail(v) == "" {
      HeadOfNumber(v);
      NoTailNoMore(output, comma);
    }
  }

  // Of any output that the probe accepts and whose first line fits the buffer, the fetch reads the
  // number up to its first line break, whatever lines follow.
  lemma {:induction false} FetchReadsToBreak(output: string, outOfRange: Number -> bool)
    requires FirstLineFits(output) && Probe(output).Some?
    ensures Fetch(output, outOfRange) == ReadAlone(Head(FirstField(output)), outOfRange)
  {
    var v := FirstField(output);
    var comma, more := FetchedField(output);
    HeadOfNumber(v);
    FieldIs(v, more);
    FetchOfField(output, comma, Front(v), Head(v), Tail(v) + more, outOfRange);
  }

  lemma {:induction false} FieldIs(v: string, more: string)
    requires Tail(v) == "" ==> more == ""
    ensures v + more == Front(v) + Head(v) + (Tail(v) + more)
    ensures Tail(v) + more == "" || IsBreak((Tail(v) + more)[0])
  {
    assert v == Front(v) + Head(v) + Tail(v);
  }

  // With no line break inside it, that is the number that the probe accepted.
  lemma {:induction false} UnbrokenHead(v: string)
    requires IsOneNumber(WithoutBreaks(v)) && Unbroken(v)
    ensures Strtod(Head(v)).Number? && Strtod(Head(v)).number == Strtod(WithoutBreaks(v)).number
  {
    HeadOfNumber(v);
    WithoutBreaksOf(v);
    BreaksRemoved(Tail(v), |Tail(v)|);
    KeptSpaces(Front(v));
    StrtodAround(WithoutBreaks(Front(v)), Head(v), "");
    assert WithoutBreaks(Front(v)) + Head(v) + "" == WithoutBreaks(v);
  }

  // The fetch returns the number the probe accepted, exactly if a double can hold it: for any first
  // line that fits the buffer and has no carriage return inside the number, whatever lines follow.
  lemma {:induction false} FetchReturnsProbedNumber(output: string, outOfRange: Number -> bool)
    requires FirstLineFits(output) && Unbroken(FirstField(output))
    requires Probe(output).Some? && !outOfRange(FAILED)
    ensures Fetch(output, outOfRange) == Probe(output).value <==> !outOfRange(Probe(output).value)
    ensures outOfRange(Probe(output).value) ==> Fetch(output, outOfRange) == Finite(-1.0)
  {
    var comma := ProbeAccepted(output);
    FetchReadsToBreak(output, outOfRange);
    UnbrokenHead(FirstField(output));
  }

  // In general the two agree exactly if a double can hold that number and it is the number of the
  // part that comes before the first carriage return.
  lemma {:induction false} FetchAgreesIff(output: string, outOfRange: Number -> bool)
    requires FirstLineFits(output) && Probe(output).Some? && Probe(output).value != FAILED
    ensures Fetch(output, outOfRange) == Probe(output).value
       <==> var part := Strtod(Head(FirstField(output)));
            part.Number? && part.number == Probe(output).value && !outOfRange(Probe(output).value)
  {
    FetchReadsToBreak(output, outOfRange);
  }

  predicate IsLineBreak(s: string) {
    s == "\n" || s == "\r\n"
  }

  lemma {:induction false} ChunkIsLine(s: string, breaks: string)
    requires NoBreak(s) && IsLineBreak(breaks) && |s + breaks| < BUFFER
    ensures Chunk(s + breaks) == s + breaks
  {
  }

  // The line of a reading: the first comma ends the name.
  lemma {:induction false} ReadingLine(name: string, text: string, breaks: string)
    requires ',' !in name && NoBreak(name) && NoBreak(text) && IsLineBreak(breaks)
    requires |name + "," + text + breaks| < BUFFER
    ensures Chunk(name + "," + text + breaks) == name + "," + text + breaks
    ensures Find(name + "," + text + breaks, ',', 0) == Some(|name|)
    ensures (name + "," + text + breaks)[|name| + 1..] == text + breaks
  {
    ChunkIsLine(name + "," + text, breaks);
    FindIs(name + "," + text + breaks, ',', 0, |name|);
  }

  // An integer reading, with either line break, is accepted as that integer.
  lemma {:induction false} IntegerIsProbed(name: string, n: int, breaks: string)
    requires ',' !in name && NoBreak(name) && IsLineBreak(breaks)
    requires |name + "," + ToString(n) + breaks| < BUFFER
    ensures Probe(name + "," + ToString(n) + breaks) == Some(Finite(n as real))
  {
    ToStringChars(n);
    ReadingLine(name, ToString(n), breaks);
    EndRemoved(ToString(n), breaks);
    StrtodOfInteger(n);
  }

  lemma {:induction false} NumeralIsToken(n: Numeral)
    requires IsNumeral(n)
    ensures IsToken(Text(n)) && NoBreak(Text(n)) && ',' !in Text(n) && !IsSpace(Text(n)[0])
  {
    var v := NumeralIsRead(n);
    NumeralBegins(n);
    OneTokenIsToken(Text(n));
  }

  lemma {:induction false} OneTokenIsToken(s: string)
    requires IsOneNumber(s) && s != "" && !IsSpace(s[0])
    ensures IsToken(s) && NoBreak(s) && ',' !in s
  {
    SpaceEndIs(s, 0);
    WholeNumber(s);
  }

  // The line of a reading, as the probe and the fetch take it apart.
  lemma {:induction false} ReadingField(name: string, text: string, breaks: string)
    requires ',' !in name && NoBreak(name) && NoBreak(text) && text != "" && !IsSpace(text[0]) && IsLineBreak(breaks)
    requires |name + "," + text + breaks| < BUFFER
    ensures var output := name + "," + text + breaks;
            && FirstLineFits(output) && FirstField(output) == text + breaks
            && WithoutBreaks(FirstField(output)) == text && Head(FirstField(output)) == text
  {
    ReadingLine(name, text, breaks);
    EndRemoved(text, breaks);
    HeadIs(text, breaks);
  }

  // A reading, whole or with a fraction, an exponent or in hexadecimal, with either line break, is
  // accepted by the probe as its number, and fetched as its number if a double can hold it.
  lemma {:induction false} ReadingIsProbedAndFetched(name: string, n: Numeral, breaks: string, outOfRange: Number -> bool)
    returns (watts: real)
    requires ',' !in name && NoBreak(name) && IsNumeral(n) && IsLineBreak(breaks)
    requires |name + "," + Text(n) + breaks| < 256
    ensures IsValueOf(watts, n)
    ensures var output := name + "," + Text(n) + breaks;
            && Probe(output) == Some(Finite(watts))
            && Fetch(output, outOfRange) == if outOfRange(Finite(watts)) then Finite(-1.0) else Finite(watts)
  {
    watts := NumeralIsRead(n);
    NumeralIsToken(n);
    ReadingField(name, Text(n), breaks);
    ReadingLine(name, Text(n), breaks);
    NotNa(n);
    FetchReadsToBreak(name + "," + Text(n) + breaks, outOfRange);
  }

  lemma {:induction false} NotNa(n: Numeral)
    requires IsNumeral(n)
    ensures Text(n) != "na"
  {
    var v := NumeralIsRead(n);
    NaIsNoNumber();
  }

  lemma {:induction false} NaIsNoNumber()
    ensures Strtod("na").NoNumber?
  {
    var s := "na";
    SpaceEndIs(s, 0);
    assert s[0..] == s;
    NotThisWord(s, 0, "infinity");
    NotThisWord(s, 0, "inf");
    assert !HasWord(s, 0, "nan") && !StartsHex(s, 0) by { assert s[0..2] == s; }
    assert DigitsEnd(s, 0, false) == 0;
  }

  // The probe accepts an output exactly if its first line, as far as it fits the buffer, has a comma
  // and behind it, but for line breaks, spaces and a number.
  lemma {:induction false} ProbeAcceptsIff(output: string)
    ensures Probe(output).Some?
       <==> ',' in Chunk(output)
            && exists k :: 0 <= k <= |WithoutBreaks(FirstField(output))| && IsNumberFrom(WithoutBreaks(FirstField(output)), k)
  {
    ReadWholeIffNumber(WithoutBreaks(FirstField(output)));
    NaIsNoNumber();
    var line := Chunk(output);
    if Find(line, ',', 0).Some? { assert line[Find(line, ',', 0).value] == ','; }
    if ',' in line { assert Find(line, ',', 0).Some?; }
    assert Strtod("").NoNumber?;
  }

  lemma {:induction false} ToStringChars(n: int)
    ensures NoBreak(ToString(n)) && ToString(n) != "" && ToString(n)[0] != 'n'
  {
    DigitsRoundTrip(if n < 0 then -n else n);
    var digits := Digits(if n < 0 then -n else n);
    forall i | 0 <= i < |digits| ensures !IsBreak(digits[i]) && digits[i] != 'n' {
      assert IsDigit(digits[i]);
    }
  }

  // --- Where they do not ---------------------------------------------------------------------------------

  // The field behind a name of one letter.
  lemma {:induction false} CommaInFront(v: string)
    requires ',' !in v
    ensures Find("P," + v, ',', 0) == Some(1) && SecondField("P," + v, 1) == v
    ensures ("P," + v)[2..] == v
  {
  }

  lemma {:induction false} ProbeReads(output: string, v: string)
    requires Chunk(output) == "P," + v && ',' !in v
    requires IsOneNumber(WithoutBreaks(v)) && WithoutBreaks(v) != "na" && WithoutBreaks(v) != ""
    ensures Probe(output) == Some(Strtod(WithoutBreaks(v)).number)
  {
    CommaInFront(v);
  }

  lemma {:induction false} ChunkIsPrefix(s: string)
    ensures |s| >= BUFFER - 1 && (forall i :: 0 <= i < |s| ==> s[i] != '\n') ==> Chunk(s) == s[..BUFFER - 1]
    ensures |s| < BUFFER - 1 && (forall i :: 0 <= i < |s| - 1 ==> s[i] != '\n') ==> Chunk(s) == s
  {
  }

  lemma {:induction false} DigitsAreToken(digits: string)
    requires IsDigits(digits)
    ensures IsToken(digits) && NoBreak(digits) && ',' !in digits && !IsSpace(digits[0])
  {
    forall i | 0 <= i < |digits| ensures IsTokenChar(digits[i]) && !IsBreak(digits[i]) && digits[i] != ',' {
      assert IsDigit(digits[i]);
    }
    assert IsDigit(digits[0]);
  }

  // Digits that a carriage return cuts in two.
  function Split(a: string, b: string): string {
    a + ("\r" + (b + "\n"))
  }

  lemma {:induction false} SplitLine(a: string, b: string)
    requires NoBreak(a) && NoBreak(b) && ',' !in a && ',' !in b && |a| + |b| < BUFFER - 5
    ensures ',' !in Split(a, b) && Chunk("P," + Split(a, b)) == "P," + Split(a, b)
  {
    ChunkIsPrefix("P," + Split(a, b));
  }

  lemma {:induction false} SplitRemoved(a: string, b: string)
    requires NoBreak(a) && NoBreak(b)
    ensures WithoutBreaks(Split(a, b)) == a + b
  {
    EndRemoved(a, "\r");
    EndRemoved(b, "\n");
    assert Split(a, b) == (a + "\r") + (b + "\n");
    KeptConcat(a + "\r", b + "\n", |b + "\n"|);
  }

  lemma {:induction false} SplitIsProbed(a: string, b: string)
    requires IsDigits(a) && IsDigits(b) && |a| + |b| < BUFFER - 5
    ensures Probe("P," + Split(a, b)) == Some(Finite(DigitsValue(a + b) as real))
  {
    DigitsAreToken(a);
    DigitsAreToken(b);
    SplitLine(a, b);
    SplitRemoved(a, b);
    DigitsAreToken(a + b);
    StrtodOfDigits(a + b);
    assert (a + b)[0] == a[0] && IsDigit(a[0]);
    ProbeReads("P," + Split(a, b), Split(a, b));
  }

  lemma {:induction false} FieldBehindP(v: string)
    requires ',' !in v && Chunk("P," + v) == "P," + v
    ensures FirstLineFits("P," + v) && FirstField("P," + v) == v
  {
    CommaInFront(v);
  }

  lemma {:induction false} HeadIs(head: string, tail: string)
    requires head != "" && !IsSpace(head[0]) && NoBreak(head) && tail != "" && IsBreak(tail[0])
    ensures Head(head + tail) == head
  {
    var v := head + tail;
    SpaceEndIs(v, 0);
    assert v[|head|] == tail[0];
    assert forall k :: 0 <= k < |head| ==> v[k] == head[k];
  }

  lemma {:induction false} SplitIsFetched(a: string, b: string, outOfRange: Number -> bool)
    requires IsDigits(a) && IsDigits(b) && |a| + |b| < BUFFER - 5
    requires !outOfRange(Finite(DigitsValue(a) as real))
    ensures Fetch("P," + Split(a, b), outOfRange) == Finite(DigitsValue(a) as real)
  {
    SplitIsProbed(a, b);
    DigitsAreToken(a);
    DigitsAreToken(b);
    SplitLine(a, b);
    FieldBehindP(Split(a, b));
    HeadIs(a, "\r" + (b + "\n"));
    FetchReadsToBreak("P," + Split(a, b), outOfRange);
    StrtodOfDigits(a);
  }

  lemma {:induction false} MoreDigits(a: string, b: string)
    requires IsDigits(a) && IsDigits(b)
    ensures IsDigits(a + b) && DigitsValue(a + b) >= 10 * DigitsValue(a)
    decreases |b|
  {
    var last := |b| - 1;
    assert IsDigit(b[last]) && (a + b)[..|a| + last] == a + b[..last];
    if last == 0 { assert a + b[..0] == a; } else { MoreDigits(a, b[..last]); }
  }

  // The probe drops a carriage return inside the number and the fetch stops there: with "1" and "2"
  // the probe reads 12 and the fetch 1.
  lemma {:induction false} ReturnInsideSplitsNumber(a: string, b: string, outOfRange: Number -> bool)
    requires IsDigits(a) && IsDigits(b) && |a| + |b| < BUFFER - 5
    requires !outOfRange(Finite(DigitsValue(a) as real))
    ensures Probe("P," + Split(a, b)) == Some(Finite(DigitsValue(a + b) as real))
    ensures Fetch("P," + Split(a, b), outOfRange) == Finite(DigitsValue(a) as real)
    ensures DigitsValue(a) != 0 ==> DigitsValue(a + b) != DigitsValue(a)
  {
    SplitIsProbed(a, b);
    SplitIsFetched(a, b, outOfRange);
    MoreDigits(a, b);
  }

  lemma {:induction false} DigitsFetched(digits: string, outOfRange: Number -> bool)
    requires IsDigits(digits) && !outOfRange(Finite(DigitsValue(digits) as real))
    ensures Fetch("P," + digits, outOfRange) == Finite(DigitsValue(digits) as real)
  {
    StrtodOfDigits(digits);
    DigitsAreToken(digits);
    CommaInFront(digits);
    assert "" + digits + "" == digits;
    FetchOfField("P," + digits, 1, "", digits, "", outOfRange);
  }

  lemma {:induction false} DigitsProbed(output: string, seen: string)
    requires Chunk(output) == "P," + seen && IsDigits(seen)
    ensures Probe(output) == Some(Finite(DigitsValue(seen) as real))
  {
    NothingRemoved(seen, |seen|);
    assert seen[..|seen|] == seen && IsDigit(seen[0]);
    StrtodOfDigits(seen);
    DigitsAreToken(seen);
    ProbeReads(output, seen);
  }

  lemma {:induction false} LongLineChunk(digits: string)
    requires |digits| == BUFFER - 2 && IsDigits(digits)
    ensures Chunk("P," + digits) == "P," + digits[..BUFFER - 3]
  {
  }

  // The probe sees no more of a line than fits its buffer, the fetch sees all of it.
  lemma {:induction false} LongLineIsCutOff(digits: string, outOfRange: Number -> bool)
    requires |digits| == 254 && IsDigits(digits) && DigitsValue(digits) != 0
    requires !outOfRange(Finite(DigitsValue(digits) as real))
    ensures Probe("P," + digits) == Some(Finite(DigitsValue(digits[..253]) as real))
    ensures Fetch("P," + digits, outOfRange) == Finite(DigitsValue(digits) as real)
    ensures DigitsValue(digits[..253]) != DigitsValue(digits)
  {
    var seen := digits[..BUFFER - 3];
    LongLineChunk(digits);
    forall i | 0 <= i < |seen| ensures IsDigit(seen[i]) { assert IsDigit(digits[i]); }
    DigitsProbed("P," + digits, seen);
    DigitsFetched(digits, outOfRange);
  }
}
