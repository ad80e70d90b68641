/** Parameters of SQL statements: the sentinel -1 becomes NULL, everything else its text
    (Database.hpp). Doubles are modelled by the text std::to_string gives them. */
module SqlParams {
  import opened Options
  import opened Decimal

  datatype Param = Null | Text(text: string)

  const INT_MIN := -0x8000_0000
  const INT_MAX := 0x7fff_ffff
  const LONG_MIN := -0x8000_0000_0000_0000
  const LONG_MAX := 0x7fff_ffff_ffff_ffff

  newtype int32 = x: int | INT_MIN <= x <= INT_MAX
  newtype int64 = x: int | LONG_MIN <= x <= LONG_MAX
  newtype uint32 = x: int | 0 <= x < 0x1_0000_0000

  // A double as it is printed; -1.0 is told apart before printing.
  datatype Double = MinusOne | Printed(text: string)

  // --- The conversions ---------------------------------------------------------------------------

  function ToSqlParamInt(value: int32): Param {
    if value == -1 then Null else Text(ToString(value as int))
  }

  function ToSqlParamLong(value: int64): Param {
    if value == -1 then Null else Text(ToString(value as int))
  }

  function ToSqlParamDouble(value: Double): Param {
    if value.MinusOne? then Null else Text(value.text)
  }

  function ToSqlParamString(value: string): Param {
    if value == "" then Null else Text(value)
  }

  // Conversion of an unsigned value to int keeps its 32 bits.
  function AsInt(value: uint32): int32 {
    if value as int <= INT_MAX then value as int as int32 else (value as int - 0x1_0000_0000) as int32
  }

  // What a reader of the column gets, with NULL standing for the sentinel again.
  function ReadBack(p: Param): Option<int> {
    if p.Null? then Some(-1) else ParseInt(p.text)
  }

  // What a reader of a column should find: a number, a double or text, as it was measured.
  datatype Value = IntValue(number: int) | DoubleValue(double: Double) | TextValue(text: string)

  // The parameter reads back as this value: NULL stands for -1, or for empty text, and nothing else
  // is NULL.
  predicate ReadsAs(p: Param, v: Value) {
    match v
    case IntValue(value) => ReadBack(p) == Some(value) && (p == Null <==> value == -1)
    case DoubleValue(MinusOne) => p == Null
    case DoubleValue(Printed(text)) => p == Text(text)
    case TextValue(text) => if text == "" then p == Null else p == Text(text)
  }

  // Every int survives the way into the database and back, and NULL arises exactly for -1.
  lemma {:induction false} IntRoundTrip(value: int32)
    ensures ReadBack(ToSqlParamInt(value)) == Some(value as int)
    ensures ToSqlParamInt(value) == Null <==> value == -1
  {
    PrintParse(value as int);
  }

  lemma {:induction false} LongRoundTrip(value: int64)
    ensures ReadBack(ToSqlParamLong(value)) == Some(value as int)
    ensures ToSqlParamLong(value) == Null <==> value == -1
  {
    PrintParse(value as int);
  }

  // Different ints give different parameters.
  lemma {:induction false} IntParamsAreDistinct(a: int32, b: int32)
    ensures ToSqlParamInt(a) == ToSqlParamInt(b) <==> a == b
  {
    PrintParse(a as int);
    PrintParse(b as int);
  }

  // An unsigned health code is stored unchanged exactly while it fits an int; the code for a
  // failed query, 0xFFFFFFFF, is the only one that becomes NULL.
  lemma {:induction false} HealthCode(health: uint32)
    ensures ToSqlParamInt(AsInt(health)) == Null <==> health == 0xFFFF_FFFF
    ensures ReadBack(ToSqlParamInt(AsInt(health))) == Some(health as int) <==> health as int <= INT_MAX
  {
    IntRoundTrip(AsInt(health));
  }
}
