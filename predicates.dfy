/**
  The three filter predicates `Contains`, `StartsWith` and `IsNull`: their checked
  construction, their getters, and their rendering as one query parameter of the
  form `<wire name>/<operator><operand>`.

  A predicate is generic in the field enumeration `F` it filters on; the wire name of
  a field (`QueryField.getQueryFieldName` in the source) is passed to the encoder as a
  function `wireName: F -> string`.
*/
module QueryPredicates {
  import opened Wrappers

  /** An operand as callers supply it: a Java `String` or a Java `Integer`. */
  datatype Operand = Text(text: string) | Number(number: int)

  datatype Predicate<F> =
    | Contains(field: F, value: Operand)
    | StartsWith(field: F, value: Operand)
    | IsNull(field: F)

  /** The one way construction fails: an `IllegalArgumentException` for a null argument. */
  datatype ConstructionError = IllegalArgument

  /** The operator a predicate renders, recovered by `DecodeParameter`. */
  datatype Operator = ContainsOp | StartsWithOp | IsNullOp

  const ContainsToken: string := "~~"
  const StartsWithToken: string := "^"
  const NullToken: string := "null-val"

  // ---------------------------------------------------------------------------
  // Construction: `None` stands for a Java null argument.
  // ---------------------------------------------------------------------------

  /** `new Contains<>(field, value)`: rejects a null field or a null operand. */
  function NewContains<F>(field: Option<F>, value: Option<Operand>): (r: Result<Predicate<F>, ConstructionError>)
    ensures r.Success? <==> field.Some? && value.Some?
    ensures r.Success? ==> r.value.Contains? && r.value.field == field.value && r.value.value == value.value
  {
    if field.None? || value.None? then Failure(IllegalArgument)
    else Success(Contains(field.value, value.value))
  }

  /** `new StartsWith<>(field, value)`: rejects a null field or a null operand. */
  function NewStartsWith<F>(field: Option<F>, value: Option<Operand>): (r: Result<Predicate<F>, ConstructionError>)
    ensures r.Success? <==> field.Some? && value.Some?
    ensures r.Success? ==> r.value.StartsWith? && r.value.field == field.value && r.value.value == value.value
  {
    if field.None? || value.None? then Failure(IllegalArgument)
    else Success(StartsWith(field.value, value.value))
  }

  /** `new IsNull<>(field)`: rejects a null field; there is no operand. */
  function NewIsNull<F>(field: Option<F>): (r: Result<Predicate<F>, ConstructionError>)
    ensures r.Success? <==> field.Some?
    ensures r.Success? ==> r.value.IsNull? && r.value.field == field.value
  {
    if field.None? then Failure(IllegalArgument) else Success(IsNull(field.value))
  }

  // ---------------------------------------------------------------------------
  // Decimal rendering of integer operands (`Integer.toString`) and its inverse.
  // ---------------------------------------------------------------------------

  predicate IsDigit(c: char) {
    '0' <= c <= '9'
  }

  predicate AllDigits(s: string) {
    forall i :: 0 <= i < |s| ==> IsDigit(s[i])
  }

  /** Plain decimal digits with no superfluous leading zero. */
  predicate IsCanonicalDecimal(s: string) {
    |s| > 0 && AllDigits(s) && (s[0] == '0' ==> |s| == 1)
  }

  function DigitChar(d: nat): (c: char)
    requires d < 10
    ensures IsDigit(c) && (c as int) - ('0' as int) == d
  {
    (('0' as int) + d) as char
  }

  /** The decimal digits of `n`, most significant first. */
  function NatToDecimal(n: nat): string
    decreases n
  {
    if n < 10 then [DigitChar(n)] else NatToDecimal(n / 10) + [DigitChar(n % 10)]
  }

  /** `Integer.toString(n)`: a minus sign for negative numbers, no grouping, no exponent. */
  function IntToDecimal(n: int): string {
    if n < 0 then "-" + NatToDecimal(-n) else NatToDecimal(n)
  }

  /** The number a string of decimal digits denotes. */
  function DecimalValue(s: string): nat
    requires AllDigits(s)
    decreases |s|
  {
    if s == [] then 0
    else DecimalValue(s[..|s| - 1]) * 10 + ((s[|s| - 1] as int) - ('0' as int))
  }

  /** Reads back what `IntToDecimal` writes; `None` for anything else. */
  function ParseDecimal(s: string): Option<int> {
    if |s| > 1 && s[0] == '-' && IsCanonicalDecimal(s[1..]) && s[1] != '0' then Some(-(DecimalValue(s[1..]) as int))
    else if IsCanonicalDecimal(s) then Some(DecimalValue(s))
    else None
  }

  lemma {:induction false} NatToDecimalCanonical(n: nat)
    ensures IsCanonicalDecimal(NatToDecimal(n))
    ensures DecimalValue(NatToDecimal(n)) == n
    ensures n > 0 ==> NatToDecimal(n)[0] != '0'
    decreases n
  {
    var s := NatToDecimal(n);
    if n >= 10 {
      var t := NatToDecimal(n / 10);
      NatToDecimalCanonical(n / 10);
      assert s == t + [DigitChar(n % 10)];
      assert s[..|s| - 1] == t;
      assert s[0] == t[0];
    }
  }

  /** Rendering an integer operand is undone by parsing it back. */
  lemma IntToDecimalRoundTrip(n: int)
    ensures ParseDecimal(IntToDecimal(n)) == Some(n)
  {
    NatToDecimalCanonical(if n < 0 then -n else n);
    if n < 0 {
      var s := IntToDecimal(n);
      assert s[1..] == NatToDecimal(-n);
    }
  }

  /** Distinct integers render as distinct strings. */
  lemma IntToDecimalInjective(m: int, n: int)
    ensures IntToDecimal(m) == IntToDecimal(n) ==> m == n
  {
    IntToDecimalRoundTrip(m);
    IntToDecimalRoundTrip(n);
  }

  // ---------------------------------------------------------------------------
  // Encoding (`toQueryParameter`).
  // ---------------------------------------------------------------------------

  /** The operand's text as it appears on the wire. */
  function OperandText(v: Operand): string {
    match v
    case Text(t) => t
    case Number(n) => IntToDecimal(n)
  }

  function OperatorOf<F>(p: Predicate<F>): Operator {
    match p
    case Contains(_, _) => ContainsOp
    case StartsWith(_, _) => StartsWithOp
    case IsNull(_) => IsNullOp
  }

  /** The operand text of a predicate; empty for `IsNull`, which has none. */
  function OperandTextOf<F>(p: Predicate<F>): string {
    match p
    case Contains(_, v) => OperandText(v)
    case StartsWith(_, v) => OperandText(v)
    case IsNull(_) => ""
  }

  /** `toQueryParameter`: wire name, `/`, the operator token, the operand text. */
  function ToQueryParameter<F>(p: Predicate<F>, wireName: F -> string): string {
    wireName(p.field) + "/" +
    match p
    case Contains(_, v) => ContainsToken + OperandText(v)
    case StartsWith(_, v) => StartsWithToken + OperandText(v)
    case IsNull(_) => NullToken
  }

  /** Splits a query parameter for a field with the given wire name back into operator and operand. */
  function DecodeParameter(param: string, wireName: string): Option<(Operator, string)> {
    var head := wireName + "/";
    if !(|head| <= |param| && param[..|head|] == head) then None
    else
      var rest := param[|head|..];
      if |rest| >= 2 && rest[..2] == ContainsToken then Some((ContainsOp, rest[2..]))
      else if |rest| >= 1 && rest[..1] == StartsWithToken then Some((StartsWithOp, rest[1..]))
      else if rest == NullToken then Some((IsNullOp, ""))
      else None
  }

  /** The encoding keeps the operator and the operand text recoverable. */
  lemma DecodeEncode<F>(p: Predicate<F>, wireName: F -> string)
    ensures DecodeParameter(ToQueryParameter(p, wireName), wireName(p.field)) == Some((OperatorOf(p), OperandTextOf(p)))
  {
    var head := wireName(p.field) + "/";
    var param := ToQueryParameter(p, wireName);
    var tail := match p
      case Contains(_, v) => ContainsToken + OperandText(v)
      case StartsWith(_, v) => StartsWithToken + OperandText(v)
      case IsNull(_) => NullToken;
    assert param == head + tail;
    assert param[..|head|] == head;
    assert param[|head|..] == tail;
    match p
    case Contains(_, v) =>
      assert tail[..2] == ContainsToken;
      assert tail[2..] == OperandText(v);
    case StartsWith(_, v) =>
      assert tail[0] == '^';
      assert |tail| >= 2 ==> tail[..2][0] == '^';
      assert tail[..1] == StartsWithToken;
      assert tail[1..] == OperandText(v);
    case IsNull(_) =>
      assert tail[..2][0] == 'n';
      assert tail[..1][0] == 'n';
  }

  /**
    Two predicates on fields with the same wire name that encode to the same parameter
    use the same operator and the same operand text; for two integer operands, the same
    integer.
  */
  lemma EncodingDeterminesOperatorAndOperand<F>(p: Predicate<F>, q: Predicate<F>, wireName: F -> string)
    requires wireName(p.field) == wireName(q.field)
    requires ToQueryParameter(p, wireName) == ToQueryParameter(q, wireName)
    ensures OperatorOf(p) == OperatorOf(q)
    ensures OperandTextOf(p) == OperandTextOf(q)
    ensures !p.IsNull? && !q.IsNull? && p.value.Number? && q.value.Number? ==> p.value == q.value
  {
    DecodeEncode(p, wireName);
    DecodeEncode(q, wireName);
    if !p.IsNull? && !q.IsNull? && p.value.Number? && q.value.Number? {
      IntToDecimalInjective(p.value.number, q.value.number);
    }
  }

  /** For the same field and operand, `StartsWith` and `Contains` never render alike. */
  lemma StartsWithDiffersFromContains<F>(field: F, v: Operand, wireName: F -> string)
    ensures ToQueryParameter(StartsWith(field, v), wireName) != ToQueryParameter(Contains(field, v), wireName)
  {
    DecodeEncode(StartsWith(field, v), wireName);
    DecodeEncode(Contains(field, v), wireName);
  }

  /** `IsNull` renders its field's wire name followed by `/null-val`, whatever the field is otherwise. */
  lemma IsNullDependsOnlyOnWireName<F>(f: F, g: F, wireName: F -> string)
    requires wireName(f) == wireName(g)
    ensures ToQueryParameter(IsNull(f), wireName) == ToQueryParameter(IsNull(g), wireName)
    ensures ToQueryParameter(IsNull(f), wireName) == wireName(f) + "/null-val"
  {
  }

  /**
    A string operand and an integer operand with the same digits render alike: the
    encoding is injective on operand text, not on operand type.
  */
  lemma TextAndNumberOperandsCollide<F>(field: F, wireName: F -> string)
    ensures ToQueryParameter(Contains(field, Text("255")), wireName) == ToQueryParameter(Contains(field, Number(255)), wireName)
  {
    assert NatToDecimal(255) == NatToDecimal(25) + [DigitChar(5)];
    assert NatToDecimal(25) == NatToDecimal(2) + [DigitChar(5)];
  }

  // ---------------------------------------------------------------------------
  // The test vectors, on a field whose wire name is `NORAD_CAT_ID`.
  // ---------------------------------------------------------------------------

  datatype TestQueryField = TestQueryField

  function TestWireName(f: TestQueryField): string {
    "NORAD_CAT_ID"
  }

  lemma ContainsTestVectors()
    ensures NewContains<TestQueryField>(None, Some(Text("TEST"))).Failure?
    ensures NewContains(Some(TestQueryField), None).Failure?
    ensures NewContains<TestQueryField>(None, Some(Number(1))).Failure?
    ensures NewContains(Some(TestQueryField), Some(Text("TEST"))).Success?
    ensures NewContains(Some(TestQueryField), Some(Number(1))).Success?
    ensures NewContains(Some(TestQueryField), Some(Text("ABC"))).Success? &&
            NewContains(Some(TestQueryField), Some(Text("ABC"))).value.field == TestQueryField &&
            NewContains(Some(TestQueryField), Some(Text("ABC"))).value.value == Text("ABC")
    ensures ToQueryParameter(Contains(TestQueryField, Text("ABC")), TestWireName) == "NORAD_CAT_ID/~~ABC"
    ensures ToQueryParameter(Contains(TestQueryField, Number(255)), TestWireName) == "NORAD_CAT_ID/~~255"
  {
    TextAndNumberOperandsCollide(TestQueryField, TestWireName);
  }

  lemma StartsWithTestVectors()
    ensures NewStartsWith<TestQueryField>(None, Some(Text("ABC"))).Failure?
    ensures NewStartsWith(Some(TestQueryField), None).Failure?
    ensures NewStartsWith<TestQueryField>(None, Some(Number(1))).Failure?
    ensures NewStartsWith(Some(TestQueryField), Some(Text("ABC"))).Success?
    ensures NewStartsWith(Some(TestQueryField), Some(Number(1))).Success?
    ensures NewStartsWith(Some(TestQueryField), Some(Text("ABC"))).value.field == TestQueryField &&
            NewStartsWith(Some(TestQueryField), Some(Text("ABC"))).value.value == Text("ABC")
    ensures ToQueryParameter(StartsWith(TestQueryField, Text("ABC")), TestWireName) == "NORAD_CAT_ID/^ABC"
    ensures ToQueryParameter(StartsWith(TestQueryField, Number(1)), TestWireName) == "NORAD_CAT_ID/^1"
  {
  }

  lemma IsNullTestVectors()
    ensures NewIsNull<TestQueryField>(None).Failure?
    ensures NewIsNull(Some(TestQueryField)).Success?
    ensures ToQueryParameter(IsNull(TestQueryField), TestWireName) == "NORAD_CAT_ID/null-val"
  {
  }
}
