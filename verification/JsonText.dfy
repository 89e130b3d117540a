/** A reader for flat JSON objects of numbers and strings (RFC 8259, without white space), and the
    text it inverts. */
module JsonText {
  import opened Words
  import opened Sequences
  import opened Escaping

  const COLON: byte := 58
  const COMMA: byte := 44
  const OPEN_BRACE: byte := 123
  const CLOSE_BRACE: byte := 125

  datatype Value = Number(n: nat) | Text(bytes: seq<byte>)

  datatype Field = Field(key: seq<byte>, value: Value)

  predicate IsDigit(c: byte) {
    48 <= c <= 57
  }

  /** The decimal numeral of `n`, without leading zeros. */
  function Digits(n: nat): (s: seq<byte>)
    ensures |s| >= 1 && (forall b :: b in s ==> IsDigit(b)) && (n > 0 ==> s[0] != 48)
  {
    if n < 10 then [48 + n] else Digits(n / 10) + [48 + n % 10]
  }

  function Pow10(k: nat): (p: nat)
    ensures p > 0
  {
    if k == 0 then 1 else 10 * Pow10(k - 1)
  }

  /** A numeral has k digits or fewer exactly when its value is below 10^k. */
  lemma {:induction false} DigitCount(n: nat, k: nat)
    requires k > 0
    ensures |Digits(n)| <= k <==> n < Pow10(k)
    decreases k
  {
    if k == 1 {
      assert Pow10(1) == 10 * Pow10(0);
    } else if n >= 10 {
      DigitCount(n / 10, k - 1);
    } else {
      Pow10AtLeastTen(k);
    }
  }

  lemma {:induction false} Pow10AtLeastTen(k: nat)
    requires k > 0
    ensures Pow10(k) >= 10
  {
    if k > 1 { Pow10AtLeastTen(k - 1); }
  }

  // ----- the reader -----

  function ReadDigits(value: nat, s: seq<byte>): (r: (nat, seq<byte>))
    ensures r.1 == s || IsTail(r.1, s)
    decreases |s|
  {
    if s != [] && IsDigit(s[0]) then ReadDigits(10 * value + (s[0] - 48), s[1..]) else (value, s)
  }

  /** A non-negative integer; a leading zero stands alone (section 6 of RFC 8259). */
  function ReadNumber(s: seq<byte>): (r: Option<(nat, seq<byte>)>)
    ensures r.Some? ==> IsTail(r.value.1, s)
  {
    if s == [] || !IsDigit(s[0]) then None
    else if s[0] == 48 then Some((0, s[1..]))
    else Some(ReadDigits(s[0] - 48, s[1..]))
  }

  function ReadValue(s: seq<byte>): (r: Option<(Value, seq<byte>)>)
    ensures r.Some? ==> IsTail(r.value.1, s)
  {
    if s != [] && s[0] == QUOTE then
      var r :- ReadString(s[1..]);
      Some((Text(r.0), r.1))
    else
      var r :- ReadNumber(s);
      Some((Number(r.0), r.1))
  }

  function ReadField(s: seq<byte>): (r: Option<(Field, seq<byte>)>)
    ensures r.Some? ==> IsTail(r.value.1, s)
  {
    if s == [] || s[0] != QUOTE then None
    else
      var key :- ReadString(s[1..]);
      if key.1 == [] || key.1[0] != COLON then None
      else
        var value :- ReadValue(key.1[1..]);
        Some((Field(key.0, value.0), value.1))
  }

  /** The fields up to the closing brace, and what follows it. */
  function ReadFields(s: seq<byte>): (r: Option<(seq<Field>, seq<byte>)>)
    ensures r.Some? ==> IsTail(r.value.1, s)
    decreases |s|
  {
    var first :- ReadField(s);
    if first.1 == [] then None
    else if first.1[0] == CLOSE_BRACE then Some(([first.0], first.1[1..]))
    else if first.1[0] != COMMA then None
    else
      var others :- ReadFields(first.1[1..]);
      Some(([first.0] + others.0, others.1))
  }

  function ReadObject(s: seq<byte>): (r: Option<(seq<Field>, seq<byte>)>)
    ensures r.Some? ==> IsTail(r.value.1, s)
  {
    if s == [] || s[0] != OPEN_BRACE then None else ReadFields(s[1..])
  }

  // ----- the text, written in front of a given tail -----

  function ValueText(v: Value, tail: seq<byte>): seq<byte> {
    match v
    case Number(n) => Digits(n) + tail
    case Text(bytes) => [QUOTE] + (Escaped(bytes) + ([QUOTE] + tail))
  }

  function FieldText(f: Field, tail: seq<byte>): seq<byte> {
    [QUOTE] + (Escaped(f.key) + ([QUOTE, COLON] + ValueText(f.value, tail)))
  }

  function FieldsText(fs: seq<Field>, tail: seq<byte>): seq<byte>
    requires fs != []
  {
    if |fs| == 1 then FieldText(fs[0], [CLOSE_BRACE] + tail)
    else FieldText(fs[0], [COMMA] + FieldsText(fs[1..], tail))
  }

  // ----- reading back what was written -----

  lemma ReadDigit(value: nat, d: nat, tail: seq<byte>)
    requires d < 10
    ensures ReadDigits(value, [48 + d] + tail) == ReadDigits(10 * value + d, tail)
    ensures d > 0 ==> ReadNumber([48 + d] + tail) == Some(ReadDigits(d, tail))
  {
    assert ([48 + d] + tail)[1..] == tail;
  }

  lemma {:induction false} ReadDigitsBack(n: nat, tail: seq<byte>)
    requires n > 0
    ensures ReadNumber(Digits(n) + tail) == Some(ReadDigits(n, tail))
    decreases n
  {
    if n < 10 {
      ReadDigit(0, n, tail);
    } else {
      ReadDigitsBack(n / 10, [48 + n % 10] + tail);
      ReadDigit(n / 10, n % 10, tail);
      Associate(Digits(n / 10), [48 + n % 10], tail);
    }
  }

  lemma ReadNumberBack(n: nat, tail: seq<byte>)
    requires tail != [] && !IsDigit(tail[0])
    ensures ReadNumber(Digits(n) + tail) == Some((n, tail))
  {
    if n == 0 {
      assert (Digits(n) + tail)[1..] == tail;
    } else {
      ReadDigitsBack(n, tail);
    }
  }

  lemma ReadValueBack(v: Value, tail: seq<byte>)
    requires tail != [] && !IsDigit(tail[0])
    ensures ReadValue(ValueText(v, tail)) == Some((v, tail))
  {
    match v
    case Number(n) =>
      ReadNumberBack(n, tail);
      assert IsDigit(Digits(n)[0]);
    case Text(bytes) =>
      ReadEscaped(bytes, [QUOTE] + tail);
      assert ([QUOTE] + tail)[1..] == tail;
      assert ValueText(v, tail)[1..] == Escaped(bytes) + ([QUOTE] + tail);
  }

  lemma ReadFieldParts(s: seq<byte>, key: seq<byte>, after: seq<byte>, v: Value, rest: seq<byte>)
    requires s != [] && s[0] == QUOTE && ReadString(s[1..]) == Some((key, after))
    requires after != [] && after[0] == COLON && ReadValue(after[1..]) == Some((v, rest))
    ensures ReadField(s) == Some((Field(key, v), rest))
  {
  }

  lemma ReadFieldsParts(s: seq<byte>, f: Field, after: seq<byte>, fs: seq<Field>, rest: seq<byte>)
    requires ReadField(s) == Some((f, after)) && after != []
    requires after[0] == COMMA && ReadFields(after[1..]) == Some((fs, rest))
    ensures ReadFields(s) == Some(([f] + fs, rest))
  {
  }

  lemma ReadFieldBack(f: Field, tail: seq<byte>)
    requires tail != [] && !IsDigit(tail[0])
    ensures ReadField(FieldText(f, tail)) == Some((f, tail))
  {
    var value := ValueText(f.value, tail);
    var mid: seq<byte> := [QUOTE, COLON] + value;
    var s := FieldText(f, tail);
    ReadValueBack(f.value, tail);
    ReadEscaped(f.key, mid);
    assert mid[1..] == [COLON] + value;
    assert ([COLON] + value)[1..] == value;
    assert s[1..] == Escaped(f.key) + mid;
    ReadFieldParts(s, f.key, [COLON] + value, f.value, tail);
  }

  lemma ReadLastField(f: Field, tail: seq<byte>)
    ensures ReadFields(FieldText(f, [CLOSE_BRACE] + tail)) == Some(([f], tail))
  {
    ReadFieldBack(f, [CLOSE_BRACE] + tail);
    assert ([CLOSE_BRACE] + tail)[1..] == tail;
  }

  /** Reading an object's text gives its fields back, in order, and stops behind the brace. */
  lemma {:induction false} ReadFieldsBack(fs: seq<Field>, tail: seq<byte>)
    requires fs != []
    ensures ReadFields(FieldsText(fs, tail)) == Some((fs, tail))
    decreases |fs|
  {
    if |fs| == 1 {
      ReadLastField(fs[0], tail);
      assert [fs[0]] == fs;
    } else {
      var others := FieldsText(fs[1..], tail);
      ReadFieldsBack(fs[1..], tail);
      ReadFieldBack(fs[0], [COMMA] + others);
      assert ([COMMA] + others)[1..] == others;
      ReadFieldsParts(FieldsText(fs, tail), fs[0], [COMMA] + others, fs[1..], tail);
      assert [fs[0]] + fs[1..] == fs;
    }
  }

  lemma ReadObjectBack(fs: seq<Field>, tail: seq<byte>)
    requires fs != []
    ensures ReadObject([OPEN_BRACE] + FieldsText(fs, tail)) == Some((fs, tail))
  {
    assert ([OPEN_BRACE] + FieldsText(fs, tail))[1..] == FieldsText(fs, tail);
    ReadFieldsBack(fs, tail);
  }
}
