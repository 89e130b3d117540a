/** Fixed-width unsigned words as bytes, least or most significant byte first. */
module Endian {
  import opened Words
  import opened Bits
  import opened Divisions
  import opened Sequences

  /** The `n` low bytes of `v`, least significant first. */
  function LittleEndian(v: nat, n: nat): (s: seq<byte>)
    ensures |s| == n
    decreases n
  {
    if n == 0 then [] else [v % 256] + LittleEndian(v / 256, n - 1)
  }

  /** The `n` low bytes of `v`, most significant first. */
  function BigEndian(v: nat, n: nat): (s: seq<byte>)
    ensures |s| == n
    decreases n
  {
    if n == 0 then [] else BigEndian(v / 256, n - 1) + [v % 256]
  }

  function LittleValue(s: seq<byte>): nat {
    if s == [] then 0 else s[0] + 256 * LittleValue(s[1..])
  }

  function BigValue(s: seq<byte>): nat {
    if s == [] then 0 else 256 * BigValue(s[..|s| - 1]) + s[|s| - 1]
  }

  /** 256^n. */
  function Span(n: nat): nat {
    Pow2(8 * n)
  }

  lemma SpanStep(n: nat)
    ensures Span(n + 1) == 256 * Span(n)
  {
    PowAdd(8, 8 * n);
    assert Pow2(8) == 256;
  }

  lemma QuotientBelow(v: nat, m: nat)
    requires v < 256 * m
    ensures v / 256 < m
  {
  }

  /** A value that fits in `n` bytes is read back from them, in either order. */
  lemma {:induction false} EncodeDecode(v: nat, n: nat)
    requires v < Span(n)
    ensures LittleValue(LittleEndian(v, n)) == v && BigValue(BigEndian(v, n)) == v
    decreases n
  {
    if n > 0 {
      SpanStep(n - 1);
      QuotientBelow(v, Span(n - 1));
      EncodeDecode(v / 256, n - 1);
      assert LittleEndian(v, n)[1..] == LittleEndian(v / 256, n - 1);
      assert BigEndian(v, n)[..n - 1] == BigEndian(v / 256, n - 1);
    }
  }

  lemma DigitSplit(high: nat, low: nat)
    requires low < 256
    ensures (low + 256 * high) % 256 == low && (low + 256 * high) / 256 == high
  {
  }

  lemma {:induction false} LittleBack(s: seq<byte>)
    ensures LittleEndian(LittleValue(s), |s|) == s
    decreases |s|
  {
    if s != [] {
      LittleBack(s[1..]);
      DigitSplit(LittleValue(s[1..]), s[0]);
      assert s == [s[0]] + s[1..];
    }
  }

  lemma {:induction false} BigBack(s: seq<byte>)
    ensures BigEndian(BigValue(s), |s|) == s
    decreases |s|
  {
    if s != [] {
      var n := |s| - 1;
      BigBack(s[..n]);
      DigitSplit(BigValue(s[..n]), s[n]);
      TakeOne(s, n);
      TakeAll(s);
    }
  }

  lemma {:induction false} ValuesFit(s: seq<byte>)
    ensures LittleValue(s) < Span(|s|) && BigValue(s) < Span(|s|)
    decreases |s|
  {
    if s != [] {
      ValuesFit(s[1..]);
      ValuesFit(s[..|s| - 1]);
      SpanStep(|s| - 1);
    }
  }

  lemma DivDiv(v: nat, a: nat)
    requires a > 0
    ensures v / 256 / a == v / (256 * a)
  {
    var q, r := v / 256 / a, v / 256 % a;
    assert v / 256 == q * a + r;
    assert v == q * (256 * a) + (256 * r + v % 256);
    DivModUnique(v, q, 256 * r + v % 256, 256 * a);
  }

  /** The byte that a shift by whole bytes and a mask pick out, in either order. */
  lemma {:induction false} DigitAt(v: nat, n: nat, i: nat)
    requires i < n
    ensures LittleEndian(v, n)[i] == v / Span(i) % 256
    ensures BigEndian(v, n)[n - 1 - i] == v / Span(i) % 256
    decreases n
  {
    if i == 0 {
      assert Span(0) == 1;
    } else {
      DigitAt(v / 256, n - 1, i - 1);
      SpanStep(i - 1);
      DivDiv(v, Span(i - 1));
    }
  }

  /** The narrow little-endian form is the start of the wide one. */
  lemma {:induction false} LittlePrefix(v: nat, n: nat, w: nat)
    requires w <= n
    ensures LittleEndian(v, n)[..w] == LittleEndian(v, w)
    decreases n
  {
    if w > 0 {
      LittlePrefix(v / 256, n - 1, w - 1);
      assert LittleEndian(v, n)[..w] == [v % 256] + LittleEndian(v / 256, n - 1)[..w - 1];
    }
  }

  /** The narrow big-endian form is the end of the wide one. */
  lemma {:induction false} BigSuffix(v: nat, n: nat, w: nat)
    requires w <= n
    ensures BigEndian(v, n)[n - w..] == BigEndian(v, w)
    decreases n
  {
    if w > 0 {
      BigSuffix(v / 256, n - 1, w - 1);
      assert BigEndian(v, n)[n - w..] == BigEndian(v / 256, n - 1)[n - w..] + [v % 256];
    }
  }

  lemma {:induction false} LittleAppend(s: seq<byte>, b: byte)
    ensures LittleValue(s + [b]) == LittleValue(s) + b * Span(|s|)
    decreases |s|
  {
    if s == [] {
      assert LittleValue([b]) == b;
    } else {
      assert (s + [b])[1..] == s[1..] + [b];
      LittleAppend(s[1..], b);
      SpanStep(|s| - 1);
      assert 256 * (b * Span(|s| - 1)) == b * Span(|s|);
    }
  }

  lemma BigAppend(s: seq<byte>, b: byte)
    ensures BigValue(s + [b]) == 256 * BigValue(s) + b
  {
    assert (s + [b])[..|s|] == s;
  }

  // ----- the loops -----

  /** `(value >> 8 * places) & 0xff` */
  method ByteAt(value: nat, places: nat) returns (b: byte)
    ensures b == value / Span(places) % 256
  {
    assert Pow2(8) == 256;
    AndLowMask(value / Pow2(8 * places), 8);
    b := And(value / Pow2(8 * places), 0xFF);
  }

  /** Writes the low bytes of `value`, least significant first, into a span of exactly that width. */
  method EncodeLittle(value: u64, bytes: array<byte>, width: nat) returns (ok: bool)
    requires width <= 8
    modifies bytes
    ensures ok <==> bytes.Length == width
    ensures bytes[..] == if ok then LittleEndian(value, width) else old(bytes[..])
  {
    if bytes.Length != width { return false; }
    var index := 0;
    while index < width
      invariant 0 <= index <= width
      invariant forall k :: 0 <= k < index ==> bytes[k] == LittleEndian(value, width)[k]
    {
      DigitAt(value, width, index);
      bytes[index] := ByteAt(value, index);
      index := index + 1;
    }
    ok := true;
  }

  method EncodeBig(value: u64, bytes: array<byte>, width: nat) returns (ok: bool)
    requires width <= 8
    modifies bytes
    ensures ok <==> bytes.Length == width
    ensures bytes[..] == if ok then BigEndian(value, width) else old(bytes[..])
  {
    if bytes.Length != width { return false; }
    var index := 0;
    while index < width
      invariant 0 <= index <= width
      invariant forall k :: 0 <= k < index ==> bytes[k] == BigEndian(value, width)[k]
    {
      DigitAt(value, width, width - 1 - index);
      bytes[index] := ByteAt(value, width - 1 - index);
      index := index + 1;
    }
    ok := true;
  }

  /** Reads a span of exactly `width` bytes, least significant first, by shifting and or-ing. */
  method DecodeLittle(bytes: seq<byte>, width: nat) returns (r: Option<nat>)
    requires width <= 8
    ensures r == if |bytes| == width then Some(LittleValue(bytes)) else None
  {
    if |bytes| != width { return None; }
    var value := 0;
    var index := 0;
    while index < |bytes|
      invariant 0 <= index <= |bytes| && value == LittleValue(bytes[..index])
    {
      OrNext(bytes, index);
      value := Or(value, bytes[index] * Pow2(8 * index));
      index := index + 1;
    }
    TakeAll(bytes);
    r := Some(value);
  }

  lemma OrNext(bytes: seq<byte>, index: nat)
    requires index < |bytes|
    ensures Or(LittleValue(bytes[..index]), bytes[index] * Pow2(8 * index)) == LittleValue(bytes[..index + 1])
  {
    ValuesFit(bytes[..index]);
    OrDisjoint(LittleValue(bytes[..index]), bytes[index], 8 * index);
    LittleAppend(bytes[..index], bytes[index]);
    TakeOne(bytes, index);
  }

  method DecodeBig(bytes: seq<byte>, width: nat) returns (r: Option<nat>)
    requires width <= 8
    ensures r == if |bytes| == width then Some(BigValue(bytes)) else None
  {
    if |bytes| != width { return None; }
    var value := 0;
    var index := 0;
    while index < |bytes|
      invariant 0 <= index <= |bytes| && value == BigValue(bytes[..index])
    {
      OrLast(bytes, index);
      value := Or(value * 256 % U64_LIMIT, bytes[index]);
      index := index + 1;
    }
    TakeAll(bytes);
    r := Some(value);
  }

  lemma OrLast(bytes: seq<byte>, index: nat)
    requires index < |bytes| <= 8
    ensures Or(BigValue(bytes[..index]) * 256 % U64_LIMIT, bytes[index]) == BigValue(bytes[..index + 1])
  {
    var high := BigValue(bytes[..index]);
    ShiftFits(bytes, index);
    OrDisjoint(bytes[index], high, 8);
    OrCommutes(bytes[index], high * Pow2(8));
    assert Pow2(8) == 256;
    BigAppend(bytes[..index], bytes[index]);
    TakeOne(bytes, index);
  }

  lemma ShiftFits(bytes: seq<byte>, index: nat)
    requires index < |bytes| <= 8
    ensures BigValue(bytes[..index]) * 256 % U64_LIMIT == BigValue(bytes[..index]) * 256
  {
    var high := BigValue(bytes[..index]);
    ValuesFit(bytes[..index]);
    SpanStep(index);
    Pow2Grows(8 * (index + 1), 64);
    SixtyFourBits();
    assert high * 256 < U64_LIMIT;
  }

  lemma ThirtyTwoBits()
    ensures Pow2(8) == 0x100 && Pow2(16) == 0x1_0000 && Pow2(24) == 0x100_0000 && Pow2(32) == U32_LIMIT
  {
    PowAdd(8, 8);
    PowAdd(16, 8);
    PowAdd(16, 16);
  }

  lemma SixtyFourBits()
    ensures Pow2(64) == U64_LIMIT
  {
    ThirtyTwoBits();
    PowAdd(32, 32);
  }
}
