/** Filling the 64-byte block buffer of the hasher from the front, and its big-endian stores and loads. */
module BlockBuffer {
  import opened Words
  import opened Bits
  import opened Sequences
  import opened Endian

  function ZeroBytes(n: nat): (z: seq<byte>)
    ensures |z| == n
  {
    seq(n, _ => 0)
  }

  lemma MoreZeros(front: seq<byte>, a: nat, b: nat)
    ensures front + ZeroBytes(a) + ZeroBytes(b) == front + ZeroBytes(a + b)
  {
    assert ZeroBytes(a) + ZeroBytes(b) == ZeroBytes(a + b);
    Associate(front, ZeroBytes(a), ZeroBytes(b));
  }

  /** Copies `data` behind the first `at` bytes. */
  method CopyInto(buffer: array<byte>, at: nat, data: seq<byte>)
    requires at + |data| <= buffer.Length
    modifies buffer
    ensures buffer[..at + |data|] == old(buffer[..at]) + data
  {
    ghost var front := buffer[..at];
    var i := 0;
    while i < |data|
      invariant 0 <= i <= |data| && buffer[..at + i] == front + data[..i]
    {
      ghost var written := buffer[..at + i];
      buffer[at + i] := data[i];
      TakeOne(buffer[..], at + i);
      TakeTake(buffer[..], at + i + 1, at + i);
      assert buffer[..at + i] == written;
      TakeOne(data, i);
      Associate(front, data[..i], [data[i]]);
      i := i + 1;
    }
    TakeAll(data);
  }

  /** Writes zero bytes behind the first `from` bytes, up to `limit`. */
  method ZeroFill(buffer: array<byte>, from: nat, limit: nat)
    requires from <= limit <= buffer.Length
    modifies buffer
    ensures buffer[..limit] == old(buffer[..from]) + ZeroBytes(limit - from)
  {
    var i := from;
    while i < limit
      invariant from <= i <= limit && buffer[..i] == old(buffer[..from]) + ZeroBytes(i - from)
    {
      ghost var written := buffer[..i];
      buffer[i] := 0;
      assert buffer[..i] == written && buffer[..i + 1] == written + [0];
      assert ZeroBytes(i + 1 - from) == ZeroBytes(i - from) + [0];
      Associate(old(buffer[..from]), ZeroBytes(i - from), [0]);
      i := i + 1;
    }
  }

  /** Stores a 64-bit word behind the first `at` bytes, most significant byte first. */
  method StoreBigEndian64(buffer: array<byte>, at: nat, v: nat)
    requires at + 8 == buffer.Length
    modifies buffer
    ensures buffer[..] == old(buffer[..at]) + BigEndian(v, 8)
  {
    var i := 0;
    while i < 8
      invariant 0 <= i <= 8 && buffer[..at] == old(buffer[..at])
      invariant forall k :: 0 <= k < i ==> buffer[at + k] == BigEndian(v, 8)[k]
    {
      DigitAt(v, 8, 7 - i);
      buffer[at + i] := v / Pow2(56 - 8 * i) % 256;
      i := i + 1;
    }
  }

  /** Stores a 32-bit word behind the first `at` bytes, most significant byte first. */
  method StoreBigEndian32(buffer: array<byte>, at: nat, v: nat)
    requires at + 4 <= buffer.Length
    modifies buffer
    ensures buffer[..at + 4] == old(buffer[..at]) + BigEndian(v, 4)
    ensures buffer[at + 4..] == old(buffer[at + 4..])
  {
    DigitAt(v, 4, 0);
    DigitAt(v, 4, 1);
    DigitAt(v, 4, 2);
    DigitAt(v, 4, 3);
    buffer[at] := v / Pow2(24) % 256;
    buffer[at + 1] := v / Pow2(16) % 256;
    buffer[at + 2] := v / Pow2(8) % 256;
    buffer[at + 3] := v / Pow2(0) % 256;
  }

  lemma FourBytes(p: seq<byte>, a: nat, b: nat, c: nat, d: nat)
    requires |p| == 4 && p[0] == a && p[1] == b && p[2] == c && p[3] == d
    ensures BigValue(p) == ((a * 256 + b) * 256 + c) * 256 + d
  {
    assert BigValue(p[..3]) == 256 * BigValue(p[..3][..2]) + c;
    assert p[..3][..2] == p[..2] && p[..2][..1] == p[..1] && p[..1][..0] == [];
    assert BigValue(p[..2]) == 256 * BigValue(p[..1]) + b;
    assert BigValue(p[..1]) == a;
  }

  /** Four bytes shifted into place and or-ed together are their big-endian value. */
  lemma OrFour(p: seq<byte>, a: nat, b: nat, c: nat, d: nat)
    requires |p| == 4 && p[0] == a && p[1] == b && p[2] == c && p[3] == d
    ensures Or(Or(Or(Shl(a, 24), Shl(b, 16)), Shl(c, 8)), d) == BigValue(p)
  {
    FourBytes(p, a, b, c, d);
    OrNextLower(a, b, 16);
    OrNextLower(a * 256 + b, c, 8);
    OrNextLower((a * 256 + b) * 256 + c, d, 0);
    OneUnit(d);
    OneUnit(BigValue(p));
  }

  lemma OneUnit(x: nat)
    ensures Shl(x, 0) == x
  {
  }

  lemma Spread(high: nat, b: nat, m: nat)
    requires b < 256 && m > 0
    ensures b * m < 256 * m && (high * 256 + b) * m == b * m + high * (256 * m)
  {
  }

  lemma OrNextLower(high: nat, b: nat, k: nat)
    requires b < 256
    ensures Or(Shl(high, k + 8), Shl(b, k)) == Shl(high * 256 + b, k)
  {
    PowAdd(8, k);
    assert Pow2(8) == 256;
    var low, m := b * Pow2(k), Pow2(k + 8);
    Spread(high, b, Pow2(k));
    OrDisjoint(low, high, k + 8);
    OrCommutes(low, high * m);
  }
}
