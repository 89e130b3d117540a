/** SHA-256 as FIPS 180-4 defines it: the functions of section 4.1.2, the constants of sections 4.2.2 and
    5.3.3, the padding of section 5.1.1 and the computation of section 6.2. */
module Sha256Spec {
  import opened Words
  import opened Endian
  import opened BlockBuffer

  type Word = bv32
  type Block = b: seq<byte> | |b| == 64 witness seq(64, _ => 0)
  type Hash = h: seq<Word> | |h| == 8 witness seq(8, _ => 0)

  const MESSAGE_LIMIT: nat := 0x2000_0000_0000_0000

  /** Addition modulo 2^32. */
  function Plus(x: Word, y: Word): Word { x + y }

  function Ch(x: Word, y: Word, z: Word): Word { (x & y) ^ (!x & z) }

  function Maj(x: Word, y: Word, z: Word): Word { (x & y) ^ (x & z) ^ (y & z) }

  function Sum0(x: Word): Word { x.RotateRight(2) ^ x.RotateRight(13) ^ x.RotateRight(22) }

  function Sum1(x: Word): Word { x.RotateRight(6) ^ x.RotateRight(11) ^ x.RotateRight(25) }

  function Sigma0(x: Word): Word { x.RotateRight(7) ^ x.RotateRight(18) ^ (x >> 3) }

  function Sigma1(x: Word): Word { x.RotateRight(17) ^ x.RotateRight(19) ^ (x >> 10) }

  /** The sixty-four round constants, in rows of eight. */
  function ConstantRow(r: nat): (k: seq<u32>)
    ensures |k| == 8
  {
    match r
    case 0 => [0x428a2f98, 0x71374491, 0xb5c0fbcf, 0xe9b5dba5, 0x3956c25b, 0x59f111f1, 0x923f82a4, 0xab1c5ed5]
    case 1 => [0xd807aa98, 0x12835b01, 0x243185be, 0x550c7dc3, 0x72be5d74, 0x80deb1fe, 0x9bdc06a7, 0xc19bf174]
    case 2 => [0xe49b69c1, 0xefbe4786, 0x0fc19dc6, 0x240ca1cc, 0x2de92c6f, 0x4a7484aa, 0x5cb0a9dc, 0x76f988da]
    case 3 => [0x983e5152, 0xa831c66d, 0xb00327c8, 0xbf597fc7, 0xc6e00bf3, 0xd5a79147, 0x06ca6351, 0x14292967]
    case 4 => [0x27b70a85, 0x2e1b2138, 0x4d2c6dfc, 0x53380d13, 0x650a7354, 0x766a0abb, 0x81c2c92e, 0x92722c85]
    case 5 => [0xa2bfe8a1, 0xa81a664b, 0xc24b8b70, 0xc76c51a3, 0xd192e819, 0xd6990624, 0xf40e3585, 0x106aa070]
    case 6 => [0x19a4c116, 0x1e376c08, 0x2748774c, 0x34b0bcb5, 0x391c0cb3, 0x4ed8aa4a, 0x5b9cca4f, 0x682e6ff3]
    case _ => [0x748f82ee, 0x78a5636f, 0x84c87814, 0x8cc70208, 0x90befffa, 0xa4506ceb, 0xbef9a3f7, 0xc67178f2]
  }

  function RoundConstant(t: nat): Word {
    ConstantRow(t / 8)[t % 8] as Word
  }

  function InitialWords(): (k: seq<u32>)
    ensures |k| == 8
  {
    [0x6a09e667, 0xbb67ae85, 0x3c6ef372, 0xa54ff53a, 0x510e527f, 0x9b05688c, 0x1f83d9ab, 0x5be0cd19]
  }

  function InitialHash(): Hash {
    seq(8, i requires 0 <= i < 8 => InitialWords()[i] as Word)
  }

  lemma FourBytesFit(p: seq<byte>)
    requires |p| == 4
    ensures BigValue(p) < U32_LIMIT
  {
    ValuesFit(p);
    ThirtyTwoBits();
  }

  /** Four message bytes as one word, most significant first. */
  function BigEndianWord(p: seq<byte>): Word
    requires |p| == 4
  {
    FourBytesFit(p);
    BigValue(p) as Word
  }

  /** A schedule word from those sixteen, fifteen, seven and two places before it. */
  function Mixed(w16: Word, w15: Word, w7: Word, w2: Word): Word {
    Plus(Plus(Plus(w16, Sigma0(w15)), w7), Sigma1(w2))
  }

  /** The first `n` words of the message schedule of a block. */
  function Schedule(block: Block, n: nat): (w: seq<Word>)
    requires n <= 64
    ensures |w| == n
  {
    if n == 0 then []
    else
      var w := Schedule(block, n - 1);
      var t := n - 1;
      w + [if t < 16 then BigEndianWord(block[4 * t..4 * t + 4])
           else Mixed(w[t - 16], w[t - 15], w[t - 7], w[t - 2])]
  }

  datatype Working = Working(a: Word, b: Word, c: Word, d: Word, e: Word, f: Word, g: Word, h: Word)

  function Round(v: Working, k: Word, w: Word): Working {
    var t1 := Plus(Plus(Plus(Plus(v.h, Sum1(v.e)), Ch(v.e, v.f, v.g)), k), w);
    var t2 := Plus(Sum0(v.a), Maj(v.a, v.b, v.c));
    Working(Plus(t1, t2), v.a, v.b, v.c, Plus(v.d, t1), v.e, v.f, v.g)
  }

  function Rounds(v: Working, k: nat -> Word, w: seq<Word>, n: nat): Working
    requires n <= |w|
  {
    if n == 0 then v else Round(Rounds(v, k, w, n - 1), k(n - 1), w[n - 1])
  }

  function Load(h: Hash): Working {
    Working(h[0], h[1], h[2], h[3], h[4], h[5], h[6], h[7])
  }

  function Added(h: Hash, v: Working): Hash {
    [Plus(h[0], v.a), Plus(h[1], v.b), Plus(h[2], v.c), Plus(h[3], v.d),
     Plus(h[4], v.e), Plus(h[5], v.f), Plus(h[6], v.g), Plus(h[7], v.h)]
  }

  /** The hash value after one more block (section 6.2.2). */
  function Compressed(h: Hash, block: Block): Hash {
    Added(h, Rounds(Load(h), RoundConstant, Schedule(block, 64), 64))
  }

  /** Step 4 of section 6.2.2: the rounds start from the hash value before the block, and it is added to
      what they end with, word by word. */
  lemma FedForward(h: Hash, block: Block)
    ensures var start := Working(h[0], h[1], h[2], h[3], h[4], h[5], h[6], h[7]);
            var end := Rounds(start, RoundConstant, Schedule(block, 64), 64);
            Compressed(h, block) ==
            [Plus(h[0], end.a), Plus(h[1], end.b), Plus(h[2], end.c), Plus(h[3], end.d),
             Plus(h[4], end.e), Plus(h[5], end.f), Plus(h[6], end.g), Plus(h[7], end.h)]
  {
  }

  predicate WholeBlocks(m: seq<byte>) {
    |m| % 64 == 0
  }

  /** The hash value after all the blocks of `m`, from the initial one. */
  function HashOf(m: seq<byte>): Hash
    requires WholeBlocks(m)
    decreases |m|
  {
    if m == [] then InitialHash() else Compressed(HashOf(m[..|m| - 64]), m[|m| - 64..])
  }

  lemma HashOfOneMore(m: seq<byte>, block: Block)
    requires WholeBlocks(m)
    ensures WholeBlocks(m + block) && HashOf(m + block) == Compressed(HashOf(m), block)
  {
    assert (m + block)[..|m|] == m && (m + block)[|m|..] == block;
  }

  predicate Open(u: bool) { true }

  /** `h` is the hash value after the whole blocks `m`; kept folded until `Open` is mentioned, because the
      streaming proof does not depend on what the compression computes. */
  ghost predicate StateIs(h: seq<Word>, m: seq<byte>) {
    WholeBlocks(m) && forall u :: Open(u) ==> h == HashOf(m)
  }

  lemma StateStarts()
    ensures StateIs(InitialHash(), [])
  {
  }

  lemma StateStep(h: Hash, m: seq<byte>, block: Block)
    requires StateIs(h, m)
    ensures StateIs(Compressed(h, block), m + block)
  {
    assert Open(true);
    HashOfOneMore(m, block);
  }

  /** How many zero bytes the padding of an n-byte message holds. */
  function ZeroCount(n: nat): nat {
    (119 - n % 64) % 64
  }

  /** It is the least solution of the equation of section 5.1.1, taken in bytes. */
  lemma ZeroCountIsLeast(n: nat, z: nat)
    ensures (n + 1 + ZeroCount(n)) % 64 == 56
    ensures (n + 1 + z) % 64 == 56 ==> ZeroCount(n) <= z
  {
    var r := n % 64;
    assert n + 1 + ZeroCount(n) == 64 * (n / 64) + (r + 1 + ZeroCount(n));
    if z < 64 {
      assert n + 1 + z == 64 * (n / 64) + (r + 1 + z);
    }
  }

  lemma PaddedLength(n: nat)
    ensures (n + 1 + ZeroCount(n) + 8) % 64 == 0
  {
    var r := n % 64;
    assert n + 1 + ZeroCount(n) + 8 == 64 * (n / 64) + (r + 9 + ZeroCount(n));
  }

  lemma ZeroCountBehind(n: nat, r: nat)
    requires n % 64 == 0 && r < 64
    ensures ZeroCount(n + r) == if r < 56 then 55 - r else 119 - r
  {
  }

  /** The message, a one bit, zeros and the length in bits, as bytes. */
  function Pad(m: seq<byte>): (p: seq<byte>)
    ensures WholeBlocks(p)
  {
    PaddedLength(|m|);
    m + [0x80] + ZeroBytes(ZeroCount(|m|)) + BigEndian(8 * |m|, 8)
  }

  function WordBytes(w: Word): (s: seq<byte>)
    ensures |s| == 4
  {
    BigEndian(w as int, 4)
  }

  function HashBytes(h: seq<Word>): (s: seq<byte>)
    ensures |s| == 4 * |h|
  {
    if h == [] then [] else HashBytes(h[..|h| - 1]) + WordBytes(h[|h| - 1])
  }

  /** The message digest. */
  function Digest(m: seq<byte>): (d: seq<byte>)
    ensures |d| == 32
  {
    HashBytes(HashOf(Pad(m)))
  }
}
