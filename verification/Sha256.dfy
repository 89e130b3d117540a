/** The streaming SHA-256 core: a 64-byte buffer, a compression in place and a hasher that re-arms. */
module Sha256 {
  import opened Words
  import opened Bits
  import opened Sequences
  import opened Endian
  import opened BlockBuffer
  import opened Sha256Spec

  lemma ScheduleLoads(block: Block, t: nat)
    requires t < 16
    ensures Schedule(block, t + 1) == Schedule(block, t) + [BigEndianWord(block[4 * t..4 * t + 4])]
  {
  }

  lemma ScheduleMixes(block: Block, t: nat)
    requires 16 <= t < 64
    ensures var w := Schedule(block, t);
            Schedule(block, t + 1) ==
            w + [Mixed(w[t - 16], w[t - 15], w[t - 7], w[t - 2])]
  {
  }

  /** Four bytes shifted into place and or-ed into one word. */
  method LoadBigEndian32(p: seq<byte>) returns (w: Word)
    requires |p| == 4
    ensures w == BigEndianWord(p)
  {
    OrFour(p, p[0], p[1], p[2], p[3]);
    FourBytesFit(p);
    w := Or(Or(Or(Shl(p[0], 24), Shl(p[1], 16)), Shl(p[2], 8)), p[3]) as Word;
  }

  method LoadWord(block: array<byte>, w: array<Word>, i: nat, ghost b: Block)
    requires block.Length == 64 == w.Length && b == block[..] && i < 16 && w[..i] == Schedule(b, i)
    modifies w
    ensures w[..i + 1] == Schedule(b, i + 1)
  {
    var word := block[4 * i..4 * i + 4];
    assert b[4 * i..4 * i + 4] == word;
    ScheduleLoads(b, i);
    w[i] := LoadBigEndian32(word);
  }

  method Mix(w16: Word, w15: Word, w7: Word, w2: Word) returns (w: Word)
    ensures w == Mixed(w16, w15, w7, w2)
  {
    var s0 := w15.RotateRight(7) ^ w15.RotateRight(18) ^ (w15 >> 3);
    var s1 := w2.RotateRight(17) ^ w2.RotateRight(19) ^ (w2 >> 10);
    w := Plus(Plus(Plus(w16, s0), w7), s1);
  }

  method MixWord(w: array<Word>, i: nat, ghost b: Block)
    requires w.Length == 64 && 16 <= i < 64 && w[..i] == Schedule(b, i)
    modifies w
    ensures w[..i + 1] == Schedule(b, i + 1)
  {
    ScheduleMixes(b, i);
    w[i] := Mix(w[i - 16], w[i - 15], w[i - 7], w[i - 2]);
  }

  method FillSchedule(block: array<byte>) returns (w: array<Word>)
    requires block.Length == 64
    ensures fresh(w) && w[..] == Schedule(block[..], 64)
  {
    w := new Word[64];
    ghost var b: Block := block[..];
    var i := 0;
    while i < 16
      invariant 0 <= i <= 16 && w[..i] == Schedule(b, i)
    {
      LoadWord(block, w, i, b);
      i := i + 1;
    }
    while i < 64
      invariant 16 <= i <= 64 && w[..i] == Schedule(b, i)
    {
      MixWord(w, i, b);
      i := i + 1;
    }
    assert w[..64] == w[..];
  }

  /** The sixty-four rounds with the constants `k`. */
  method RunRounds(h: Hash, k: nat -> Word, w: seq<Word>) returns (v: Working)
    requires |w| == 64
    ensures v == Rounds(Load(h), k, w, 64)
  {
    var a, b, c, d, e, f, g, hh := h[0], h[1], h[2], h[3], h[4], h[5], h[6], h[7];
    var i := 0;
    while i < 64
      invariant 0 <= i <= 64 && Working(a, b, c, d, e, f, g, hh) == Rounds(Load(h), k, w, i)
    {
      var s1 := e.RotateRight(6) ^ e.RotateRight(11) ^ e.RotateRight(25);
      var ch := (e & f) ^ (!e & g);
      var t1 := Plus(Plus(Plus(Plus(hh, s1), ch), k(i)), w[i]);
      var s0 := a.RotateRight(2) ^ a.RotateRight(13) ^ a.RotateRight(22);
      var maj := (a & b) ^ (a & c) ^ (b & c);
      var t2 := Plus(s0, maj);
      hh := g;
      g := f;
      f := e;
      e := Plus(d, t1);
      d := c;
      c := b;
      b := a;
      a := Plus(t1, t2);
      i := i + 1;
    }
    v := Working(a, b, c, d, e, f, g, hh);
  }

  method Put(state: array<Word>, h: Hash)
    requires state.Length == 8
    modifies state
    ensures state[..] == h
  {
    var i := 0;
    while i < 8
      invariant 0 <= i <= 8 && state[..i] == h[..i]
    {
      state[i] := h[i];
      i := i + 1;
    }
    assert state[..8] == state[..] && h[..8] == h;
  }

  /** Folds one block into the hash value, in place. */
  method Compress(state: array<Word>, block: array<byte>)
    requires state.Length == 8 && block.Length == 64
    modifies state
    ensures state[..] == Compressed(old(state[..]), block[..])
  {
    var w := FillSchedule(block);
    var v := RunRounds(state[..], RoundConstant, w[..]);
    Put(state, Added(state[..], v));
  }

  class SHA256Core {
    const state: array<Word>
    const buffer: array<byte>
    var totalBytes: u64
    var buffered: nat
    /** The message absorbed since the core was last armed: its whole blocks and what is left of it. */
    ghost var whole: seq<byte>
    ghost var rest: seq<byte>

    /** The state is the hash of the whole blocks, the buffer starts with the rest. */
    ghost predicate Holds()
      reads `buffered, `whole, `rest, state, buffer
    {
      && state.Length == 8 && buffer.Length == 64 && buffered == |rest| <= 64
      && StateIs(state[..], whole) && buffer[..buffered] == rest
    }

    ghost predicate Valid()
      reads this, state, buffer
    {
      Holds() && buffered < 64 && totalBytes == |Message()| % U64_LIMIT
    }

    ghost function Message(): seq<byte>
      reads `whole, `rest
    {
      whole + rest
    }

    constructor ()
      ensures Valid() && Message() == [] && fresh(state) && fresh(buffer)
    {
      state, buffer := new Word[8], new byte[64];
      totalBytes, buffered, whole, rest := 0, 0, [], [];
      new;
      Put(state, InitialHash());
      StateStarts();
    }

    /** Compresses the buffer once it is full. */
    method Flush()
      requires Holds() && buffered == 64
      modifies this`buffered, this`whole, this`rest, state
      ensures Holds() && rest == [] && Message() == whole == old(Message())
    {
      assert buffer[..] == rest;
      StateStep(state[..], whole, rest);
      Compress(state, buffer);
      buffered, whole, rest := 0, whole + rest, [];
      assert whole + [] == whole;
    }

    /** Takes in bytes that fit behind the buffered ones. */
    method TakeIn(data: seq<byte>)
      requires Holds() && buffered + |data| <= 64
      modifies this`buffered, this`rest, buffer
      ensures Holds() && buffered == old(buffered) + |data| && Message() == old(Message()) + data
    {
      CopyInto(buffer, buffered, data);
      Associate(whole, rest, data);
      buffered, rest := buffered + |data|, rest + data;
    }

    method ZeroUpTo(limit: nat)
      requires Holds() && buffered <= limit <= 64
      modifies this`buffered, this`rest, buffer
      ensures Holds() && buffered == limit && Message() == old(Message()) + ZeroBytes(limit - old(buffered))
    {
      ZeroFill(buffer, buffered, limit);
      ghost var zeros := ZeroBytes(limit - buffered);
      Associate(whole, rest, zeros);
      buffered, rest := limit, rest + zeros;
    }

    /** Absorbs one chunk, of any size. */
    method Absorb(data: seq<byte>)
      requires Valid()
      modifies this, state, buffer
      ensures Valid() && Message() == old(Message()) + data
    {
      ghost var before := Message();
      totalBytes := (totalBytes + |data|) % U64_LIMIT;
      var at := 0;
      while at < |data|
        modifies this`buffered, this`whole, this`rest, state, buffer
        invariant 0 <= at <= |data| && Holds() && buffered < 64
        invariant Message() == before + data[..at]
      {
        var take := if 64 - buffered < |data| - at then 64 - buffered else |data| - at;
        TakeSplit(data, at, at + take);
        Associate(before, data[..at], data[at..at + take]);
        TakeIn(data[at..at + take]);
        at := at + take;
        if buffered == 64 {
          Flush();
        }
      }
      TakeAll(data);
      LengthWraps(|before|, |data|);
    }

    /** Appends the end bit and zeros until exactly the length is missing from a block; where the length
        no longer fits behind the message this fills and folds in one block more. */
    method AppendZeros()
      requires Holds() && buffered < 64
      modifies this`buffered, this`whole, this`rest, state, buffer
      ensures Holds() && buffered == 56
      ensures Message() == old(Message()) + [0x80] + ZeroBytes(ZeroCount(|old(Message())|))
    {
      ghost var m, r := Message(), buffered;
      ZeroCountBehind(|whole|, r);
      TakeIn([0x80]);
      if buffered > 56 {
        ZeroUpTo(64);
        Flush();
        MoreZeros(m + [0x80], 63 - r, 56);
      }
      ZeroUpTo(56);
    }

    method StoreLength(bits: nat)
      requires Holds() && buffered == 56
      modifies this`buffered, this`rest, buffer
      ensures Holds() && buffered == 64 && Message() == old(Message()) + BigEndian(bits, 8)
    {
      StoreBigEndian64(buffer, 56, bits);
      Associate(whole, rest, BigEndian(bits, 8));
      buffered, rest := 64, rest + BigEndian(bits, 8);
      assert buffer[..64] == buffer[..];
    }

    /** Appends the whole padding and folds the last block in. */
    method AppendPadding()
      requires Valid() && |Message()| < MESSAGE_LIMIT
      modifies this`buffered, this`whole, this`rest, state, buffer
      ensures Holds() && whole == Pad(old(Message()))
    {
      ghost var m := Message();
      SmallLength(|m|);
      var bits := 8 * totalBytes;
      AppendZeros();
      StoreLength(bits);
      assert Message() == Pad(m);
      Flush();
    }

    method Rearm()
      requires state.Length == 8 && buffer.Length == 64
      modifies this, state
      ensures Valid() && Message() == []
    {
      Put(state, InitialHash());
      StateStarts();
      totalBytes, buffered, whole, rest := 0, 0, [], [];
    }

    /** The digest of everything absorbed since the core was last armed; arms it for the next message. */
    method Finalize() returns (digest: seq<byte>)
      requires Valid() && |Message()| < MESSAGE_LIMIT
      modifies this, state, buffer
      ensures digest == Digest(old(Message()))
      ensures Valid() && Message() == []
    {
      ghost var m := Message();
      AppendPadding();
      digest := StoreDigest(state, m);
      Rearm();
    }
  }

  method StoreDigest(state: array<Word>, ghost m: seq<byte>) returns (digest: seq<byte>)
    requires StateIs(state[..], Pad(m)) && state.Length == 8
    ensures digest == Digest(m)
  {
    var out := new byte[32];
    ghost var h := state[..];
    var i := 0;
    while i < 8
      invariant 0 <= i <= 8 && out[..4 * i] == HashBytes(h[..i])
    {
      assert h[..i + 1][..i] == h[..i];
      StoreBigEndian32(out, 4 * i, state[i] as int);
      i := i + 1;
    }
    assert h[..8] == h && out[..32] == out[..];
    assert Open(true);
    digest := out[..];
  }

  lemma SmallLength(n: nat)
    requires n < MESSAGE_LIMIT
    ensures n % U64_LIMIT == n
  {
  }

  lemma LengthWraps(a: nat, b: nat)
    ensures (a % U64_LIMIT + b) % U64_LIMIT == (a + b) % U64_LIMIT
  {
  }

  /** The one-shot digest. */
  method OneShot(data: seq<byte>) returns (digest: seq<byte>)
    requires |data| < MESSAGE_LIMIT
    ensures digest == Digest(data)
  {
    var core := new SHA256Core();
    core.Absorb(data);
    assert [] + data == data;
    digest := core.Finalize();
  }

  /** Two messages delivered in chunks to one hasher, one after the other: however each is cut, each
      digest is the one-shot digest of its concatenation. */
  method Streamed(first: seq<seq<byte>>, second: seq<seq<byte>>) returns (a: seq<byte>, b: seq<byte>)
    requires |Flatten(first)| < MESSAGE_LIMIT && |Flatten(second)| < MESSAGE_LIMIT
    ensures a == Digest(Flatten(first)) && b == Digest(Flatten(second))
  {
    var core := new SHA256Core();
    AbsorbAll(core, first);
    a := core.Finalize();
    AbsorbAll(core, second);
    b := core.Finalize();
  }

  method AbsorbAll(core: SHA256Core, chunks: seq<seq<byte>>)
    requires core.Valid() && core.Message() == []
    modifies core, core.state, core.buffer
    ensures core.Valid() && core.Message() == Flatten(chunks)
  {
    var i := 0;
    assert chunks[..0] == [];
    while i < |chunks|
      invariant 0 <= i <= |chunks| && core.Valid() && core.Message() == Flatten(chunks[..i])
    {
      core.Absorb(chunks[i]);
      TakeOne(chunks, i);
      FlattenAppend(chunks[..i], [chunks[i]]);
      FlattenOne(chunks[i]);
      i := i + 1;
    }
    TakeAll(chunks);
  }
}
