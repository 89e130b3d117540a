/** The worked example of appendix B.1 of FIPS 180-2: the digest of "abc", word by word and round by round.
    The definitions are kept folded, so that each step is computed on literals alone. */
module Sha256Example {
  import opened Words
  import opened Endian
  import opened BlockBuffer
  import opened Sha256Spec

  const ABC: seq<byte> := [0x61, 0x62, 0x63]

  /** `s` is the message schedule of the padded message. */
  ghost predicate IsSchedule(s: seq<Word>) {
    |s| == 64 && |Pad(ABC)| == 64 && forall u :: Open(u) ==> s == Schedule(Pad(ABC), 64)
  }

  /** The working variables before round `t`. */
  ghost predicate Stands(s: seq<Word>, t: nat, v: Working) {
    t <= |s| && forall u :: Open(u) ==> Rounds(Load(InitialHash()), RoundConstant, s, t) == v
  }

  /** Eight words of `s` from `t` on. */
  predicate Row(s: seq<Word>, t: nat, a: Word, b: Word, c: Word, d: Word, e: Word, f: Word, g: Word, h: Word) {
    && |s| == 64 && t + 8 <= |s| && s[t] == a && s[t + 1] == b && s[t + 2] == c && s[t + 3] == d
    && s[t + 4] == e && s[t + 5] == f && s[t + 6] == g && s[t + 7] == h
  }

  // ----- the block -----

  lemma FourBytesValue(b0: byte, b1: byte, b2: byte, b3: byte)
    ensures BigValue([b0, b1, b2, b3]) == ((b0 * 256 + b1) * 256 + b2) * 256 + b3
  {
    assert [b0, b1, b2, b3][..3] == [b0, b1, b2] && [b0, b1, b2][..2] == [b0, b1] && [b0, b1][..1] == [b0];
    assert BigValue([b0]) == b0 && BigValue([b0, b1]) == b0 * 256 + b1;
    assert BigValue([b0, b1, b2]) == (b0 * 256 + b1) * 256 + b2;
  }

  lemma {:induction false} ZerosAreZero(n: nat)
    ensures BigValue(ZeroBytes(n)) == 0
  {
    if n > 0 {
      ZerosAreZero(n - 1);
      assert ZeroBytes(n)[..n - 1] == ZeroBytes(n - 1);
    }
  }

  lemma PaddedAbc()
    ensures |Pad(ABC)| == 64 && Pad(ABC)[0..4] == [0x61, 0x62, 0x63, 0x80] && Pad(ABC)[60..64] == [0, 0, 0, 24]
    ensures forall t :: 1 <= t < 15 ==> Pad(ABC)[4 * t..4 * t + 4] == [0, 0, 0, 0]
  {
    var length: seq<byte> := [0, 0, 0, 0, 0, 0, 0, 24];
    assert length[..7] == ZeroBytes(7);
    BigBack(length);
    ZerosAreZero(7);
    assert BigValue(length) == 24;
    assert Pad(ABC) == ABC + [0x80] + ZeroBytes(52) + length;
  }

  // ----- the schedule -----

  lemma {:induction false} ScheduleAt(block: Block, t: nat, n: nat)
    requires t < n <= 64
    ensures Schedule(block, n)[..t + 1] == Schedule(block, t + 1)
    decreases n
  {
    if t + 1 < n {
      ScheduleAt(block, t, n - 1);
      assert Schedule(block, n)[..n - 1] == Schedule(block, n - 1);
      assert Schedule(block, n)[..t + 1] == Schedule(block, n)[..n - 1][..t + 1];
    }
  }

  lemma WordIs(p: seq<byte>, w: Word)
    requires |p| == 4 && w as int == BigValue(p)
    ensures BigEndianWord(p) == w
  {
  }

  lemma FirstWord(s: seq<Word>, t: nat, b0: byte, b1: byte, b2: byte, b3: byte, w: Word)
    requires IsSchedule(s) && t < 16 && Pad(ABC)[4 * t..4 * t + 4] == [b0, b1, b2, b3]
    requires w as int == ((b0 * 256 + b1) * 256 + b2) * 256 + b3
    ensures s[t] == w
  {
    assert Open(true);
    ScheduleAt(Pad(ABC), t, 64);
    assert s[t] == s[..t + 1][t];
    FourBytesValue(b0, b1, b2, b3);
    WordIs(Pad(ABC)[4 * t..4 * t + 4], w);
  }

  lemma NextWord(s: seq<Word>, t: nat, w16: Word, w15: Word, w7: Word, w2: Word, w: Word)
    requires IsSchedule(s) && 16 <= t < 64
    requires s[t - 16] == w16 && s[t - 15] == w15 && s[t - 7] == w7 && s[t - 2] == w2
    requires Mixed(w16, w15, w7, w2) == w
    ensures s[t] == w
  {
    assert Open(true);
    ScheduleAt(Pad(ABC), t, 64);
    ScheduleAt(Pad(ABC), t - 1, 64);
    var front := s[..t];
    assert s[t] == s[..t + 1][t];
    assert front[t - 16] == w16 && front[t - 15] == w15 && front[t - 7] == w7 && front[t - 2] == w2;
  }

  lemma Words0(s: seq<Word>)
    requires IsSchedule(s)
    ensures Row(s, 0, 0x61626380, 0x00000000, 0x00000000, 0x00000000, 0x00000000, 0x00000000, 0x00000000, 0x00000000)
    ensures Row(s, 8, 0x00000000, 0x00000000, 0x00000000, 0x00000000, 0x00000000, 0x00000000, 0x00000000, 0x00000018)
  {
    PaddedAbc();
    FirstWord(s, 0, 0x61, 0x62, 0x63, 0x80, 0x61626380);
    forall t | 1 <= t < 15 ensures s[t] == 0 {
      FirstWord(s, t, 0, 0, 0, 0, 0);
    }
    FirstWord(s, 15, 0, 0, 0, 24, 24);
  }

  lemma Words2(s: seq<Word>)
    requires IsSchedule(s)
    requires Row(s, 0, 0x61626380, 0x00000000, 0x00000000, 0x00000000, 0x00000000, 0x00000000, 0x00000000, 0x00000000)
    requires Row(s, 8, 0x00000000, 0x00000000, 0x00000000, 0x00000000, 0x00000000, 0x00000000, 0x00000000, 0x00000018)
    ensures Row(s, 16, 0x61626380, 0x000f0000, 0x7da86405, 0x600003c6, 0x3e9d7b78, 0x0183fc00, 0x12dcbfdb, 0xe2e2c38e)
  {
    NextWord(s, 16, 0x61626380, 0x00000000, 0x00000000, 0x00000000, 0x61626380);
    NextWord(s, 17, 0x00000000, 0x00000000, 0x00000000, 0x00000018, 0x000f0000);
    NextWord(s, 18, 0x00000000, 0x00000000, 0x00000000, 0x61626380, 0x7da86405);
    NextWord(s, 19, 0x00000000, 0x00000000, 0x00000000, 0x000f0000, 0x600003c6);
    NextWord(s, 20, 0x00000000, 0x00000000, 0x00000000, 0x7da86405, 0x3e9d7b78);
    NextWord(s, 21, 0x00000000, 0x00000000, 0x00000000, 0x600003c6, 0x0183fc00);
    NextWord(s, 22, 0x00000000, 0x00000000, 0x00000018, 0x3e9d7b78, 0x12dcbfdb);
    NextWord(s, 23, 0x00000000, 0x00000000, 0x61626380, 0x0183fc00, 0xe2e2c38e);
  }

  lemma Words3(s: seq<Word>)
    requires IsSchedule(s)
    requires Row(s, 8, 0x00000000, 0x00000000, 0x00000000, 0x00000000, 0x00000000, 0x00000000, 0x00000000, 0x00000018)
    requires Row(s, 16, 0x61626380, 0x000f0000, 0x7da86405, 0x600003c6, 0x3e9d7b78, 0x0183fc00, 0x12dcbfdb, 0xe2e2c38e)
    ensures Row(s, 24, 0xc8215c1a, 0xb73679a2, 0xe5bc3909, 0x32663c5b, 0x9d209d67, 0xec8726cb, 0x702138a4, 0xd3b7973b)
  {
    NextWord(s, 24, 0x00000000, 0x00000000, 0x000f0000, 0x12dcbfdb, 0xc8215c1a);
    NextWord(s, 25, 0x00000000, 0x00000000, 0x7da86405, 0xe2e2c38e, 0xb73679a2);
    NextWord(s, 26, 0x00000000, 0x00000000, 0x600003c6, 0xc8215c1a, 0xe5bc3909);
    NextWord(s, 27, 0x00000000, 0x00000000, 0x3e9d7b78, 0xb73679a2, 0x32663c5b);
    NextWord(s, 28, 0x00000000, 0x00000000, 0x0183fc00, 0xe5bc3909, 0x9d209d67);
    NextWord(s, 29, 0x00000000, 0x00000000, 0x12dcbfdb, 0x32663c5b, 0xec8726cb);
    NextWord(s, 30, 0x00000000, 0x00000018, 0xe2e2c38e, 0x9d209d67, 0x702138a4);
    NextWord(s, 31, 0x00000018, 0x61626380, 0xc8215c1a, 0xec8726cb, 0xd3b7973b);
  }

  lemma Words4(s: seq<Word>)
    requires IsSchedule(s)
    requires Row(s, 16, 0x61626380, 0x000f0000, 0x7da86405, 0x600003c6, 0x3e9d7b78, 0x0183fc00, 0x12dcbfdb, 0xe2e2c38e)
    requires Row(s, 24, 0xc8215c1a, 0xb73679a2, 0xe5bc3909, 0x32663c5b, 0x9d209d67, 0xec8726cb, 0x702138a4, 0xd3b7973b)
    ensures Row(s, 32, 0x93f5997f, 0x3b68ba73, 0xaff4ffc1, 0xf10a5c62, 0x0a8b3996, 0x72af830a, 0x9409e33e, 0x24641522)
  {
    NextWord(s, 32, 0x61626380, 0x000f0000, 0xb73679a2, 0x702138a4, 0x93f5997f);
    NextWord(s, 33, 0x000f0000, 0x7da86405, 0xe5bc3909, 0xd3b7973b, 0x3b68ba73);
    NextWord(s, 34, 0x7da86405, 0x600003c6, 0x32663c5b, 0x93f5997f, 0xaff4ffc1);
    NextWord(s, 35, 0x600003c6, 0x3e9d7b78, 0x9d209d67, 0x3b68ba73, 0xf10a5c62);
    NextWord(s, 36, 0x3e9d7b78, 0x0183fc00, 0xec8726cb, 0xaff4ffc1, 0x0a8b3996);
    NextWord(s, 37, 0x0183fc00, 0x12dcbfdb, 0x702138a4, 0xf10a5c62, 0x72af830a);
    NextWord(s, 38, 0x12dcbfdb, 0xe2e2c38e, 0xd3b7973b, 0x0a8b3996, 0x9409e33e);
    NextWord(s, 39, 0xe2e2c38e, 0xc8215c1a, 0x93f5997f, 0x72af830a, 0x24641522);
  }

  lemma Words5(s: seq<Word>)
    requires IsSchedule(s)
    requires Row(s, 24, 0xc8215c1a, 0xb73679a2, 0xe5bc3909, 0x32663c5b, 0x9d209d67, 0xec8726cb, 0x702138a4, 0xd3b7973b)
    requires Row(s, 32, 0x93f5997f, 0x3b68ba73, 0xaff4ffc1, 0xf10a5c62, 0x0a8b3996, 0x72af830a, 0x9409e33e, 0x24641522)
    ensures Row(s, 40, 0x9f47bf94, 0xf0a64f5a, 0x3e246a79, 0x27333ba3, 0x0c4763f2, 0x840abf27, 0x7a290d5d, 0x065c43da)
  {
    NextWord(s, 40, 0xc8215c1a, 0xb73679a2, 0x3b68ba73, 0x9409e33e, 0x9f47bf94);
    NextWord(s, 41, 0xb73679a2, 0xe5bc3909, 0xaff4ffc1, 0x24641522, 0xf0a64f5a);
    NextWord(s, 42, 0xe5bc3909, 0x32663c5b, 0xf10a5c62, 0x9f47bf94, 0x3e246a79);
    NextWord(s, 43, 0x32663c5b, 0x9d209d67, 0x0a8b3996, 0xf0a64f5a, 0x27333ba3);
    NextWord(s, 44, 0x9d209d67, 0xec8726cb, 0x72af830a, 0x3e246a79, 0x0c4763f2);
    NextWord(s, 45, 0xec8726cb, 0x702138a4, 0x9409e33e, 0x27333ba3, 0x840abf27);
    NextWord(s, 46, 0x702138a4, 0xd3b7973b, 0x24641522, 0x0c4763f2, 0x7a290d5d);
    NextWord(s, 47, 0xd3b7973b, 0x93f5997f, 0x9f47bf94, 0x840abf27, 0x065c43da);
  }

  lemma Words6(s: seq<Word>)
    requires IsSchedule(s)
    requires Row(s, 32, 0x93f5997f, 0x3b68ba73, 0xaff4ffc1, 0xf10a5c62, 0x0a8b3996, 0x72af830a, 0x9409e33e, 0x24641522)
    requires Row(s, 40, 0x9f47bf94, 0xf0a64f5a, 0x3e246a79, 0x27333ba3, 0x0c4763f2, 0x840abf27, 0x7a290d5d, 0x065c43da)
    ensures Row(s, 48, 0xfb3e89cb, 0xcc7617db, 0xb9e66c34, 0xa9993667, 0x84badedd, 0xc21462bc, 0x1487472c, 0xb20f7a99)
  {
    NextWord(s, 48, 0x93f5997f, 0x3b68ba73, 0xf0a64f5a, 0x7a290d5d, 0xfb3e89cb);
    NextWord(s, 49, 0x3b68ba73, 0xaff4ffc1, 0x3e246a79, 0x065c43da, 0xcc7617db);
    NextWord(s, 50, 0xaff4ffc1, 0xf10a5c62, 0x27333ba3, 0xfb3e89cb, 0xb9e66c34);
    NextWord(s, 51, 0xf10a5c62, 0x0a8b3996, 0x0c4763f2, 0xcc7617db, 0xa9993667);
    NextWord(s, 52, 0x0a8b3996, 0x72af830a, 0x840abf27, 0xb9e66c34, 0x84badedd);
    NextWord(s, 53, 0x72af830a, 0x9409e33e, 0x7a290d5d, 0xa9993667, 0xc21462bc);
    NextWord(s, 54, 0x9409e33e, 0x24641522, 0x065c43da, 0x84badedd, 0x1487472c);
    NextWord(s, 55, 0x24641522, 0x9f47bf94, 0xfb3e89cb, 0xc21462bc, 0xb20f7a99);
  }

  lemma Words7(s: seq<Word>)
    requires IsSchedule(s)
    requires Row(s, 40, 0x9f47bf94, 0xf0a64f5a, 0x3e246a79, 0x27333ba3, 0x0c4763f2, 0x840abf27, 0x7a290d5d, 0x065c43da)
    requires Row(s, 48, 0xfb3e89cb, 0xcc7617db, 0xb9e66c34, 0xa9993667, 0x84badedd, 0xc21462bc, 0x1487472c, 0xb20f7a99)
    ensures Row(s, 56, 0xef57b9cd, 0xebe6b238, 0x9fe3095e, 0x78bc8d4b, 0xa43fcf15, 0x668b2ff8, 0xeeaba2cc, 0x12b1edeb)
  {
    NextWord(s, 56, 0x9f47bf94, 0xf0a64f5a, 0xcc7617db, 0x1487472c, 0xef57b9cd);
    NextWord(s, 57, 0xf0a64f5a, 0x3e246a79, 0xb9e66c34, 0xb20f7a99, 0xebe6b238);
    NextWord(s, 58, 0x3e246a79, 0x27333ba3, 0xa9993667, 0xef57b9cd, 0x9fe3095e);
    NextWord(s, 59, 0x27333ba3, 0x0c4763f2, 0x84badedd, 0xebe6b238, 0x78bc8d4b);
    NextWord(s, 60, 0x0c4763f2, 0x840abf27, 0xc21462bc, 0x9fe3095e, 0xa43fcf15);
    NextWord(s, 61, 0x840abf27, 0x7a290d5d, 0x1487472c, 0x78bc8d4b, 0x668b2ff8);
    NextWord(s, 62, 0x7a290d5d, 0x065c43da, 0xb20f7a99, 0xa43fcf15, 0xeeaba2cc);
    NextWord(s, 63, 0x065c43da, 0xfb3e89cb, 0xef57b9cd, 0x668b2ff8, 0x12b1edeb);
  }

  lemma AllWords(s: seq<Word>)
    requires IsSchedule(s)
    ensures Row(s, 0, 0x61626380, 0x00000000, 0x00000000, 0x00000000, 0x00000000, 0x00000000, 0x00000000, 0x00000000)
    ensures Row(s, 8, 0x00000000, 0x00000000, 0x00000000, 0x00000000, 0x00000000, 0x00000000, 0x00000000, 0x00000018)
    ensures Row(s, 16, 0x61626380, 0x000f0000, 0x7da86405, 0x600003c6, 0x3e9d7b78, 0x0183fc00, 0x12dcbfdb, 0xe2e2c38e)
    ensures Row(s, 24, 0xc8215c1a, 0xb73679a2, 0xe5bc3909, 0x32663c5b, 0x9d209d67, 0xec8726cb, 0x702138a4, 0xd3b7973b)
    ensures Row(s, 32, 0x93f5997f, 0x3b68ba73, 0xaff4ffc1, 0xf10a5c62, 0x0a8b3996, 0x72af830a, 0x9409e33e, 0x24641522)
    ensures Row(s, 40, 0x9f47bf94, 0xf0a64f5a, 0x3e246a79, 0x27333ba3, 0x0c4763f2, 0x840abf27, 0x7a290d5d, 0x065c43da)
    ensures Row(s, 48, 0xfb3e89cb, 0xcc7617db, 0xb9e66c34, 0xa9993667, 0x84badedd, 0xc21462bc, 0x1487472c, 0xb20f7a99)
    ensures Row(s, 56, 0xef57b9cd, 0xebe6b238, 0x9fe3095e, 0x78bc8d4b, 0xa43fcf15, 0x668b2ff8, 0xeeaba2cc, 0x12b1edeb)
  {
    Words0(s);
    Words2(s);
    Words3(s);
    Words4(s);
    Words5(s);
    Words6(s);
    Words7(s);
  }

  // ----- the rounds -----

  lemma OneMore(s: seq<Word>, t: nat, v: Working)
    requires t < |s| && Stands(s, t, v)
    ensures Stands(s, t + 1, Round(v, RoundConstant(t), s[t]))
  {
    assert Open(true);
  }

  lemma Next(s: seq<Word>, t: nat, v: Working, k: Word, w: Word, a: Word, e: Word)
    requires t < |s| == 64 && Stands(s, t, v) && s[t] == w && k as int == ConstantRow(t / 8)[t % 8]
    requires Round(v, k, w) == Working(a, v.a, v.b, v.c, e, v.e, v.f, v.g)
    ensures Stands(s, t + 1, Working(a, v.a, v.b, v.c, e, v.e, v.f, v.g))
  {
    OneMore(s, t, v);
  }

  lemma Rounds0(s: seq<Word>)
    requires Stands(s, 0,
      Working(0x6a09e667, 0xbb67ae85, 0x3c6ef372, 0xa54ff53a, 0x510e527f, 0x9b05688c, 0x1f83d9ab, 0x5be0cd19))
    requires Row(s, 0, 0x61626380, 0x00000000, 0x00000000, 0x00000000, 0x00000000, 0x00000000, 0x00000000, 0x00000000)
    ensures Stands(s, 4,
      Working(0xd550f666, 0xc8c347a7, 0x5a6ad9ad, 0x5d6aebcd, 0x24e00850, 0xf92939eb, 0x78ce7989, 0xfa2a4622))
  {
    Next(s, 0, Working(0x6a09e667, 0xbb67ae85, 0x3c6ef372, 0xa54ff53a, 0x510e527f, 0x9b05688c, 0x1f83d9ab, 0x5be0cd19),
         0x428a2f98, 0x61626380, 0x5d6aebcd, 0xfa2a4622);
    Next(s, 1, Working(0x5d6aebcd, 0x6a09e667, 0xbb67ae85, 0x3c6ef372, 0xfa2a4622, 0x510e527f, 0x9b05688c, 0x1f83d9ab),
         0x71374491, 0x00000000, 0x5a6ad9ad, 0x78ce7989);
    Next(s, 2, Working(0x5a6ad9ad, 0x5d6aebcd, 0x6a09e667, 0xbb67ae85, 0x78ce7989, 0xfa2a4622, 0x510e527f, 0x9b05688c),
         0xb5c0fbcf, 0x00000000, 0xc8c347a7, 0xf92939eb);
    Next(s, 3, Working(0xc8c347a7, 0x5a6ad9ad, 0x5d6aebcd, 0x6a09e667, 0xf92939eb, 0x78ce7989, 0xfa2a4622, 0x510e527f),
         0xe9b5dba5, 0x00000000, 0xd550f666, 0x24e00850);
  }

  lemma Rounds4(s: seq<Word>)
    requires Stands(s, 4,
      Working(0xd550f666, 0xc8c347a7, 0x5a6ad9ad, 0x5d6aebcd, 0x24e00850, 0xf92939eb, 0x78ce7989, 0xfa2a4622))
    requires Row(s, 0, 0x61626380, 0x00000000, 0x00000000, 0x00000000, 0x00000000, 0x00000000, 0x00000000, 0x00000000)
    ensures Stands(s, 8,
      Working(0x85a07b5f, 0xe5030380, 0x2b4209f5, 0x04409a6a, 0x0c657a79, 0x9b27a401, 0x714260ad, 0x43ada245))
  {
    Next(s, 4, Working(0xd550f666, 0xc8c347a7, 0x5a6ad9ad, 0x5d6aebcd, 0x24e00850, 0xf92939eb, 0x78ce7989, 0xfa2a4622),
         0x3956c25b, 0x00000000, 0x04409a6a, 0x43ada245);
    Next(s, 5, Working(0x04409a6a, 0xd550f666, 0xc8c347a7, 0x5a6ad9ad, 0x43ada245, 0x24e00850, 0xf92939eb, 0x78ce7989),
         0x59f111f1, 0x00000000, 0x2b4209f5, 0x714260ad);
    Next(s, 6, Working(0x2b4209f5, 0x04409a6a, 0xd550f666, 0xc8c347a7, 0x714260ad, 0x43ada245, 0x24e00850, 0xf92939eb),
         0x923f82a4, 0x00000000, 0xe5030380, 0x9b27a401);
    Next(s, 7, Working(0xe5030380, 0x2b4209f5, 0x04409a6a, 0xd550f666, 0x9b27a401, 0x714260ad, 0x43ada245, 0x24e00850),
         0xab1c5ed5, 0x00000000, 0x85a07b5f, 0x0c657a79);
  }

  lemma Rounds8(s: seq<Word>)
    requires Stands(s, 8,
      Working(0x85a07b5f, 0xe5030380, 0x2b4209f5, 0x04409a6a, 0x0c657a79, 0x9b27a401, 0x714260ad, 0x43ada245))
    requires Row(s, 8, 0x00000000, 0x00000000, 0x00000000, 0x00000000, 0x00000000, 0x00000000, 0x00000000, 0x00000018)
    ensures Stands(s, 12,
      Working(0xf71fc5a9, 0x4798a3f4, 0x8c87346b, 0x8e04ecb9, 0x816fd6e9, 0x436b23e8, 0x1cc92596, 0x32ca2d8c))
  {
    Next(s, 8, Working(0x85a07b5f, 0xe5030380, 0x2b4209f5, 0x04409a6a, 0x0c657a79, 0x9b27a401, 0x714260ad, 0x43ada245),
         0xd807aa98, 0x00000000, 0x8e04ecb9, 0x32ca2d8c);
    Next(s, 9, Working(0x8e04ecb9, 0x85a07b5f, 0xe5030380, 0x2b4209f5, 0x32ca2d8c, 0x0c657a79, 0x9b27a401, 0x714260ad),
         0x12835b01, 0x00000000, 0x8c87346b, 0x1cc92596);
    Next(s, 10, Working(0x8c87346b, 0x8e04ecb9, 0x85a07b5f, 0xe5030380, 0x1cc92596, 0x32ca2d8c, 0x0c657a79, 0x9b27a401),
         0x243185be, 0x00000000, 0x4798a3f4, 0x436b23e8);
    Next(s, 11, Working(0x4798a3f4, 0x8c87346b, 0x8e04ecb9, 0x85a07b5f, 0x436b23e8, 0x1cc92596, 0x32ca2d8c, 0x0c657a79),
         0x550c7dc3, 0x00000000, 0xf71fc5a9, 0x816fd6e9);
  }

  lemma Rounds12(s: seq<Word>)
    requires Stands(s, 12,
      Working(0xf71fc5a9, 0x4798a3f4, 0x8c87346b, 0x8e04ecb9, 0x816fd6e9, 0x436b23e8, 0x1cc92596, 0x32ca2d8c))
    requires Row(s, 8, 0x00000000, 0x00000000, 0x00000000, 0x00000000, 0x00000000, 0x00000000, 0x00000000, 0x00000018)
    ensures Stands(s, 16,
      Working(0xb0fa238e, 0xc0645fde, 0xd932eb16, 0x87912990, 0x07590dcd, 0x0b92f20c, 0x745a48de, 0x1e578218))
  {
    Next(s, 12, Working(0xf71fc5a9, 0x4798a3f4, 0x8c87346b, 0x8e04ecb9, 0x816fd6e9, 0x436b23e8, 0x1cc92596, 0x32ca2d8c),
         0x72be5d74, 0x00000000, 0x87912990, 0x1e578218);
    Next(s, 13, Working(0x87912990, 0xf71fc5a9, 0x4798a3f4, 0x8c87346b, 0x1e578218, 0x816fd6e9, 0x436b23e8, 0x1cc92596),
         0x80deb1fe, 0x00000000, 0xd932eb16, 0x745a48de);
    Next(s, 14, Working(0xd932eb16, 0x87912990, 0xf71fc5a9, 0x4798a3f4, 0x745a48de, 0x1e578218, 0x816fd6e9, 0x436b23e8),
         0x9bdc06a7, 0x00000000, 0xc0645fde, 0x0b92f20c);
    Next(s, 15, Working(0xc0645fde, 0xd932eb16, 0x87912990, 0xf71fc5a9, 0x0b92f20c, 0x745a48de, 0x1e578218, 0x816fd6e9),
         0xc19bf174, 0x00000018, 0xb0fa238e, 0x07590dcd);
  }

  lemma Rounds16(s: seq<Word>)
    requires Stands(s, 16,
      Working(0xb0fa238e, 0xc0645fde, 0xd932eb16, 0x87912990, 0x07590dcd, 0x0b92f20c, 0x745a48de, 0x1e578218))
    requires Row(s, 16, 0x61626380, 0x000f0000, 0x7da86405, 0x600003c6, 0x3e9d7b78, 0x0183fc00, 0x12dcbfdb, 0xe2e2c38e)
    ensures Stands(s, 20,
      Working(0xe1f20c33, 0xfe777bbf, 0xc2fbd9d1, 0x21da9a9b, 0xb0638179, 0xcc899961, 0x846ee454, 0x8034229c))
  {
    Next(s, 16, Working(0xb0fa238e, 0xc0645fde, 0xd932eb16, 0x87912990, 0x07590dcd, 0x0b92f20c, 0x745a48de, 0x1e578218),
         0xe49b69c1, 0x61626380, 0x21da9a9b, 0x8034229c);
    Next(s, 17, Working(0x21da9a9b, 0xb0fa238e, 0xc0645fde, 0xd932eb16, 0x8034229c, 0x07590dcd, 0x0b92f20c, 0x745a48de),
         0xefbe4786, 0x000f0000, 0xc2fbd9d1, 0x846ee454);
    Next(s, 18, Working(0xc2fbd9d1, 0x21da9a9b, 0xb0fa238e, 0xc0645fde, 0x846ee454, 0x8034229c, 0x07590dcd, 0x0b92f20c),
         0x0fc19dc6, 0x7da86405, 0xfe777bbf, 0xcc899961);
    Next(s, 19, Working(0xfe777bbf, 0xc2fbd9d1, 0x21da9a9b, 0xb0fa238e, 0xcc899961, 0x846ee454, 0x8034229c, 0x07590dcd),
         0x240ca1cc, 0x600003c6, 0xe1f20c33, 0xb0638179);
  }

  lemma Rounds20(s: seq<Word>)
    requires Stands(s, 20,
      Working(0xe1f20c33, 0xfe777bbf, 0xc2fbd9d1, 0x21da9a9b, 0xb0638179, 0xcc899961, 0x846ee454, 0x8034229c))
    requires Row(s, 16, 0x61626380, 0x000f0000, 0x7da86405, 0x600003c6, 0x3e9d7b78, 0x0183fc00, 0x12dcbfdb, 0xe2e2c38e)
    ensures Stands(s, 24,
      Working(0xc5d53d8d, 0xa7a3623f, 0xc2606d6d, 0x9dc68b63, 0xaa47c347, 0x49f5114a, 0xe1257970, 0x8ada8930))
  {
    Next(s, 20, Working(0xe1f20c33, 0xfe777bbf, 0xc2fbd9d1, 0x21da9a9b, 0xb0638179, 0xcc899961, 0x846ee454, 0x8034229c),
         0x2de92c6f, 0x3e9d7b78, 0x9dc68b63, 0x8ada8930);
    Next(s, 21, Working(0x9dc68b63, 0xe1f20c33, 0xfe777bbf, 0xc2fbd9d1, 0x8ada8930, 0xb0638179, 0xcc899961, 0x846ee454),
         0x4a7484aa, 0x0183fc00, 0xc2606d6d, 0xe1257970);
    Next(s, 22, Working(0xc2606d6d, 0x9dc68b63, 0xe1f20c33, 0xfe777bbf, 0xe1257970, 0x8ada8930, 0xb0638179, 0xcc899961),
         0x5cb0a9dc, 0x12dcbfdb, 0xa7a3623f, 0x49f5114a);
    Next(s, 23, Working(0xa7a3623f, 0xc2606d6d, 0x9dc68b63, 0xe1f20c33, 0x49f5114a, 0xe1257970, 0x8ada8930, 0xb0638179),
         0x76f988da, 0xe2e2c38e, 0xc5d53d8d, 0xaa47c347);
  }

  lemma Rounds24(s: seq<Word>)
    requires Stands(s, 24,
      Working(0xc5d53d8d, 0xa7a3623f, 0xc2606d6d, 0x9dc68b63, 0xaa47c347, 0x49f5114a, 0xe1257970, 0x8ada8930))
    requires Row(s, 24, 0xc8215c1a, 0xb73679a2, 0xe5bc3909, 0x32663c5b, 0x9d209d67, 0xec8726cb, 0x702138a4, 0xd3b7973b)
    ensures Stands(s, 28,
      Working(0x77d37528, 0xb62ec4bc, 0xcde8037d, 0x1c2c2838, 0xedffbff8, 0xc74c6516, 0x14383d8e, 0x2823ef91))
  {
    Next(s, 24, Working(0xc5d53d8d, 0xa7a3623f, 0xc2606d6d, 0x9dc68b63, 0xaa47c347, 0x49f5114a, 0xe1257970, 0x8ada8930),
         0x983e5152, 0xc8215c1a, 0x1c2c2838, 0x2823ef91);
    Next(s, 25, Working(0x1c2c2838, 0xc5d53d8d, 0xa7a3623f, 0xc2606d6d, 0x2823ef91, 0xaa47c347, 0x49f5114a, 0xe1257970),
         0xa831c66d, 0xb73679a2, 0xcde8037d, 0x14383d8e);
    Next(s, 26, Working(0xcde8037d, 0x1c2c2838, 0xc5d53d8d, 0xa7a3623f, 0x14383d8e, 0x2823ef91, 0xaa47c347, 0x49f5114a),
         0xb00327c8, 0xe5bc3909, 0xb62ec4bc, 0xc74c6516);
    Next(s, 27, Working(0xb62ec4bc, 0xcde8037d, 0x1c2c2838, 0xc5d53d8d, 0xc74c6516, 0x14383d8e, 0x2823ef91, 0xaa47c347),
         0xbf597fc7, 0x32663c5b, 0x77d37528, 0xedffbff8);
  }

  lemma Rounds28(s: seq<Word>)
    requires Stands(s, 28,
      Working(0x77d37528, 0xb62ec4bc, 0xcde8037d, 0x1c2c2838, 0xedffbff8, 0xc74c6516, 0x14383d8e, 0x2823ef91))
    requires Row(s, 24, 0xc8215c1a, 0xb73679a2, 0xe5bc3909, 0x32663c5b, 0x9d209d67, 0xec8726cb, 0x702138a4, 0xd3b7973b)
    ensures Stands(s, 32,
      Working(0x73b33bf5, 0xea992a22, 0xa0060b30, 0x363482c9, 0xba591112, 0x0109ab3a, 0xade79437, 0x6112a3b7))
  {
    Next(s, 28, Working(0x77d37528, 0xb62ec4bc, 0xcde8037d, 0x1c2c2838, 0xedffbff8, 0xc74c6516, 0x14383d8e, 0x2823ef91),
         0xc6e00bf3, 0x9d209d67, 0x363482c9, 0x6112a3b7);
    Next(s, 29, Working(0x363482c9, 0x77d37528, 0xb62ec4bc, 0xcde8037d, 0x6112a3b7, 0xedffbff8, 0xc74c6516, 0x14383d8e),
         0xd5a79147, 0xec8726cb, 0xa0060b30, 0xade79437);
    Next(s, 30, Working(0xa0060b30, 0x363482c9, 0x77d37528, 0xb62ec4bc, 0xade79437, 0x6112a3b7, 0xedffbff8, 0xc74c6516),
         0x06ca6351, 0x702138a4, 0xea992a22, 0x0109ab3a);
    Next(s, 31, Working(0xea992a22, 0xa0060b30, 0x363482c9, 0x77d37528, 0x0109ab3a, 0xade79437, 0x6112a3b7, 0xedffbff8),
         0x14292967, 0xd3b7973b, 0x73b33bf5, 0xba591112);
  }

  lemma Rounds32(s: seq<Word>)
    requires Stands(s, 32,
      Working(0x73b33bf5, 0xea992a22, 0xa0060b30, 0x363482c9, 0xba591112, 0x0109ab3a, 0xade79437, 0x6112a3b7))
    requires Row(s, 32, 0x93f5997f, 0x3b68ba73, 0xaff4ffc1, 0xf10a5c62, 0x0a8b3996, 0x72af830a, 0x9409e33e, 0x24641522)
    ensures Stands(s, 36,
      Working(0x65a0cfe4, 0xa9a7738c, 0xfe604df5, 0x98e12507, 0xf4b002d6, 0x085f3833, 0x59249dd3, 0x9cd9f5f6))
  {
    Next(s, 32, Working(0x73b33bf5, 0xea992a22, 0xa0060b30, 0x363482c9, 0xba591112, 0x0109ab3a, 0xade79437, 0x6112a3b7),
         0x27b70a85, 0x93f5997f, 0x98e12507, 0x9cd9f5f6);
    Next(s, 33, Working(0x98e12507, 0x73b33bf5, 0xea992a22, 0xa0060b30, 0x9cd9f5f6, 0xba591112, 0x0109ab3a, 0xade79437),
         0x2e1b2138, 0x3b68ba73, 0xfe604df5, 0x59249dd3);
    Next(s, 34, Working(0xfe604df5, 0x98e12507, 0x73b33bf5, 0xea992a22, 0x59249dd3, 0x9cd9f5f6, 0xba591112, 0x0109ab3a),
         0x4d2c6dfc, 0xaff4ffc1, 0xa9a7738c, 0x085f3833);
    Next(s, 35, Working(0xa9a7738c, 0xfe604df5, 0x98e12507, 0x73b33bf5, 0x085f3833, 0x59249dd3, 0x9cd9f5f6, 0xba591112),
         0x53380d13, 0xf10a5c62, 0x65a0cfe4, 0xf4b002d6);
  }

  lemma Rounds36(s: seq<Word>)
    requires Stands(s, 36,
      Working(0x65a0cfe4, 0xa9a7738c, 0xfe604df5, 0x98e12507, 0xf4b002d6, 0x085f3833, 0x59249dd3, 0x9cd9f5f6))
    requires Row(s, 32, 0x93f5997f, 0x3b68ba73, 0xaff4ffc1, 0xf10a5c62, 0x0a8b3996, 0x72af830a, 0x9409e33e, 0x24641522)
    ensures Stands(s, 40,
      Working(0x79ea687a, 0x6dc57a8a, 0x34df1604, 0x41a65cb1, 0x1efbc0a0, 0xf0781bc8, 0xa507a53d, 0x0772a26b))
  {
    Next(s, 36, Working(0x65a0cfe4, 0xa9a7738c, 0xfe604df5, 0x98e12507, 0xf4b002d6, 0x085f3833, 0x59249dd3, 0x9cd9f5f6),
         0x650a7354, 0x0a8b3996, 0x41a65cb1, 0x0772a26b);
    Next(s, 37, Working(0x41a65cb1, 0x65a0cfe4, 0xa9a7738c, 0xfe604df5, 0x0772a26b, 0xf4b002d6, 0x085f3833, 0x59249dd3),
         0x766a0abb, 0x72af830a, 0x34df1604, 0xa507a53d);
    Next(s, 38, Working(0x34df1604, 0x41a65cb1, 0x65a0cfe4, 0xa9a7738c, 0xa507a53d, 0x0772a26b, 0xf4b002d6, 0x085f3833),
         0x81c2c92e, 0x9409e33e, 0x6dc57a8a, 0xf0781bc8);
    Next(s, 39, Working(0x6dc57a8a, 0x34df1604, 0x41a65cb1, 0x65a0cfe4, 0xf0781bc8, 0xa507a53d, 0x0772a26b, 0xf4b002d6),
         0x92722c85, 0x24641522, 0x79ea687a, 0x1efbc0a0);
  }

  lemma Rounds40(s: seq<Word>)
    requires Stands(s, 40,
      Working(0x79ea687a, 0x6dc57a8a, 0x34df1604, 0x41a65cb1, 0x1efbc0a0, 0xf0781bc8, 0xa507a53d, 0x0772a26b))
    requires Row(s, 40, 0x9f47bf94, 0xf0a64f5a, 0x3e246a79, 0x27333ba3, 0x0c4763f2, 0x840abf27, 0x7a290d5d, 0x065c43da)
    ensures Stands(s, 44,
      Working(0x9d4baf93, 0x17aa0dfe, 0xdf46652f, 0xd6670766, 0xfda24c2e, 0xdecd4715, 0x838b2711, 0x26352d63))
  {
    Next(s, 40, Working(0x79ea687a, 0x6dc57a8a, 0x34df1604, 0x41a65cb1, 0x1efbc0a0, 0xf0781bc8, 0xa507a53d, 0x0772a26b),
         0xa2bfe8a1, 0x9f47bf94, 0xd6670766, 0x26352d63);
    Next(s, 41, Working(0xd6670766, 0x79ea687a, 0x6dc57a8a, 0x34df1604, 0x26352d63, 0x1efbc0a0, 0xf0781bc8, 0xa507a53d),
         0xa81a664b, 0xf0a64f5a, 0xdf46652f, 0x838b2711);
    Next(s, 42, Working(0xdf46652f, 0xd6670766, 0x79ea687a, 0x6dc57a8a, 0x838b2711, 0x26352d63, 0x1efbc0a0, 0xf0781bc8),
         0xc24b8b70, 0x3e246a79, 0x17aa0dfe, 0xdecd4715);
    Next(s, 43, Working(0x17aa0dfe, 0xdf46652f, 0xd6670766, 0x79ea687a, 0xdecd4715, 0x838b2711, 0x26352d63, 0x1efbc0a0),
         0xc76c51a3, 0x27333ba3, 0x9d4baf93, 0xfda24c2e);
  }

  lemma Rounds44(s: seq<Word>)
    requires Stands(s, 44,
      Working(0x9d4baf93, 0x17aa0dfe, 0xdf46652f, 0xd6670766, 0xfda24c2e, 0xdecd4715, 0x838b2711, 0x26352d63))
    requires Row(s, 40, 0x9f47bf94, 0xf0a64f5a, 0x3e246a79, 0x27333ba3, 0x0c4763f2, 0x840abf27, 0x7a290d5d, 0x065c43da)
    ensures Stands(s, 48,
      Working(0x4172328d, 0xa14c14b0, 0x72ab4b91, 0x26628815, 0xfecf0bc6, 0xd57b94a9, 0xb7755da1, 0xa80f11f0))
  {
    Next(s, 44, Working(0x9d4baf93, 0x17aa0dfe, 0xdf46652f, 0xd6670766, 0xfda24c2e, 0xdecd4715, 0x838b2711, 0x26352d63),
         0xd192e819, 0x0c4763f2, 0x26628815, 0xa80f11f0);
    Next(s, 45, Working(0x26628815, 0x9d4baf93, 0x17aa0dfe, 0xdf46652f, 0xa80f11f0, 0xfda24c2e, 0xdecd4715, 0x838b2711),
         0xd6990624, 0x840abf27, 0x72ab4b91, 0xb7755da1);
    Next(s, 46, Working(0x72ab4b91, 0x26628815, 0x9d4baf93, 0x17aa0dfe, 0xb7755da1, 0xa80f11f0, 0xfda24c2e, 0xdecd4715),
         0xf40e3585, 0x7a290d5d, 0xa14c14b0, 0xd57b94a9);
    Next(s, 47, Working(0xa14c14b0, 0x72ab4b91, 0x26628815, 0x9d4baf93, 0xd57b94a9, 0xb7755da1, 0xa80f11f0, 0xfda24c2e),
         0x106aa070, 0x065c43da, 0x4172328d, 0xfecf0bc6);
  }

  lemma Rounds48(s: seq<Word>)
    requires Stands(s, 48,
      Working(0x4172328d, 0xa14c14b0, 0x72ab4b91, 0x26628815, 0xfecf0bc6, 0xd57b94a9, 0xb7755da1, 0xa80f11f0))
    requires Row(s, 48, 0xfb3e89cb, 0xcc7617db, 0xb9e66c34, 0xa9993667, 0x84badedd, 0xc21462bc, 0x1487472c, 0xb20f7a99)
    ensures Stands(s, 52,
      Working(0x886e7a22, 0x7a0508a1, 0xf11bfaa8, 0x05757ceb, 0x49231c1e, 0x52f1ccf7, 0x6e5c390c, 0xbd714038))
  {
    Next(s, 48, Working(0x4172328d, 0xa14c14b0, 0x72ab4b91, 0x26628815, 0xfecf0bc6, 0xd57b94a9, 0xb7755da1, 0xa80f11f0),
         0x19a4c116, 0xfb3e89cb, 0x05757ceb, 0xbd714038);
    Next(s, 49, Working(0x05757ceb, 0x4172328d, 0xa14c14b0, 0x72ab4b91, 0xbd714038, 0xfecf0bc6, 0xd57b94a9, 0xb7755da1),
         0x1e376c08, 0xcc7617db, 0xf11bfaa8, 0x6e5c390c);
    Next(s, 50, Working(0xf11bfaa8, 0x05757ceb, 0x4172328d, 0xa14c14b0, 0x6e5c390c, 0xbd714038, 0xfecf0bc6, 0xd57b94a9),
         0x2748774c, 0xb9e66c34, 0x7a0508a1, 0x52f1ccf7);
    Next(s, 51, Working(0x7a0508a1, 0xf11bfaa8, 0x05757ceb, 0x4172328d, 0x52f1ccf7, 0x6e5c390c, 0xbd714038, 0xfecf0bc6),
         0x34b0bcb5, 0xa9993667, 0x886e7a22, 0x49231c1e);
  }

  lemma Rounds52(s: seq<Word>)
    requires Stands(s, 52,
      Working(0x886e7a22, 0x7a0508a1, 0xf11bfaa8, 0x05757ceb, 0x49231c1e, 0x52f1ccf7, 0x6e5c390c, 0xbd714038))
    requires Row(s, 48, 0xfb3e89cb, 0xcc7617db, 0xb9e66c34, 0xa9993667, 0x84badedd, 0xc21462bc, 0x1487472c, 0xb20f7a99)
    ensures Stands(s, 56,
      Working(0x38cc9913, 0x3ec45cdb, 0xf5702fdb, 0x101fd28f, 0x54cb266b, 0xe50e1b4f, 0x9f4787c3, 0x529e7d00))
  {
    Next(s, 52, Working(0x886e7a22, 0x7a0508a1, 0xf11bfaa8, 0x05757ceb, 0x49231c1e, 0x52f1ccf7, 0x6e5c390c, 0xbd714038),
         0x391c0cb3, 0x84badedd, 0x101fd28f, 0x529e7d00);
    Next(s, 53, Working(0x101fd28f, 0x886e7a22, 0x7a0508a1, 0xf11bfaa8, 0x529e7d00, 0x49231c1e, 0x52f1ccf7, 0x6e5c390c),
         0x4ed8aa4a, 0xc21462bc, 0xf5702fdb, 0x9f4787c3);
    Next(s, 54, Working(0xf5702fdb, 0x101fd28f, 0x886e7a22, 0x7a0508a1, 0x9f4787c3, 0x529e7d00, 0x49231c1e, 0x52f1ccf7),
         0x5b9cca4f, 0x1487472c, 0x3ec45cdb, 0xe50e1b4f);
    Next(s, 55, Working(0x3ec45cdb, 0xf5702fdb, 0x101fd28f, 0x886e7a22, 0xe50e1b4f, 0x9f4787c3, 0x529e7d00, 0x49231c1e),
         0x682e6ff3, 0xb20f7a99, 0x38cc9913, 0x54cb266b);
  }

  lemma Rounds56(s: seq<Word>)
    requires Stands(s, 56,
      Working(0x38cc9913, 0x3ec45cdb, 0xf5702fdb, 0x101fd28f, 0x54cb266b, 0xe50e1b4f, 0x9f4787c3, 0x529e7d00))
    requires Row(s, 56, 0xef57b9cd, 0xebe6b238, 0x9fe3095e, 0x78bc8d4b, 0xa43fcf15, 0x668b2ff8, 0xeeaba2cc, 0x12b1edeb)
    ensures Stands(s, 60,
      Working(0xb6ae8fff, 0xffb70472, 0xc062d46f, 0xfcd1887b, 0xb21bad3d, 0x6d83bfc6, 0x7e44008e, 0x9b5e906c))
  {
    Next(s, 56, Working(0x38cc9913, 0x3ec45cdb, 0xf5702fdb, 0x101fd28f, 0x54cb266b, 0xe50e1b4f, 0x9f4787c3, 0x529e7d00),
         0x748f82ee, 0xef57b9cd, 0xfcd1887b, 0x9b5e906c);
    Next(s, 57, Working(0xfcd1887b, 0x38cc9913, 0x3ec45cdb, 0xf5702fdb, 0x9b5e906c, 0x54cb266b, 0xe50e1b4f, 0x9f4787c3),
         0x78a5636f, 0xebe6b238, 0xc062d46f, 0x7e44008e);
    Next(s, 58, Working(0xc062d46f, 0xfcd1887b, 0x38cc9913, 0x3ec45cdb, 0x7e44008e, 0x9b5e906c, 0x54cb266b, 0xe50e1b4f),
         0x84c87814, 0x9fe3095e, 0xffb70472, 0x6d83bfc6);
    Next(s, 59, Working(0xffb70472, 0xc062d46f, 0xfcd1887b, 0x38cc9913, 0x6d83bfc6, 0x7e44008e, 0x9b5e906c, 0x54cb266b),
         0x8cc70208, 0x78bc8d4b, 0xb6ae8fff, 0xb21bad3d);
  }

  lemma Rounds60(s: seq<Word>)
    requires Stands(s, 60,
      Working(0xb6ae8fff, 0xffb70472, 0xc062d46f, 0xfcd1887b, 0xb21bad3d, 0x6d83bfc6, 0x7e44008e, 0x9b5e906c))
    requires Row(s, 56, 0xef57b9cd, 0xebe6b238, 0x9fe3095e, 0x78bc8d4b, 0xa43fcf15, 0x668b2ff8, 0xeeaba2cc, 0x12b1edeb)
    ensures Stands(s, 64,
      Working(0x506e3058, 0xd39a2165, 0x04d24d6c, 0xb85e2ce9, 0x5ef50f24, 0xfb121210, 0x948d25b6, 0x961f4894))
  {
    Next(s, 60, Working(0xb6ae8fff, 0xffb70472, 0xc062d46f, 0xfcd1887b, 0xb21bad3d, 0x6d83bfc6, 0x7e44008e, 0x9b5e906c),
         0x90befffa, 0xa43fcf15, 0xb85e2ce9, 0x961f4894);
    Next(s, 61, Working(0xb85e2ce9, 0xb6ae8fff, 0xffb70472, 0xc062d46f, 0x961f4894, 0xb21bad3d, 0x6d83bfc6, 0x7e44008e),
         0xa4506ceb, 0x668b2ff8, 0x04d24d6c, 0x948d25b6);
    Next(s, 62, Working(0x04d24d6c, 0xb85e2ce9, 0xb6ae8fff, 0xffb70472, 0x948d25b6, 0x961f4894, 0xb21bad3d, 0x6d83bfc6),
         0xbef9a3f7, 0xeeaba2cc, 0xd39a2165, 0xfb121210);
    Next(s, 63, Working(0xd39a2165, 0x04d24d6c, 0xb85e2ce9, 0xb6ae8fff, 0xfb121210, 0x948d25b6, 0x961f4894, 0xb21bad3d),
         0xc67178f2, 0x12b1edeb, 0x506e3058, 0x5ef50f24);
  }

  lemma InitialWord(i: nat, k: Word)
    requires i < 8 && k as int == InitialWords()[i]
    ensures InitialHash()[i] == k
  {
  }

  lemma Start(s: seq<Word>)
    ensures Load(InitialHash()) ==
      Working(0x6a09e667, 0xbb67ae85, 0x3c6ef372, 0xa54ff53a, 0x510e527f, 0x9b05688c, 0x1f83d9ab, 0x5be0cd19)
    ensures Stands(s, 0,
      Working(0x6a09e667, 0xbb67ae85, 0x3c6ef372, 0xa54ff53a, 0x510e527f, 0x9b05688c, 0x1f83d9ab, 0x5be0cd19))
  {
    InitialWord(0, 0x6a09e667);
    InitialWord(1, 0xbb67ae85);
    InitialWord(2, 0x3c6ef372);
    InitialWord(3, 0xa54ff53a);
    InitialWord(4, 0x510e527f);
    InitialWord(5, 0x9b05688c);
    InitialWord(6, 0x1f83d9ab);
    InitialWord(7, 0x5be0cd19);
  }

  lemma AllRounds(s: seq<Word>)
    requires IsSchedule(s)
    ensures Stands(s, 64,
      Working(0x506e3058, 0xd39a2165, 0x04d24d6c, 0xb85e2ce9, 0x5ef50f24, 0xfb121210, 0x948d25b6, 0x961f4894))
  {
    AllWords(s);
    Start(s);
    Rounds0(s);
    Rounds4(s);
    Rounds8(s);
    Rounds12(s);
    Rounds16(s);
    Rounds20(s);
    Rounds24(s);
    Rounds28(s);
    Rounds32(s);
    Rounds36(s);
    Rounds40(s);
    Rounds44(s);
    Rounds48(s);
    Rounds52(s);
    Rounds56(s);
    Rounds60(s);
  }

  lemma HashIsAdded(v: Working)
    requires |Pad(ABC)| == 64 && Stands(Schedule(Pad(ABC), 64), 64, v)
    ensures HashOf(Pad(ABC)) == Added(InitialHash(), v)
  {
    var block: Block := Pad(ABC);
    assert Open(true);
    HashOfOneMore([], block);
    assert [] + block == block;
  }

  lemma Sums(h: Hash, v: Working)
    requires Load(h) ==
      Working(0x6a09e667, 0xbb67ae85, 0x3c6ef372, 0xa54ff53a, 0x510e527f, 0x9b05688c, 0x1f83d9ab, 0x5be0cd19)
    requires v ==
      Working(0x506e3058, 0xd39a2165, 0x04d24d6c, 0xb85e2ce9, 0x5ef50f24, 0xfb121210, 0x948d25b6, 0x961f4894)
    ensures Added(h, v) ==
            [0xba7816bf, 0x8f01cfea, 0x414140de, 0x5dae2223, 0xb00361a3, 0x96177a9c, 0xb410ff61, 0xf20015ad]
  {
  }

  /** The hash value after the block: the initial one plus the last working variables, word by word. */
  lemma HashOfAbc()
    ensures HashOf(Pad(ABC)) ==
            [0xba7816bf, 0x8f01cfea, 0x414140de, 0x5dae2223, 0xb00361a3, 0x96177a9c, 0xb410ff61, 0xf20015ad]
  {
    PaddedAbc();
    AllRounds(Schedule(Pad(ABC), 64));
    var v :=
      Working(0x506e3058, 0xd39a2165, 0x04d24d6c, 0xb85e2ce9, 0x5ef50f24, 0xfb121210, 0x948d25b6, 0x961f4894);
    HashIsAdded(v);
    Start(Schedule(Pad(ABC), 64));
    Sums(InitialHash(), v);
  }

  // ----- the digest -----

  lemma FourBytesBack(w: Word, b0: byte, b1: byte, b2: byte, b3: byte)
    requires w as int == ((b0 * 256 + b1) * 256 + b2) * 256 + b3
    ensures WordBytes(w) == [b0, b1, b2, b3]
  {
    FourBytesValue(b0, b1, b2, b3);
    BigBack([b0, b1, b2, b3]);
  }

  lemma HashBytesMore(h: seq<Word>, i: nat)
    requires i < |h|
    ensures HashBytes(h[..i + 1]) == HashBytes(h[..i]) + WordBytes(h[i])
  {
    assert h[..i + 1][..i] == h[..i];
  }

  function FourWords(a: Word, b: Word, c: Word, d: Word): seq<byte> {
    WordBytes(a) + WordBytes(b) + WordBytes(c) + WordBytes(d)
  }

  lemma FiveParts(x: seq<byte>, a: seq<byte>, b: seq<byte>, c: seq<byte>, d: seq<byte>)
    ensures x + a + b + c + d == x + (a + b + c + d)
  {
  }

  /** Four words of `h` from `i` on are `bytes`. */
  ghost predicate Spell(h: seq<Word>, i: nat, bytes: seq<byte>) {
    i + 4 <= |h| && forall u :: Open(u) ==> FourWords(h[i], h[i + 1], h[i + 2], h[i + 3]) == bytes
  }

  lemma FourMore(h: seq<Word>, i: nat, bytes: seq<byte>)
    requires Spell(h, i, bytes)
    ensures HashBytes(h[..i + 4]) == HashBytes(h[..i]) + bytes
  {
    assert Open(true);
    HashBytesMore(h, i);
    HashBytesMore(h, i + 1);
    HashBytesMore(h, i + 2);
    HashBytesMore(h, i + 3);
    FiveParts(HashBytes(h[..i]), WordBytes(h[i]), WordBytes(h[i + 1]), WordBytes(h[i + 2]), WordBytes(h[i + 3]));
  }

  lemma EightWords(h: Hash, front: seq<byte>, back: seq<byte>)
    requires Spell(h, 0, front) && Spell(h, 4, back)
    ensures HashBytes(h) == front + back
  {
    FourMore(h, 0, front);
    FourMore(h, 4, back);
    assert h[..0] == [] && h[..8] == h;
  }

  lemma FrontBytes()
    ensures FourWords(0xba7816bf, 0x8f01cfea, 0x414140de, 0x5dae2223) ==
            [0xba, 0x78, 0x16, 0xbf, 0x8f, 0x01, 0xcf, 0xea, 0x41, 0x41, 0x40, 0xde, 0x5d, 0xae, 0x22, 0x23]
  {
    FourBytesBack(0xba7816bf, 0xba, 0x78, 0x16, 0xbf);
    FourBytesBack(0x8f01cfea, 0x8f, 0x01, 0xcf, 0xea);
    FourBytesBack(0x414140de, 0x41, 0x41, 0x40, 0xde);
    FourBytesBack(0x5dae2223, 0x5d, 0xae, 0x22, 0x23);
  }

  lemma BackBytes()
    ensures FourWords(0xb00361a3, 0x96177a9c, 0xb410ff61, 0xf20015ad) ==
            [0xb0, 0x03, 0x61, 0xa3, 0x96, 0x17, 0x7a, 0x9c, 0xb4, 0x10, 0xff, 0x61, 0xf2, 0x00, 0x15, 0xad]
  {
    FourBytesBack(0xb00361a3, 0xb0, 0x03, 0x61, 0xa3);
    FourBytesBack(0x96177a9c, 0x96, 0x17, 0x7a, 0x9c);
    FourBytesBack(0xb410ff61, 0xb4, 0x10, 0xff, 0x61);
    FourBytesBack(0xf20015ad, 0xf2, 0x00, 0x15, 0xad);
  }

  /** The digest of "abc" is the one the standard publishes. */
  lemma DigestOfAbc()
    ensures Digest([0x61, 0x62, 0x63]) ==
            [0xba, 0x78, 0x16, 0xbf, 0x8f, 0x01, 0xcf, 0xea, 0x41, 0x41, 0x40, 0xde, 0x5d, 0xae, 0x22, 0x23]
            + [0xb0, 0x03, 0x61, 0xa3, 0x96, 0x17, 0x7a, 0x9c, 0xb4, 0x10, 0xff, 0x61, 0xf2, 0x00, 0x15, 0xad]
  {
    HashOfAbc();
    FrontBytes();
    BackBytes();
    EightWords(HashOf(Pad(ABC)),
               [0xba, 0x78, 0x16, 0xbf, 0x8f, 0x01, 0xcf, 0xea, 0x41, 0x41, 0x40, 0xde, 0x5d, 0xae, 0x22, 0x23],
               [0xb0, 0x03, 0x61, 0xa3, 0x96, 0x17, 0x7a, 0x9c, 0xb4, 0x10, 0xff, 0x61, 0xf2, 0x00, 0x15, 0xad]);
  }
}
