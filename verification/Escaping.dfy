/** The JSON escaper of the structured log line, and the reader that undoes it. */
module Escaping {
  import opened Words
  import opened Sequences

  const QUOTE: byte := 34
  const BACKSLASH: byte := 92
  const ESCAPE_BUFFER: nat := 401

  /** A hexadecimal digit, in lower case. */
  function Hex(d: nat): (r: byte)
    requires d < 16
    ensures if d < 10 then '0' as int <= r <= '9' as int else 'a' as int <= r <= 'f' as int
  {
    if d < 10 then 48 + d else 87 + d
  }

  /** How one message byte is written inside a JSON string. */
  function EscapeByte(c: byte): (r: seq<byte>)
    ensures 1 <= |r| <= 6
  {
    if c == QUOTE then [BACKSLASH, QUOTE]
    else if c == BACKSLASH then [BACKSLASH, BACKSLASH]
    else if c == 10 then [BACKSLASH, 110]
    else if c == 13 then [BACKSLASH, 114]
    else if c == 9 then [BACKSLASH, 116]
    else if c < 0x20 then [BACKSLASH, 117, 48, 48, Hex(c / 16), Hex(c % 16)]
    else [c]
  }

  function Escaped(m: seq<byte>): seq<byte> {
    if m == [] then [] else Escaped(m[..|m| - 1]) + EscapeByte(m[|m| - 1])
  }

  /** With `used` bytes written, the escaper stops in front of `c`. */
  predicate Blocked(used: nat, c: byte) {
    used + 2 >= ESCAPE_BUFFER || (|EscapeByte(c)| == 6 && used + 6 >= ESCAPE_BUFFER)
  }

  /** The escaper found room for each of the first `kept` bytes of `m`. */
  ghost predicate Roomy(m: seq<byte>, kept: nat) {
    && kept <= |m| && |Escaped(m[..kept])| < ESCAPE_BUFFER
    && forall j :: 0 <= j < kept ==> !Blocked(|Escaped(m[..j])|, m[j])
  }

  /** The escaper has taken `kept` bytes of `m`, each while there was room for it, and stopped at the
      end or in front of one there was no room for. */
  ghost predicate KeptPrefix(m: seq<byte>, kept: nat) {
    Roomy(m, kept) && (kept < |m| ==> Blocked(|Escaped(m[..kept])|, m[kept]))
  }

  lemma KeepOne(m: seq<byte>, kept: nat)
    requires Roomy(m, kept) && kept < |m| && !Blocked(|Escaped(m[..kept])|, m[kept])
    ensures Escaped(m[..kept + 1]) == Escaped(m[..kept]) + EscapeByte(m[kept])
    ensures Roomy(m, kept + 1)
  {
    assert m[..kept + 1][..kept] == m[..kept];
  }

  /** Writes one escaped byte where there is room for it. */
  method PutEscaped(buffer: array<byte>, used: nat, c: byte) returns (after: nat)
    requires used + |EscapeByte(c)| < buffer.Length
    modifies buffer
    ensures after == used + |EscapeByte(c)| && buffer[..after] == old(buffer[..used]) + EscapeByte(c)
  {
    if c == QUOTE {
      buffer[used], buffer[used + 1] := BACKSLASH, QUOTE;
      after := used + 2;
    } else if c == BACKSLASH {
      buffer[used], buffer[used + 1] := BACKSLASH, BACKSLASH;
      after := used + 2;
    } else if c == 10 {
      buffer[used], buffer[used + 1] := BACKSLASH, 110;
      after := used + 2;
    } else if c == 13 {
      buffer[used], buffer[used + 1] := BACKSLASH, 114;
      after := used + 2;
    } else if c == 9 {
      buffer[used], buffer[used + 1] := BACKSLASH, 116;
      after := used + 2;
    } else if c < 0x20 {
      buffer[used], buffer[used + 1], buffer[used + 2], buffer[used + 3] := BACKSLASH, 117, 48, 48;
      buffer[used + 4], buffer[used + 5] := Hex(c / 16), Hex(c % 16);
      after := used + 6;
    } else {
      buffer[used] := c;
      after := used + 1;
    }
    assert buffer[used..after] == EscapeByte(c);
    TakeSplit(buffer[..], used, after);
    assert buffer[..][..used] == old(buffer[..used]);
  }

  predicate ShortEscape(c: byte) {
    c == QUOTE || c == BACKSLASH || c == 10 || c == 13 || c == 9 || c >= 0x20
  }

  /** Fills the escape buffer from the front, never past its last byte but one. */
  method EscapeInto(buffer: array<byte>, m: seq<byte>) returns (used: nat, ghost kept: nat)
    requires buffer.Length == ESCAPE_BUFFER
    modifies buffer
    ensures used < ESCAPE_BUFFER && KeptPrefix(m, kept)
    ensures buffer[..used] == Escaped(m[..kept]) && buffer[used] == 0
  {
    used, kept := 0, 0;
    var i := 0;
    while i < |m| && used + 2 < ESCAPE_BUFFER
      invariant Roomy(m, kept) && used < ESCAPE_BUFFER && buffer[..used] == Escaped(m[..kept])
      invariant i <= |m| ==> i == kept
      invariant i > |m| ==> kept < |m| && Blocked(used, m[kept])
      decreases |m| - i
    {
      if !ShortEscape(m[i]) && used + 6 >= ESCAPE_BUFFER {
        i := |m|; // no room: the tail is dropped
      } else {
        KeepOne(m, kept);
        used := PutEscaped(buffer, used, m[i]);
        kept := kept + 1;
      }
      i := i + 1;
    }
    ghost var text := buffer[..used];
    buffer[used] := 0;
    assert buffer[..used] == text;
  }

  lemma {:induction false} EscapedAppend(a: seq<byte>, b: seq<byte>)
    ensures Escaped(a + b) == Escaped(a) + Escaped(b)
    decreases |b|
  {
    if b == [] {
      assert a + b == a;
    } else {
      var n := |b| - 1;
      assert (a + b)[..|a + b| - 1] == a + b[..n];
      EscapedAppend(a, b[..n]);
      Associate(Escaped(a), Escaped(b[..n]), EscapeByte(b[n]));
    }
  }

  lemma EscapedFirst(m: seq<byte>)
    requires m != []
    ensures Escaped(m) == EscapeByte(m[0]) + Escaped(m[1..])
  {
    assert m == [m[0]] + m[1..];
    EscapedAppend([m[0]], m[1..]);
    assert Escaped([m[0]]) == EscapeByte(m[0]) by { assert [m[0]][..0] == []; }
  }

  /** How much is kept is determined by the message. */
  lemma KeptIsDetermined(m: seq<byte>, j: nat, k: nat)
    requires KeptPrefix(m, j) && KeptPrefix(m, k)
    ensures j == k
  {
  }

  lemma EscapedBeyond(m: seq<byte>, kept: nat)
    requires kept < |m|
    ensures |Escaped(m)| >= |Escaped(m[..kept])| + |EscapeByte(m[kept])|
    ensures kept + 1 < |m| ==> |Escaped(m)| > |Escaped(m[..kept])| + |EscapeByte(m[kept])|
  {
    assert m == m[..kept] + m[kept..];
    EscapedAppend(m[..kept], m[kept..]);
    EscapedFirst(m[kept..]);
    if kept + 1 < |m| { EscapedFirst(m[kept..][1..]); }
  }

  /** The whole message is kept exactly when its escaped form leaves room for the terminator and one
      more byte, or ends on the last usable byte with an escape of two bytes or more. */
  lemma WholeMessageKept(m: seq<byte>, kept: nat)
    requires KeptPrefix(m, kept)
    ensures kept == |m| <==>
              |Escaped(m)| <= 399 || (|Escaped(m)| == 400 && |EscapeByte(m[|m| - 1])| >= 2)
  {
    if kept == |m| {
      assert m[..kept] == m;
      if kept > 0 {
        assert !Blocked(|Escaped(m[..kept - 1])|, m[kept - 1]);
      }
    } else {
      EscapedBeyond(m, kept);
    }
  }

  // ----- reading back -----

  function UnHex(c: byte): Option<nat> {
    if 48 <= c <= 57 then Some(c - 48)
    else if 97 <= c <= 102 then Some(c - 87)
    else if 65 <= c <= 70 then Some(c - 55)
    else None
  }

  /** The byte a `\uXXXX` escape stands for, when it is in the ASCII range. */
  function UnicodeEscape(digits: seq<byte>): Option<byte>
    requires |digits| == 4
  {
    var a :- UnHex(digits[0]);
    var b :- UnHex(digits[1]);
    var c :- UnHex(digits[2]);
    var d :- UnHex(digits[3]);
    var code := 4096 * a + 256 * b + 16 * c + d;
    if code < 128 then Some(code) else None
  }

  function ShortEscapeByte(c: byte): Option<byte> {
    if c == QUOTE || c == BACKSLASH || c == 47 then Some(c)
    else if c == 98 then Some(8)
    else if c == 102 then Some(12)
    else if c == 110 then Some(10)
    else if c == 114 then Some(13)
    else if c == 116 then Some(9)
    else None
  }

  /** One character of a JSON string (section 7 of RFC 8259) and what follows it: a raw quote,
      backslash or control byte is not one. */
  function ReadChar(s: seq<byte>): (r: Option<(byte, seq<byte>)>)
    requires s != []
    ensures r.Some? ==> IsTail(r.value.1, s)
  {
    if s[0] < 0x20 || s[0] == QUOTE then None
    else if s[0] != BACKSLASH then Some((s[0], s[1..]))
    else if |s| >= 2 && s[1] != 117 then
      var c :- ShortEscapeByte(s[1]);
      Some((c, s[2..]))
    else if |s| >= 6 then
      var c :- UnicodeEscape(s[2..6]);
      Some((c, s[6..]))
    else None
  }

  /** A JSON string body up to its closing quote, and what follows the quote. */
  function ReadString(s: seq<byte>): (r: Option<(seq<byte>, seq<byte>)>)
    ensures r.Some? ==> IsTail(r.value.1, s)
    decreases |s|
  {
    if s == [] then None
    else if s[0] == QUOTE then Some(([], s[1..]))
    else
      var first :- ReadChar(s);
      var rest :- ReadString(first.1);
      Some(([first.0] + rest.0, rest.1))
  }

  lemma ReadEscapedByte(c: byte, rest: seq<byte>)
    ensures EscapeByte(c)[0] != QUOTE && ReadChar(EscapeByte(c) + rest) == Some((c, rest))
  {
    var s := EscapeByte(c) + rest;
    assert s[|EscapeByte(c)|..] == rest;
    if !ShortEscape(c) {
      assert s[2..6] == [48, 48, Hex(c / 16), Hex(c % 16)];
    }
  }

  lemma ReadOne(c: byte, s: seq<byte>, m: seq<byte>, rest: seq<byte>)
    requires ReadString(s) == Some((m, rest))
    ensures ReadString(EscapeByte(c) + s) == Some(([c] + m, rest))
  {
    ReadEscapedByte(c, s);
  }

  lemma EscapedFirstThen(m: seq<byte>, tail: seq<byte>)
    requires m != []
    ensures Escaped(m) + tail == EscapeByte(m[0]) + (Escaped(m[1..]) + tail)
  {
    EscapedFirst(m);
    Associate(EscapeByte(m[0]), Escaped(m[1..]), tail);
  }

  /** Reading an escaped text back gives the text, and stops at the quote that closes it. */
  lemma {:induction false} ReadEscaped(m: seq<byte>, tail: seq<byte>)
    requires tail != [] && tail[0] == QUOTE
    ensures ReadString(Escaped(m) + tail) == Some((m, tail[1..]))
    decreases |m|
  {
    if m == [] {
      assert Escaped(m) + tail == tail;
    } else {
      ReadEscaped(m[1..], tail);
      ReadOne(m[0], Escaped(m[1..]) + tail, m[1..], tail[1..]);
      EscapedFirstThen(m, tail);
      assert [m[0]] + m[1..] == m;
    }
  }

  /** The escaped text holds no control byte, so no newline and no terminator. */
  lemma {:induction false} EscapedIsPrintable(m: seq<byte>)
    ensures forall b :: b in Escaped(m) ==> b >= 0x20
  {
    if m != [] { EscapedIsPrintable(m[..|m| - 1]); }
  }
}
