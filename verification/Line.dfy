/** One record rendered as one line of the log file. */
module Line {
  import opened Words
  import opened Sequences
  import opened RingTypes
  import opened Escaping
  import opened JsonText

  const LINE_BUFFER: nat := 512
  const FRAMING: nat := 53
  const NEWLINE: byte := 10

  predicate IsAscii(s: string) {
    forall i :: 0 <= i < |s| ==> s[i] < 128 as char
  }

  function Ascii(s: string): (r: seq<byte>)
    requires IsAscii(s)
    ensures |r| == |s| && forall i :: 0 <= i < |s| ==> r[i] == s[i] as int
  {
    seq(|s|, i requires 0 <= i < |s| => s[i] as int)
  }

  function SeverityName(level: byte): (s: string)
    ensures IsAscii(s) && 4 <= |s| <= 8
  {
    match level
    case 0 => "trace"
    case 1 => "debug"
    case 2 => "info"
    case 3 => "warn"
    case 4 => "error"
    case 5 => "critical"
    case _ => "unknown"
  }

  /** The names of the six levels, in their order; every other level is unknown. */
  lemma SeverityNames(level: byte)
    ensures var names := ["trace", "debug", "info", "warn", "error", "critical"];
            SeverityName(level) == if level < 6 then names[level] else "unknown"
  {
  }

  /** The name on the line tells the six levels apart. */
  lemma LevelFromName(a: byte, b: byte)
    requires a < 6 && SeverityName(a) == SeverityName(b)
    ensures a == b
  {
    SeverityNames(a);
    SeverityNames(b);
    assert |SeverityName(a)| == |SeverityName(b)| && SeverityName(a)[0] == SeverityName(b)[0];
  }

  /** What a `%.*s` conversion takes from `s`: at most `most` bytes, and none from a NUL on. */
  function PrecisionString(s: seq<byte>, most: nat): seq<byte>
    requires most <= |s|
    decreases most
  {
    if most == 0 || s[0] == 0 then [] else [s[0]] + PrecisionString(s[1..], most - 1)
  }

  /** The fixed parts of the line, around its seven values. */
  function Literals(): (r: seq<seq<byte>>)
    ensures |r| == 8
  {
    [Ascii("{\"seq\":"), Ascii(",\"t\":"), Ascii(",\"sev\":\""), Ascii("\",\"id\":"), Ascii(",\"src\":"),
     Ascii(",\"corr\":"), Ascii(",\"msg\":\""), Ascii("\"}\n")]
  }

  function SplicedTail(lits: seq<seq<byte>>, rec: Record, msg: seq<byte>): seq<byte>
    requires |lits| == 8
  {
    lits[3] + (Digits(rec.eventValue) + (lits[4] + (Digits(rec.sourceValue) +
    (lits[5] + (Digits(rec.correlation) + (lits[6] + (msg + lits[7])))))))
  }

  function Spliced(lits: seq<seq<byte>>, rec: Record, msg: seq<byte>): seq<byte>
    requires |lits| == 8
  {
    lits[0] + (Digits(rec.sequence) + (lits[1] + (Digits(rec.timestamp) +
    (lits[2] + (Ascii(SeverityName(rec.level)) + SplicedTail(lits, rec, msg))))))
  }

  /** The whole rendering of a record whose message reads `msg` once escaped. */
  function FullLine(rec: Record, msg: seq<byte>): seq<byte> {
    Spliced(Literals(), rec, msg)
  }

  /** What reaches the file: the rendering, cut at the line buffer's last byte but one. */
  function Delivered(full: seq<byte>): (line: seq<byte>)
    ensures |line| <= LINE_BUFFER - 1
  {
    if |full| >= LINE_BUFFER then full[..LINE_BUFFER - 1] else full
  }

  /** The `%.*s` argument: the escaped part of the message that was kept. */
  method EscapedText(rec: Record) returns (msg: seq<byte>, ghost kept: nat)
    requires rec.length <= MAX_MESSAGE_BYTES
    ensures KeptPrefix(rec.message[..rec.length], kept)
    ensures msg == Escaped(rec.message[..kept])
  {
    var escaped := new byte[ESCAPE_BUFFER];
    var used;
    used, kept := EscapeInto(escaped, rec.message[..rec.length]);
    TakeTake(rec.message, rec.length, kept);
    PrecisionOfEscaped(escaped[..], used, rec.message[..kept]);
    msg := PrecisionString(escaped[..], used);
  }

  /** `line` is what the sink receives for `rec`: its message escaped as far as there is room, rendered
      and cut. */
  ghost predicate LineFor(rec: Record, line: seq<byte>) {
    rec.length <= MAX_MESSAGE_BYTES
    && exists kept: nat :: KeptPrefix(rec.message[..rec.length], kept)
                           && line == Delivered(FullLine(rec, Escaped(rec.message[..kept])))
  }

  method RenderLine(rec: Record) returns (line: seq<byte>)
    requires rec.length <= MAX_MESSAGE_BYTES
    ensures LineFor(rec, line)
  {
    var msg;
    ghost var kept;
    msg, kept := EscapedText(rec);
    line := Delivered(FullLine(rec, msg));
  }

  lemma PrecisionOfEscaped(s: seq<byte>, used: nat, text: seq<byte>)
    requires used <= |s| && s[..used] == Escaped(text)
    ensures PrecisionString(s, used) == Escaped(text)
  {
    EscapedIsPrintable(text);
    forall i | 0 <= i < used ensures s[i] != 0 {
      assert s[..used][i] in s[..used];
    }
    WholePrecision(s, used);
  }

  lemma {:induction false} WholePrecision(s: seq<byte>, most: nat)
    requires most <= |s| && forall i :: 0 <= i < most ==> s[i] != 0
    ensures PrecisionString(s, most) == s[..most]
    decreases most
  {
    if most > 0 {
      WholePrecision(s[1..], most - 1);
      assert s[..most] == [s[0]] + s[1..][..most - 1];
    }
  }

  // ----- reading a line back -----

  function Keys(): (r: seq<seq<byte>>)
    ensures |r| == 7
  {
    [Ascii("seq"), Ascii("t"), Ascii("sev"), Ascii("id"), Ascii("src"), Ascii("corr"), Ascii("msg")]
  }

  function TailFields(keys: seq<seq<byte>>, rec: Record, text: seq<byte>): seq<Field>
    requires |keys| == 7
  {
    [Field(keys[3], Number(rec.eventValue))] + ([Field(keys[4], Number(rec.sourceValue))] +
    ([Field(keys[5], Number(rec.correlation))] + [Field(keys[6], Text(text))]))
  }

  function NamedFields(keys: seq<seq<byte>>, rec: Record, text: seq<byte>): seq<Field>
    requires |keys| == 7
  {
    [Field(keys[0], Number(rec.sequence))] + ([Field(keys[1], Number(rec.timestamp))] +
    ([Field(keys[2], Text(Ascii(SeverityName(rec.level))))] + TailFields(keys, rec, text)))
  }

  /** The record's scalars and text, under the keys of the line. */
  function Fields(rec: Record, text: seq<byte>): (fs: seq<Field>)
    ensures fs != []
  {
    NamedFields(Keys(), rec, text)
  }

  predicate PlainByte(c: byte) {
    c >= 0x20 && c != QUOTE && c != BACKSLASH
  }

  predicate Plain(s: seq<byte>) {
    forall i :: 0 <= i < |s| ==> PlainByte(s[i])
  }

  lemma EscapedLast(s: seq<byte>, c: byte)
    requires PlainByte(c)
    ensures Escaped(s + [c]) == Escaped(s) + [c]
  {
    assert (s + [c])[..|s|] == s;
  }

  lemma {:induction false} PlainEscaped(s: seq<byte>)
    requires Plain(s)
    ensures Escaped(s) == s
  {
    if s != [] {
      var n := |s| - 1;
      PlainEscaped(s[..n]);
      EscapedLast(s[..n], s[n]);
      TakeOne(s, n);
      TakeAll(s);
    }
  }

  lemma NumberText(pre: seq<byte>, key: seq<byte>, n: nat, rest: seq<byte>)
    requires Plain(key)
    ensures pre + FieldText(Field(key, Number(n)), rest) ==
            (pre + [QUOTE] + key + [QUOTE, COLON]) + (Digits(n) + rest)
  {
    PlainEscaped(key);
    KeyText(pre, key, Digits(n) + rest);
  }

  lemma StringText(pre: seq<byte>, key: seq<byte>, bytes: seq<byte>, rest: seq<byte>)
    requires Plain(key)
    ensures pre + FieldText(Field(key, Text(bytes)), rest) ==
            (pre + [QUOTE] + key + [QUOTE, COLON, QUOTE]) + (Escaped(bytes) + ([QUOTE] + rest))
  {
    PlainEscaped(key);
    KeyText(pre, key, [QUOTE] + (Escaped(bytes) + ([QUOTE] + rest)));
  }

  lemma KeyText(pre: seq<byte>, key: seq<byte>, rest: seq<byte>)
    ensures pre + ([QUOTE] + (key + ([QUOTE, COLON] + rest))) == (pre + [QUOTE] + key + [QUOTE, COLON]) + rest
  {
    Associate(pre + [QUOTE] + key, [QUOTE, COLON], rest);
    Associate(pre + [QUOTE], key, [QUOTE, COLON] + rest);
    Associate(pre, [QUOTE], key + ([QUOTE, COLON] + rest));
  }

  lemma NumberFirst(lit: seq<byte>, pre: seq<byte>, key: seq<byte>, n: nat, fs: seq<Field>, tail: seq<byte>)
    requires Plain(key) && fs != [] && lit == pre + [QUOTE] + key + [QUOTE, COLON]
    ensures pre + FieldsText([Field(key, Number(n))] + fs, tail) ==
            lit + (Digits(n) + ([COMMA] + FieldsText(fs, tail)))
  {
    assert ([Field(key, Number(n))] + fs)[1..] == fs;
    NumberText(pre, key, n, [COMMA] + FieldsText(fs, tail));
  }

  lemma StringFirst(
      lit: seq<byte>, pre: seq<byte>, key: seq<byte>, bytes: seq<byte>, fs: seq<Field>, tail: seq<byte>)
    requires Plain(key) && fs != [] && lit == pre + [QUOTE] + key + [QUOTE, COLON, QUOTE]
    ensures pre + FieldsText([Field(key, Text(bytes))] + fs, tail) ==
            lit + (Escaped(bytes) + ([QUOTE, COMMA] + FieldsText(fs, tail)))
  {
    assert ([Field(key, Text(bytes))] + fs)[1..] == fs;
    StringText(pre, key, bytes, [COMMA] + FieldsText(fs, tail));
    Associate([QUOTE], [COMMA], FieldsText(fs, tail));
    assert [QUOTE] + [COMMA] == [QUOTE, COMMA];
  }

  lemma SeverityIsPlain(level: byte)
    ensures Escaped(Ascii(SeverityName(level))) == Ascii(SeverityName(level))
  {
    PlainEscaped(Ascii(SeverityName(level)));
  }

  /** The fixed parts spell the keys, the punctuation of an object and the quotes of its strings. */
  ghost predicate Spell(lits: seq<seq<byte>>, keys: seq<seq<byte>>) {
    && |lits| == 8 && |keys| == 7 && (forall k :: k in keys ==> Plain(k))
    && lits[0] == [OPEN_BRACE] + [QUOTE] + keys[0] + [QUOTE, COLON]
    && lits[1] == [COMMA] + [QUOTE] + keys[1] + [QUOTE, COLON]
    && lits[2] == [COMMA] + [QUOTE] + keys[2] + [QUOTE, COLON, QUOTE]
    && lits[3] == [QUOTE, COMMA] + [QUOTE] + keys[3] + [QUOTE, COLON]
    && lits[4] == [COMMA] + [QUOTE] + keys[4] + [QUOTE, COLON]
    && lits[5] == [COMMA] + [QUOTE] + keys[5] + [QUOTE, COLON]
    && lits[6] == [COMMA] + [QUOTE] + keys[6] + [QUOTE, COLON, QUOTE]
    && lits[7] == [QUOTE] + ([CLOSE_BRACE] + [NEWLINE])
  }

  lemma LiteralsSpellKeys()
    ensures Spell(Literals(), Keys())
  {
  }

  lemma TailIsFields(lits: seq<seq<byte>>, keys: seq<seq<byte>>, rec: Record, text: seq<byte>)
    requires Spell(lits, keys)
    ensures SplicedTail(lits, rec, Escaped(text)) ==
            [QUOTE, COMMA] + FieldsText(TailFields(keys, rec, text), [NEWLINE])
  {
    var nl: seq<byte> := [NEWLINE];
    var f7 := [Field(keys[6], Text(text))];
    var f6 := [Field(keys[5], Number(rec.correlation))] + f7;
    var f5 := [Field(keys[4], Number(rec.sourceValue))] + f6;
    NumberFirst(lits[3], [QUOTE, COMMA], keys[3], rec.eventValue, f5, nl);
    NumberFirst(lits[4], [COMMA], keys[4], rec.sourceValue, f6, nl);
    NumberFirst(lits[5], [COMMA], keys[5], rec.correlation, f7, nl);
    StringText([COMMA], keys[6], text, [CLOSE_BRACE] + nl);
  }

  lemma SplicedIsFields(lits: seq<seq<byte>>, keys: seq<seq<byte>>, rec: Record, text: seq<byte>)
    requires Spell(lits, keys)
    ensures Spliced(lits, rec, Escaped(text)) ==
            [OPEN_BRACE] + FieldsText(NamedFields(keys, rec, text), [NEWLINE])
  {
    var nl: seq<byte> := [NEWLINE];
    var name := Ascii(SeverityName(rec.level));
    var f4 := TailFields(keys, rec, text);
    var f3 := [Field(keys[2], Text(name))] + f4;
    var f2 := [Field(keys[1], Number(rec.timestamp))] + f3;
    SeverityIsPlain(rec.level);
    TailIsFields(lits, keys, rec, text);
    NumberFirst(lits[0], [OPEN_BRACE], keys[0], rec.sequence, f2, nl);
    NumberFirst(lits[1], [COMMA], keys[1], rec.timestamp, f3, nl);
    StringFirst(lits[2], [COMMA], keys[2], name, f4, nl);
  }

  /** The rendering is an opening brace, the text of the fields and a newline. */
  lemma LineIsObject(rec: Record, text: seq<byte>)
    ensures FullLine(rec, Escaped(text)) == [OPEN_BRACE] + FieldsText(Fields(rec, text), [NEWLINE])
  {
    LiteralsSpellKeys();
    SplicedIsFields(Literals(), Keys(), rec, text);
  }

  /** The line spelled out: every value of the record behind its own key, in the order of the format. */
  lemma LineSpelledOut(rec: Record, msg: seq<byte>)
    ensures FullLine(rec, msg) ==
            Ascii("{\"seq\":") + (Digits(rec.sequence) + (Ascii(",\"t\":") + (Digits(rec.timestamp) +
            (Ascii(",\"sev\":\"") + (Ascii(SeverityName(rec.level)) + (Ascii("\",\"id\":") + (Digits(rec.eventValue) +
            (Ascii(",\"src\":") + (Digits(rec.sourceValue) + (Ascii(",\"corr\":") + (Digits(rec.correlation) +
            (Ascii(",\"msg\":\"") + (msg + Ascii("\"}\n"))))))))))))))
  {
    var lits := Literals();
    assert FullLine(rec, msg) == Spliced(lits, rec, msg);
  }

  // ----- the newline, the width and the cut -----

  /** Printable bytes up to a single newline at the very end. */
  predicate OneLine(s: seq<byte>) {
    && s != [] && s[|s| - 1] == NEWLINE
    && forall i :: 0 <= i < |s| - 1 ==> s[i] >= 0x20
  }

  predicate Printable(s: seq<byte>) {
    forall i :: 0 <= i < |s| ==> s[i] >= 0x20
  }

  lemma Prepend(a: seq<byte>, s: seq<byte>)
    requires Printable(a) && OneLine(s)
    ensures OneLine(a + s)
  {
  }

  lemma PrependNumber(lit: seq<byte>, n: nat, s: seq<byte>)
    requires Printable(lit) && OneLine(s)
    ensures OneLine(lit + (Digits(n) + s))
  {
    Prepend(Digits(n), s) by {
      forall i | 0 <= i < |Digits(n)| ensures Digits(n)[i] >= 0x20 {
        assert Digits(n)[i] in Digits(n);
      }
    }
    Prepend(lit, Digits(n) + s);
  }

  lemma PrependText(lit: seq<byte>, text: seq<byte>, s: seq<byte>)
    requires Printable(lit) && Printable(text) && OneLine(s)
    ensures OneLine(lit + (text + s))
  {
    Prepend(text, s);
    Prepend(lit, text + s);
  }

  lemma LiteralsArePrintable(lits: seq<seq<byte>>)
    requires lits == Literals()
    ensures forall k :: 0 <= k < 7 ==> Printable(lits[k])
    ensures OneLine(lits[7])
  {
  }

  lemma SplicedHasOneNewline(lits: seq<seq<byte>>, rec: Record, msg: seq<byte>)
    requires |lits| == 8 && (forall k :: 0 <= k < 7 ==> Printable(lits[k])) && OneLine(lits[7]) && Printable(msg)
    ensures OneLine(Spliced(lits, rec, msg))
  {
    PrependText(lits[6], msg, lits[7]);
    var s5 := lits[6] + (msg + lits[7]);
    PrependNumber(lits[5], rec.correlation, s5);
    var s4 := lits[5] + (Digits(rec.correlation) + s5);
    PrependNumber(lits[4], rec.sourceValue, s4);
    PrependNumber(lits[3], rec.eventValue, lits[4] + (Digits(rec.sourceValue) + s4));
    var tail := SplicedTail(lits, rec, msg);
    PrependText(lits[2], Ascii(SeverityName(rec.level)), tail);
    var s1 := lits[2] + (Ascii(SeverityName(rec.level)) + tail);
    PrependNumber(lits[1], rec.timestamp, s1);
    PrependNumber(lits[0], rec.sequence, lits[1] + (Digits(rec.timestamp) + s1));
  }

  /** A rendering holds exactly one newline, and it is its last byte. */
  lemma LineHasOneNewline(rec: Record, text: seq<byte>)
    ensures OneLine(FullLine(rec, Escaped(text)))
  {
    LiteralsArePrintable(Literals());
    EscapedIsPrintable(text);
    assert forall i :: 0 <= i < |Escaped(text)| ==> Escaped(text)[i] in Escaped(text);
    SplicedHasOneNewline(Literals(), rec, Escaped(text));
  }

  function ScalarWidth(rec: Record): nat {
    |Digits(rec.sequence)| + |Digits(rec.timestamp)| + |SeverityName(rec.level)| +
    |Digits(rec.eventValue)| + |Digits(rec.sourceValue)| + |Digits(rec.correlation)|
  }

  lemma LineWidth(rec: Record, msg: seq<byte>)
    ensures |FullLine(rec, msg)| == FRAMING + ScalarWidth(rec) + |msg|
  {
  }

  lemma WidthOfWords(n: nat)
    ensures n < U32_LIMIT ==> |Digits(n)| <= 10
    ensures n < U64_LIMIT ==> |Digits(n)| <= 20
    ensures n == U32_LIMIT - 1 ==> |Digits(n)| == 10
    ensures n == U64_LIMIT - 1 ==> |Digits(n)| == 20
  {
    assert Pow10(9) == 1000000000 && Pow10(10) == 10000000000;
    assert Pow10(19) == 1000000000 * Pow10(10) && Pow10(20) == 10000000000 * Pow10(10);
    DigitCount(n, 9);
    DigitCount(n, 10);
    DigitCount(n, 19);
    DigitCount(n, 20);
  }

  lemma WidestScalars(rec: Record)
    ensures ScalarWidth(rec) <= 88
  {
    WidthOfWords(rec.sequence);
    WidthOfWords(rec.timestamp);
    WidthOfWords(rec.eventValue);
    WidthOfWords(rec.sourceValue);
    WidthOfWords(rec.correlation);
  }

  function WidestRecord(): (rec: Record) {
    Record(U64_LIMIT - 1, U64_LIMIT - 1, U32_LIMIT - 1, U32_LIMIT - 1, U64_LIMIT - 1, 5, 0, Padded([]))
  }

  lemma WidestRecordIsWidest()
    ensures ScalarWidth(WidestRecord()) == 88
  {
    WidthOfWords(U64_LIMIT - 1);
    WidthOfWords(U32_LIMIT - 1);
  }

  ghost predicate AlwaysWhole(msg: seq<byte>) {
    forall rec: Record :: |FullLine(rec, msg)| < LINE_BUFFER
  }

  /** The line is whole whatever the scalars are exactly when the escaped text is at most 370 bytes. */
  lemma WholeForAllScalars(msg: seq<byte>)
    ensures AlwaysWhole(msg) <==> |msg| <= 370
  {
    forall rec: Record | |msg| <= 370 ensures |FullLine(rec, msg)| < LINE_BUFFER {
      WidestScalars(rec);
      LineWidth(rec, msg);
    }
    WidestRecordIsWidest();
    LineWidth(WidestRecord(), msg);
  }

  /** A delivered line is never empty and at most 511 bytes; it ends its line, and reads back, exactly
      when the rendering fits, and a cut line is its first 511 bytes without any newline. */
  lemma DeliveredLine(rec: Record, text: seq<byte>)
    ensures var full := FullLine(rec, Escaped(text)); var line := Delivered(full);
            && FRAMING <= |line| <= LINE_BUFFER - 1 && line <= full
            && (line == full <==> OneLine(line)) && (line == full <==> |full| < LINE_BUFFER)
            && (line != full ==> |line| == LINE_BUFFER - 1 && Printable(line))
  {
    LineHasOneNewline(rec, text);
    LineWidth(rec, Escaped(text));
  }

  /** Cutting an object's line takes its newline away, and with it the chance to read it back. */
  lemma CutObject(full: seq<byte>, fs: seq<Field>)
    requires fs != [] && full == [OPEN_BRACE] + FieldsText(fs, [NEWLINE]) && OneLine(full)
    ensures var read := ReadObject(Delivered(full));
            && ((read.Some? && read.value.1 == [NEWLINE]) <==> |full| < LINE_BUFFER)
            && (|full| < LINE_BUFFER ==> read == Some((fs, [NEWLINE])))
  {
    ReadObjectBack(fs, [NEWLINE]);
  }

  /** A delivered line reads back as an object and its newline exactly when it was not cut; what is
      read is then the record's scalars and text. */
  lemma WholeLineReadsBack(rec: Record, text: seq<byte>)
    ensures var full := FullLine(rec, Escaped(text)); var read := ReadObject(Delivered(full));
            && ((read.Some? && read.value.1 == [NEWLINE]) <==> |full| < LINE_BUFFER)
            && (|full| < LINE_BUFFER ==> read == Some((Fields(rec, text), [NEWLINE])))
  {
    LineIsObject(rec, text);
    LineHasOneNewline(rec, text);
    CutObject(FullLine(rec, Escaped(text)), Fields(rec, text));
  }

  /** A record has one line: how much of its message is kept is determined by the message. */
  lemma LineIsDetermined(rec: Record, a: seq<byte>, b: seq<byte>)
    requires LineFor(rec, a) && LineFor(rec, b)
    ensures a == b
  {
    var m := rec.message[..rec.length];
    var j: nat :| KeptPrefix(m, j) && a == Delivered(FullLine(rec, Escaped(rec.message[..j])));
    var k: nat :| KeptPrefix(m, k) && b == Delivered(FullLine(rec, Escaped(rec.message[..k])));
    KeptIsDetermined(m, j, k);
  }

  lemma LineForLength(rec: Record, line: seq<byte>)
    requires LineFor(rec, line)
    ensures FRAMING <= |line| <= LINE_BUFFER - 1
  {
    var kept: nat :| KeptPrefix(rec.message[..rec.length], kept)
                     && line == Delivered(FullLine(rec, Escaped(rec.message[..kept])));
    DeliveredLine(rec, rec.message[..kept]);
  }

  /** A message whose escaped form is at most 370 bytes is never cut: its line reads back to all its
      scalars and its whole text. */
  lemma ShortMessageReadsBack(rec: Record, line: seq<byte>)
    requires LineFor(rec, line) && |Escaped(rec.message[..rec.length])| <= 370
    ensures ReadObject(line) == Some((Fields(rec, rec.message[..rec.length]), [NEWLINE]))
  {
    var m := rec.message[..rec.length];
    var kept: nat :| KeptPrefix(m, kept) && line == Delivered(FullLine(rec, Escaped(rec.message[..kept])));
    WholeMessageKept(m, kept);
    WholeForAllScalars(Escaped(m));
    WholeLineReadsBack(rec, m);
  }
}
