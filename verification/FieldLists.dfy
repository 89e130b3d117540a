/** Lists of fixed-width fields written through the builder and read back through the cursor. */
module FieldLists {
  import opened Words
  import opened Bits
  import opened Sequences
  import opened Endian
  import opened Allocation
  import opened BuilderModel
  import opened ByteBuilders

  class ByteCursor {
    var remaining: seq<byte>

    constructor (bytes: seq<byte>)
      ensures remaining == bytes
    {
      remaining := bytes;
    }

    /** The next `count` bytes, or nothing and no change when there are fewer. */
    method Take(count: nat) returns (r: Option<seq<byte>>)
      modifies this
      ensures count <= |old(remaining)| ==>
                r.Some? && |r.value| == count && r.value + remaining == old(remaining)
      ensures count > |old(remaining)| ==> r.None? && remaining == old(remaining)
    {
      if count > |remaining| { return None; }
      r := Some(remaining[..count]);
      remaining := remaining[count..];
    }
  }

  /** A field as its writer and its reader agree on it; the value fits the width. */
  type Shape = s: ShapeChoice | s.width == 2 || s.width == 4 || s.width == 8 witness ShapeChoice(2, false)

  datatype ShapeChoice = ShapeChoice(width: nat, big: bool)

  type Field = f: FieldChoice | f.value < Span(f.shape.width) witness FieldChoice(ShapeChoice(2, false), 0)

  datatype FieldChoice = FieldChoice(shape: Shape, value: nat)

  function Encoded(f: Field): (s: seq<byte>)
    ensures |s| == f.shape.width
  {
    if f.shape.big then BigEndian(f.value, f.shape.width) else LittleEndian(f.value, f.shape.width)
  }

  function Decoded(shape: Shape, bytes: seq<byte>): nat {
    if shape.big then BigValue(bytes) else LittleValue(bytes)
  }

  function EncodedAll(fields: seq<Field>): seq<byte> {
    if fields == [] then [] else Encoded(fields[0]) + EncodedAll(fields[1..])
  }

  function Shapes(fields: seq<Field>): seq<Shape> {
    if fields == [] then [] else [fields[0].shape] + Shapes(fields[1..])
  }

  function Values(fields: seq<Field>): seq<nat> {
    if fields == [] then [] else [fields[0].value] + Values(fields[1..])
  }

  /** The values that taking and decoding each shape in turn gives, and the bytes left behind them. */
  function ReadAll(shapes: seq<Shape>, bytes: seq<byte>): Option<(seq<nat>, seq<byte>)> {
    if shapes == [] then Some(([], bytes))
    else if shapes[0].width > |bytes| then None
    else
      var others :- ReadAll(shapes[1..], bytes[shapes[0].width..]);
      Some(([Decoded(shapes[0], bytes[..shapes[0].width])] + others.0, others.1))
  }

  lemma DecodedBack(f: Field)
    ensures Decoded(f.shape, Encoded(f)) == f.value
  {
    EncodeDecode(f.value, f.shape.width);
  }

  /** Any list of fields is read back from its encodings, value for value, and nothing else is taken. */
  lemma {:induction false} FieldsReadBack(fields: seq<Field>, rest: seq<byte>)
    ensures ReadAll(Shapes(fields), EncodedAll(fields) + rest) == Some((Values(fields), rest))
  {
    if fields == [] {
      assert EncodedAll(fields) + rest == rest;
    } else {
      var f := fields[0];
      var tail := EncodedAll(fields[1..]) + rest;
      DecodedBack(f);
      FieldsReadBack(fields[1..], rest);
      Associate(Encoded(f), EncodedAll(fields[1..]), rest);
      assert (Encoded(f) + tail)[..f.shape.width] == Encoded(f) && (Encoded(f) + tail)[f.shape.width..] == tail;
      assert Shapes(fields)[1..] == Shapes(fields[1..]);
    }
  }

  lemma FieldIsWord(f: Field)
    ensures f.value < U64_LIMIT
  {
    Pow2Grows(8 * f.shape.width, 64);
    SixtyFourBits();
  }

  /** `bytes` were put: the status is ok exactly when it was ok before, the bytes fit the bound and the
      allocator refused nothing it was asked, and then they stand behind what was there. */
  ghost predicate Appended(before: Builder, after: Builder, bytes: seq<byte>, asks: seq<Answer>) {
    && (after.status == Ok <==>
          before.status == Ok && |before.contents| + |bytes| <= before.maxCapacity && AllGranted(asks))
    && (after.status == Ok ==> after.contents == before.contents + bytes)
    && after.maxCapacity == before.maxCapacity
  }

  lemma AppendedOnce(b: Builder, data: seq<byte>, granted: bool)
    requires Sound(b)
    ensures Appended(b, AppendStep(b, data, granted), data, Asks(b, |data|, granted))
  {
    if b.status == Ok { AppendOkExactly(b, data, granted); }
  }

  lemma AppendedNone(b: Builder)
    requires Sound(b)
    ensures Appended(b, b, [], [])
  {
    assert b.contents + [] == b.contents;
  }

  lemma AppendedTwice(b0: Builder, b1: Builder, b2: Builder, x: seq<byte>, y: seq<byte>, a: seq<Answer>, c: seq<Answer>)
    requires Appended(b0, b1, x, a) && Appended(b1, b2, y, c)
    ensures Appended(b0, b2, x + y, a + c)
  {
    GrantedJoin(a, c);
    Associate(b0.contents, x, y);
  }

  /** One put is one step of the pure machine. */
  method PutEncoded(builder: ByteBuilder, f: Field) returns (ghost granted: bool)
    requires builder.Valid()
    modifies builder.Repr()
    ensures builder.Valid() && builder.Model() == AppendStep(old(builder.Model()), Encoded(f), granted)
    ensures builder.allocator == old(builder.allocator) && fresh(builder.Repr() - old(builder.Repr()))
    ensures builder.allocator.asked ==
            old(builder.allocator.asked) + Asks(old(builder.Model()), f.shape.width, granted)
  {
    FieldIsWord(f);
    var r;
    if f.shape.big {
      r, granted := builder.AppendEncodedBig(f.value, f.shape.width);
    } else {
      r, granted := builder.AppendEncodedLittle(f.value, f.shape.width);
    }
  }

  /** The first field and then the others are all the fields, and so are their requests. */
  lemma AppendedAll(
      b0: Builder, b2: Builder, fields: seq<Field>, granted: bool, others: seq<Answer>, asked: seq<Answer>)
    requires Sound(b0) && fields != []
    requires Appended(AppendStep(b0, Encoded(fields[0]), granted), b2, EncodedAll(fields[1..]), others)
    ensures var first := Asks(b0, fields[0].shape.width, granted);
            && Appended(b0, b2, EncodedAll(fields), first + others)
            && asked + first + others == asked + (first + others)
  {
    var f, first := fields[0], Asks(b0, fields[0].shape.width, granted);
    AppendedOnce(b0, Encoded(f), granted);
    AppendedTwice(b0, AppendStep(b0, Encoded(f), granted), b2, Encoded(f), EncodedAll(fields[1..]), first, others);
    Associate(asked, first, others);
  }

  /** Appends every field. */
  method WriteFields(builder: ByteBuilder, fields: seq<Field>) returns (ghost asks: seq<Answer>)
    requires builder.Valid()
    modifies builder.Repr()
    ensures builder.Valid() && fresh(builder.Repr() - old(builder.Repr()))
    ensures builder.allocator == old(builder.allocator)
    ensures builder.allocator.asked == old(builder.allocator.asked) + asks
    ensures Appended(old(builder.Model()), builder.Model(), EncodedAll(fields), asks)
    decreases |fields|
  {
    ghost var b0, asked := builder.Model(), builder.allocator.asked;
    asks := [];
    if fields == [] {
      AppendedNone(b0);
      assert asked + [] == asked;
    } else {
      ghost var granted := PutEncoded(builder, fields[0]);
      ghost var others := WriteFields(builder, fields[1..]);
      AppendedAll(b0, builder.Model(), fields, granted, others, asked);
      asks := Asks(b0, fields[0].shape.width, granted) + others;
    }
  }

  /** Takes each width and decodes it; nothing when the bytes run out. */
  method ReadFields(cursor: ByteCursor, shapes: seq<Shape>) returns (r: Option<seq<nat>>)
    modifies cursor
    ensures ReadAll(shapes, old(cursor.remaining)).None? <==> r.None?
    ensures r.Some? ==> ReadAll(shapes, old(cursor.remaining)) == Some((r.value, cursor.remaining))
  {
    var values := [];
    var i := 0;
    assert shapes[0..] == shapes;
    PrefixedNone(ReadAll(shapes, cursor.remaining));
    while i < |shapes|
      invariant 0 <= i <= |shapes|
      invariant Prefixed(values, ReadAll(shapes[i..], cursor.remaining)) == ReadAll(shapes, old(cursor.remaining))
    {
      var value := ReadField(cursor, shapes[i]);
      assert shapes[i..][1..] == shapes[i + 1..];
      if value.None? { return None; }
      PrefixedMore(values, value.value, ReadAll(shapes[i + 1..], cursor.remaining));
      values := values + [value.value];
      i := i + 1;
    }
    assert values + [] == values;
    r := Some(values);
  }

  lemma PrefixedNone(r: Option<(seq<nat>, seq<byte>)>)
    ensures Prefixed([], r) == r
  {
    if r.Some? { assert [] + r.value.0 == r.value.0; }
  }

  function Prefixed(values: seq<nat>, r: Option<(seq<nat>, seq<byte>)>): Option<(seq<nat>, seq<byte>)> {
    if r.None? then None else Some((values + r.value.0, r.value.1))
  }

  lemma PrefixedMore(values: seq<nat>, v: nat, r: Option<(seq<nat>, seq<byte>)>)
    ensures Prefixed(values + [v], r) == Prefixed(values, Prefixed([v], r))
  {
    if r.Some? { Associate(values, [v], r.value.0); }
  }

  method ReadField(cursor: ByteCursor, shape: Shape) returns (value: Option<nat>)
    modifies cursor
    ensures value.None? <==> shape.width > |old(cursor.remaining)|
    ensures value.Some? ==> value.value == Decoded(shape, old(cursor.remaining)[..shape.width])
                            && cursor.remaining == old(cursor.remaining)[shape.width..]
  {
    var bytes := cursor.Take(shape.width);
    if bytes.None? { return None; }
    if shape.big {
      value := DecodeBig(bytes.value, shape.width);
    } else {
      value := DecodeLittle(bytes.value, shape.width);
    }
  }

  /** The round trip: what was appended with status ok is what the cursor gives back, and the
      cursor is then empty; that is so exactly when the fields fit the bound and the allocator granted
      what it was asked. */
  method RoundTrip(builder: ByteBuilder, fields: seq<Field>)
    returns (r: Option<seq<nat>>, left: seq<byte>, ghost asks: seq<Answer>)
    requires builder.Valid() && builder.Bytes() == []
    modifies builder.Repr()
    ensures builder.Valid() && builder.allocator == old(builder.allocator)
    ensures builder.allocator.asked == old(builder.allocator.asked) + asks
    ensures builder.status == Ok <==>
              old(builder.status) == Ok && |EncodedAll(fields)| <= builder.maxCapacity && AllGranted(asks)
    ensures if builder.status == Ok then r == Some(Values(fields)) && left == [] else r == None
  {
    asks := WriteFields(builder, fields);
    if builder.status != Ok { return None, [], asks; }
    var cursor := new ByteCursor(builder.Bytes());
    FieldsReadBack(fields, []);
    assert [] + EncodedAll(fields) == EncodedAll(fields) == EncodedAll(fields) + [];
    r := ReadFields(cursor, Shapes(fields));
    left := cursor.remaining;
  }
}
