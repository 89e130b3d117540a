/** The event handed to the crash ring and the flat record a slot stores. */
module RingTypes {
  import opened Words

  const MAX_MESSAGE_BYTES: nat := 200
  const MAX_RING_SEQUENCE: nat := 0x7FFF_FFFF_FFFF_FFFF

  type Message = m: seq<byte> | |m| == MAX_MESSAGE_BYTES witness seq(MAX_MESSAGE_BYTES, _ => 0)

  datatype Event = Event(
    level: byte, id: u32, correlation: u64, source: u32, timestamp: u64, text: seq<byte>)

  datatype Record = Record(
    sequence: u64, timestamp: u64, eventValue: u32, sourceValue: u32,
    correlation: u64, level: byte, length: u32, message: Message)

  /** The limit is the largest reservation whose odd word still fits in 64 bits. */
  lemma LimitFillsWord(r: nat)
    ensures r <= MAX_RING_SEQUENCE <==> 2 * r + 1 < U64_LIMIT
  {
  }

  function CopiedLength(text: seq<byte>): nat {
    if |text| < MAX_MESSAGE_BYTES then |text| else MAX_MESSAGE_BYTES - 1
  }

  /** The bytes of `text` that fit, then zeros up to the full message width. */
  function Padded(text: seq<byte>): Message {
    text[..CopiedLength(text)] + seq(MAX_MESSAGE_BYTES - CopiedLength(text), _ => 0)
  }

  /** The one record that the write holding reservation `r` builds for `evt`. */
  function Built(evt: Event, r: nat): Record
    requires r <= MAX_RING_SEQUENCE
  {
    Record(2 * r, evt.timestamp, evt.id, evt.source, evt.correlation, evt.level,
           CopiedLength(evt.text), Padded(evt.text))
  }

  /** `rec` shows what `evt` says: each scalar in its own field, the text up to 199 bytes, then zeros. */
  predicate Carries(rec: Record, evt: Event) {
    && rec.timestamp == evt.timestamp && rec.eventValue == evt.id && rec.sourceValue == evt.source
    && rec.correlation == evt.correlation && rec.level == evt.level
    && rec.length == (if |evt.text| < 200 then |evt.text| else 199)
    && rec.message[..rec.length] == evt.text[..rec.length]
    && forall j :: rec.length <= j < 200 ==> rec.message[j] == 0
  }

  /** The record a write builds shows its event, under twice its reservation. */
  lemma BuiltCarries(evt: Event, r: nat)
    requires r <= MAX_RING_SEQUENCE
    ensures Built(evt, r).sequence == 2 * r && Carries(Built(evt, r), evt)
  {
  }

  // A payload is filled and copied in separate stores: seven scalars, each message byte,
  // and (by the writer only) a closing NUL.
  const SCALARS: nat := 7
  const PAYLOAD_PARTS: nat := 207
  const FILL_STORES: nat := 208

  /** The payload after store number `k` of a write of `evt` under reservation `r`. */
  function FillPart(rec: Record, evt: Event, r: nat, k: nat): Record
    requires r <= MAX_RING_SEQUENCE && k < FILL_STORES
    requires k == PAYLOAD_PARTS ==> rec.length < MAX_MESSAGE_BYTES
  {
    if k == 0 then rec.(sequence := 2 * r)
    else if k == 1 then rec.(timestamp := evt.timestamp)
    else if k == 2 then rec.(eventValue := evt.id)
    else if k == 3 then rec.(sourceValue := evt.source)
    else if k == 4 then rec.(correlation := evt.correlation)
    else if k == 5 then rec.(level := evt.level)
    else if k == 6 then rec.(length := CopiedLength(evt.text))
    else if k < PAYLOAD_PARTS then
      var j := k - SCALARS;
      rec.(message := rec.message[j := if j < CopiedLength(evt.text) then evt.text[j] else 0])
    else rec.(message := rec.message[rec.length := 0])
  }

  /** `copy` after part `k` of `rec` has been read into it. */
  function CopyPart(copy: Record, rec: Record, k: nat): Record
    requires k < PAYLOAD_PARTS
  {
    if k == 0 then copy.(sequence := rec.sequence)
    else if k == 1 then copy.(timestamp := rec.timestamp)
    else if k == 2 then copy.(eventValue := rec.eventValue)
    else if k == 3 then copy.(sourceValue := rec.sourceValue)
    else if k == 4 then copy.(correlation := rec.correlation)
    else if k == 5 then copy.(level := rec.level)
    else if k == 6 then copy.(length := rec.length)
    else copy.(message := copy.message[k - SCALARS := rec.message[k - SCALARS]])
  }

  /** The first `k` parts of `a` and `b` are the same; the rest may be anything. */
  predicate AgreeUpTo(a: Record, b: Record, k: nat) {
    && (k > 0 ==> a.sequence == b.sequence)
    && (k > 1 ==> a.timestamp == b.timestamp)
    && (k > 2 ==> a.eventValue == b.eventValue)
    && (k > 3 ==> a.sourceValue == b.sourceValue)
    && (k > 4 ==> a.correlation == b.correlation)
    && (k > 5 ==> a.level == b.level)
    && (k > 6 ==> a.length == b.length)
    && forall j :: 0 <= j < k - SCALARS && j < MAX_MESSAGE_BYTES ==> a.message[j] == b.message[j]
  }

  /** Agreement on every part is equality, field for field. */
  lemma AgreeIsEqual(a: Record, b: Record, k: nat)
    requires AgreeUpTo(a, b, k) && k >= PAYLOAD_PARTS
    ensures a == b
  {
    assert a.message == b.message;
  }

  /** Every store of a write moves the payload one part closer to the record that write builds. */
  lemma FillPartAgrees(rec: Record, evt: Event, r: nat, k: nat)
    requires r <= MAX_RING_SEQUENCE && k < FILL_STORES
    requires AgreeUpTo(rec, Built(evt, r), k)
    ensures k == PAYLOAD_PARTS ==> rec.length < MAX_MESSAGE_BYTES
    ensures AgreeUpTo(FillPart(rec, evt, r, k), Built(evt, r), k + 1)
  {
    if k == PAYLOAD_PARTS {
      AgreeIsEqual(rec, Built(evt, r), k);
    }
  }

  lemma CopyPartAgrees(copy: Record, rec: Record, k: nat)
    requires k < PAYLOAD_PARTS && AgreeUpTo(copy, rec, k)
    ensures AgreeUpTo(CopyPart(copy, rec, k), rec, k + 1)
  {
  }
}
