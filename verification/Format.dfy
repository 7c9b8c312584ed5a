/** Constants and fixed-width records of storage Format v1, and the hash and
    text primitives the format names but does not define. */
module Format {
  import opened Bytes

  const DIGEST_SIZE := 32

  /** A digest is as long as SHA-256 makes it. */
  type Digest = d: seq<byte> | |d| == DIGEST_SIZE witness seq(DIGEST_SIZE, _ => 0)

  const NO_DIGEST: Digest :=
    [0, 0, 0, 0, 0, 0, 0, 0, 0, 0, 0, 0, 0, 0, 0, 0, 0, 0, 0, 0, 0, 0, 0, 0, 0, 0, 0, 0, 0, 0, 0, 0]

  /** XXH3-64 and SHA-256 are functions of the hashed bytes and nothing else is
      known of them; UTF-8 validity is any predicate on byte strings. */
  const Xxh3: seq<byte> -> u64
  const Sha256: seq<byte> -> Digest
  const IsUtf8: seq<byte> -> bool

  const TX_MAGIC: seq<byte> := [0x54, 0x32, 0x57, 0x31]
  const ROOT_MAGIC: seq<byte> := [0x54, 0x32, 0x52, 0x31]
  const CHECKPOINT_MAGIC: seq<byte> := [0x54, 0x32, 0x50, 0x31]
  const TX_HEADER_SIZE := 72
  const TX_CHECKSUM_SIZE := 8
  const MIN_TX_SIZE := TX_HEADER_SIZE + TX_CHECKSUM_SIZE
  const ROOT_RECORD_SIZE := 32
  const CHECKPOINT_PREFIX_SIZE := 52
  const COMPACT_NODE_SIZE := 16
  const WIDE_RECORD_SIZE := 32

  const NONE_ROOT: u64 := U64_MAX
  const NONE_VERSION: u32 := U32_MAX
  const NONE_PARENT: u32 := U32_MAX

  const KIND_LEAF: u32 := 0xD100_0001
  const KIND_BINARY: u32 := 0xD100_0002
  const KIND_WIDE: u32 := 0xD100_0003
  const WIDE_KIND_LEAF: u32 := 1
  const WIDE_KIND_BINARY: u32 := 2

  const MAX_IDENTIFIER_BYTES := 4096
  const MAX_REQUEST_ID_BYTES := 4096

  /** A compact node is 16 bytes: a u64, a u32 and a kind. A binary node keeps
      its two child distances in the halves of the u64. */
  datatype Slot = Slot(field0: u64, field1: u32, kind: u32)

  /** A wide record is 32 bytes; bytes 4..8 carry no meaning. */
  datatype WideRecord = WideRecord(kind: u32, pad: u32, a: u64, b: u64, c: u64)

  function LeafSlot(offset: u64, length: u32): Slot {
    Slot(offset, length, KIND_LEAF)
  }

  function BinarySlot(leftDelta: u32, rightDelta: u32): Slot {
    Slot(leftDelta + 0x1_0000_0000 * rightDelta, 0, KIND_BINARY)
  }

  function WideSlot(index: u64): Slot {
    Slot(index, 0, KIND_WIDE)
  }

  function WideBinary(left: u64, right: u64): WideRecord {
    WideRecord(WIDE_KIND_BINARY, 0, left, right, 0)
  }

  function SlotBytes(s: Slot): (r: seq<byte>)
    ensures |r| == COMPACT_NODE_SIZE
  {
    U64(s.field0) + U32(s.field1) + U32(s.kind)
  }

  function SlotAt(r: seq<byte>): Slot
    requires |r| == COMPACT_NODE_SIZE
  {
    Slot(Num64(r[..8]), Num32(r[8..12]), Num32(r[12..16]))
  }

  function WideBytes(w: WideRecord): (r: seq<byte>)
    ensures |r| == WIDE_RECORD_SIZE
  {
    U32(w.kind) + U32(w.pad) + U64(w.a) + U64(w.b) + U64(w.c)
  }

  function WideAt(r: seq<byte>): WideRecord
    requires |r| == WIDE_RECORD_SIZE
  {
    WideRecord(Num32(r[..4]), Num32(r[4..8]), Num64(r[8..16]), Num64(r[16..24]), Num64(r[24..32]))
  }

  function SlotsBytes(slots: seq<Slot>): (r: seq<byte>)
    ensures |r| == COMPACT_NODE_SIZE * |slots|
  {
    if slots == [] then [] else SlotBytes(slots[0]) + SlotsBytes(slots[1..])
  }

  function WidesBytes(wides: seq<WideRecord>): (r: seq<byte>)
    ensures |r| == WIDE_RECORD_SIZE * |wides|
  {
    if wides == [] then [] else WideBytes(wides[0]) + WidesBytes(wides[1..])
  }

  /** Whole 16-byte chunks, in order. */
  function SlotsOf(r: seq<byte>): (slots: seq<Slot>)
    ensures |slots| == |r| / COMPACT_NODE_SIZE
  {
    if |r| < COMPACT_NODE_SIZE then []
    else [SlotAt(r[..COMPACT_NODE_SIZE])] + SlotsOf(r[COMPACT_NODE_SIZE..])
  }

  function WidesOf(r: seq<byte>): (wides: seq<WideRecord>)
    ensures |wides| == |r| / WIDE_RECORD_SIZE
  {
    if |r| < WIDE_RECORD_SIZE then []
    else [WideAt(r[..WIDE_RECORD_SIZE])] + WidesOf(r[WIDE_RECORD_SIZE..])
  }

  lemma SlotRoundTrip(s: Slot)
    ensures SlotAt(SlotBytes(s)) == s
  {
    var r := SlotBytes(s);
    assert r[..8] == U64(s.field0);
    assert r[8..12] == U32(s.field1);
    assert r[12..16] == U32(s.kind);
  }

  lemma WideRoundTrip(w: WideRecord)
    ensures WideAt(WideBytes(w)) == w
  {
    var r := WideBytes(w);
    assert r[..4] == U32(w.kind);
    assert r[4..8] == U32(w.pad);
    assert r[8..16] == U64(w.a);
    assert r[16..24] == U64(w.b);
    assert r[24..32] == U64(w.c);
  }

  lemma {:induction false} SlotsRoundTrip(slots: seq<Slot>)
    ensures SlotsOf(SlotsBytes(slots)) == slots
  {
    if slots != [] {
      var r := SlotsBytes(slots);
      SlotRoundTrip(slots[0]);
      SlotsRoundTrip(slots[1..]);
      assert r[..COMPACT_NODE_SIZE] == SlotBytes(slots[0]);
      assert r[COMPACT_NODE_SIZE..] == SlotsBytes(slots[1..]);
    }
  }

  lemma {:induction false} WidesRoundTrip(wides: seq<WideRecord>)
    ensures WidesOf(WidesBytes(wides)) == wides
  {
    if wides != [] {
      var r := WidesBytes(wides);
      WideRoundTrip(wides[0]);
      WidesRoundTrip(wides[1..]);
      assert r[..WIDE_RECORD_SIZE] == WideBytes(wides[0]);
      assert r[WIDE_RECORD_SIZE..] == WidesBytes(wides[1..]);
    }
  }
}
