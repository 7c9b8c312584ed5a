/** Finding the committed transactions at the front of the hot WAL file. */
module HotLog {
  import opened Wrappers
  import opened Bytes
  import opened Format
  import opened Model
  import opened TransactionFormat
  import opened Transactions

  datatype Entry = Entry(tx: Transaction, end: nat)

  /** The transaction at an offset, if a whole valid one continues `g` there. */
  function ScanOne(file: seq<byte>, offset: nat, g: Geometry): Option<Entry> {
    if offset + MIN_TX_SIZE > |file| || file[offset..offset + 4] != TX_MAGIC then None
    else
      var end := offset + U32At(file, offset + 4);
      if end < offset + MIN_TX_SIZE || end > |file| then None
      else match ParseTransaction(file[offset..end], Some(g))
        case Ok(tx) => Some(Entry(tx, end))
        case Err(_) => None
  }

  function Scan(file: seq<byte>, offset: nat, g: Geometry): seq<Entry>
    decreases |file| - offset
  {
    match ScanOne(file, offset, g)
    case None => []
    case Some(e) => [e] + Scan(file, e.end, e.tx.After())
  }

  function LogicalTail(entries: seq<Entry>): nat {
    if entries == [] then 0 else entries[|entries| - 1].end
  }

  /** One unrolling of the scan. */
  lemma ScanNext(file: seq<byte>, offset: nat, g: Geometry)
    ensures Scan(file, offset, g) ==
      (match ScanOne(file, offset, g)
       case None => []
       case Some(e) => [e] + Scan(file, e.end, e.tx.After()))
  {
    hide ScanOne;
  }

  /** Parses forward until something that is not the next transaction. */
  method ParseHotPrefix(file: seq<byte>, g: Geometry) returns (entries: seq<Entry>, tail: nat)
    ensures entries == Scan(file, 0, g)
    ensures tail == LogicalTail(entries) <= |file|
  {
    hide ParseTransaction, U32, Num32, Scan;
    var geometry := g;
    entries, tail := [], 0;
    while tail + MIN_TX_SIZE <= |file|
      invariant tail == LogicalTail(entries) <= |file|
      invariant Scan(file, 0, g) == entries + Scan(file, tail, geometry)
      decreases |file| - tail
    {
      ScanNext(file, tail, geometry);
      if file[tail..tail + 4] != TX_MAGIC { break; }
      var length := U32At(file, tail + 4);
      if length < MIN_TX_SIZE || tail + length > |file| { break; }
      var parsed := ParseTransaction(file[tail..tail + length], Some(geometry));
      if parsed.Err? { break; }
      var tx := parsed.value;
      assert Scan(file, tail, geometry) == [Entry(tx, tail + length)] + Scan(file, tail + length, tx.After());
      assert (entries + [Entry(tx, tail + length)]) + Scan(file, tail + length, tx.After())
          == entries + Scan(file, tail, geometry);
      geometry := tx.After();
      entries, tail := entries + [Entry(tx, tail + length)], tail + length;
    }
    ScanNext(file, tail, geometry);
    assert Scan(file, tail, geometry) == [];
  }

  // Logs made of chained records

  function Concat(records: seq<seq<byte>>): seq<byte> {
    if records == [] then [] else records[0] + Concat(records[1..])
  }

  /** Each record is a valid transaction continuing the one before. */
  predicate Chain(g: Geometry, records: seq<seq<byte>>)
    decreases |records|
  {
    records != [] ==>
      && ParseTransaction(records[0], Some(g)).Ok?
      && Chain(ParseTransaction(records[0], Some(g)).value.After(), records[1..])
  }

  function Parsed(g: Geometry, records: seq<seq<byte>>): (txs: seq<Transaction>)
    requires Chain(g, records)
    ensures |txs| == |records|
    decreases |records|
  {
    if records == [] then []
    else
      var tx := ParseTransaction(records[0], Some(g)).value;
      [tx] + Parsed(tx.After(), records[1..])
  }

  /** The watermarks after a chain. */
  function EndOf(g: Geometry, records: seq<seq<byte>>): Geometry
    requires Chain(g, records)
    decreases |records|
  {
    if records == [] then g
    else EndOf(ParseTransaction(records[0], Some(g)).value.After(), records[1..])
  }

  /** The entries a scan should report for a chain that starts at `offset`. */
  function Entries(g: Geometry, records: seq<seq<byte>>, offset: nat): (r: seq<Entry>)
    requires Chain(g, records)
    ensures |r| == |records|
    decreases |records|
  {
    if records == [] then []
    else
      var tx := ParseTransaction(records[0], Some(g)).value;
      [Entry(tx, offset + |records[0]|)] + Entries(tx.After(), records[1..], offset + |records[0]|)
  }

  /** Nothing at the front of `tail` continues `g`. */
  predicate Stops(tail: seq<byte>, g: Geometry) {
    ScanOne(tail, 0, g).None?
  }

  lemma ScanOneShifts(before: seq<byte>, file: seq<byte>, g: Geometry)
    ensures var here, shifted := ScanOne(file, 0, g), ScanOne(before + file, |before|, g);
      && (here.None? <==> shifted.None?)
      && (here.Some? ==> shifted == Some(Entry(here.value.tx, |before| + here.value.end)))
  {
    hide ParseTransaction;
    var whole := before + file;
    if MIN_TX_SIZE <= |file| {
      assert whole[|before|..|before| + 4] == file[0..4];
      assert whole[|before| + 4..|before| + 8] == file[4..8];
      var n := U32At(file, 4);
      if n <= |file| {
        assert whole[|before|..|before| + n] == file[0..n];
      }
    }
  }

  /** A valid record is found wherever it stands, at its own length. */
  lemma ScanFindsRecord(before: seq<byte>, record: seq<byte>, rest: seq<byte>, g: Geometry)
    requires ParseTransaction(record, Some(g)).Ok?
    ensures ScanOne(before + record + rest, |before|, g)
         == Some(Entry(ParseTransaction(record, Some(g)).value, |before| + |record|))
  {
    hide ParseTransaction, Sound, U32, Num32;
    ParsedIsSound(record, Some(g));
    var whole := before + record + rest;
    assert whole[|before|..|before| + |record|] == record;
    assert whole[|before|..|before| + 4] == record[..4];
    assert whole[|before| + 4..|before| + 8] == record[4..8];
  }

  /** A chain followed by a tail that does not continue it is read back whole:
      every transaction, at its own end, and nothing else. */
  lemma {:induction false} ScanReadsChain(before: seq<byte>, records: seq<seq<byte>>, tail: seq<byte>, g: Geometry)
    requires Chain(g, records) && Stops(tail, EndOf(g, records))
    ensures Scan(before + Concat(records) + tail, |before|, g) == Entries(g, records, |before|)
    decreases |records|
  {
    hide ParseTransaction, ScanOne;
    var whole := before + Concat(records) + tail;
    if records == [] {
      assert whole == before + tail;
      ScanOneShifts(before, tail, g);
    } else {
      var record, rest := records[0], records[1..];
      var tx := ParseTransaction(record, Some(g)).value;
      assert whole == before + record + (Concat(rest) + tail);
      ScanFindsRecord(before, record, Concat(rest) + tail, g);
      assert whole == (before + record) + Concat(rest) + tail;
      ScanReadsChain(before + record, rest, tail, tx.After());
    }
  }

  lemma {:induction false} EntriesEnd(g: Geometry, records: seq<seq<byte>>, offset: nat)
    requires Chain(g, records) && records != []
    ensures LogicalTail(Entries(g, records, offset)) == offset + |Concat(records)|
    decreases |records|
  {
    hide ParseTransaction;
    if |records| == 1 {
      assert records[1..] == [];
      assert records[0] + [] == records[0];
    } else {
      EntriesEnd(ParseTransaction(records[0], Some(g)).value.After(), records[1..], offset + |records[0]|);
    }
  }

  lemma {:induction false} EntriesAreParsed(g: Geometry, records: seq<seq<byte>>, offset: nat)
    requires Chain(g, records)
    ensures TransactionsOf(Entries(g, records, offset)) == Parsed(g, records)
    decreases |records|
  {
    hide ParseTransaction;
    if records != [] {
      var e := Entries(g, records, offset);
      var after := ParseTransaction(records[0], Some(g)).value.After();
      EntriesAreParsed(after, records[1..], offset + |records[0]|);
      assert e[1..] == Entries(after, records[1..], offset + |records[0]|);
    }
  }

  function TransactionsOf(entries: seq<Entry>): (txs: seq<Transaction>)
    ensures |txs| == |entries|
  {
    if entries == [] then [] else [entries[0].tx] + TransactionsOf(entries[1..])
  }

  /** Conversely, whatever a scan reports is a chain of records at the front of
      the file, and what follows does not continue it. */
  lemma {:induction false} ScanIsChain(file: seq<byte>, offset: nat, g: Geometry) returns (records: seq<seq<byte>>,
                                       tail: seq<byte>)
    requires offset <= |file|
    ensures file[offset..] == Concat(records) + tail
    ensures Chain(g, records) && Stops(tail, EndOf(g, records))
    ensures Scan(file, offset, g) == Entries(g, records, offset)
    decreases |file| - offset
  {
    hide ParseTransaction;
    var one := ScanOne(file, offset, g);
    if one.None? {
      records, tail := [], file[offset..];
      assert file == file[..offset] + tail;
      ScanOneShifts(file[..offset], tail, g);
      assert [] + tail == tail;
    } else {
      var rest, t := ScanIsChain(file, one.value.end, one.value.tx.After());
      var record := file[offset..one.value.end];
      records, tail := [record] + rest, t;
      assert records[1..] == rest;
      assert file[offset..] == record + file[one.value.end..];
      assert record + (Concat(rest) + t) == (record + Concat(rest)) + t;
    }
  }

  // Splitting a chain

  lemma {:induction false} ChainSplits(g: Geometry, a: seq<seq<byte>>, b: seq<seq<byte>>)
    ensures Chain(g, a + b) <==> Chain(g, a) && Chain(EndOf(g, a), b)
    ensures Chain(g, a + b) ==>
      && Parsed(g, a + b) == Parsed(g, a) + Parsed(EndOf(g, a), b)
      && EndOf(g, a + b) == EndOf(EndOf(g, a), b)
    ensures Concat(a + b) == Concat(a) + Concat(b)
    decreases |a|
  {
    hide ParseTransaction;
    if a == [] {
      assert a + b == b;
    } else {
      assert (a + b)[1..] == a[1..] + b;
      if ParseTransaction(a[0], Some(g)).Ok? {
        ChainSplits(ParseTransaction(a[0], Some(g)).value.After(), a[1..], b);
      } else {
        ChainSplits(g, a[1..], b);
      }
    }
  }

  lemma RefusedElsewhere(record: seq<byte>, g: Geometry, other: Geometry)
    requires ParseTransaction(record, Some(g)).Ok? && g != other
    ensures ParseTransaction(record, Some(other)).Err?
  {
    hide ParseTransaction, Sound;
    ParsedIsSound(record, Some(g));
    GeometryOnlyFilters(record, g);
    GeometryOnlyFilters(record, other);
  }

  lemma RefusedStops(record: seq<byte>, rest: seq<byte>, g: Geometry, other: Geometry)
    requires ParseTransaction(record, Some(g)).Ok? && ParseTransaction(record, Some(other)).Err?
    ensures Stops(record + rest, other)
  {
    hide ParseTransaction, U32, Num32;
    ScanFindsRecord([], record, rest, g);
    assert [] + record + rest == record + rest;
    assert (record + rest)[0..|record|] == record;
  }

  /** A log whose first transaction continues other watermarks reads as empty. */
  lemma OtherGeometryStops(g: Geometry, other: Geometry, records: seq<seq<byte>>, tail: seq<byte>)
    requires Chain(g, records) && records != [] && g != other
    ensures Scan(Concat(records) + tail, 0, other) == []
  {
    hide ParseTransaction, ScanOne;
    var record, rest := records[0], Concat(records[1..]) + tail;
    assert Concat(records) + tail == record + rest;
    RefusedElsewhere(record, g, other);
    RefusedStops(record, rest, g, other);
  }

  /** Reserve as it is initialised. */
  function Blank(n: nat): seq<byte> {
    seq(n, _ => 0)
  }

  /** Freshly initialised reserve holds no transaction. */
  lemma ZerosStop(n: nat, g: Geometry)
    ensures Stops(Blank(n), g)
  {
    hide ParseTransaction;
    var tail := Blank(n);
    if n >= MIN_TX_SIZE {
      assert tail[0..4][0] == 0 && TX_MAGIC[0] == 0x54;
    }
  }
}
