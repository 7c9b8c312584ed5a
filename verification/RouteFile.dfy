/** The route file of a generation: tables of new names over a blob of keys,
    then the new requests in a section found from the end of the file. */
module RouteFile {
  import opened Wrappers
  import opened Bytes
  import opened Format
  import opened Model
  import opened TransactionFormat
  import opened Columns

  // "T3ROUT01", "T2REQ01\0" and "T2REQF1\0"
  const ROUTE_MAGIC: seq<byte> := [0x54, 0x33, 0x52, 0x4F, 0x55, 0x54, 0x30, 0x31]
  const REQUEST_MAGIC: seq<byte> := [0x54, 0x32, 0x52, 0x45, 0x51, 0x30, 0x31, 0x00]
  const FOOTER_MAGIC: seq<byte> := [0x54, 0x32, 0x52, 0x45, 0x51, 0x46, 0x31, 0x00]
  const ROUTE_VERSION := 1
  const REQUEST_VERSION := 1
  const HEADER_SIZE := 64
  const ENTRY_SIZE := 24
  const SECTION_HEADER := 20
  const SECTION_FOOTER := 16

  /** One table entry: a key with its hash and the ordinal it routes to. */
  datatype Entry = Entry(hash: u64, ordinal: u32, key: seq<byte>)

  /** The key of a thread, or of a checkpoint of a thread. */
  function RouteKey(thread: Id, checkpoint: Option<Id>): (key: seq<byte>)
    requires |thread| <= U32_MAX && (checkpoint.Some? ==> |checkpoint.value| <= U32_MAX)
    ensures |key| >= 9
  {
    if checkpoint.None? then [0] + U32(|thread|) + thread + U32(0)
    else [1] + U32(|thread|) + thread + U32(|checkpoint.value|) + checkpoint.value
  }

  /** Different names have different keys. */
  lemma RouteKeyInjective(a: Id, b: Option<Id>, c: Id, d: Option<Id>)
    requires |a| <= U32_MAX && (b.Some? ==> |b.value| <= U32_MAX)
    requires |c| <= U32_MAX && (d.Some? ==> |d.value| <= U32_MAX)
    requires RouteKey(a, b) == RouteKey(c, d)
    ensures a == c && b == d
  {
    hide U32;
    var k, l := RouteKey(a, b), RouteKey(c, d);
    assert k[0] == (if b.None? then 0 else 1) && l[0] == (if d.None? then 0 else 1);
    assert k[1..5] == U32(|a|) && l[1..5] == U32(|c|);
    assert Num(U32(|a|)) == |a| && Num(U32(|c|)) == |c|;
    assert k[5..5 + |a|] == a && l[5..5 + |c|] == c;
    if b.Some? {
      assert k[9 + |a|..] == b.value && l[9 + |c|..] == d.value;
    }
  }

  // Tables in order of hash, then key

  predicate LexLe(a: seq<byte>, b: seq<byte>) {
    a == [] || (b != [] && (a[0] < b[0] || (a[0] == b[0] && LexLe(a[1..], b[1..]))))
  }

  lemma {:induction false} LexTotal(a: seq<byte>, b: seq<byte>)
    ensures LexLe(a, b) || LexLe(b, a)
  {
    if a != [] && b != [] && a[0] == b[0] { LexTotal(a[1..], b[1..]); }
  }

  lemma {:induction false} LexChains(a: seq<byte>, b: seq<byte>, c: seq<byte>)
    requires LexLe(a, b) && LexLe(b, c)
    ensures LexLe(a, c)
  {
    if a != [] && a[0] == b[0] == c[0] { LexChains(a[1..], b[1..], c[1..]); }
  }

  /** The keys agree up to byte `n`, where `a` ends or has the smaller byte. */
  predicate DifferAt(a: seq<byte>, b: seq<byte>, n: nat) {
    && n <= |a| && n <= |b| && a[..n] == b[..n]
    && (n == |a| || (n < |b| && a[n] < b[n]))
  }

  /** Byte strings are ordered by their first difference, a prefix before what
      it begins. */
  lemma {:induction false} LexIs(a: seq<byte>, b: seq<byte>)
    ensures LexLe(a, b) <==> exists n: nat :: DifferAt(a, b, n)
  {
    if a == [] {
      assert DifferAt(a, b, 0);
    } else if b != [] {
      var c, d := a[1..], b[1..];
      LexIs(c, d);
      if n: nat :| a[0] == b[0] && DifferAt(c, d, n) {
        assert a[..n + 1] == [a[0]] + c[..n] && b[..n + 1] == [b[0]] + d[..n];
        assert DifferAt(a, b, n + 1);
      }
      if a[0] < b[0] { assert DifferAt(a, b, 0); }
      if n: nat :| DifferAt(a, b, n) && n > 0 {
        assert a[..n][0] == b[..n][0];
        assert a[..n][1..] == c[..n - 1] && b[..n][1..] == d[..n - 1];
        assert DifferAt(c, d, n - 1);
      }
    }
  }

  predicate Before(a: Entry, b: Entry) {
    a.hash < b.hash || (a.hash == b.hash && LexLe(a.key, b.key))
  }

  function Insert(e: Entry, xs: seq<Entry>): seq<Entry> {
    if xs == [] then [e] else if Before(e, xs[0]) then [e] + xs else [xs[0]] + Insert(e, xs[1..])
  }

  function Sort(xs: seq<Entry>): seq<Entry> {
    if xs == [] then [] else Insert(xs[0], Sort(xs[1..]))
  }

  predicate InOrder(xs: seq<Entry>) {
    forall i, j :: 0 <= i < j < |xs| ==> Before(xs[i], xs[j])
  }

  /** An entry before the first of an ordered table is before all of it. */
  lemma BeforeAll(e: Entry, xs: seq<Entry>)
    requires InOrder(xs) && xs != [] && Before(e, xs[0])
    ensures InOrder([e] + xs)
  {
    forall j | 0 < j < |xs| ensures Before(e, xs[j]) {
      if e.hash == xs[j].hash { LexChains(e.key, xs[0].key, xs[j].key); }
    }
  }

  lemma FirstStays(e: Entry, x: Entry, rest: seq<Entry>, more: seq<Entry>)
    requires InOrder([x] + rest) && Before(x, e) && InOrder(more) && multiset(more) == multiset(rest) + multiset{e}
    ensures InOrder([x] + more)
  {
    hide Before;
    forall j | 0 <= j < |more| ensures Before(x, more[j]) {
      assert more[j] in multiset(more);
      if more[j] != e {
        var k :| 0 <= k < |rest| && rest[k] == more[j];
        assert Before(([x] + rest)[0], ([x] + rest)[k + 1]);
      }
    }
    forall i, j | 0 <= i < j < |[x] + more| ensures Before(([x] + more)[i], ([x] + more)[j]) {
      if i > 0 { assert Before(more[i - 1], more[j - 1]); }
    }
  }

  lemma {:induction false} InsertKeepsOrder(e: Entry, xs: seq<Entry>)
    requires InOrder(xs)
    ensures InOrder(Insert(e, xs)) && multiset(Insert(e, xs)) == multiset(xs) + multiset{e}
  {
    hide InOrder, LexLe;
    if xs == [] {
      OneInOrder(e);
    } else {
      assert xs == [xs[0]] + xs[1..];
      if Before(e, xs[0]) {
        BeforeAll(e, xs);
      } else {
        LexTotal(e.key, xs[0].key);
        TailInOrder(xs);
        InsertKeepsOrder(e, xs[1..]);
        FirstStays(e, xs[0], xs[1..], Insert(e, xs[1..]));
      }
    }
  }

  lemma OneInOrder(e: Entry)
    ensures InOrder([e])
  {
  }

  lemma TailInOrder(xs: seq<Entry>)
    requires InOrder(xs) && xs != []
    ensures InOrder(xs[1..])
  {
    hide Before;
    forall i, j | 0 <= i < j < |xs| - 1 ensures Before(xs[1..][i], xs[1..][j]) {
      assert Before(xs[i + 1], xs[j + 1]);
    }
  }

  /** The tables hold exactly the given entries, in order. */
  lemma {:induction false} SortIsOrdered(xs: seq<Entry>)
    ensures InOrder(Sort(xs)) && multiset(Sort(xs)) == multiset(xs) && |Sort(xs)| == |xs|
  {
    if xs != [] {
      SortIsOrdered(xs[1..]);
      InsertKeepsOrder(xs[0], Sort(xs[1..]));
      assert xs == [xs[0]] + xs[1..];
      assert |multiset(Sort(xs))| == |multiset(xs)|;
    }
  }

  /** The new names and requests of a generation. */
  datatype Additions = Additions(
    threads: seq<(Id, nat)>, checkpoints: seq<(Key, u32)>, requests: seq<RequestRecord>)

  predicate ThreadShort(thread: (Id, nat)) { |thread.0| <= U32_MAX && thread.1 <= U32_MAX }

  predicate CheckpointShort(c: (Key, u32)) { |c.0.thread| <= U32_MAX && |c.0.checkpoint| <= U32_MAX }

  /** Every length and ordinal fits its field. */
  predicate NamesShort(added: Additions) {
    && (forall i :: 0 <= i < |added.threads| ==> ThreadShort(added.threads[i]))
    && (forall i :: 0 <= i < |added.checkpoints| ==> CheckpointShort(added.checkpoints[i]))
  }

  function ThreadEntry(thread: (Id, nat)): Entry
    requires ThreadShort(thread)
  {
    Entry(Xxh3(RouteKey(thread.0, None)), thread.1, RouteKey(thread.0, None))
  }

  function CheckpointEntry(c: (Key, u32)): Entry
    requires CheckpointShort(c)
  {
    var key := RouteKey(c.0.thread, Some(c.0.checkpoint));
    Entry(Xxh3(key), c.1, key)
  }

  function ThreadEntries(added: Additions): (r: seq<Entry>)
    requires NamesShort(added)
    ensures |r| == |added.threads|
  {
    seq(|added.threads|, i requires 0 <= i < |added.threads| => ThreadEntry(added.threads[i]))
  }

  function CheckpointEntries(added: Additions): (r: seq<Entry>)
    requires NamesShort(added)
    ensures |r| == |added.checkpoints|
  {
    seq(|added.checkpoints|, i requires 0 <= i < |added.checkpoints| => CheckpointEntry(added.checkpoints[i]))
  }

  /** The route of a generation. */
  function RouteOf(generation: u64, added: Additions): Route
    requires NamesShort(added)
  {
    Route(generation, Sort(ThreadEntries(added)), Sort(CheckpointEntries(added)), added.requests)
  }

  function KeysOf(entries: seq<Entry>): seq<Id> {
    seq(|entries|, i requires 0 <= i < |entries| => entries[i].key)
  }

  /** All keys, in table order. */
  function Blob(entries: seq<Entry>): seq<byte> { Joined(KeysOf(entries)) }

  function EntryBytes(e: Entry, offset: u32, length: u32): (r: seq<byte>)
    ensures |r| == ENTRY_SIZE
  {
    U64(e.hash) + (U32(e.ordinal) + (U32(offset) + (U32(length) + U32(0))))
  }

  predicate KeyFits(entries: seq<Entry>, i: nat)
    requires i < |entries|
  {
    |Blob(entries[..i])| <= U32_MAX && |entries[i].key| <= U32_MAX
  }

  /** Every key offset and length fits its field. */
  predicate KeysFit(entries: seq<Entry>) {
    forall i :: 0 <= i < |entries| ==> KeyFits(entries, i)
  }

  lemma BlobGrows(entries: seq<Entry>, i: nat)
    requires i < |entries|
    ensures Blob(entries[..i + 1]) == Blob(entries[..i]) + entries[i].key
  {
    var upto := entries[..i + 1];
    assert KeysOf(upto)[..i] == KeysOf(entries[..i]);
  }

  lemma {:induction false} BlobPrefix(entries: seq<Entry>, i: nat)
    requires i <= |entries|
    ensures |Blob(entries[..i])| <= |Blob(entries)|
    decreases |entries| - i
  {
    if i == |entries| {
      assert entries[..i] == entries;
    } else {
      BlobGrows(entries, i);
      BlobPrefix(entries, i + 1);
    }
  }

  /** The table over the first `n` entries. */
  function Table(entries: seq<Entry>, n: nat): (r: seq<byte>)
    requires KeysFit(entries) && n <= |entries|
    ensures |r| == ENTRY_SIZE * n
  {
    if n == 0 then []
    else
      assert KeyFits(entries, n - 1);
      Table(entries, n - 1) + EntryBytes(entries[n - 1], |Blob(entries[..n - 1])|, |entries[n - 1].key|)
  }

  /** Each entry records where its key lies in the blob. */
  lemma {:induction false} TableAt(entries: seq<Entry>, n: nat, i: nat)
    requires KeysFit(entries) && i < n <= |entries|
    ensures var t := Table(entries, n);
      && U32At(t, ENTRY_SIZE * i + 12) == |Blob(entries[..i])|
      && U32At(t, ENTRY_SIZE * i + 16) == |entries[i].key|
      && U32At(t, ENTRY_SIZE * i + 12) + U32At(t, ENTRY_SIZE * i + 16) == |Blob(entries[..i + 1])|
  {
    hide U32, U64, Num32, Blob;
    var t := Table(entries, n);
    BlobGrows(entries, n - 1);
    assert KeyFits(entries, n - 1);
    var last := EntryBytes(entries[n - 1], |Blob(entries[..n - 1])|, |entries[n - 1].key|);
    if i == n - 1 {
      assert t[ENTRY_SIZE * i..] == last;
      EntryFields(entries[i], |Blob(entries[..i])|, |entries[i].key|);
      assert t[ENTRY_SIZE * i + 12..ENTRY_SIZE * i + 16] == last[12..16];
      assert t[ENTRY_SIZE * i + 16..ENTRY_SIZE * i + 20] == last[16..20];
    } else {
      var before := Table(entries, n - 1);
      TableAt(entries, n - 1, i);
      assert t[ENTRY_SIZE * i + 12..ENTRY_SIZE * i + 16] == before[ENTRY_SIZE * i + 12..ENTRY_SIZE * i + 16];
      assert t[ENTRY_SIZE * i + 16..ENTRY_SIZE * i + 20] == before[ENTRY_SIZE * i + 16..ENTRY_SIZE * i + 20];
    }
  }

  lemma EntryFields(e: Entry, offset: u32, length: u32)
    ensures var r := EntryBytes(e, offset, length);
      && U64At(r, 0) == e.hash && U32At(r, 8) == e.ordinal
      && U32At(r, 12) == offset && U32At(r, 16) == length && U32At(r, 20) == 0
  {
    hide U32, U64;
    var t3 := U32(length) + U32(0);
    var t2 := U32(offset) + t3;
    var t1 := U32(e.ordinal) + t2;
    var r := U64(e.hash) + t1;
    Peel(r, 0, U64(e.hash), t1);
    Peel(r, 8, U32(e.ordinal), t2);
    Peel(r, 12, U32(offset), t3);
    Peel(r, 16, U32(length), U32(0));
    assert r[20..24] == r[20..];
  }

  /** Where each entry lies in the table. */
  lemma {:induction false} TableSlice(entries: seq<Entry>, n: nat, i: nat)
    requires KeysFit(entries) && i < n <= |entries|
    ensures KeyFits(entries, i) && ENTRY_SIZE * (i + 1) <= |Table(entries, n)|
    ensures Table(entries, n)[ENTRY_SIZE * i..ENTRY_SIZE * (i + 1)]
         == EntryBytes(entries[i], |Blob(entries[..i])|, |entries[i].key|)
  {
    hide Blob, EntryBytes;
    assert KeyFits(entries, n - 1);
    if i < n - 1 {
      TableSlice(entries, n - 1, i);
      var a, b := ENTRY_SIZE * i, ENTRY_SIZE * (i + 1);
      assert Table(entries, n)[a..b] == Table(entries, n - 1)[a..b];
    }
  }

  /** Where each key lies in the blob. */
  lemma {:induction false} BlobSlice(entries: seq<Entry>, n: nat, i: nat)
    requires i < n <= |entries|
    ensures |Blob(entries[..i])| + |entries[i].key| <= |Blob(entries[..n])|
    ensures Blob(entries[..n])[|Blob(entries[..i])|..|Blob(entries[..i])| + |entries[i].key|] == entries[i].key
  {
    hide Blob;
    BlobGrows(entries, n - 1);
    if i < n - 1 {
      BlobSlice(entries, n - 1, i);
      var a := |Blob(entries[..i])|;
      assert Blob(entries[..n])[a..a + |entries[i].key|] == Blob(entries[..n - 1])[a..a + |entries[i].key|];
    }
  }

  // The request section

  predicate RecordOk(record: RequestRecord) {
    0 < |record.key| <= MAX_REQUEST_ID_BYTES
  }

  function RecordBytes(record: RequestRecord): (r: seq<byte>)
    requires RecordOk(record)
    ensures |r| == 8 + DIGEST_SIZE + |record.key|
  {
    U32(|record.key|) + (U32(record.ordinal) + (record.digest + record.key))
  }

  predicate RecordsOk(records: seq<RequestRecord>) {
    |records| <= U32_MAX && forall i :: 0 <= i < |records| ==> RecordOk(records[i])
  }

  const MAX_RECORD_SIZE := 8 + DIGEST_SIZE + MAX_REQUEST_ID_BYTES

  function RecordsBytes(records: seq<RequestRecord>, n: nat): (r: seq<byte>)
    requires RecordsOk(records) && n <= |records|
    ensures |r| <= n * MAX_RECORD_SIZE
  {
    if n == 0 then [] else RecordsBytes(records, n - 1) + RecordBytes(records[n - 1])
  }

  lemma RecordFields(record: RequestRecord)
    requires RecordOk(record)
    ensures var r := RecordBytes(record);
      && U32At(r, 0) == |record.key| && U32At(r, 4) == record.ordinal
      && r[8..8 + DIGEST_SIZE] == record.digest && r[8 + DIGEST_SIZE..] == record.key
  {
    hide U32;
    var t2 := record.digest + record.key;
    var t1 := U32(record.ordinal) + t2;
    var r := U32(|record.key|) + t1;
    Peel(r, 0, U32(|record.key|), t1);
    Peel(r, 4, U32(record.ordinal), t2);
    Peel(r, 8, record.digest, record.key);
  }

  /** Where record `i` lies. */
  lemma {:induction false} RecordAt(records: seq<RequestRecord>, n: nat, i: nat)
    requires RecordsOk(records) && i < n <= |records|
    ensures |RecordsBytes(records, i + 1)| == |RecordsBytes(records, i)| + |RecordBytes(records[i])|
    ensures |RecordsBytes(records, i + 1)| <= |RecordsBytes(records, n)|
    ensures RecordsBytes(records, n)[|RecordsBytes(records, i)|..|RecordsBytes(records, i + 1)|]
         == RecordBytes(records[i])
  {
    hide RecordBytes, RecordOk;
    if i < n - 1 {
      RecordAt(records, n - 1, i);
      var a, b := |RecordsBytes(records, i)|, |RecordsBytes(records, i + 1)|;
      assert RecordsBytes(records, n)[a..b] == RecordsBytes(records, n - 1)[a..b];
    }
  }

  function SectionHead(count: u32): (r: seq<byte>)
    ensures |r| == SECTION_HEADER
  {
    REQUEST_MAGIC + (U32(REQUEST_VERSION) + (U32(0) + U32(count)))
  }

  /** Records within their limits never overflow the length of the section. */
  function SectionBody(records: seq<RequestRecord>): (r: seq<byte>)
    requires RecordsOk(records)
    ensures |r| <= U64_MAX
  {
    SectionHead(|records|) + RecordsBytes(records, |records|)
  }

  /** Nothing for no requests; otherwise header, records, length and footer. */
  function Section(records: seq<RequestRecord>): seq<byte>
    requires RecordsOk(records)
  {
    if records == [] then [] else SectionBody(records) + (U64(|SectionBody(records)|) + FOOTER_MAGIC)
  }

  lemma SectionHeadFields(count: u32)
    ensures var r := SectionHead(count);
      r[..8] == REQUEST_MAGIC && U32At(r, 8) == REQUEST_VERSION && U32At(r, 12) == 0 && U32At(r, 16) == count
  {
    hide U32;
    var t2 := U32(0) + U32(count);
    var t1 := U32(REQUEST_VERSION) + t2;
    var r := REQUEST_MAGIC + t1;
    Peel(r, 0, REQUEST_MAGIC, t1);
    Peel(r, 8, U32(REQUEST_VERSION), t2);
    Peel(r, 12, U32(0), U32(count));
    assert r[16..20] == r[16..];
  }

  // The whole file

  datatype RouteHeader = RouteHeader(
    generation: u64, threadCount: u32, checkpointCount: u32,
    threadTable: u64, checkpointTable: u64, keyBlob: u64, hash: u64)

  function HeaderThen(h: RouteHeader, rest: seq<byte>): (r: seq<byte>)
    ensures |r| == HEADER_SIZE + |rest|
  {
    ROUTE_MAGIC + (U32(ROUTE_VERSION) + (U32(0) + (U64(h.generation) + (U32(h.threadCount) + (U32(h.checkpointCount)
    + (U64(h.threadTable) + (U64(h.checkpointTable) + (U64(h.keyBlob) + (U64(h.hash) + rest)))))))))
  }

  lemma HeaderFields(h: RouteHeader, rest: seq<byte>)
    ensures var r := HeaderThen(h, rest);
      && r[..8] == ROUTE_MAGIC && U32At(r, 8) == ROUTE_VERSION && U32At(r, 12) == 0 && U64At(r, 16) == h.generation
      && U32At(r, 24) == h.threadCount && U32At(r, 28) == h.checkpointCount && U64At(r, 32) == h.threadTable
      && U64At(r, 40) == h.checkpointTable && U64At(r, 48) == h.keyBlob && U64At(r, 56) == h.hash
      && r[HEADER_SIZE..] == rest
  {
    hide U32, U64;
    var t9 := U64(h.hash) + rest;
    var t8 := U64(h.keyBlob) + t9;
    var t7 := U64(h.checkpointTable) + t8;
    var t6 := U64(h.threadTable) + t7;
    var t5 := U32(h.checkpointCount) + t6;
    var t4 := U32(h.threadCount) + t5;
    var t3 := U64(h.generation) + t4;
    var t2 := U32(0) + t3;
    var t1 := U32(ROUTE_VERSION) + t2;
    var r := ROUTE_MAGIC + t1;
    Peel(r, 0, ROUTE_MAGIC, t1);
    Peel(r, 8, U32(ROUTE_VERSION), t2);
    Peel(r, 12, U32(0), t3);
    Peel(r, 16, U64(h.generation), t4);
    Peel(r, 24, U32(h.threadCount), t5);
    Peel(r, 28, U32(h.checkpointCount), t6);
    Peel(r, 32, U64(h.threadTable), t7);
    Peel(r, 40, U64(h.checkpointTable), t8);
    Peel(r, 48, U64(h.keyBlob), t9);
    Peel(r, 56, U64(h.hash), rest);
  }

  /** The tables, keys and requests of one route file. */
  datatype Route = Route(generation: u64, threads: seq<Entry>, checkpoints: seq<Entry>, requests: seq<RequestRecord>)
  {
    function Entries(): seq<Entry> { threads + checkpoints }
  }

  predicate RouteFits(r: Route) {
    && |r.threads| <= U32_MAX && |r.checkpoints| <= U32_MAX
    && KeysFit(r.Entries()) && RecordsOk(r.requests)
  }

  function Tail(r: Route): seq<byte>
    requires RouteFits(r)
  {
    Table(r.Entries(), |r.Entries()|) + (Blob(r.Entries()) + Section(r.requests))
  }

  function IndexHash(tail: seq<byte>): u64 {
    if tail == [] then 0 else Xxh3(tail)
  }

  function HeaderOf(r: Route): RouteHeader
    requires RouteFits(r)
  {
    var tables := HEADER_SIZE + ENTRY_SIZE * |r.threads|;
    RouteHeader(r.generation, |r.threads|, |r.checkpoints|, HEADER_SIZE, tables, tables + ENTRY_SIZE * |r.checkpoints|,
           IndexHash(Tail(r)))
  }

  function RouteBytes(r: Route): seq<byte>
    requires RouteFits(r)
  {
    HeaderThen(HeaderOf(r), Tail(r))
  }

  // Building

  method RequestSectionBytes(records: seq<RequestRecord>) returns (r: Result<seq<byte>>)
    ensures r.Ok? <==> RecordsOk(records)
    ensures r.Ok? ==> r.value == Section(records)
  {
    hide U32, U64, RecordBytes;
    if records == [] { return Ok([]); }
    if |records| > U32_MAX { return Err(Format); }
    var section := SectionHead(|records|);
    for i := 0 to |records|
      invariant forall j :: 0 <= j < i ==> RecordOk(records[j])
      invariant RecordsOk(records[..i]) && section == SectionHead(|records|) + RecordsBytes(records[..i], i)
    {
      if |records[i].key| == 0 || |records[i].key| > MAX_REQUEST_ID_BYTES { return Err(Format); }
      RecordsPrefix(records[..i + 1], i);
      assert records[..i + 1][..i] == records[..i];
      section := section + RecordBytes(records[i]);
    }
    assert records[..|records|] == records;
    if |section| > U64_MAX { return Err(Format); }
    return Ok(section + (U64(|section|) + FOOTER_MAGIC));
  }

  lemma {:induction false} RecordsPrefix(records: seq<RequestRecord>, n: nat)
    requires RecordsOk(records) && n <= |records|
    ensures RecordsOk(records[..n]) && RecordsBytes(records, n) == RecordsBytes(records[..n], n)
    decreases n
  {
    hide RecordBytes;
    if n > 0 {
      RecordsPrefix(records, n - 1);
      RecordsPrefix(records[..n], n - 1);
      assert records[..n][..n - 1] == records[..n - 1];
    }
  }

  lemma KeysFitPrefix(entries: seq<Entry>, i: nat)
    requires i < |entries|
    ensures KeysFit(entries[..i + 1]) <==> KeysFit(entries[..i]) && KeyFits(entries, i)
  {
    hide Blob;
    var upto := entries[..i + 1];
    assert forall j :: 0 <= j <= i ==> upto[..j] == entries[..j] && upto[j] == entries[j];
    assert forall j :: 0 <= j < i ==> entries[..i][..j] == entries[..j] && entries[..i][j] == entries[j];
    assert forall j :: 0 <= j <= i ==> (KeyFits(upto, j) <==> KeyFits(entries, j));
    assert forall j :: 0 <= j < i ==> (KeyFits(entries[..i], j) <==> KeyFits(entries, j));
  }

  lemma KeysFitAt(entries: seq<Entry>, i: nat)
    requires i < |entries| && !KeyFits(entries, i)
    ensures !KeysFit(entries)
  {
  }

  lemma KeysNone(entries: seq<Entry>)
    ensures Blob(entries[..0]) == [] && KeysFit(entries[..0])
  {
  }

  lemma {:induction false} TablePrefix(entries: seq<Entry>, n: nat, i: nat)
    requires i <= n <= |entries| && KeysFit(entries[..n]) && KeysFit(entries[..i])
    ensures Table(entries[..n], i) == Table(entries[..i], i)
    decreases i
  {
    hide Blob, EntryBytes;
    if i > 0 {
      var a, b := entries[..n], entries[..i];
      assert a[i - 1] == b[i - 1] && a[..i - 1] == b[..i - 1] == entries[..i - 1];
      KeysFitPrefix(entries, i - 1);
      TablePrefix(entries, n, i - 1);
      TablePrefix(entries, i, i - 1);
    }
  }

  /** Tables and keys in one pass, each entry pointing into the keys so far. */
  method BuildTables(entries: seq<Entry>) returns (r: Result<(seq<byte>, seq<byte>)>)
    ensures r.Ok? <==> KeysFit(entries)
    ensures r.Ok? ==> r.value == (Table(entries, |entries|), Blob(entries))
  {
    hide Blob, EntryBytes, KeyFits, KeysFit;
    var table: seq<byte>, blob: seq<byte> := [], [];
    KeysNone(entries);
    for i := 0 to |entries|
      invariant blob == Blob(entries[..i]) && KeysFit(entries[..i]) && table == Table(entries[..i], i)
    {
      KeyFitsIs(entries, i);
      if |blob| > U32_MAX || |entries[i].key| > U32_MAX {
        KeysFitAt(entries, i);
        return Err(Format);
      }
      BlobGrows(entries, i);
      KeysFitPrefix(entries, i);
      TablePrefix(entries, i + 1, i);
      assert entries[..i + 1][..i] == entries[..i];
      table := table + EntryBytes(entries[i], |blob|, |entries[i].key|);
      blob := blob + entries[i].key;
    }
    assert entries[..|entries|] == entries;
    return Ok((table, blob));
  }

  lemma KeyFitsIs(entries: seq<Entry>, i: nat)
    requires i < |entries|
    ensures KeyFits(entries, i) <==> |Blob(entries[..i])| <= U32_MAX && |entries[i].key| <= U32_MAX
  {
  }

  /** Keys and hashes from the names. */
  method EntriesOf(added: Additions) returns (r: Result<(seq<Entry>, seq<Entry>)>)
    ensures r.Ok? <==> NamesShort(added)
    ensures r.Ok? ==> r.value == (ThreadEntries(added), CheckpointEntries(added))
  {
    hide RouteKey;
    var threads: seq<Entry>, checkpoints: seq<Entry> := [], [];
    for i := 0 to |added.threads|
      invariant |threads| == i && forall j :: 0 <= j < i ==>
        ThreadShort(added.threads[j]) && threads[j] == ThreadEntry(added.threads[j])
    {
      if |added.threads[i].0| > U32_MAX || added.threads[i].1 > U32_MAX { return Err(Format); }
      var key := RouteKey(added.threads[i].0, None);
      threads := threads + [Entry(Xxh3(key), added.threads[i].1, key)];
    }
    for i := 0 to |added.checkpoints|
      invariant |checkpoints| == i && forall j :: 0 <= j < i ==>
        CheckpointShort(added.checkpoints[j]) && checkpoints[j] == CheckpointEntry(added.checkpoints[j])
    {
      var name := added.checkpoints[i].0;
      if |name.thread| > U32_MAX || |name.checkpoint| > U32_MAX { return Err(Format); }
      var key := RouteKey(name.thread, Some(name.checkpoint));
      checkpoints := checkpoints + [Entry(Xxh3(key), added.checkpoints[i].1, key)];
    }
    assert threads == ThreadEntries(added) && checkpoints == CheckpointEntries(added);
    return Ok((threads, checkpoints));
  }

  /** Names whose counts, lengths and offsets fit their fields. */
  predicate NamesRoom(added: Additions) {
    && NamesShort(added)
    && |added.threads| <= U32_MAX && |added.checkpoints| <= U32_MAX
    && KeysFit(Sort(ThreadEntries(added)) + Sort(CheckpointEntries(added)))
  }

  /** Whether a route file can be built: the names fit, and so does every
      request. */
  predicate Buildable(added: Additions) {
    NamesRoom(added) && RecordsOk(added.requests)
  }

  /** A route whose file can be built. */
  predicate Built(r: Route) { RouteFits(r) && KeysLong(r.Entries()) }

  type BuiltRoute = r: Route | Built(r) witness Route(0, [], [], [])

  lemma BuildableIsBuilt(generation: u64, added: Additions)
    requires Buildable(added)
    ensures Built(RouteOf(generation, added))
  {
    hide Sort, KeysFit, ThreadEntries, CheckpointEntries, KeysLong;
    CountsKept(added);
    RouteOfKeysLong(generation, added);
  }

  lemma CountsKept(added: Additions)
    requires NamesShort(added)
    ensures |Sort(ThreadEntries(added))| == |added.threads|
    ensures |Sort(CheckpointEntries(added))| == |added.checkpoints|
  {
    hide Sort;
    SortIsOrdered(ThreadEntries(added));
    SortIsOrdered(CheckpointEntries(added));
  }

  method BuildRouteFile(generation: u64, added: Additions) returns (r: Result<(seq<byte>, u64)>)
    ensures r.Ok? <==> Buildable(added)
    ensures r.Ok? ==> Built(RouteOf(generation, added))
    ensures r.Ok? ==>
      r.value == (RouteBytes(RouteOf(generation, added)), IndexHash(Tail(RouteOf(generation, added))))
    ensures r.Ok? ==> RoutesNames(r.value.0, added)
  {
    hide U32, U64, Section, Blob, HeaderThen, KeysFit, Table, NamesShort, ThreadEntries, CheckpointEntries, Sort,
      RoutesNames;
    var entries := EntriesOf(added);
    if entries.Err? { return Err(Format); }
    CountsKept(added);
    if Buildable(added) {
      BuildableIsBuilt(generation, added);
      BuiltRoutes(generation, added);
    }
    var threads, checkpoints := Sort(entries.value.0), Sort(entries.value.1);
    var tables := BuildTables(threads + checkpoints);
    if tables.Err? { return Err(Format); }
    var section := RequestSectionBytes(added.requests);
    if section.Err? { return Err(Format); }
    if |threads| > U32_MAX || |checkpoints| > U32_MAX { return Err(Format); }
    var tail := tables.value.0 + (tables.value.1 + section.value);
    var hash := IndexHash(tail);
    var checkpointTable := HEADER_SIZE + ENTRY_SIZE * |threads|;
    var header := RouteHeader(generation, |threads|, |checkpoints|, HEADER_SIZE, checkpointTable,
                              checkpointTable + ENTRY_SIZE * |checkpoints|, hash);
    return Ok((HeaderThen(header, tail), hash));
  }

  // Reading

  /** The file agrees with the tables of a route from entry `first` on. */
  predicate TableHolds(bytes: seq<byte>, table: nat, entries: seq<Entry>, first: nat, count: nat) {
    && first + count <= |entries|
    && forall i :: 0 <= i < count ==> EntryHolds(bytes, table, entries, first, i)
  }

  predicate EntryHolds(bytes: seq<byte>, table: nat, entries: seq<Entry>, first: nat, i: nat)
    requires first + i < |entries|
  {
    && table + ENTRY_SIZE * i + 20 <= |bytes|
    && U32At(bytes, table + ENTRY_SIZE * i + 12) + U32At(bytes, table + ENTRY_SIZE * i + 16)
       == |Blob(entries[..first + i + 1])|
  }

  /** Where the key of a table entry ends, as the file says. */
  function KeyEndAt(bytes: seq<byte>, entry: nat): nat
    requires entry + 20 <= |bytes|
  {
    U32At(bytes, entry + 12) + U32At(bytes, entry + 16)
  }

  predicate InFile(bytes: seq<byte>, table: nat, count: nat) {
    count > 0 ==> table + ENTRY_SIZE * (count - 1) + 20 <= |bytes|
  }

  /** The largest of the key ends of a table, or `floor` when that is larger. */
  ghost predicate Furthest(bytes: seq<byte>, table: nat, count: nat, floor: nat, end: nat)
    requires InFile(bytes, table, count)
  {
    && floor <= end && (forall i :: 0 <= i < count ==> KeyEndAt(bytes, table + i * ENTRY_SIZE) <= end)
    && (end == floor || exists i :: 0 <= i < count && end == KeyEndAt(bytes, table + i * ENTRY_SIZE))
  }

  lemma FurthestStep(bytes: seq<byte>, table: nat, i: nat, floor: nat, end: nat)
    requires InFile(bytes, table, i + 1) && InFile(bytes, table, i) && Furthest(bytes, table, i, floor, end)
    ensures var keyEnd := KeyEndAt(bytes, table + i * ENTRY_SIZE);
      Furthest(bytes, table, i + 1, floor, if keyEnd > end then keyEnd else end)
  {
    hide KeyEndAt;
    if end > floor && KeyEndAt(bytes, table + i * ENTRY_SIZE) <= end {
      var j :| 0 <= j < i && end == KeyEndAt(bytes, table + j * ENTRY_SIZE);
    }
  }

  lemma FurthestNone(bytes: seq<byte>, table: nat, floor: nat)
    ensures Furthest(bytes, table, 0, floor, floor)
  {
  }

  lemma EndHeld(bytes: seq<byte>, table: nat, entries: seq<Entry>, first: nat, i: nat)
    requires first + i < |entries| && EntryHolds(bytes, table, entries, first, i)
    ensures KeyEndAt(bytes, table + i * ENTRY_SIZE) == |Blob(entries[..first + i + 1])|
  {
    hide Num32, Blob;
  }

  lemma FurthestOnce(bytes: seq<byte>, table: nat, count: nat, floor: nat, a: nat, b: nat)
    requires InFile(bytes, table, count)
    requires Furthest(bytes, table, count, floor, a) && Furthest(bytes, table, count, floor, b)
    ensures a == b
  {
    hide KeyEndAt;
  }

  /** The furthest key end a table records, and at least `extent`. */
  method KeyExtent(bytes: seq<byte>, table: nat, count: nat, extent: nat, ghost entries: seq<Entry>, ghost first: nat,
                   ghost built: bool)
    returns (r: Result<nat>)
    requires built ==> TableHolds(bytes, table, entries, first, count) && extent == |Blob(entries[..first])|
    ensures built ==> r == Ok(|Blob(entries[..first + count])|)
    ensures r.Ok? <==> InFile(bytes, table, count)
    ensures r.Ok? ==> Furthest(bytes, table, count, extent, r.value)
  {
    hide Num32, Blob, Furthest, KeyEndAt;
    var end: nat := extent;
    assert Furthest(bytes, table, 0, extent, end) by { FurthestNone(bytes, table, extent); }
    for i := 0 to count
      invariant built ==> end == |Blob(entries[..first + i])|
      invariant InFile(bytes, table, i) && Furthest(bytes, table, i, extent, end)
    {
      if built {
        assert EntryHolds(bytes, table, entries, first, i);
        BlobGrows(entries, first + i);
      }
      var entry := table + i * ENTRY_SIZE;
      if entry + 20 > |bytes| { return Err(Format); }
      FurthestStep(bytes, table, i, extent, end);
      var keyEnd := KeyEndAt(bytes, entry);
      if built { EndHeld(bytes, table, entries, first, i); }
      if keyEnd > end { end := keyEnd; }
    }
    return Ok(end);
  }

  /** What stands between two places of a file are these records, and all are
      within their limits. */
  predicate RecordsAre(bytes: seq<byte>, start: nat, end: nat, records: seq<RequestRecord>) {
    && start <= end <= |bytes| && RecordsOk(records)
    && bytes[start..end] == RecordsBytes(records, |records|)
  }

  lemma NoRecordsRead(bytes: seq<byte>, start: nat)
    requires start <= |bytes|
    ensures RecordsAre(bytes, start, start, [])
  {
  }

  lemma OneMoreRead(bytes: seq<byte>, start: nat, cursor: nat, records: seq<RequestRecord>, record: RequestRecord,
                    end: nat)
    requires RecordsAre(bytes, start, cursor, records) && |records| < U32_MAX && RecordOk(record)
    requires cursor + 8 + DIGEST_SIZE + |record.key| == end <= |bytes|
    requires U32At(bytes, cursor) == |record.key| && U32At(bytes, cursor + 4) == record.ordinal
    requires bytes[cursor + 8..cursor + 8 + DIGEST_SIZE] == record.digest
    requires bytes[cursor + 8 + DIGEST_SIZE..end] == record.key
    ensures RecordsAre(bytes, start, end, records + [record])
  {
    hide U32, Num32, RecordsBytes, RecordBytes;
    var all, n := records + [record], |records|;
    assert RecordsOk(all);
    OneMoreRecord(records, record);
    RecordThere(bytes, cursor, record, end);
    assert bytes[start..end] == bytes[start..cursor] + bytes[cursor..end];
  }

  lemma OneMoreRecord(records: seq<RequestRecord>, record: RequestRecord)
    requires RecordsOk(records + [record]) && RecordsOk(records) && RecordOk(record)
    ensures RecordsBytes(records + [record], |records| + 1) == RecordsBytes(records, |records|) + RecordBytes(record)
  {
    hide RecordBytes;
    var all, n := records + [record], |records|;
    RecordsPrefix(all, n);
    assert all[..n] == records;
  }

  lemma RecordThere(bytes: seq<byte>, cursor: nat, record: RequestRecord, end: nat)
    requires RecordOk(record) && cursor + 8 + DIGEST_SIZE + |record.key| == end <= |bytes|
    requires U32At(bytes, cursor) == |record.key| && U32At(bytes, cursor + 4) == record.ordinal
    requires bytes[cursor + 8..cursor + 8 + DIGEST_SIZE] == record.digest
    requires bytes[cursor + 8 + DIGEST_SIZE..end] == record.key
    ensures bytes[cursor..end] == RecordBytes(record)
  {
    hide U32, Num32;
    assert bytes[cursor..end] == bytes[cursor..cursor + 4] + (bytes[cursor + 4..cursor + 8]
           + (bytes[cursor + 8..cursor + 8 + DIGEST_SIZE] + bytes[cursor + 8 + DIGEST_SIZE..end]));
  }

  /** Records from a cursor up to the end of the section. */
  method ReadRecords(bytes: seq<byte>, start: nat, end: nat, count: nat, ghost records: seq<RequestRecord>,
                     ghost built: bool)
    returns (r: Result<seq<RequestRecord>>)
    requires end <= |bytes|
    requires start <= end && count <= U32_MAX
    requires built ==> RecordsOk(records) && count == |records| && bytes[start..end] == RecordsBytes(records, |records|)
    ensures built ==> r == Ok(records)
    ensures r.Ok? ==> RecordsAre(bytes, start, end, r.value) && |r.value| == count
  {
    hide Num32, RecordBytes, RecordsBytes, RecordsAre;
    var out: seq<RequestRecord> := [];
    var cursor: nat := start;
    assert built ==> |RecordsBytes(records, 0)| == 0 by { if built { RecordsNone(records); } }
    NoRecordsRead(bytes, start);
    for i := 0 to count
      invariant built ==> out == records[..i] && cursor == start + |RecordsBytes(records, i)|
      invariant |out| == i && cursor <= end && RecordsAre(bytes, start, cursor, out)
    {
      if built {
        RecordAt(records, |records|, i);
        RecordFields(records[i]);
        SliceAgain(bytes, start, end, |RecordsBytes(records, i)|, |RecordsBytes(records, i + 1)|);
        FieldsInside(bytes, cursor, records[i]);
      }
      if cursor + 8 > |bytes| { return Err(Format); }
      var keyLen, ordinal := U32At(bytes, cursor), U32At(bytes, cursor + 4);
      var keyStart := cursor + 8 + DIGEST_SIZE;
      var keyEnd := keyStart + keyLen;
      if keyEnd > end { return Err(Format); }
      var key, digest := bytes[keyStart..keyEnd], bytes[cursor + 8..keyStart];
      if |key| == 0 || |key| > MAX_REQUEST_ID_BYTES { return Err(Format); }
      OneMoreRead(bytes, start, cursor, out, RequestRecord(key, digest, ordinal), keyEnd);
      out := out + [RequestRecord(key, digest, ordinal)];
      cursor := keyEnd;
    }
    assert records[..|records|] == records;
    if cursor != end { return Err(Format); }
    return Ok(out);
  }

  lemma RecordsNone(records: seq<RequestRecord>)
    requires RecordsOk(records)
    ensures |RecordsBytes(records, 0)| == 0
  {
  }

  lemma SliceAgain(bytes: seq<byte>, start: nat, end: nat, a: nat, b: nat)
    requires start <= end <= |bytes| && a <= b <= end - start
    ensures bytes[start..end][a..b] == bytes[start + a..start + b]
  {
    assert forall i :: 0 <= i < b - a ==> bytes[start..end][a..b][i] == bytes[start + a + i];
  }

  /** The fields of a record that lies at a cursor. */
  lemma FieldsInside(bytes: seq<byte>, cursor: nat, record: RequestRecord)
    requires RecordOk(record) && cursor + |RecordBytes(record)| <= |bytes|
    requires bytes[cursor..cursor + |RecordBytes(record)|] == RecordBytes(record)
    ensures U32At(bytes, cursor) == |record.key| && U32At(bytes, cursor + 4) == record.ordinal
    ensures bytes[cursor + 8..cursor + 8 + DIGEST_SIZE] == record.digest
    ensures bytes[cursor + 8 + DIGEST_SIZE..cursor + 8 + DIGEST_SIZE + |record.key|] == record.key
  {
    hide Num32, U32;
    var r, end := RecordBytes(record), cursor + |RecordBytes(record)|;
    RecordFields(record);
    SliceAgain(bytes, cursor, end, 0, 4);
    SliceAgain(bytes, cursor, end, 4, 8);
    SliceAgain(bytes, cursor, end, 8, 8 + DIGEST_SIZE);
    SliceAgain(bytes, cursor, end, 8 + DIGEST_SIZE, |r|);
    assert r[8 + DIGEST_SIZE..|r|] == r[8 + DIGEST_SIZE..];
    assert bytes[cursor..cursor + 4] == r[0..4] && bytes[cursor + 4..cursor + 8] == r[4..8];
  }

  /** The section read at a given start, from header to last record. */
  method ReadSection(bytes: seq<byte>, start: nat, end: nat, ghost records: seq<RequestRecord>, ghost built: bool)
    returns (r: Result<seq<RequestRecord>>)
    requires start <= end <= |bytes|
    requires built ==> RecordsOk(records) && bytes[start..end] == SectionBody(records)
    ensures built ==> r == Ok(records)
    ensures r.Ok? ==> RecordsOk(r.value) && bytes[start..end] == SectionBody(r.value)
  {
    hide Num32, RecordsBytes, SectionHead;
    if built {
      var body, n := SectionBody(records), |RecordsBytes(records, |records|)|;
      assert body[..SECTION_HEADER] == SectionHead(|records|);
      assert body[SECTION_HEADER..] == RecordsBytes(records, |records|);
      SectionHeadFields(|records|);
      SliceAgain(bytes, start, end, 0, SECTION_HEADER);
      SliceAgain(bytes, start, end, SECTION_HEADER, end - start);
      HeadInside(bytes, start, |records|);
    }
    if end - start < SECTION_HEADER { return Err(Format); }
    if bytes[start..start + 8] != REQUEST_MAGIC || U32At(bytes, start + 8) != REQUEST_VERSION
       || U32At(bytes, start + 12) != 0 {
      return Err(Format);
    }
    r := ReadRecords(bytes, start + SECTION_HEADER, end, U32At(bytes, start + 16), records, built);
    if r.Ok? { SectionIs(bytes, start, end, r.value); }
  }

  lemma SectionIs(bytes: seq<byte>, start: nat, end: nat, records: seq<RequestRecord>)
    requires start + SECTION_HEADER <= end <= |bytes| && RecordsAre(bytes, start + SECTION_HEADER, end, records)
    requires bytes[start..start + 8] == REQUEST_MAGIC && U32At(bytes, start + 8) == REQUEST_VERSION
    requires U32At(bytes, start + 12) == 0 && U32At(bytes, start + 16) == |records|
    ensures bytes[start..end] == SectionBody(records)
  {
    hide U32, Num32, RecordsBytes;
    assert bytes[start..end] == bytes[start..start + 8] + (bytes[start + 8..start + 12] + (bytes[start + 12..start + 16]
           + bytes[start + 16..start + 20])) + bytes[start + SECTION_HEADER..end];
  }

  lemma HeadInside(bytes: seq<byte>, start: nat, count: u32)
    requires start + SECTION_HEADER <= |bytes| && bytes[start..start + SECTION_HEADER] == SectionHead(count)
    ensures bytes[start..start + 8] == REQUEST_MAGIC && U32At(bytes, start + 8) == REQUEST_VERSION
    ensures U32At(bytes, start + 12) == 0 && U32At(bytes, start + 16) == count
  {
    hide Num32, SectionHead;
    SectionHeadFields(count);
    var h := SectionHead(count);
    SliceAgain(bytes, start, start + SECTION_HEADER, 0, 8);
    SliceAgain(bytes, start, start + SECTION_HEADER, 8, 12);
    SliceAgain(bytes, start, start + SECTION_HEADER, 12, 16);
    SliceAgain(bytes, start, start + SECTION_HEADER, 16, 20);
    assert h[0..8] == h[..8];
    assert bytes[start..start + 8] == h[0..8] && bytes[start + 8..start + 12] == h[8..12];
    assert bytes[start + 12..start + 16] == h[12..16] && bytes[start + 16..start + 20] == h[16..20];
  }

  /** A blob whose last bytes read as the footer of a request section. */
  predicate EndsInFooter(blob: seq<byte>) {
    |blob| >= 8 && blob[|blob| - 8..] == FOOTER_MAGIC
  }

  // The layout of a built file

  /** Where the parts of a built file lie. */
  lemma Layout(route: Route)
    requires RouteFits(route)
    ensures var bytes, h, n := RouteBytes(route), HeaderOf(route), |route.Entries()|;
      && h.keyBlob == HEADER_SIZE + ENTRY_SIZE * n
      && |bytes| == h.keyBlob + |Blob(route.Entries())| + |Section(route.requests)|
      && bytes[h.keyBlob..] == Blob(route.Entries()) + Section(route.requests)
      && bytes[HEADER_SIZE..h.keyBlob] == Table(route.Entries(), n)
  {
    hide Table, Blob, Section, HeaderThen;
    HeaderFields(HeaderOf(route), Tail(route));
    var bytes, table := RouteBytes(route), Table(route.Entries(), |route.Entries()|);
    var rest := Blob(route.Entries()) + Section(route.requests);
    assert bytes[HEADER_SIZE..] == table + rest;
    Peel(bytes, HEADER_SIZE, table, rest);
  }

  lemma EntryHeld(route: Route, k: nat)
    requires RouteFits(route) && k < |route.Entries()|
    ensures EntryHolds(RouteBytes(route), HEADER_SIZE, route.Entries(), 0, k)
  {
    hide Table, Blob, Section, HeaderThen, RouteBytes, Num32, U32, KeysFit;
    Layout(route);
    var bytes, h, n := RouteBytes(route), HeaderOf(route), |route.Entries()|;
    TableAt(route.Entries(), n, k);
    SliceAgain(bytes, HEADER_SIZE, h.keyBlob, ENTRY_SIZE * k + 12, ENTRY_SIZE * k + 16);
    SliceAgain(bytes, HEADER_SIZE, h.keyBlob, ENTRY_SIZE * k + 16, ENTRY_SIZE * k + 20);
  }

  lemma TablesHold(route: Route)
    requires RouteFits(route)
    ensures var bytes, h := RouteBytes(route), HeaderOf(route);
      && TableHolds(bytes, h.threadTable, route.Entries(), 0, |route.threads|)
      && TableHolds(bytes, h.checkpointTable, route.Entries(), |route.threads|, |route.checkpoints|)
  {
    hide Blob, RouteBytes, Num32, RouteFits;
    var bytes, h, entries, m := RouteBytes(route), HeaderOf(route), route.Entries(), |route.threads|;
    forall i | 0 <= i < m
      ensures EntryHolds(bytes, h.threadTable, entries, 0, i)
    {
      EntryHeld(route, i);
    }
    forall i | 0 <= i < |route.checkpoints|
      ensures EntryHolds(bytes, h.checkpointTable, entries, m, i)
    {
      EntryHeld(route, m + i);
      assert h.checkpointTable + ENTRY_SIZE * i == HEADER_SIZE + ENTRY_SIZE * (m + i);
    }
  }

  // What a lookup finds in the bytes

  /** At a place of a table the bytes record a hash and an ordinal, and an offset
      and a length at which the key itself stands among the keys. */
  predicate Routes(bytes: seq<byte>, at: nat, keys: nat, hash: u64, ordinal: u32, key: seq<byte>) {
    && at + ENTRY_SIZE <= |bytes|
    && U64At(bytes, at) == hash && U32At(bytes, at + 8) == ordinal && U32At(bytes, at + 20) == 0
    && var start := keys + U32At(bytes, at + 12);
       start + U32At(bytes, at + 16) <= |bytes| && bytes[start..start + U32At(bytes, at + 16)] == key
  }

  lemma EntryRoutes(route: Route, i: nat)
    requires RouteFits(route) && i < |route.Entries()|
    ensures var e := route.Entries()[i];
      Routes(RouteBytes(route), HEADER_SIZE + ENTRY_SIZE * i, HeaderOf(route).keyBlob, e.hash, e.ordinal, e.key)
  {
    hide Table, Blob, Section, HeaderThen, RouteBytes, Num32, Num64, U32, U64, KeysFit, EntryBytes;
    Layout(route);
    var bytes, entries, h := RouteBytes(route), route.Entries(), HeaderOf(route);
    var n, e := |entries|, entries[i];
    TableSlice(entries, n, i);
    assert KeyFits(entries, i);
    var offset := |Blob(entries[..i])|;
    EntryFields(e, offset, |e.key|);
    var at := HEADER_SIZE + ENTRY_SIZE * i;
    SliceAgain(bytes, HEADER_SIZE, h.keyBlob, ENTRY_SIZE * i, ENTRY_SIZE * (i + 1));
    FieldsOfEntry(bytes, at, EntryBytes(e, offset, |e.key|));
    BlobSlice(entries, n, i);
    assert entries[..n] == entries;
    var start := h.keyBlob + offset;
    Peel(bytes, h.keyBlob, Blob(entries), Section(route.requests));
    SliceAgain(bytes, h.keyBlob, h.keyBlob + |Blob(entries)|, offset, offset + |e.key|);
  }

  lemma FieldsOfEntry(bytes: seq<byte>, at: nat, entry: seq<byte>)
    requires |entry| == ENTRY_SIZE && at + ENTRY_SIZE <= |bytes| && bytes[at..at + ENTRY_SIZE] == entry
    ensures U64At(bytes, at) == U64At(entry, 0) && U32At(bytes, at + 8) == U32At(entry, 8)
    ensures U32At(bytes, at + 12) == U32At(entry, 12) && U32At(bytes, at + 16) == U32At(entry, 16)
    ensures U32At(bytes, at + 20) == U32At(entry, 20)
  {
    hide Num32, Num64;
    SliceAgain(bytes, at, at + ENTRY_SIZE, 0, 8);
    SliceAgain(bytes, at, at + ENTRY_SIZE, 8, 12);
    SliceAgain(bytes, at, at + ENTRY_SIZE, 12, 16);
    SliceAgain(bytes, at, at + ENTRY_SIZE, 16, 20);
    SliceAgain(bytes, at, at + ENTRY_SIZE, 20, 24);
    assert entry[0..8] == bytes[at..at + 8];
  }

  /** Place `j` of the table whose offset the header holds at `field` routes the
      key to the ordinal. */
  predicate RoutedAt(bytes: seq<byte>, field: nat, j: nat, key: seq<byte>, ordinal: u32)
    requires field + 8 <= HEADER_SIZE <= |bytes|
  {
    Routes(bytes, U64At(bytes, field) + ENTRY_SIZE * j, U64At(bytes, 48), Xxh3(key), ordinal, key)
  }

  /** A thread is routed by the table of threads, a checkpoint by its own. */
  predicate ThreadRouted(bytes: seq<byte>, thread: (Id, nat))
    requires HEADER_SIZE <= |bytes| && ThreadShort(thread)
  {
    exists j :: 0 <= j < U32At(bytes, 24) && RoutedAt(bytes, 32, j, RouteKey(thread.0, None), thread.1)
  }

  predicate CheckpointRouted(bytes: seq<byte>, c: (Key, u32))
    requires HEADER_SIZE <= |bytes| && CheckpointShort(c)
  {
    exists j :: 0 <= j < U32At(bytes, 28)
                && RoutedAt(bytes, 40, j, RouteKey(c.0.thread, Some(c.0.checkpoint)), c.1)
  }

  /** Two places of a table in the order a search relies on. */
  predicate PlacesInOrder(bytes: seq<byte>, field: nat, i: nat, j: nat)
    requires field + 8 <= HEADER_SIZE <= |bytes|
  {
    var table := U64At(bytes, field);
    && table + ENTRY_SIZE * i + 8 <= |bytes| && table + ENTRY_SIZE * j + 8 <= |bytes|
    && U64At(bytes, table + ENTRY_SIZE * i) <= U64At(bytes, table + ENTRY_SIZE * j)
  }

  /** The bytes of a route file send every new name to its ordinal, through
      tables in order of hash that have no other entries, under the hash of all
      that follows the header. */
  ghost predicate RoutesNames(bytes: seq<byte>, added: Additions)
    requires NamesShort(added)
  {
    && HEADER_SIZE <= |bytes|
    && U32At(bytes, 24) == |added.threads| && U32At(bytes, 28) == |added.checkpoints|
    && (forall i :: 0 <= i < |added.threads| ==> ThreadRouted(bytes, added.threads[i]))
    && (forall i :: 0 <= i < |added.checkpoints| ==> CheckpointRouted(bytes, added.checkpoints[i]))
    && (forall i, j :: 0 <= i < j < |added.threads| ==> PlacesInOrder(bytes, 32, i, j))
    && (forall i, j :: 0 <= i < j < |added.checkpoints| ==> PlacesInOrder(bytes, 40, i, j))
    && U64At(bytes, 56) == (if |bytes| == HEADER_SIZE then 0 else Xxh3(bytes[HEADER_SIZE..]))
  }

  /** A built file routes the names it was built from. */
  lemma BuiltRoutes(generation: u64, added: Additions)
    requires Buildable(added)
    ensures Built(RouteOf(generation, added))
    ensures RoutesNames(RouteBytes(RouteOf(generation, added)), added)
  {
    hide Sort, KeysFit, KeysLong, RouteBytes, U32At, U64At, RouteKey, Routes, Tail, RouteFits, ThreadRouted,
      CheckpointRouted, PlacesInOrder, Before, RecordsOk, HeaderOf;
    BuildableIsBuilt(generation, added);
    CountsKept(added);
    var route := RouteOf(generation, added);
    var bytes := RouteBytes(route);
    FileHash(route);
    forall i | 0 <= i < |added.threads|
      ensures ThreadRouted(bytes, added.threads[i])
    {
      ThreadFound(generation, added, i);
    }
    forall i | 0 <= i < |added.checkpoints|
      ensures CheckpointRouted(bytes, added.checkpoints[i])
    {
      CheckpointFound(generation, added, i);
    }
    TablesOrdered(generation, added);
  }

  lemma TablesOrdered(generation: u64, added: Additions)
    requires Buildable(added)
    ensures Built(RouteOf(generation, added))
    ensures var bytes := RouteBytes(RouteOf(generation, added));
      && HEADER_SIZE <= |bytes|
      && (forall i, j :: 0 <= i < j < |added.threads| ==> PlacesInOrder(bytes, 32, i, j))
      && (forall i, j :: 0 <= i < j < |added.checkpoints| ==> PlacesInOrder(bytes, 40, i, j))
  {
    hide Sort, KeysFit, KeysLong, RouteBytes, U32At, U64At, RouteKey, Routes, Tail, RouteFits, PlacesInOrder, Before,
      RecordsOk, HeaderOf;
    BuildableIsBuilt(generation, added);
    CountsKept(added);
    SortIsOrdered(ThreadEntries(added));
    SortIsOrdered(CheckpointEntries(added));
    var route := RouteOf(generation, added);
    var bytes := RouteBytes(route);
    FileHash(route);
    forall i, j | 0 <= i < j < |added.threads|
      ensures PlacesInOrder(bytes, 32, i, j)
    {
      assert Before(route.threads[i], route.threads[j]);
      PlacesOrdered(route, 0, i, j);
    }
    forall i, j | 0 <= i < j < |added.checkpoints|
      ensures PlacesInOrder(bytes, 40, i, j)
    {
      assert Before(route.checkpoints[i], route.checkpoints[j]);
      assert route.Entries()[|route.threads| + i] == route.checkpoints[i];
      assert route.Entries()[|route.threads| + j] == route.checkpoints[j];
      if route.threads != [] {
        PlacesOrdered(route, |route.threads|, i, j);
      } else {
        PlacesOfOnly(route, i, j);
      }
    }
  }

  lemma FileHash(route: Route)
    requires RouteFits(route)
    ensures var bytes := RouteBytes(route);
      && HEADER_SIZE <= |bytes|
      && U32At(bytes, 24) == |route.threads| && U32At(bytes, 28) == |route.checkpoints|
      && U64At(bytes, 56) == (if |bytes| == HEADER_SIZE then 0 else Xxh3(bytes[HEADER_SIZE..]))
  {
    hide Num32, Num64, RouteBytes, Tail, RouteFits;
    BuiltFields(route);
  }

  /** Entry `k` of both tables together, in the table that has it. */
  lemma EntryPlace(route: Route, k: nat)
    requires RouteFits(route) && k < |route.Entries()|
    ensures var bytes, e, m := RouteBytes(route), route.Entries()[k], |route.threads|;
      && HEADER_SIZE <= |bytes|
      && (k < m ==> Routes(bytes, U64At(bytes, 32) + ENTRY_SIZE * k, U64At(bytes, 48), e.hash, e.ordinal, e.key))
      && (k >= m ==> Routes(bytes, U64At(bytes, 40) + ENTRY_SIZE * (k - m), U64At(bytes, 48), e.hash, e.ordinal, e.key))
  {
    hide RouteBytes, Num32, Num64, Tail, RouteFits, Routes;
    BuiltFields(route);
    EntryRoutes(route, k);
  }

  lemma HashThere(bytes: seq<byte>, at: nat, keys: nat, e: Entry)
    requires Routes(bytes, at, keys, e.hash, e.ordinal, e.key)
    ensures at + ENTRY_SIZE <= |bytes| && U64At(bytes, at) == e.hash
  {
    hide Num32, Num64;
  }

  lemma PlacesOrdered(route: Route, first: nat, i: nat, j: nat)
    requires RouteFits(route) && (first == 0 ==> i < |route.threads| && j < |route.threads|)
    requires (first == 0 || first == |route.threads|) && first + i < |route.Entries()| && first + j < |route.Entries()|
    requires Before(route.Entries()[first + i], route.Entries()[first + j])
    ensures HEADER_SIZE <= |RouteBytes(route)|
    ensures PlacesInOrder(RouteBytes(route), if first == 0 then 32 else 40, i, j)
  {
    hide RouteBytes, U32At, U64At, RouteFits, LexLe, Routes;
    EntryPlace(route, first + i);
    EntryPlace(route, first + j);
    var bytes, entries := RouteBytes(route), route.Entries();
    var table := U64At(bytes, if first == 0 then 32 else 40);
    HashThere(bytes, table + ENTRY_SIZE * i, U64At(bytes, 48), entries[first + i]);
    HashThere(bytes, table + ENTRY_SIZE * j, U64At(bytes, 48), entries[first + j]);
  }

  /** Without threads the one table there is is the second. */
  lemma PlacesOfOnly(route: Route, i: nat, j: nat)
    requires RouteFits(route) && route.threads == [] && i < |route.checkpoints| && j < |route.checkpoints|
    requires Before(route.checkpoints[i], route.checkpoints[j])
    ensures HEADER_SIZE <= |RouteBytes(route)| && PlacesInOrder(RouteBytes(route), 40, i, j)
  {
    hide RouteBytes, U32At, U64At, RouteFits, LexLe, Routes;
    EntryPlace(route, i);
    EntryPlace(route, j);
    var bytes, entries := RouteBytes(route), route.Entries();
    HashThere(bytes, U64At(bytes, 40) + ENTRY_SIZE * i, U64At(bytes, 48), entries[i]);
    HashThere(bytes, U64At(bytes, 40) + ENTRY_SIZE * j, U64At(bytes, 48), entries[j]);
  }

  lemma ThreadFound(generation: u64, added: Additions, i: nat)
    requires Buildable(added) && i < |added.threads|
    ensures Built(RouteOf(generation, added)) && HEADER_SIZE <= |RouteBytes(RouteOf(generation, added))|
    ensures ThreadRouted(RouteBytes(RouteOf(generation, added)), added.threads[i])
  {
    hide Sort, KeysFit, KeysLong, RouteBytes, U32At, U64At, RouteKey, Tail, RouteFits, Routes, HeaderOf;
    BuildableIsBuilt(generation, added);
    SortIsOrdered(ThreadEntries(added));
    var route := RouteOf(generation, added);
    BuiltFields(route);
    var e := ThreadEntries(added)[i];
    assert e in multiset(ThreadEntries(added));
    assert e in route.threads;
    var j :| 0 <= j < |route.threads| && route.threads[j] == e;
    assert route.Entries()[j] == e;
    EntryPlace(route, j);
    assert RoutedAt(RouteBytes(route), 32, j, RouteKey(added.threads[i].0, None), added.threads[i].1);
  }

  lemma CheckpointFound(generation: u64, added: Additions, i: nat)
    requires Buildable(added) && i < |added.checkpoints|
    ensures Built(RouteOf(generation, added)) && HEADER_SIZE <= |RouteBytes(RouteOf(generation, added))|
    ensures CheckpointRouted(RouteBytes(RouteOf(generation, added)), added.checkpoints[i])
  {
    hide Sort, KeysFit, KeysLong, RouteBytes, U32At, U64At, RouteKey, Tail, RouteFits, Routes, HeaderOf;
    BuildableIsBuilt(generation, added);
    SortIsOrdered(CheckpointEntries(added));
    var route := RouteOf(generation, added);
    BuiltFields(route);
    var e := CheckpointEntries(added)[i];
    assert e in multiset(CheckpointEntries(added));
    assert e in route.checkpoints;
    var j :| 0 <= j < |route.checkpoints| && route.checkpoints[j] == e;
    var m := |route.threads|;
    assert route.Entries()[m + j] == e;
    EntryPlace(route, m + j);
    var name := added.checkpoints[i].0;
    assert RoutedAt(RouteBytes(route), 40, j, RouteKey(name.thread, Some(name.checkpoint)), added.checkpoints[i].1);
  }

  /** What the last sixteen bytes are when there are requests. */
  lemma FooterAt(route: Route)
    requires RouteFits(route) && route.requests != []
    ensures var bytes := RouteBytes(route);
      var footer := |bytes| - SECTION_FOOTER;
      var start := HeaderOf(route).keyBlob + |Blob(route.Entries())|;
      && 0 <= start <= footer && footer - start == |SectionBody(route.requests)|
      && bytes[footer + 8..footer + 16] == FOOTER_MAGIC && U64At(bytes, footer) == footer - start
      && bytes[start..footer] == SectionBody(route.requests)
  {
    hide Table, Blob, HeaderThen, RouteBytes, U64, Num64, SectionBody;
    Layout(route);
    var bytes, h, blob := RouteBytes(route), HeaderOf(route), Blob(route.Entries());
    var body := SectionBody(route.requests);
    var start := h.keyBlob + |blob|;
    Peel(bytes, h.keyBlob, blob, Section(route.requests));
    Peel(bytes, start, body, U64(|body|) + FOOTER_MAGIC);
    Peel(bytes, start + |body|, U64(|body|), FOOTER_MAGIC);
    assert bytes[start + |body| + 8..|bytes|] == FOOTER_MAGIC;
  }

  /** Keys are never short enough to leave the footer position to the table. */
  predicate KeysLong(entries: seq<Entry>) {
    forall e :: e in entries ==> |e.key| >= 9
  }

  lemma BlobLong(entries: seq<Entry>)
    requires KeysLong(entries) && entries != []
    ensures |Blob(entries)| >= 9
  {
    hide Blob;
    BlobGrows(entries, |entries| - 1);
    assert entries[..|entries|] == entries;
    assert entries[|entries| - 1] in entries;
  }

  /** And when there are none: the end of the keys, or of an empty header. */
  lemma NoFooter(route: Route)
    requires RouteFits(route) && route.requests == [] && KeysLong(route.Entries())
    ensures var bytes, blob := RouteBytes(route), Blob(route.Entries());
      && |bytes| == HeaderOf(route).keyBlob + |blob|
      && (bytes[|bytes| - 8..] == FOOTER_MAGIC <==> EndsInFooter(blob))
  {
    hide HeaderThen, RouteBytes, Blob, U64, Num64;
    Layout(route);
    var bytes, h, blob := RouteBytes(route), HeaderOf(route), Blob(route.Entries());
    assert bytes[h.keyBlob..] == blob;
    if route.Entries() == [] {
      BlobNone();
      assert Tail(route) == [];
      HashField(route);
      assert bytes[56..64] == bytes[|bytes| - 8..];
      ZeroIsNoMagic();
    } else {
      BlobLong(route.Entries());
      assert bytes[|bytes| - 8..] == blob[|blob| - 8..];
    }
  }

  lemma BlobNone()
    ensures Blob([]) == []
  {
  }

  lemma HashField(route: Route)
    requires RouteFits(route)
    ensures U64At(RouteBytes(route), 56) == IndexHash(Tail(route))
    ensures RouteBytes(route)[56..64] == U64(IndexHash(Tail(route)))
  {
    HeaderFields(HeaderOf(route), Tail(route));
  }

  lemma ZeroIsNoMagic()
    ensures U64(0) != FOOTER_MAGIC
  {
    assert FOOTER_MAGIC[0] == 0x54;
    assert U64(0) == Le(0, 8) && Le(0, 8)[0] == 0;
  }

  // The two readers of a built file

  /** What the reader finds in a built file. */
  lemma ReadFacts(route: Route)
    requires RouteFits(route)
    ensures var bytes, entries := RouteBytes(route), route.Entries();
      && |bytes| >= HEADER_SIZE
      && U32At(bytes, 24) == |route.threads| && U32At(bytes, 28) == |route.checkpoints|
      && TableHolds(bytes, U64At(bytes, 32), entries, 0, |route.threads|)
      && TableHolds(bytes, U64At(bytes, 40), entries, |route.threads|, |route.checkpoints|)
      && U64At(bytes, 48) == HeaderOf(route).keyBlob && |Blob(entries[..0])| == 0
      && entries[..|route.threads| + |route.checkpoints|] == entries
      && HeaderOf(route).keyBlob + |Blob(entries)| <= |bytes|
  {
    hide Num32, Num64, RouteBytes, Blob, Section, TableHolds, KeysFit, Tail, Table;
    BuiltFields(route);
    TablesHold(route);
    Layout(route);
    BlobNone();
    assert route.Entries()[..0] == [];
  }

  /** Both tables lie in the file, and `end` is where the furthest key of both
      ends in it, the keys beginning where the header says. */
  ghost predicate KeysEnd(bytes: seq<byte>, end: nat) {
    && HEADER_SIZE <= |bytes| && U64At(bytes, 48) <= end <= |bytes|
    && InFile(bytes, U64At(bytes, 32), U32At(bytes, 24)) && InFile(bytes, U64At(bytes, 40), U32At(bytes, 28))
    && exists threadEnd: nat ::
         && Furthest(bytes, U64At(bytes, 32), U32At(bytes, 24), 0, threadEnd)
         && Furthest(bytes, U64At(bytes, 40), U32At(bytes, 28), threadEnd, end - U64At(bytes, 48))
  }

  lemma KeysEndOnce(bytes: seq<byte>, threadEnd: nat, extent: nat)
    requires HEADER_SIZE <= |bytes|
    requires InFile(bytes, U64At(bytes, 32), U32At(bytes, 24)) && InFile(bytes, U64At(bytes, 40), U32At(bytes, 28))
    requires Furthest(bytes, U64At(bytes, 32), U32At(bytes, 24), 0, threadEnd)
    requires Furthest(bytes, U64At(bytes, 40), U32At(bytes, 28), threadEnd, extent)
    ensures forall end: nat :: KeysEnd(bytes, end) <==> end == U64At(bytes, 48) + extent <= |bytes|
  {
    hide Num32, Num64, Furthest, InFile;
    forall end: nat | KeysEnd(bytes, end)
      ensures end == U64At(bytes, 48) + extent
    {
      var other: nat :|
        && Furthest(bytes, U64At(bytes, 32), U32At(bytes, 24), 0, other)
        && Furthest(bytes, U64At(bytes, 40), U32At(bytes, 28), other, end - U64At(bytes, 48));
      FurthestOnce(bytes, U64At(bytes, 32), U32At(bytes, 24), 0, other, threadEnd);
      FurthestOnce(bytes, U64At(bytes, 40), U32At(bytes, 28), threadEnd, end - U64At(bytes, 48), extent);
    }
    var end := U64At(bytes, 48) + extent;
    assert end - U64At(bytes, 48) == extent;
  }

  /** Where the keys end, inferred from the furthest entry of both tables. */
  method KeyBlobEnd(bytes: seq<byte>, ghost route: Route, ghost built: bool) returns (r: Result<nat>)
    requires built ==> RouteFits(route) && bytes == RouteBytes(route)
    ensures r.Ok? <==> exists end: nat :: KeysEnd(bytes, end)
    ensures r.Ok? ==> KeysEnd(bytes, r.value)
    ensures built ==> r == Ok(HeaderOf(route).keyBlob + |Blob(route.Entries())|)
  {
    hide Num32, Num64, RouteBytes, Blob, TableHolds, RouteFits, HeaderOf, Furthest, InFile;
    ghost var entries := route.Entries();
    if built { ReadFacts(route); }
    if |bytes| < HEADER_SIZE { return Err(Format); }
    var threadCount, checkpointCount := U32At(bytes, 24), U32At(bytes, 28);
    var threadTable, checkpointTable, keyBlob := U64At(bytes, 32), U64At(bytes, 40), U64At(bytes, 48);
    var extent := KeyExtent(bytes, threadTable, threadCount, 0, entries, 0, built);
    if extent.Err? { return Err(Format); }
    ghost var threadEnd := extent.value;
    extent := KeyExtent(bytes, checkpointTable, checkpointCount, extent.value, entries, |route.threads|, built);
    if extent.Err? { return Err(Format); }
    KeysEndOnce(bytes, threadEnd, extent.value);
    if keyBlob + extent.value > |bytes| { return Err(Format); }
    assert KeysEnd(bytes, keyBlob + extent.value);
    return Ok(keyBlob + extent.value);
  }

  /** What the end of a file says about requests: no footer, or a section of
      exactly these that begins where the keys end. */
  predicate RequestsAre(bytes: seq<byte>, keysEnd: nat, requests: seq<RequestRecord>) {
    if |bytes| < SECTION_FOOTER || bytes[|bytes| - 8..] != FOOTER_MAGIC then requests == []
    else
      && RecordsOk(requests) && keysEnd + |SectionBody(requests)| + SECTION_FOOTER == |bytes|
      && bytes[keysEnd..] == SectionBody(requests) + (U64(|SectionBody(requests)|) + FOOTER_MAGIC)
  }

  lemma FooterIs(bytes: seq<byte>, start: nat, requests: seq<RequestRecord>)
    requires RecordsOk(requests) && start + SECTION_FOOTER <= |bytes|
    requires bytes[start..|bytes| - SECTION_FOOTER] == SectionBody(requests)
    requires U64At(bytes, |bytes| - SECTION_FOOTER) == |SectionBody(requests)|
    requires bytes[|bytes| - 8..] == FOOTER_MAGIC
    ensures RequestsAre(bytes, start, requests)
  {
    hide Num64, U64, SectionBody;
    var footer := |bytes| - SECTION_FOOTER;
    assert bytes[start..] == bytes[start..footer] + (bytes[footer..footer + 8] + bytes[|bytes| - 8..]);
  }

  /** The request section that should begin where the keys end. */
  method RequestsAfter(bytes: seq<byte>, keysEnd: nat, ghost route: Route, ghost built: bool)
    returns (r: Result<seq<RequestRecord>>)
    requires built ==> Built(route) && bytes == RouteBytes(route)
    requires built ==> keysEnd == HeaderOf(route).keyBlob + |Blob(route.Entries())|
    ensures built ==> (r.Ok? <==> Readable(route)) && (r.Ok? ==> r.value == route.requests)
    ensures r.Ok? ==> RequestsAre(bytes, keysEnd, r.value)
  {
    hide Num32, Num64, RouteBytes, Blob, SectionBody, KeysFit, Tail, KeysLong, Table, HeaderOf;
    if |bytes| < SECTION_FOOTER {
      if built { NotShort(route); }
      return Ok([]);
    }
    var footer := |bytes| - SECTION_FOOTER;
    assert bytes[footer + 8..footer + 16] == bytes[|bytes| - 8..];
    if built {
      if route.requests == [] {
        NoFooter(route);
      } else {
        FooterAt(route);
      }
    }
    if bytes[footer + 8..footer + 16] != FOOTER_MAGIC { return Ok([]); }
    var length := U64At(bytes, footer);
    if length > footer { return Err(Format); }
    var start := footer - length;
    if start != keysEnd { return Err(Format); }
    r := ReadSection(bytes, start, footer, route.requests, built && route.requests != []);
    if r.Ok? { FooterIs(bytes, start, r.value); }
  }

  lemma NotShort(route: Route)
    requires RouteFits(route)
    ensures |RouteBytes(route)| >= HEADER_SIZE
  {
  }

  /** A built route whose requests can be read back: it has some, or its keys do
      not end in the footer magic. */
  predicate Readable(route: Route) {
    route.requests != [] || !EndsInFooter(Blob(route.Entries()))
  }

  /** The requests of a route file. What it returns stands at the end of the file
      just as it would be written there, right behind the keys. Of a built file
      it returns exactly the records, in order, if and only if the file is
      readable, and refuses it otherwise. */
  method RouteRequestRecords(bytes: seq<byte>, ghost route: Route,
                             ghost built: bool) returns (r: Result<seq<RequestRecord>>)
    requires built ==> Built(route) && bytes == RouteBytes(route)
    ensures built ==> (r.Ok? <==> Readable(route)) && (r.Ok? ==> r.value == route.requests)
    ensures r.Ok? ==> exists keysEnd: nat :: KeysEnd(bytes, keysEnd) && RequestsAre(bytes, keysEnd, r.value)
  {
    hide KeysEnd, RequestsAre, RouteFits, KeysLong, RouteBytes, Blob, EndsInFooter, HeaderOf;
    var keysEnd := KeyBlobEnd(bytes, route, built);
    if keysEnd.Err? { return Err(Format); }
    r := RequestsAfter(bytes, keysEnd.value, route, built);
  }

  lemma BuiltFields(route: Route)
    requires RouteFits(route)
    ensures var bytes, h := RouteBytes(route), HeaderOf(route);
      && |bytes| >= HEADER_SIZE
      && bytes[..8] == ROUTE_MAGIC && U32At(bytes, 8) == ROUTE_VERSION && U32At(bytes, 12) == 0
      && U64At(bytes, 16) == route.generation
      && U32At(bytes, 24) == |route.threads| && U32At(bytes, 28) == |route.checkpoints|
      && U64At(bytes, 32) == HEADER_SIZE && U64At(bytes, 40) == h.checkpointTable && U64At(bytes, 48) == h.keyBlob
      && U64At(bytes, 56) == IndexHash(Tail(route)) && bytes[HEADER_SIZE..] == Tail(route)
  {
    HeaderFields(HeaderOf(route), Tail(route));
  }

  /** The checks of a route file against its manifest entry. */
  predicate RouteFileValid(bytes: seq<byte>, generation: nat, threadCount: nat, checkpointCount: nat, hash: u64) {
    && |bytes| >= HEADER_SIZE
    && bytes[..8] == ROUTE_MAGIC && U32At(bytes, 8) == ROUTE_VERSION && U32At(bytes, 12) == 0
    && U64At(bytes, 16) == generation && U32At(bytes, 24) == threadCount && U32At(bytes, 28) == checkpointCount
    && var checkpointTable := HEADER_SIZE + threadCount * ENTRY_SIZE;
       var keyBlob := checkpointTable + checkpointCount * ENTRY_SIZE;
    && U64At(bytes, 32) == HEADER_SIZE && U64At(bytes, 40) == checkpointTable && U64At(bytes, 48) == keyBlob
    && keyBlob <= |bytes|
    && U64At(bytes, 56) == hash == (if |bytes| == HEADER_SIZE then 0 else Xxh3(bytes[HEADER_SIZE..]))
  }

  method ValidateRouteFile(bytes: seq<byte>, generation: nat, threadCount: nat, checkpointCount: nat, hash: u64)
    returns (r: Result<()>)
    ensures r.Ok? <==> RouteFileValid(bytes, generation, threadCount, checkpointCount, hash)
  {
    hide Num32, Num64;
    if |bytes| < HEADER_SIZE { return Err(Format); }
    if bytes[..8] != ROUTE_MAGIC || U32At(bytes, 8) != ROUTE_VERSION || U32At(bytes, 12) != 0 { return Err(Format); }
    if U64At(bytes, 16) != generation { return Err(Format); }
    if U32At(bytes, 24) != threadCount || U32At(bytes, 28) != checkpointCount { return Err(Format); }
    var checkpointTable := HEADER_SIZE + threadCount * ENTRY_SIZE;
    var keyBlob := checkpointTable + checkpointCount * ENTRY_SIZE;
    if U64At(bytes, 32) != HEADER_SIZE || U64At(bytes, 40) != checkpointTable || U64At(bytes, 48) != keyBlob
       || keyBlob > |bytes| {
      return Err(Format);
    }
    if U64At(bytes, 56) != hash || IndexHash(bytes[HEADER_SIZE..]) != U64At(bytes, 56) { return Err(Format); }
    return Ok(());
  }

  /** A built file passes exactly the metadata that describes it. */
  lemma BuiltIsValid(route: Route, generation: nat, threadCount: nat, checkpointCount: nat, hash: u64)
    requires RouteFits(route)
    ensures RouteFileValid(RouteBytes(route), generation, threadCount, checkpointCount, hash) <==>
      (generation == route.generation && threadCount == |route.threads|
       && checkpointCount == |route.checkpoints| && hash == IndexHash(Tail(route)))
  {
    hide Num32, Num64, RouteBytes, Tail, KeysFit, Blob, Section;
    BuiltFields(route);
    Layout(route);
  }

  // Which generations can be read back

  lemma RouteOfKeysLong(generation: u64, added: Additions)
    requires NamesShort(added)
    ensures KeysLong(RouteOf(generation, added).Entries())
  {
    hide RouteKey, Sort;
    SortIsOrdered(ThreadEntries(added));
    SortIsOrdered(CheckpointEntries(added));
    forall e | e in RouteOf(generation, added).Entries()
      ensures |e.key| >= 9
    {
      assert e in multiset(Sort(ThreadEntries(added))) || e in multiset(Sort(CheckpointEntries(added)));
      assert e in ThreadEntries(added) || e in CheckpointEntries(added);
    }
  }

  /** The last key decides how the blob ends. */
  lemma BlobEnd(entries: seq<Entry>)
    requires KeysLong(entries) && entries != []
    ensures EndsInFooter(Blob(entries)) <==> EndsInFooter(entries[|entries| - 1].key)
  {
    hide Blob;
    var last := entries[|entries| - 1];
    assert last in entries;
    BlobGrows(entries, |entries| - 1);
    assert entries[..|entries|] == entries;
    assert Blob(entries)[|Blob(entries)| - 8..] == last.key[|last.key| - 8..];
  }

  /** Only the name of a checkpoint can make its key end in the footer magic. */
  lemma CheckpointKeyEnd(thread: Id, id: Id)
    requires |thread| <= U32_MAX && |id| <= U32_MAX
    ensures EndsInFooter(RouteKey(thread, Some(id))) <==> EndsInFooter(id)
  {
    hide U32;
    var key := RouteKey(thread, Some(id));
    var n := |key|;
    assert key[n - |id|..] == id;
    if |id| >= 8 {
      assert key[n - 8..] == id[|id| - 8..];
    } else {
      LengthField(|id|);
      assert key[n - |id| - 4..n - |id|] == U32(|id|);
      // the last length byte, or for an empty name the one before it
      var j := if |id| >= 1 then 7 - |id| else 6;
      assert key[n - 8..][j] == key[n - 8 + j] == 0 != FOOTER_MAGIC[j];
    }
  }

  lemma LengthField(n: nat)
    requires n < 8
    ensures var r := U32(n); r[1] == 0 && r[2] == 0 && r[3] == 0
  {
    assert U32(n) == Le(n, 4);
  }

  lemma ThreadKeyEnd(thread: Id)
    requires |thread| <= U32_MAX
    ensures !EndsInFooter(RouteKey(thread, None))
  {
    hide U32;
    LengthField(0);
    var key := RouteKey(thread, None);
    assert key[|key| - 4..] == U32(0);
    assert key[|key| - 8..][6] == key[|key| - 2] == U32(0)[2] == 0;
  }

  /** Checkpoint `i` comes last in table order. */
  predicate LastInTable(added: Additions, i: nat)
    requires NamesShort(added) && i < |added.checkpoints|
  {
    var table := Sort(CheckpointEntries(added));
    table != [] && table[|table| - 1] == CheckpointEntry(added.checkpoints[i])
  }

  /** The generation has a request, or the checkpoint that comes last in its
      table has a name that does not end in the footer magic. */
  predicate NameAllowsReading(added: Additions)
    requires NamesShort(added)
  {
    || added.requests != []
    || forall i :: 0 <= i < |added.checkpoints| && LastInTable(added, i) ==>
         !EndsInFooter(added.checkpoints[i].0.checkpoint)
  }

  /** The condition for reading back is one on the names of the generation. */
  lemma ReadableIff(generation: u64, added: Additions)
    requires NamesShort(added)
    ensures Readable(RouteOf(generation, added)) <==> NameAllowsReading(added)
  {
    hide Blob, RouteKey, Sort, EndsInFooter;
    var route := RouteOf(generation, added);
    var entries := route.Entries();
    RouteOfKeysLong(generation, added);
    SortIsOrdered(ThreadEntries(added));
    SortIsOrdered(CheckpointEntries(added));
    if route.checkpoints != [] {
      BlobEnd(entries);
      var last := route.checkpoints[|route.checkpoints| - 1];
      assert last == entries[|entries| - 1];
      assert last in multiset(route.checkpoints);
      assert last in CheckpointEntries(added);
      var k :| 0 <= k < |added.checkpoints| && CheckpointEntries(added)[k] == last;
      assert LastInTable(added, k);
      forall i | 0 <= i < |added.checkpoints| && LastInTable(added, i)
        ensures EndsInFooter(last.key) <==> EndsInFooter(added.checkpoints[i].0.checkpoint)
      {
        CheckpointKeyEnd(added.checkpoints[i].0.thread, added.checkpoints[i].0.checkpoint);
      }
    } else if route.threads != [] {
      BlobEnd(entries);
      var last := route.threads[|route.threads| - 1];
      assert last in multiset(route.threads);
      assert last in ThreadEntries(added);
      var k :| 0 <= k < |added.threads| && ThreadEntries(added)[k] == last;
      ThreadKeyEnd(added.threads[k].0);
    } else {
      BlobNone();
      NotFooter();
    }
  }

  lemma NotFooter()
    ensures !EndsInFooter([])
  {
  }

  /** A generation of one checkpoint whose id ends in the footer magic: its route
      file is built, and refused when it is read back. */
  method FooterInName(thread: Id, id: Id, generation: u64) returns (r: Result<seq<RequestRecord>>)
    requires |thread| <= MAX_IDENTIFIER_BYTES && |id| <= MAX_IDENTIFIER_BYTES && EndsInFooter(id)
    ensures Buildable(Additions([(thread, 0)], [(Key(thread, id), 0)], []))
    ensures r == Err(Format)
  {
    hide Sort, RouteKey, EndsInFooter, RouteFits, Blob, RouteBytes, Tail, NamesShort;
    var added := Additions([(thread, 0)], [(Key(thread, id), 0)], []);
    OneNameFits(thread, id);
    var built := BuildRouteFile(generation, added);
    RouteOfKeysLong(generation, added);
    ReadableIff(generation, added);
    OneNameIsLast(thread, id);
    r := RouteRequestRecords(built.value.0, RouteOf(generation, added), true);
    if r.Err? { r := Err(Format); }
  }

  lemma OneNameIsLast(thread: Id, id: Id)
    requires |thread| <= MAX_IDENTIFIER_BYTES && |id| <= MAX_IDENTIFIER_BYTES && EndsInFooter(id)
    ensures !NameAllowsReading(Additions([(thread, 0)], [(Key(thread, id), 0)], []))
  {
    hide RouteKey, EndsInFooter;
    var added := Additions([(thread, 0)], [(Key(thread, id), 0)], []);
    assert CheckpointEntries(added)[1..] == [];
    assert Sort(CheckpointEntries(added)) == [CheckpointEntry(added.checkpoints[0])];
    assert LastInTable(added, 0);
  }

  lemma OneNameFits(thread: Id, id: Id)
    requires |thread| <= MAX_IDENTIFIER_BYTES && |id| <= MAX_IDENTIFIER_BYTES
    ensures Buildable(Additions([(thread, 0)], [(Key(thread, id), 0)], []))
  {
    var added := Additions([(thread, 0)], [(Key(thread, id), 0)], []);
    var t, c := ThreadEntry(added.threads[0]), CheckpointEntry(added.checkpoints[0]);
    assert ThreadEntries(added)[1..] == [] && CheckpointEntries(added)[1..] == [];
    assert Sort(ThreadEntries(added)) == [t] && Sort(CheckpointEntries(added)) == [c];
    var entries := RouteOf(0, added).Entries();
    assert entries == [t, c];
    BlobGrows(entries, 0);
    BlobNone();
    assert entries[..0] == [];
    hide Blob, U32;
    assert KeyFits(entries, 0) && KeyFits(entries, 1);
  }
}
