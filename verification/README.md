# Verified model of the Format v1 checkpoint store

This project models the checkpoint store of `src/checkpoint_store/`: an
append-only node DAG fed by a write-ahead log, columnar sealed segments, lazy
reads, subtree pruning and crash recovery. All of it has one meaning, a
commit-ordered list of checkpoints each of which reads as exact bytes, and every
fast or durable form is proved against that meaning. Run `dafny verify
dfyconfig.toml` to check it.

How the modules build up:

- `Bytes`, `Format`, `Wrappers`: little-endian words, record layouts, results.
- `Dag`, `Model`, `TransactionFormat`, `Transactions`: what a root means
  (`Dag.Extract`), the committed state and its invariant (`Model.Inv`), the
  transaction record, validation and publication.
- `Appends`, `Messages`, `IdentityTree`, `Ranges`: the three encoders, message
  appends, and range reads with the memoised size table.
- `HotWal`, `HotLog`, `Writer`: the commit state machine over a failing file,
  the scan of the log, and memory against the durable log.
- `Segment`, `Columns`, `ColumnReader`, `Sealing`, `Materialize`: the 22
  block-compressed streams, and readers that accept exactly what was written.
- `BlockReader`, `LazyStore`, `Overlay`: the block-cached reader, lazy decoding,
  and a writable store split into a sealed base and a hot overlay.
- `Compaction`, `Pruning`, `Deletion`: pruning by copying the live DAG, and why
  deletion is exact and permanent.
- `Manifests`, `Recovery`, `SealProtocol`, `PruneProtocol`, `Oversize`,
  `BoundedWal`: the durability protocol as steps on disk, opening after a stop
  at any of them, the versions an open refuses, and the bounded log.
- `RouteFile`, `Reclaim`: route files with their request section, and readers,
  writer and reclaimer as interleaved steps.

Conventions. XXH3, SHA-256 and UTF-8 validity are uninterpreted functions of the
hashed or checked bytes (an incremental hasher's digest is the hash of the
concatenation), compression is any pair of functions that loses nothing. Files
are byte sequences and every I/O call may fail. The many format-error messages
are one error class. What a segment has room for is exact (`Segment.Packs`):
every block compresses into its 32-bit length, the blocks can be numbered in 32
bits, the streams end within 64. A directory *stands for* a committed state when
manifest, files and log hold it (`Recovery.Stands`). Whether it can be *loaded*
is a condition on the directory alone (`Manifests.Loadable`); it *opens* when
besides every version of the state has a 64-bit length (`Ranges.RootsFit`),
which the committed state decides and a seal therefore keeps. Bytes behind the
committed tail of the log are taken to be no transaction for any watermarks,
however many zeros follow them (`Recovery.Dead`). The answers of the calls on
the log file are a script no caller knows, so every outcome is exact in it. What
is written stands in a buffer until a flush goes through, or the buffer spills;
only what has left the buffer can become durable.

Where the code does not do what its documentation promises, the model follows
the code, gives an input with its history, and states exactly when the promise
holds:

- Root message appends check only a prefix of the first checkpoint
  (`Messages.NullPrefixIsNotEnough`, `Messages.RootAppendIffNull`).
- Validation admits a leaf across the boundary of a lazy base, and a wide slot
  that names a sealed wide record; neither can be read
  (`Overlay.StraddlingLeafAccepted`, `Overlay.SealedWideAccepted`,
  `LazyStore.OverlayExactIff`).
- A partial seal in lazy mode clears the overlay of the hot suffix too
  (`Overlay.LazySealExactIff`); what is appended next is lost on reopening
  (`Overlay.LazySealStrands`, `Overlay.LazySealLosesACommit`).
- Raw appends do not ask the retired request keys; once such a commit is sealed
  the store refuses to open (`Deletion.RetiredKeyReturns`,
  `Deletion.AppendKeepsLedgerIff`, `SealProtocol.NextLoadable`,
  `Recovery.LoadSealed`).
- A route file without requests is refused when its keys end in the footer
  magic, so one checkpoint name can keep a sealed store from opening
  (`SealProtocol.FooterNameUnreadable`, `RouteFile.FooterInName`,
  `RouteFile.ReadableIff`, `SealProtocol.NextLoadable`).
- Validation admits versions longer than 64 bits can count; the store works on,
  but no later eager open accepts it (`Oversize.OversizeAccepted`,
  `Oversize.CommitKeepsFit`, `Recovery.Open`).
- The reclaim worker loads the manifest before it has the guard, and even a
  current manifest does not protect an artifact that is not yet published
  (`Reclaim.StaleManifestRemovesPublished`, `Reclaim.InFlightArtifactRemoved`,
  `Reclaim.RemovalsSafeIff`).
- A committed but unreferenced wide record of unknown kind makes its
  transaction unsealable (`Sealing.UnknownWideUnsealable`,
  `Sealing.SealGeneration`).

## Model

| member | source | states |
|---|---|---|
| Model.ExtractRoot | src/checkpoint_store/transaction.rs:1550-1575 | The eager work-stack reader returns exactly the in-order leaf bytes below a root, and fails exactly when that meaning is undefined |
| Model.ReconstructCheckpoint | src/checkpoint_store/transaction.rs:1591-1617 | Eager reconstruction is the canonical framing of the three channels; an absent result omits its field |
| Dag.ExtractExtends | src/checkpoint_store/transaction.rs:1550-1575 | A root keeps its bytes when arena and nodes are appended to |
| Dag.BranchStep | src/checkpoint_store/transaction.rs:1550-1575 | Pushing right then left for a popped branch emits the same bytes with strictly less left to visit, so the walk terminates |
| TransactionFormat.TransactionRoundTrip | src/checkpoint_store/transaction.rs:857-1048 | An encoded transaction parses, at the watermarks it was built for, to itself with the digest of its own bytes |
| TransactionFormat.ParsesIff | src/checkpoint_store/transaction.rs:857-1048 | The parser accepts the records of encodable transactions that continue the given watermarks, each as its transaction, and nothing else; only the reserved word of a root record is free |
| TransactionFormat.ParsedIsSound | src/checkpoint_store/transaction.rs:857-1048 | Whatever parses has the magic, its stated length, a right checksum at its end, consistent counts and in-range ids, and continues the given watermarks |
| TransactionFormat.GeometryOnlyFilters | src/checkpoint_store/transaction.rs:842-856 | Knowing the watermarks only refuses records that do not continue them; it changes no result |
| TransactionFormat.CheckpointRoundTrip | src/checkpoint_store/transaction.rs:64-175 | Checkpoint records with their optional versions and parent survive encoding; missing ones never collide with a real id |
| TransactionFormat.RootsRoundTrip | src/checkpoint_store/transaction.rs:28-62 | Version root records round trip; a missing root or parent is never a real one |
| TransactionFormat.HeaderRoundTrip | src/checkpoint_store/transaction.rs:857-920 | The 72-byte header reads back field by field |
| Transactions.ValidateNewNodes | src/checkpoint_store/transaction.rs:1165-1283 | The node loop accepts exactly the transactions all of whose nodes and roots lie inside what is committed plus what is new |
| Transactions.NodesValidIff | src/checkpoint_store/transaction.rs:1165-1283 | The node checks accept a transaction if and only if, once it is published, every new node decodes to a leaf within the arena or to a branch of prior nodes, and every new root is a node |
| Transactions.RefusedExactly | src/checkpoint_store/transaction.rs:1114-1150 | What a commit is refused for: a deleted name and a known request with another digest have reasons of their own, the same request again does not; it is admitted if and only if none of the refusals applies |
| Transactions.ApplyKeepsInv | src/checkpoint_store/transaction.rs:1310-1462 | An admitted transaction keeps the state invariant, adds exactly its one checkpoint, remembers its request with its digest and the new ordinal, and moves the watermarks to its own end |
| Transactions.EarlierBytesStay | src/checkpoint_store/transaction.rs:1425-1462 | No committed checkpoint changes a byte when another is added |
| Transactions.ViewExtends | src/checkpoint_store/transaction.rs:1310-1462 | Committed nodes and payload stay as they are and every new node decodes with prior children |
| Transactions.ReplayKeepsInv | src/checkpoint_store/store.rs:93-96 | Every state reached by replaying admitted transactions satisfies the invariant |
| Appends.AdmitEncoded | src/checkpoint_store/store.rs:438-450 | The record of an encoder passes parsing and validation whenever its names are free and its parent committed |
| Appends.AdmitExactly | src/checkpoint_store/store.rs:438-450 | A record is refused as no record, for a deleted name whether it continues the state or not, as not continuing it, or as a commit, in this order, and otherwise admitted as its transaction |
| Appends.IdentityAppendExact | src/checkpoint_store/store.rs:462-487 | An identity append is built if and only if names and numbers fit, and admitted if and only if its names are free and its parent committed; it adds one checkpoint with these fields under a version whose parent is the latest one, which reads as the framed identity with matching length and hash, and changes no earlier one |
| Messages.MessageAppendExact | src/checkpoint_store/store.rs:506-594 | A message append is built if and only if its arguments fit, and admitted if and only if its names are free besides; the child is the parent without its suffix, a comma, the new body and the suffix; stored length and streamed hash match; its fields and version parents are the stated ones |
| Messages.MessageBuiltIff | src/checkpoint_store/store.rs:506-594 | In a store of message checkpoints an append is built if and only if there are values, the names are well formed, the parent is committed or the first identity is null, and lengths and watermarks have room; a missing parent is the one refusal with its own reason |
| Messages.MessageStepExact | src/checkpoint_store/store.rs:506-594 | A call whose arguments fit and whose names are free adds exactly the checkpoint it asks for, with its promised bytes; any other changes nothing |
| Messages.MessagesAccumulate | src/checkpoint_store/store.rs:506-594 | Histories accumulate: a child holds the messages of its parent and then its own, in order |
| Messages.ChildMetadataExact | src/checkpoint_store/store.rs:846-906 | Length and hash streamed from the parent's bytes are those of the child's canonical bytes |
| Messages.MessageRunVerifies | src/checkpoint_store/store.rs:506-594 | After any sequence of message appends every checkpoint is a message checkpoint whose stored length and hash are those of its bytes, and there is one more for every call that had to be taken |
| Messages.VerifyAll | src/checkpoint_store/store.rs:1612-1631 | The check counts exactly the checkpoints whose length or hash disagrees with their bytes |
| Messages.MessageStoreVerifies | src/checkpoint_store/store.rs:1612-1631 | A store built by message appends reports no failure |
| Messages.RootAppendIffNull | src/checkpoint_store/store.rs:553-569 | The checkpoint of a root message append verifies if and only if the first identity is exactly null |
| Messages.NullPrefixIsNotEnough | src/checkpoint_store/store.rs:553-569 | A history: the identity `null,1` passes the prefix check, a root append over it is built and admitted, and its checkpoint does not verify |
| IdentityTree.BuildTree | src/checkpoint_store/transaction.rs:661-701 | Pairing level by level gives a tree over the given leaves in order with n-1 branches, no deeper than log2 n rounded up, in which the left side of every branch is full; it is built if and only if every branch, numbered round by round, is within 32 bits of both its children |
| IdentityTree.BuildIdentity | src/checkpoint_store/transaction.rs:606-701 | A tree of that shape over new and reused leaves in order, of the stated depth, that extracts to their concatenation and stores exactly the new leaves; it is built if and only if every leaf is short or committed, the stated length is right, and payload and distances have room |
| IdentityTree.IdentityLeafTransaction | src/checkpoint_store/transaction.rs:576-790 | The transaction continues the watermarks it was built for, carries one version rooted in that tree with the latest version as parent, exactly the payload of the new leaves and no node across the boundary; it is built if and only if its names are well formed, its numbers and record size fit, and its tree is built |
| IdentityTree.TreeAdmitted | src/checkpoint_store/transaction.rs:1165-1283 | Validation refuses such a transaction only for its names or parent |
| IdentityTree.TreeCheckpointReads | src/checkpoint_store/transaction.rs:1591-1617 | The committed checkpoint reads as the framed identity and verifies exactly when the caller stated the length and hash of that frame |
| IdentityTree.TreeExtracts | src/checkpoint_store/transaction.rs:661-701 | A tree of any shape extracts to its frontier in order |
| IdentityTree.CollectLeafRefs | src/checkpoint_store/store.rs:967-990 | Collecting returns exactly the frontier leaves with prefix-sum offsets, and the length of the extracted identity, if and only if that length and the offset of the last leaf fit 64 bits |
| Ranges.RangeReader.TermSize | src/checkpoint_store/store.rs:1847-1872 | The memoised size of a root is its true length, given if and only if that is a 64-bit number, and then in the table; no entry is lost and every entry stays true |
| Ranges.RangeReader.MeasureRoots | src/checkpoint_store/store.rs:124-136 | Measuring every version succeeds if and only if each has a 64-bit length, and leaves each in the table |
| Ranges.RangeReader.AppendRootRange | src/checkpoint_store/store.rs:1874-1927 | The work-stack range reader appends exactly the slice of the root's bytes |
| Ranges.RangeReader.AppendCanonicalRange | src/checkpoint_store/store.rs:1728-1764 | A range over the framed channels is exactly that slice of the canonical bytes |
| Ranges.RangeReader.ReadRange | src/checkpoint_store/store.rs:1417-1465 | A range read is the reconstruction's slice when in bounds and an error otherwise |
| Ranges.RangeReader.StreamRange | src/checkpoint_store/store.rs:1542-1575 | Chunks of the given size, full but for the last, concatenate to the slice; after a failure to its front |
| Ranges.RangeReader.Grow | src/checkpoint_store/store.rs:1172-1183 | The size table stays true when nodes are appended |
| Ranges.RangeReader.Replace | src/checkpoint_store/store.rs:1348 | Clearing the table when nodes are renumbered or resealed leaves it true |
| Ranges.RangeIsSlice | src/checkpoint_store/store.rs:1728-1764 | The pieces of frame and channels selected by a range are the slice of the whole |
| HotWal.Committer.WriteAll | src/hot_wal_commit.rs:155-191 | Short writes put a prefix of the record into the buffer: the whole of it if and only if no write made fails, stalls or claims too much; the failure is definite if and only if the first write stalls, and then nothing was written |
| HotWal.Committer.Commit | src/hot_wal_commit.rs:141-218 | What the answers of the calls decide, exactly: success if and only if no write fails or stalls and flush and then sync go through, and then exactly the record was written, has left the buffer and is durable; the calls made are exact for every outcome, a flush only after complete writes and a sync only after a flush; definite and without effect if and only if the first write stalls or the record is empty; every other failure, and nothing else, blocks later commits; after a failure any part of what was written may be durable |
| HotWal.ShortWritesComplete | src/hot_wal_commit.rs:155-191 | Short writes of any size complete the record, in as many calls as it takes |
| HotWal.RoundCapacity | src/checkpoint_store/mod.rs:952-978 | Reserve always covers the tail: up to one segment the first doubling of the initial reserve that does, capped at the segment; beyond it the fewest whole segments |
| HotLog.ParseHotPrefix | src/checkpoint_store/transaction.rs:1050-1102 | The loop returns the scan of the file and the end of its last transaction |
| HotLog.ScanReadsChain | src/checkpoint_store/transaction.rs:1050-1102 | A log of chained records before a tail that stops the scan gives exactly those records, each continuing the previous watermarks |
| HotLog.ScanIsChain | src/checkpoint_store/transaction.rs:1050-1102 | Conversely, whatever a scan reports is a chain at the front of the file, and the rest stops it |
| HotLog.ChainSplits | src/checkpoint_store/model.rs:48-54 | A chain splits anywhere into a prefix and a suffix at the watermarks the prefix ends with |
| HotLog.OtherGeometryStops | src/checkpoint_store/transaction.rs:1050-1102 | A log reads as empty at any watermarks but its own |
| HotLog.ZerosStop | src/checkpoint_store/mod.rs:980-1020 | Zeroed reserve holds no transaction |
| Writer.Log.Append | src/checkpoint_store/mod.rs:680-724 | An append lands if and only if extension, seek and commit are answered: then exactly the record joins the committed log, durable; otherwise the committed log stays, durable whatever a failed call left behind it; the failure is definite if and only if the first write stalls, and any other poisons the handle; the file grows only when it must and then exactly to the reserve of its tail |
| Writer.StoreWriter.Append | src/checkpoint_store/store.rs:1172-1183 | Durable before visible: a record is published if and only if it is admitted and its calls are answered; memory is the replay of the durable log over the base before and after every outcome; nothing written leaves the writer usable |
| Writer.ReplayGrows | src/checkpoint_store/store.rs:1172-1183 | Admitting one more record extends the replayed log by exactly its effect |
| Segment.SegmentWriter.Push | src/checkpoint_store/segment.rs:212-263 | Pushed bytes join their stream alone and full blocks leave as they fill; it fails exactly when a full block of the longer stream does not compress into its length field |
| Segment.SegmentWriter.FlushStreamBlock | src/checkpoint_store/segment.rs:273-321 | Flushing appends one block that decompresses to the buffered bytes, exactly when the block compresses into its length field |
| Segment.SegmentWriter.Finalize | src/checkpoint_store/segment.rs:323-443 | The finished file holds exactly what was pushed, every stream in full blocks but for its last, with right tables and hashes; there is one exactly when blocks, block count and stream ends fit |
| BlockReader.ReadStream | src/checkpoint_store/state.rs:29-99 | The eager reader returns a stream if and only if every block is there, belongs to the stream and is intact, the stream begins where it should, and length and hash of the whole are right; it is then those blocks together |
| BlockReader.HeldIsRead | src/checkpoint_store/state.rs:29-99 | A stream that a segment holds is read as it |
| BlockReader.PositionOf | src/checkpoint_store/lazy.rs:626-664 | Dividing by the block size names the block that contains a position |
| BlockReader.RememberKeepsStep | src/checkpoint_store/lazy.rs:735-805 | First in, first out: below capacity nothing leaves, at capacity exactly the oldest makes room; order and cache stay in step and the entry just stored is there |
| BlockReader.LazyReader.LoadBlock | src/checkpoint_store/lazy.rs:735-805 | A block through the cache is the decompressed block, given if and only if it is cached or intact; it is cached afterwards, in the place of the oldest only when the cache is full, and a damaged one leaves no trace |
| BlockReader.LazyReader.ReadBlockEntry | src/checkpoint_store/lazy.rs:697-733 | A table entry through its own cache is the entry of the file; a known one changes nothing, a new one is stored first in, first out |
| BlockReader.LazyReader.AppendStreamRange | src/checkpoint_store/lazy.rs:573-695 | A range of a sealed stream is exactly that slice, across blocks and segments, for every cache state, and fails only out of bounds |
| BlockReader.LazyReader.LoadPayloadFast | src/checkpoint_store/lazy.rs:65-75 | The small-payload copy is the payload stream, made if and only if that is small enough; the block cache then starts empty |
| ColumnReader.DecodeStringTable | src/checkpoint_store/state.rs:519-564 | The offset walk accepts two streams if and only if they are those of some table of names, and gives those names |
| ColumnReader.TableOnce | src/checkpoint_store/state.rs:519-564 | A string table has one reading |
| ColumnReader.ReadNodes | src/checkpoint_store/state.rs:201-257 | Node columns are accepted if and only if they are those of some nodes, which they give back |
| ColumnReader.ReadWides | src/checkpoint_store/state.rs:258-310 | Wide columns are accepted if and only if they are those of some records of known kind, which they give back |
| ColumnReader.ReadVersions | src/checkpoint_store/state.rs:311-335 | Root and parent columns are accepted if and only if they are those of some versions; the numbers that stand for none come back as none and as nothing else |
| ColumnReader.ReadCheckpoints | src/checkpoint_store/state.rs:347-451 | The checkpoint columns are accepted if and only if they are those of as many checkpoints as stated, with known threads and earlier parents, which they give back, each name at its last ordinal |
| Sealing.StreamsGrow | src/checkpoint_store/segment.rs:446-571 | Every stream of the state after a commit is the stream before it and what this commit adds, whatever has been committed since |
| Sealing.StreamsBelow | src/checkpoint_store/segment.rs:446-571 | Over any run of commits each stream only grows at its end |
| Sealing.WriteName | src/checkpoint_store/segment.rs:511-537 | One more name in an incremental table adds exactly its bytes, its end, and a leading zero to a fresh table, exactly when the table and the blocks have room |
| Sealing.WriteThread | src/checkpoint_store/segment.rs:505-528 | A thread joins the table exactly when it is new and there is room; an ordinal beyond the next is impossible |
| Sealing.WriteTransaction | src/checkpoint_store/segment.rs:446-571 | Writing a commit grows all 22 streams by exactly its parts, if and only if its wide kinds are known, its names fit the tables and the longer streams fit their blocks |
| Sealing.SealGeneration | src/checkpoint_store/store.rs:1231-1270 | The segment of one seal holds exactly what turns the sealed streams into those of the state after it, with or without a hot suffix; there is one if and only if the wide kinds are known, the names fit and what the streams grow by fits a segment |
| Sealing.NamesAreAdded | src/checkpoint_store/segment.rs:505-571 | What a generation lists for its route file are the threads and checkpoints its transactions add, in commit order, each at its ordinal |
| Sealing.UnknownWideUnsealable | src/checkpoint_store/segment.rs:475-483 | A record with an unreferenced wide record of unknown kind that is admitted, and whose transaction no block size lets be sealed |
| Sealing.SealedAsGrows | src/checkpoint_store/segment.rs:162-197 | A segment that starts where the streams ended leaves the store sealed as the longer streams, for any number of generations |
| Materialize.MaterializeStreams | src/checkpoint_store/state.rs:13-114 | Streams come back if and only if every piece is intact and begins where the one before it ends and each is as long as stated; they are the pieces together |
| Materialize.StateFromStreams | src/checkpoint_store/state.rs:172-473 | Streams are accepted if and only if they are the columns of some state with the stated counts whose nodes pass the checks of a commit; that state is returned |
| Materialize.StateOnce | src/checkpoint_store/state.rs:172-473 | Streams have one reading |
| Materialize.StreamsReadBack | src/checkpoint_store/state.rs:172-473 | The streams of a committed state are read back as it: arena, nodes, roots, parents, threads and checkpoints, less the bytes the columns drop |
| Materialize.MaterializeSealedState | src/checkpoint_store/state.rs:3-116 | Segments, sizes and counts give a state if and only if they are undamaged and those of one |
| Materialize.SealedPartMeansTheSame | src/checkpoint_store/segment.rs:475-500 | The bytes of a wide record that columns drop change no node and no checkpoint |
| Materialize.SealAndMaterialize | src/checkpoint_store/segment.rs:446-571 | A history sealed in any groups of commits and materialised is the same state with the same bytes for every checkpoint, if and only if every group can be sealed |
| LazyStore.DecodeNodeLazy | src/checkpoint_store/lazy.rs:461-546 | A node decoded from its columns is the node of the state, for every id and cache state |
| LazyStore.ReadSealedLazily | src/checkpoint_store/lazy.rs:392-459 | Lazy equals eager: a sealed store read by column gives the bytes of eager reconstruction |
| LazyStore.LoadMetadata | src/checkpoint_store/lazy.rs:202-375 | The metadata columns give back versions, threads and checkpoints of the state |
| LazyStore.ExtractRootLazy | src/checkpoint_store/store.rs:1672-1714 | The walk over base and overlay returns what the split store can read below a root |
| LazyStore.ReconstructCheckpointLazy | src/checkpoint_store/store.rs:1633-1659 | Reconstruction over base and overlay is the framing of those channels |
| LazyStore.OverlayExactIff | src/checkpoint_store/store.rs:1672-1726 | The split store reads a root as the flat store does if and only if no node below it crosses the boundary, and nothing otherwise |
| LazyStore.PrepareRefines | src/checkpoint_store/transaction.rs:1165-1283 | The split store admits what the flat store admits, and exactly that when no new node names a sealed wide record |
| LazyStore.FlatApply | src/checkpoint_store/model.rs:118-151 | Publishing over a base is publishing to the flat state |
| Overlay.OverlayRefines | src/checkpoint_store/store.rs:1672-1726 | Any run of commits with local nodes, as all three encoders build them, over a lazy base does what it does to the un-split state and stays readable |
| Overlay.SplitLifeRefines | src/checkpoint_store/store.rs:1335-1347 | After any mix of encoded commits and full seals the split store means what the un-split store means after the same commits |
| Overlay.IdentityIsLocal | src/checkpoint_store/transaction.rs:447-573 | The identity encoder never builds a node that crosses the boundary |
| Overlay.MessageIsLocal | src/checkpoint_store/transaction.rs:198-445 | The message encoder never builds a node that crosses the boundary |
| Overlay.StraddlingLeafAccepted | src/checkpoint_store/transaction.rs:1192-1202 | A history: over the lazy base of a one-commit store a leaf across the boundary is admitted, readable in the flat state and unreadable in the split one |
| Overlay.SealedWideAccepted | src/checkpoint_store/transaction.rs:1214-1218 | A history: over the lazy base of a one-commit store a wide slot naming a sealed record is admitted unread and cannot be decoded |
| Overlay.LazySealExactIff | src/checkpoint_store/store.rs:1335-1347 | Memory after a lazy seal means the committed state if and only if no transaction of the hot suffix added data |
| Overlay.LazySealStrands | src/checkpoint_store/store.rs:1335-1347 | Otherwise the next admitted record does not continue the log and a later scan stops before it |
| Overlay.LazySealLosesACommit | src/checkpoint_store/store.rs:1335-1347 | A history for it: one commit sealed, one hot, and a third admitted at the shrunken memory that no scan of the log finds |
| Compaction.Compactor.CompactNode | src/checkpoint_store/state.rs:661-721 | Copying a node copies what is below it once, children before parents and left before right, in a one-to-one correspondence that keeps shape and leaf bytes, and fails only on a long leaf or when the live leaves exceed one arena; child ids going down make it terminate |
| Compaction.Compactor.AppendLeaf | src/checkpoint_store/state.rs:627-659 | A copied leaf has the source's bytes right behind the leaves copied before it; it happens exactly when length and payload fit |
| Compaction.Compactor.AppendBranch | src/checkpoint_store/state.rs:674-716 | A copied branch decodes to the copies of both children, with a wide record if and only if one is too far away for a compact slot |
| Compaction.Compactor.CompactVersion | src/checkpoint_store/state.rs:723-754 | A version is copied once, in order of first use, onto the copy of its root; its copy has a parent if and only if the version had one that was copied before, and then it is the copy of that one |
| Compaction.MirrorExtracts | src/checkpoint_store/state.rs:661-721 | Copied nodes extract to the source's bytes |
| Compaction.MirrorReaches | src/checkpoint_store/state.rs:661-721 | Everything below a copied node has been copied |
| Pruning.CompactLiveState | src/checkpoint_store/state.rs:756-899 | Kept checkpoints are renumbered without a byte changing; exactly the nodes they reach and the versions they name are copied, each once in the order they are first needed, leaves packed, branches as short as distances allow, versions with the parents that were copied before; names and requests are remembered; it happens if and only if the set can be pruned, and a digest conflict is reported exactly when that alone stands in the way |
| Pruning.NamesStay | src/checkpoint_store/state.rs:756-899 | The live names after a prune are those before it without the deleted ones, in the same order, and each checkpoint reads as it did |
| Pruning.PrunedRootsFit | src/checkpoint_store/store.rs:124-136 | Every version of a pruned state has a 64-bit length if and only if those that kept checkpoints name had one before |
| Pruning.UsedInOrderIs | src/checkpoint_store/state.rs:803-842 | The versions copied, in order of first use, are just those that kept checkpoints name |
| Pruning.MoveRequests | src/checkpoint_store/state.rs:858-880 | Requests follow their checkpoint or retire with their digest; a retired key with another digest is a conflict |
| Pruning.RequestsFollow | src/checkpoint_store/state.rs:858-880 | A request stays active if and only if its checkpoint is kept, and goes on naming that checkpoint with its digest; every other known key is retired with the digest it had |
| Pruning.LedgerStays | src/checkpoint_store/state.rs:858-880 | A ledger without overlap stays without one and keeps every known key |
| Deletion.DescendantClosure | src/checkpoint_store/store.rs:272-304 | The fixpoint loop returns the subtree that one pass in commit order gives, the least descendant-closed set with the target, and needs at most two passes |
| Deletion.SubtreeIsLeast | src/checkpoint_store/store.rs:272-304 | The subtree is the one least descendant-closed set that holds the target |
| Deletion.ClosedLeavesNoOrphan | src/checkpoint_store/state.rs:785-793 | Compaction of a closed set never meets a live child of a deleted parent |
| Deletion.DeleteCheckpointSet | src/checkpoint_store/store.rs:310-419 | A set is compacted if and only if the store is sealed and eager, the set is one of live checkpoints, and it can be pruned; each refusal has its own exact reason |
| Deletion.DeleteCheckpointSubtree | src/checkpoint_store/store.rs:250-305 | Deleting removes exactly the subtree, if and only if its root is live in a sealed eager store and the subtree can be pruned; each refusal has its own exact reason |
| Deletion.SubtreePrunableIff | src/checkpoint_store/state.rs:756-899 | No name stands in the way of deleting a subtree: it can be pruned if and only if what stays can be copied into one arena and no retired key changes its digest, which a ledger without overlap never does |
| Deletion.DeletedForGood | src/checkpoint_store/state.rs:147-170 | Over any run of appends, prunes and reopenings no deleted name becomes live and no request key is forgotten |
| Deletion.LedgerForGood | src/checkpoint_store/store.rs:1153-1165 | If request-bearing commits avoid the retired keys, every key stays in exactly one of active and retired over the whole run |
| Deletion.AppendKeepsLedgerIff | src/checkpoint_store/transaction.rs:1141-1148 | A raw commit keeps the ledger exact if and only if its key is not retired |
| Deletion.RetiredKeyReturns | src/checkpoint_store/transaction.rs:1141-1148 | A history: a commit brings a request, a prune retires its key, and a commit that brings the key back is admitted |
| Deletion.RestoreLifecycle | src/checkpoint_store/state.rs:119-170 | Reopening restores tombstones, retired keys and requests exactly, and refuses exactly when a key is both active and retired |
| Manifests.ValidateManifest | src/checkpoint_store/manifest.rs:692-751 | The loop accepts exactly the manifests whose generations are contiguous, whose files are present with their sizes, whose route files pass all checks of header, layout and hash, and whose totals agree |
| Manifests.HoldsFrames | src/checkpoint_store/mod.rs:1027-1082 | Files the manifest does not name do not matter to what it holds |
| Manifests.HeldLedger | src/checkpoint_store/state.rs:136-138 | Whether the ledger of the sealed state overlaps can be told from the listed requests and retired keys |
| Recovery.FreshStands | src/checkpoint_store/store.rs:28-55 | Every run begins like this: a directory without generations and a log of admitted records stands for what they replay to |
| Recovery.RecoverWal | src/checkpoint_store/store.rs:55-96 | From a log that continues the manifest or still begins with what it sealed, exactly the transactions the manifest does not hold, and a log that continues it |
| Recovery.OverlapEnd | src/checkpoint_store/store.rs:62-70 | The overlap ends exactly where the sealed transactions end |
| Recovery.RecycleHotFile | src/checkpoint_store/mod.rs:1483-1561 | The recycled file is the committed suffix in front of reserve that holds no transaction, exactly as long as the reserve for that suffix |
| Recovery.AlikeReplay | src/checkpoint_store/store.rs:93-96 | Replay does not depend on the bytes the columns drop |
| Recovery.ReadRoutes | src/checkpoint_store/state.rs:117-144 | The requests of all routes in order, each read from its file, if and only if every route file can be read back |
| Recovery.LoadSealed | src/checkpoint_store/state.rs:13-144 | The sealed part comes back, if and only if every route file can be read back and no listed request is retired |
| Recovery.Open | src/checkpoint_store/store.rs:28-136 | A directory that stands for a committed state opens to it, no transaction lost or replayed twice, if and only if its route files can be read back, no listed request is retired, and every version of the state has a 64-bit length; the log file then has at least its reserve; once the sealed part has loaded, files that no manifest names are gone if the guard was granted and no other file changes; stopping inside changes neither what it stands for nor whether it opens |
| Recovery.Reclaim | src/checkpoint_store/mod.rs:1027-1082 | Reclaim leaves every referenced file as it was, adds none, and with the guard leaves no other; without it, it changes nothing |
| SealProtocol.Store.Select | src/checkpoint_store/store.rs:1194-1230 | A target is accepted exactly when it is ahead of the manifest and within the committed state, and is always found in the log |
| SealProtocol.Store.Publish | src/checkpoint_store/store.rs:1305-1333 | After the segment, the route, the manifest and the recycled log alike, in this order, the directory stands for the committed state, and loads as before unless the published generation cannot be read back; the new manifest is the old one with one generation for exactly the sealed bytes and checkpoints, and no other file comes, goes or changes |
| SealProtocol.Store.SealThrough | src/checkpoint_store/store.rs:1194-1366 | Crash-transparent seal: after any step the directory stands for the state before the seal, and loads as before if and only if no published generation is unreadable; a seal that is not stopped succeeds exactly when the store is usable, the target is ahead, and there is room; the manifest then lists exactly the sealed bytes and checkpoints behind what it listed, and the log is the rest with its reserve |
| SealProtocol.WriteGeneration | src/checkpoint_store/store.rs:1226-1283 | A generation is written if and only if its transactions can be sealed, its names and requests fit a route file, and the counters go on |
| SealProtocol.NextHolds | src/checkpoint_store/store.rs:1271-1303 | The next manifest is valid with its files present and holds exactly the longer sealed state |
| SealProtocol.NextLoadable | src/checkpoint_store/state.rs:117-144 | The longer directory can be loaded if and only if it could before, the new generation has a request or its last checkpoint name does not end in the footer magic, and none of its requests is retired |
| SealProtocol.FooterNameUnreadable | src/checkpoint_store/manifest.rs:206-225 | A checkpoint id that ends in the footer magic: its record is admitted, its route file is built, and the published store can no longer be loaded |
| SealProtocol.RequestsListedGrows | src/checkpoint_store/segment.rs:556-570 | Routes go on listing exactly the committed requests |
| SealProtocol.Reopen | src/checkpoint_store/store.rs:28-136 | Stopping anywhere and opening again gives a working store with the same manifest, checkpoints and bytes, swept of unnamed files when the guard is granted, if and only if the directory can be loaded and every version of the state has a 64-bit length |
| PruneProtocol.WriteCompacted | src/checkpoint_store/state.rs:901-1036 | The fresh generation holds exactly the streams of the pruned state, if and only if names, wide kinds and streams have room |
| PruneProtocol.PruneSubtree | src/checkpoint_store/store.rs:250-419 | Pruning is atomic on disk: before the manifest the directory stands for the old state, from the manifest on for the pruned one, which restarts the generations; a prune that is not stopped succeeds exactly when the subtree can be pruned and what stays has room; only its two files are added, and only a granted reclaim at its end takes any away, all that no manifest names; the pruned versions have 64-bit lengths if and only if those in use had |
| PruneProtocol.AllAreAdded | src/checkpoint_store/state.rs:901-1036 | The route of a pruned generation lists every thread and checkpoint at its ordinal |
| PruneProtocol.PrunedLoadable | src/checkpoint_store/state.rs:117-144 | The pruned directory can be loaded if and only if it has a request or the last name of its table does not end in the footer magic, and its ledger does not overlap |
| BoundedWal.AppendBounded | src/checkpoint_store/store.rs:1090-1124 | The log never exceeds the hard limit; an oversize or unparsable record changes nothing; crossing the soft limit of a log that is not empty seals everything first and appends the parsed transaction; validity is asked only then, so a record that parses but is refused has sealed all the same; it succeeds exactly when the record is admitted within the limits, the seal it needs has room, and the record is written; only a published generation changes whether the directory loads, and only the versions of the record whether the state can be measured |
| Oversize.CommitKeepsFit | src/checkpoint_store/transaction.rs:1425-1462 | After a commit every version has a 64-bit length if and only if it had before and the new ones have |
| Oversize.OversizeAccepted | src/checkpoint_store/transaction.rs:1165-1283 | A history: one byte doubled 64 times as a second version is admitted by an empty store, its checkpoint reads and verifies, the directory loads, and a version of the state has more than 64-bit length |
| BoundedWal.AutomaticTarget | src/checkpoint_store/store.rs:1108-1118 | The automatic seal's target is always one the seal accepts |
| RouteFile.BuildRouteFile | src/checkpoint_store/manifest.rs:3-127 | From the names: it succeeds exactly when counts, lengths, offsets and requests fit, and yields the laid-out file with its index hash; every thread and checkpoint has an entry in its table that holds the hash of its key, its ordinal, and where the key stands in the bytes, in order of hash |
| RouteFile.BuiltRoutes | src/checkpoint_store/manifest.rs:76-100 | What a lookup finds: read off the bytes, the tables have as many entries as there are new names, in order of hash, and route every one of them to its ordinal |
| RouteFile.SortIsOrdered | src/checkpoint_store/manifest.rs:53-64 | The tables hold exactly the entries of the generation in order of hash, then key |
| RouteFile.LexIs | src/checkpoint_store/manifest.rs:53-64 | Keys are ordered by their first different byte, a prefix before what it begins |
| RouteFile.RequestSectionBytes | src/checkpoint_store/manifest.rs:129-160 | The section is header, records, length and footer, and empty without requests; it fails exactly on a key or a count out of bounds |
| RouteFile.RouteRequestRecords | src/checkpoint_store/manifest.rs:162-282 | Whatever the bytes, the records returned stand at the end of the file just as they would be written there, right behind the keys; of a built file they are its records in order, if and only if it has some or its keys do not end in the footer magic |
| RouteFile.ReadableIff | src/checkpoint_store/manifest.rs:206-225 | A generation can be read back if and only if it has a request, or the checkpoint that sorts last has a name that does not end in the footer magic; threads never matter |
| RouteFile.KeyBlobEnd | src/checkpoint_store/manifest.rs:172-209 | The keys end where the furthest entry of both tables says, whatever the bytes, if and only if tables and keys lie in the file; of a built file that is the exact end of the keys |
| RouteFile.ValidateRouteFile | src/checkpoint_store/manifest.rs:619-690 | The checks of magic, version, counts, layout and hash of a route file, exactly; the hash is that of all bytes behind the header |
| RouteFile.BuiltIsValid | src/checkpoint_store/manifest.rs:619-690 | A built file passes exactly the metadata that describes it |
| RouteFile.RouteKeyInjective | src/checkpoint_store/manifest.rs:15-36 | Different names have different route keys |
| RouteFile.FooterInName | src/checkpoint_store/manifest.rs:210-225 | The route of a generation with one checkpoint whose id ends in the footer magic is built, and refused when it is read back |
| Reclaim.LeaseKeepsFiles | src/checkpoint_store/mod.rs:296-332 | While a reader holds its lease no file is removed, in any interleaving |
| Reclaim.CompleteIff | src/checkpoint_store/mod.rs:1027-1082 | One step keeps all published, in-flight and leased files if and only if it removes none that is published or in flight |
| Reclaim.RemovalsSafeIff | src/checkpoint_store/mod.rs:1027-1082 | Whatever a reclaimer may remove next is safe to remove if and only if its manifest names all that is published or in flight |
| Reclaim.CurrentManifestIsSafe | src/checkpoint_store/mod.rs:1096-1143 | With a manifest current at every removal and nothing else in flight, every run keeps the published files and every reader's files |
| Reclaim.StaleManifestRemovesPublished | src/checkpoint_store/mod.rs:1109-1116 | A run in which the worker's earlier manifest makes it remove a published file |
| Reclaim.InFlightArtifactRemoved | src/checkpoint_store/mod.rs:1027-1082 | A run in which the manifest is current and the file of the next one is removed |

## Left out

- Segment header, stream table and block table byte encodings: modelled as a record per segment; only their contents matter to the proofs.
- Agreement of segment headers with the manifest (generation and counts): the same numbers are stated once in the manifest model.
- JSON encoding of the manifest, pre-release revisions, store identifiers and staged temporary files: case tables; a publication is one step that happens or does not.
- The order of threads, requests, tombstones and retired keys listed for a pruned generation, which the source sorts: every result holds for any order.
- SealProtocol.Store.SealThrough: does not model a publication whose durability is indeterminate, because both possible directories are the ones before and after the step and both are proved to stand for the state.
- BoundedWal.AppendBounded: does not model a failed append whose record reached the disk complete, because the commit state machine covers it; the next open may then find that record.
- SealProtocol.Store: works in eager mode; what a seal does to memory in lazy mode is in Overlay.LazySealExactIff.
- Recovery.Open: loads the sealed part eagerly; LazyStore.LoadMetadata gives the same metadata for the lazy mode.
- SealProtocol.Store.SealThrough: returns no report; the numbers of the source's report are those of the manifest and the log it leaves.
- BlockReader.LazyReader.AppendStreamRange: stated for segments that hold their streams; of damaged blocks only LoadBlock and the eager readers say what becomes of them.
- The empty-generation shortcut of materialising, which returns the default state without reading files.
- IdentityTree.IdentityLeafTransaction: does not check the hash the caller supplies, as the source does not.
- Request-bearing encoders and the request-id entry point, which is compiled for tests only: its effect is the hypothesis of Deletion.LedgerForGood.
- Reading of single identity leaves and identity ranges: the range reader on one root.
- Fast paths that only avoid work: positional reads, capacity hints, reader metrics.
- Integer overflow checks at 64 bits on sums that a bounds check rejects anyway: merged with that check; on positions in the hot log and its capacity, which no file reaches; and on encoded payload offsets, which cannot overflow before the block count does. Sums below a node can, and are modelled.
- File metadata calls that fail before an append has done anything: the same outcome as a definite failure.
- zstd, XXH3, SHA-256 and UTF-8 internals, operating system locks and directories, allocation failure.
- The candidate history path, the persistent history core, the command line, server, adapters and benchmarks.
- fsck: materialise, replay and reconstruct again.
