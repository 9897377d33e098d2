# InterchangeDB: a verified model of its core

Dafny models of the parts of InterchangeDB whose correctness is hardest to see by reading one function, with
proofs of what they promise.  `dafny verify dfyconfig.toml` checks the whole project.

**Buffer pool, all interleavings** (`PoolProtocol`, `PoolRoles`, `PoolAccesses`, `PoolTransfers`,
`PoolInvariant`, `PoolSteps`, `PoolRuns`, `PoolSafety`).  Any number of activities (fetches, page creations,
guards, policy swaps) take steps one at a time.  A step is one section under the page-table lock, one section
under the replacer lock, or one access to a pin count, dirty flag or page label.  `PoolProtocol` is the
protocol and nothing else; the theorems in `PoolSafety` are about every state and every step of every run.
The proof gives each program counter a *role* (locks held, frames pinned, owned or relied on, evictability
writes owed) and shows that every kind of shared access keeps the bookkeeping whatever the others do.
The eviction policy is a tracked set with an evictable subset and an arbitrary choice of victim; setting
evictability on an untracked frame has no effect, a swapped-in policy starts out tracking nothing, and clients
fetch only page ids already handed to them.

**Buffer pool, one operation at a time** (`PoolContents`, `BufferPool`, `PoolClient`).  A class with frames,
page bytes, a disk and open guards.  Each operation is specified by its effect on the plain map from page id to
bytes that clients see; `PoolClient.Run` lifts this to every sequence of client operations on a pool of any size.
The reference it obeys settles every outcome, failures included, in client terms: pages, handles, the number of
frames, and how many of them failed reads have cost.  `PoolIds` holds what both pool models share.

**Keys, row blobs, tables and indexes** (`ByteOrder`, `Values`, `FixedWidth`, `KeyEncoding`, `CompositeKeys`,
`TupleCodec`, `Engine`, `TableRows`, `TableScans`, `Constraints`, `TableSpec`, `Table`, `IndexScans`,
`TableRuns`).  One stack of theorems: prefix-free ordered keys give exact prefix ranges, these give exact unique
checks and scans, and these give indexes that agree with the table after every run of mutations, so that a lookup
through an index finds exactly the rows it should.  An engine is an ordered map.

**Push execution** (`GroupKeys`, `PushPlans`, `Aggregates`, `PushSinks`).  Sinks are objects that own the next
sink and update their state as rows arrive; the pipeline with its early stops returns the rows of the plan's list
semantics.  `Aggregates` says what each aggregate function comes to over a list of rows.

**Exact arithmetic** (`SqlCompare`, `JoinKeys`, `Coercion`, `DecimalDivision`, `CivilCalendar`) and two smaller
algorithms (`SubquerySlots`, `TpchCompare`).

## Where code and documentation differ

- The code is what is modelled.  `apply_defaults` says it fills defaults into NOT NULL columns; it fills them into
  every column that declares one (crates/idb-sql/src/catalog/constraints.rs:144-162).
- Phase 1 of an eviction abandons a victim that turns out to be pinned; no run ever takes that branch
  (`PoolSafety.ChosenVictimIsUnpinned`).
- An upsert can fail after its first write.  `Tables.Table.Upsert` says exactly when
  (`TableSpec.LosesEntries`), `TableRuns.UpsertCanLoseEntries` gives an instance.  No other mutation can.
- Updates do not check that a row keeps its primary key.  `Tables.Table.UpdateByPk` and
  `Tables.Table.UpdateColumns` say that the table survives a successful update exactly when it does,
  `TableRuns.UpdateCanMoveKey` gives an instance.
- `IN` over a materialised set is documented to match exactly as `=` does.  It does so except when a non-NULL
  probe meets only non-NULL rows that differ from it, at least one of them of an unrelated type: then the search by `=`
  is unknown and the set answers "not in" (`JoinKeys.InAgreesIff`, `JoinKeys.UnrelatedTypesMiss`).
- Bytes that decode as a key need not encode again: a Char value may come back with an inner zero byte
  (`CompositeKeys.ReencodesIff`, with an instance in `CompositeKeys.InnerZeroIsLost`).
- The TPC-H comparator's confusability check is documented to make greedy matching sound.  Integers beyond 2^53
  can share a double, and the check compares them as integers.  Greedy matching is exact for every result if and
  only if no two expected rows could be matched by one row in this way (`TpchCompare.SharpIff`, with an instance in
  `TpchCompare.BigIntegersMiss`); integers up to 2^53 are always fine (`TpchCompare.SmallIsSharp`).

## Model

| member | source | states |
|---|---|---|
| PoolRuns.RunKeeps | crates/idb-storage/src/buffer/buffer_pool_manager.rs:184-727 | the pool's invariant holds in every state of every run |
| PoolRuns.StepKeeps | crates/idb-storage/src/buffer/buffer_pool_manager.rs:184-727 | every step of every activity keeps the invariant, whatever the other activities are doing |
| PoolRuns.SelectStepKeeps | crates/idb-storage/src/buffer/buffer_pool_manager.rs:602-650 | so does eviction phase 1: select a victim and reserve it with a pin |
| PoolRuns.FlushStepKeeps | crates/idb-storage/src/buffer/buffer_pool_manager.rs:652-675 | so does eviction phase 2: write back while still mapped, drop the reservation, look again |
| PoolRuns.AbandonStepKeeps | crates/idb-storage/src/buffer/buffer_pool_manager.rs:675-702 | so does abandoning a victim, with the pin count read inside the replacer lock |
| PoolRuns.CommitStepKeeps | crates/idb-storage/src/buffer/buffer_pool_manager.rs:703-722 | so does taking the victim out of the replacer and the table |
| PoolRuns.PublishStepKeeps | crates/idb-storage/src/buffer/buffer_pool_manager.rs:508-560 | so does publishing a loaded page, re-checking for another loader |
| PoolRuns.AdoptStepKeeps | crates/idb-storage/src/buffer/buffer_pool_manager.rs:523-549 | so does losing the load race, adopting the winner and giving the frame back |
| PoolRuns.GuardStepKeeps | crates/idb-storage/src/buffer/buffer_pool_manager.rs:418-451 | so does dropping a guard, with evictability written after the unpin |
| PoolRuns.SwapStepKeeps | crates/idb-storage/src/buffer/buffer_pool_manager.rs:348-411 | so does swapping the policy frame by frame |
| PoolSafety.ExactlyOneOwner | crates/idb-storage/src/buffer/buffer_pool_manager.rs:184-207 | in every reachable state each frame is in exactly one free-list slot, table entry or loader's hands |
| PoolSafety.TableOneToOne | crates/idb-storage/src/buffer/buffer_pool_manager.rs:512-560 | no two pages are ever mapped to one frame |
| PoolSafety.FramesAreConserved | crates/idb-storage/src/buffer/buffer_pool_manager.rs:457-727 | free list, table and loaders (failed reads included) always account for the whole pool |
| PoolSafety.PinsAreCounted | crates/idb-storage/src/buffer/buffer_pool_manager.rs:472-643 | a frame's pin count is its guards plus its reservations plus its loaders |
| PoolSafety.GuardedPageIsMapped | crates/idb-storage/src/buffer/buffer_pool_manager.rs:108-126 | while a guard on a page is held, handed out or dropped, the table maps the page to the guard's frame |
| PoolSafety.UnpinnedMeansEvictable | crates/idb-storage/src/buffer/buffer_pool_manager.rs:418-451 | a mapped frame without pins that no activity is midway with is tracked and evictable: none is stranded |
| PoolSafety.EvictableMeansUnpinned | crates/idb-storage/src/buffer/buffer_pool_manager.rs:472-488 | an evictable frame is mapped, and pinned only while its pinner is about to say so |
| PoolSafety.EvictorSeesTruth | crates/idb-storage/src/buffer/buffer_pool_manager.rs:602-637 | whoever holds the table write lock sees no pinned evictable frame, except for one it is itself adopting |
| PoolSafety.ChosenVictimIsUnpinned | crates/idb-storage/src/buffer/buffer_pool_manager.rs:622-637 | the chosen victim is never pinned |
| PoolSafety.NoFreeFramesMeansBusy | crates/idb-storage/src/buffer/buffer_pool_manager.rs:605-621 | an evictor finds no victim only when every mapped frame is pinned or its unpinner has yet to mark it |
| PoolSafety.AtRestEvictability | crates/idb-storage/src/buffer/buffer_pool_manager.rs:418-451 | when no activity is midway, a mapped frame is evictable exactly when it has no pins |
| PoolSafety.UnmappedOnlyUnpinnedAndClean | crates/idb-storage/src/buffer/buffer_pool_manager.rs:665-722 | over any step a page keeps its frame, or leaves the table clean and with no guard, reservation or loader |
| PoolSafety.LoaderFrameIsPrivate | crates/idb-storage/src/buffer/buffer_pool_manager.rs:567-580 | a frame handed to a loader is clean, unpinned, untracked, and in nobody else's hands |
| BufferPool.Pool.constructor | crates/idb-storage/src/buffer/buffer_pool_manager.rs:79-95 | a new pool shows the disk's pages and has every frame free |
| BufferPool.Pool.FlushFrame | crates/idb-storage/src/buffer/buffer_pool_manager.rs:730-750 | a dirty frame is written to its page's place on disk and becomes clean; nothing else changes |
| BufferPool.Pool.Reserve | crates/idb-storage/src/buffer/buffer_pool_manager.rs:605-650 | some evictable frame leaves the replacer and is pinned unless it already was |
| BufferPool.Pool.Commit | crates/idb-storage/src/buffer/buffer_pool_manager.rs:665-722 | the victim is unmapped, or given back to the replacer with its true evictability |
| BufferPool.Pool.EvictOnce | crates/idb-storage/src/buffer/buffer_pool_manager.rs:602-727 | run alone, the first round decides, loses no page content, and fails exactly when nothing is evictable |
| BufferPool.Pool.EvictPage | crates/idb-storage/src/buffer/buffer_pool_manager.rs:582-728 | the retry loop yields a frame or fails exactly when nothing is evictable; clients notice nothing |
| BufferPool.Pool.GetFreeFrame | crates/idb-storage/src/buffer/buffer_pool_manager.rs:567-580 | fails exactly when the free list is empty and every mapped frame is pinned |
| BufferPool.Pool.HandleHit | crates/idb-storage/src/buffer/buffer_pool_manager.rs:472-488 | pins the frame for one more guard and makes it not evictable; no page changes |
| BufferPool.Pool.HandleMiss | crates/idb-storage/src/buffer/buffer_pool_manager.rs:490-560 | loads the page under a guard; an unallocated id costs the pool one frame and nothing else |
| BufferPool.Pool.FetchInternal | crates/idb-storage/src/buffer/buffer_pool_manager.rs:457-470 | the exact error conditions of a fetch, which never changes what clients see |
| BufferPool.Pool.FetchPageRead | crates/idb-storage/src/buffer/buffer_pool_manager.rs:108-112 | a live read guard on the page, or one of two errors, each exactly when it is due |
| BufferPool.Pool.FetchPageWrite | crates/idb-storage/src/buffer/buffer_pool_manager.rs:122-126 | the same with a write guard |
| BufferPool.Pool.AllocatePageId | crates/idb-storage/src/buffer/buffer_pool_manager.rs:155-158 | a fresh page id, with zeros as its content |
| BufferPool.Pool.NewPage | crates/idb-storage/src/buffer/buffer_pool_manager.rs:170-207 | the page exists with zeros even when no frame could be had for it |
| BufferPool.Pool.DeletePage | crates/idb-storage/src/buffer/buffer_pool_manager.rs:216-247 | refused exactly while a guard is open; otherwise the page falls back to its last written-back content |
| BufferPool.Pool.FlushPage | crates/idb-storage/src/buffer/buffer_pool_manager.rs:254-263 | afterwards the disk holds the page unless somebody is writing it; clients notice nothing |
| BufferPool.Pool.FlushAllPages | crates/idb-storage/src/buffer/buffer_pool_manager.rs:266-276 | afterwards the disk holds every page nobody is writing |
| BufferPool.Pool.SwapPolicy | crates/idb-storage/src/buffer/buffer_pool_manager.rs:348-411 | re-registering every mapped frame rebuilds exactly the old tracked and evictable sets |
| BufferPool.Pool.Unpin | crates/idb-storage/src/buffer/buffer_pool_manager.rs:418-451 | one guard fewer, dirty if it was a write guard, evictable again when it was the last |
| BufferPool.PageGuard.ReadPage | crates/idb-storage/src/buffer/page_guard.rs:98-102 | a live guard reads the page's current content |
| BufferPool.PageGuard.WritePage | crates/idb-storage/src/buffer/page_guard.rs:190-203 | a live write guard changes exactly its own page |
| BufferPool.PageGuard.DropGuard | crates/idb-storage/src/buffer/page_guard.rs:85-91 | the first drop closes the guard, later ones do nothing; page contents stay |
| BufferPool.CleanEqualsDisk | crates/idb-storage/src/buffer/buffer_pool_manager.rs:730-750 | a clean page nobody is writing is on disk as clients see it |
| BufferPool.FramesAddUp | crates/idb-storage/src/buffer/buffer_pool_manager.rs:490-500 | free frames, mapped frames and frames lost to failed reads add up to the pool size |
| BufferPool.NoneLeftIff | crates/idb-storage/src/buffer/buffer_pool_manager.rs:567-621 | no frame can be had exactly when pages under guards and frames lost to failed reads make up the pool |
| PoolClient.Run | crates/idb-storage/src/buffer/buffer_pool_manager.rs:79-276 | every sequence of opens, reads, writes, drops, creations, deletions, flushes and swaps behaves as a plain map with handles; an open or creation fails for want of a frame exactly when pages in use and lost frames make up the pool |
| PoolClient.VictimsAreInvisible | crates/idb-storage/src/buffer/buffer_pool_manager.rs:582-728 | two runs of the same operations, whatever victims they chose and whatever they wrote back, have the same outcomes as long as no page is deleted |
| PoolClient.OutcomesDetermined | crates/idb-storage/src/buffer/buffer_pool_manager.rs:79-276 | without deletions, the outcomes of a run are determined by pool size, disk pages and operations |
| FixedWidth.SignedOrder | crates/idb-core/src/types/keyenc.rs:204-212 | big-endian bytes with the sign bit flipped sort as the integers do, across the sign boundary |
| FixedWidth.SignedRoundTrip | crates/idb-core/src/types/keyenc.rs:209-224 | decoding a sign-flipped integer gives the integer back |
| KeyEncoding.PadOrder | crates/idb-core/src/types/keyenc.rs:274-293 | zero-padded strings without zero bytes differ and sort as the strings do |
| KeyEncoding.EscapedOrder | crates/idb-core/src/types/keyenc.rs:313-335 | escaped strings of any length sort as the strings do, and none is a prefix of another |
| KeyEncoding.EscapedRoundTrip | crates/idb-core/src/types/keyenc.rs:324-368 | unescaping finds the string and exactly its bytes, whatever follows |
| KeyEncoding.EscapeInto | crates/idb-core/src/types/keyenc.rs:324-335 | the escaping loop appends the escaped string to the buffer |
| KeyEncoding.Unescape | crates/idb-core/src/types/keyenc.rs:337-368 | the cursor loop decodes as the recursive definition does, in bounds, with its error cases |
| KeyEncoding.ComponentOrder | crates/idb-core/src/types/keyenc.rs:74-139 | components of different values of one column are prefix-free and sort as the values, NULL first |
| KeyEncoding.ComponentRoundTrip | crates/idb-core/src/types/keyenc.rs:140-200 | a component decodes to its value and consumes exactly its bytes |
| CompositeKeys.EncodeKeyComponents | crates/idb-core/src/types/keyenc.rs:37-50 | the loop yields the key, or fails exactly on wrong arity, wrong type, over-long Char or a zero byte in Char |
| CompositeKeys.DecodeKeyComponents | crates/idb-core/src/types/keyenc.rs:54-70 | the cursor loop stays in bounds and decodes as specified, rejecting trailing bytes |
| CompositeKeys.KeysApart | crates/idb-core/src/types/keyenc.rs:37-50 | no key is a prefix of the key of a different row |
| CompositeKeys.OrderEmbedding | crates/idb-core/src/types/keyenc.rs:31-50 | keys sort byte-wise exactly as rows sort as tuples with NULL first, and are equal exactly for equal rows |
| CompositeKeys.RoundTrip | crates/idb-core/src/types/keyenc.rs:37-70 | every well-typed encodable row of any arity decodes to itself |
| CompositeKeys.DecodedDetermines | crates/idb-core/src/types/keyenc.rs:54-70 | whatever bytes decode are the key of the decoded values |
| CompositeKeys.DecodeInjective | crates/idb-core/src/types/keyenc.rs:54-70 | two byte strings that decode to the same values are equal |
| CompositeKeys.ReencodesIff | crates/idb-core/src/types/keyenc.rs:274-310 | decoded values encode back to their bytes exactly when no Char value has an inner zero byte |
| CompositeKeys.InnerZeroIsLost | crates/idb-core/src/types/keyenc.rs:274-310 | bytes that decode and do not encode again |
| CompositeKeys.LeadingMeansEqual | crates/idb-core/src/types/keyenc.rs:384-416 | a row's key starts with the key of some values exactly when the row does |
| CompositeKeys.PrefixMeansEqual | crates/idb-core/src/types/keyenc.rs:384-416 | an entry starts with a key exactly when its leading values are that key's |
| CompositeKeys.NothingBetween | crates/idb-core/src/types/keyenc.rs:370-387 | nothing lies strictly between a key and its byte increment |
| CompositeKeys.PrefixIncrement | crates/idb-core/src/types/keyenc.rs:406-416 | popping trailing 0xFF bytes computes the prefix's successor, or none |
| CompositeKeys.PrefixRange | crates/idb-core/src/types/keyenc.rs:389-416 | keys from a prefix up to its increment, or without upper bound, are exactly its extensions |
| TupleCodec.BitmapBits | crates/idb-core/src/types/tuple.rs:149-155 | bit i of the bitmap is set exactly for NULL columns, spare bits are clear |
| TupleCodec.EncodeRow | crates/idb-core/src/types/tuple.rs:39-59 | the loop yields bitmap and values, or fails exactly when the row is not storable |
| TupleCodec.DecodeRow | crates/idb-core/src/types/tuple.rs:62-92 | the cursor loop stays in bounds and decodes as specified, rejecting trailing bytes |
| TupleCodec.DecodeColumn | crates/idb-core/src/types/tuple.rs:100-145 | skipping by size reads one column as specified, also when a skip runs past the end |
| TupleCodec.RowRoundTrip | crates/idb-core/src/types/tuple.rs:39-92 | every well-typed storable row of any arity decodes to itself |
| TupleCodec.ColumnAgrees | crates/idb-core/src/types/tuple.rs:100-145 | on any bytes that decode, reading column i gives the i-th decoded value |
| StorageEngine.Engine.ScanRange | crates/idb-core/src/storage/engine/mod.rs:138-165 | a scan lists every key within its bounds once, in ascending order |
| Constraints.ValidateExact | crates/idb-sql/src/catalog/constraints.rs:20-162 | the checks accept a row exactly when every column accepts its value, NULLs are permitted and the primary key has none |
| Constraints.CheckChanges | crates/idb-sql/src/table/mod.rs:282-286 | a partial update is accepted exactly when every change has its column's type and bounds; otherwise the first bad change is reported |
| Constraints.Merge | crates/idb-sql/src/layout/row.rs:127-145 | changes are merged in order, later ones winning |
| TableRows.FittingStorable | crates/idb-sql/src/catalog/constraints.rs:20-142 | a validated row can be stored exactly when no Char value has a zero byte |
| TableRows.EntryDetermines | crates/idb-sql/src/table/mod.rs:76-82 | an index entry determines the primary key and the indexed values |
| TableRows.ForeignEntry | crates/idb-sql/src/table/mod.rs:106-146 | a foreign entry under the row's prefix is there exactly when another row clashes with it |
| TableSpec.UniqueExact | crates/idb-sql/src/table/mod.rs:106-146 | a row is accepted exactly when no row with a different primary key has the same all-non-NULL values in a unique index |
| TableScans.TableBounds | crates/idb-sql/src/layout/row.rs:153-172 | between a table's prefix and the next lie exactly the table's keys |
| TableScans.RowBounds | crates/idb-sql/src/layout/row.rs:174-194 | between two keys of a table lie exactly its keys between the two primary keys |
| TableScans.ScanInKeyOrder | crates/idb-sql/src/table/mod.rs:358-385 | scans list rows in the order of their primary keys as tuples |
| TableScans.RangeMeaning | crates/idb-sql/src/table/mod.rs:373-385 | an encoded primary key is within encoded bounds exactly when the primary key is within the bounds, with the upper one excluded, included or absent |
| TableScans.PrefixMeaning | crates/idb-core/src/types/keyenc.rs:389-416 | encoded primary keys between an encoded prefix and its increment are those that start with the prefix |
| Tables.Table.GetRow | crates/idb-sql/src/layout/row.rs:55-66 | the row stored under the primary key, never an error |
| Tables.Table.GetProjection | crates/idb-sql/src/layout/row.rs:68-86 | the requested columns of that row, read without decoding the others |
| Tables.Table.BuildIndexKey | crates/idb-sql/src/table/mod.rs:76-82 | the row's entry, or an error exactly when a zero byte in a Char value prevents it |
| Tables.Table.PutIndexEntries | crates/idb-sql/src/table/mod.rs:85-94 | exactly the row's entry is added to every index |
| Tables.Table.DeleteIndexEntries | crates/idb-sql/src/table/mod.rs:187-193 | exactly the row's entry, which is there, is removed from every index |
| Tables.Table.CheckUniqueIndex | crates/idb-sql/src/table/mod.rs:107-146 | scanning one index finds a violation exactly when the row's values are taken |
| Tables.Table.CheckUniqueIndexes | crates/idb-sql/src/table/mod.rs:106-146 | the first index that objects decides |
| Tables.Table.Insert | crates/idb-sql/src/table/mod.rs:196-226 | the table changes and answers as the reference does; indexes keep agreeing; an error changes nothing; other tables in the engine are untouched |
| Tables.Table.Upsert | crates/idb-sql/src/table/mod.rs:229-250 | the same, and exactly when a failed upsert leaves index entries deleted |
| Tables.Table.UpdateByPk | crates/idb-sql/src/table/mod.rs:254-277 | an error changes nothing; a success replaces the row as the reference does, and keeps table and indexes agreeing exactly when the row keeps its primary key |
| Tables.Table.UpdateColumns | crates/idb-sql/src/table/mod.rs:282-321 | the same for a partial update |
| Tables.Table.DeleteByPk | crates/idb-sql/src/table/mod.rs:335-356 | the row and its index entries go; deleting an absent row succeeds |
| Tables.Table.GetByPk | crates/idb-sql/src/table/mod.rs:324-332 | the row at the primary key, if any |
| Tables.Table.Scan | crates/idb-sql/src/table/mod.rs:360-370 | every row once, in ascending order of encoded primary key; only the last table id fails |
| Tables.Table.ScanRange | crates/idb-sql/src/table/mod.rs:373-385 | every row in the half-open primary key range, in order |
| Tables.Table.AssertUniqueFeasible | crates/idb-sql/src/table/mod.rs:152-170 | succeeds exactly when no two rows clash on the columns |
| Tables.Table.BackfillIndexes | crates/idb-sql/src/table/mod.rs:177-184 | a fresh index comes to hold exactly the entries of the existing rows |
| TableRuns.Create | src/session.rs:617-669 | creating an index succeeds exactly when feasible, and leaves old and new indexes agreeing with the table |
| IndexScans.EntryLeads | crates/idb-sql/src/execution/operators/index_scan.rs:51-69 | an entry starts with an encoded prefix exactly when its row's indexed columns start with the prefix |
| IndexScans.IndexScan | crates/idb-sql/src/execution/operators/index_scan.rs:41-91 | a lookup on leading columns returns exactly the rows with those values, once each, ordered by indexed columns and primary key |
| TableRuns.Mutate | crates/idb-sql/src/table/mod.rs:196-356 | a mutation does to rows and answer what the reference says, and leaves table and indexes agreeing exactly when it is safe |
| TableRuns.SafeKeepsGood | crates/idb-sql/src/table/mod.rs:196-356 | in the reference, safe operations keep primary keys in place and unique indexes free of clashes |
| TableRuns.AlwaysSafeRuns | crates/idb-sql/src/table/mod.rs:229-321 | runs whose updates keep the primary key and whose upserts have no zero byte in a Char value are safe |
| TableRuns.Run | crates/idb-sql/src/table/mod.rs:76-356 | over every safe run of mutations and index creations, indexes agree with the table and no unique index is violated |
| TableRuns.UpsertCanLoseEntries | crates/idb-sql/src/table/mod.rs:229-250 | an upsert that fails after its first write |
| TableRuns.UpdateCanMoveKey | crates/idb-sql/src/table/mod.rs:254-277 | an update that stores a row under a primary key that is not its own |
| GroupKeys.KeysTotal | crates/idb-sql/src/execution/operators/hash_aggregate.rs:384-399 | on keys of one type the group order is total, and equal only for identical keys |
| GroupKeys.SortKeys | crates/idb-sql/src/execution/push.rs:280-283 | the keys of a hash table, sorted |
| PushPlans.PushMeaning | crates/idb-sql/src/execution/push.rs:92-278 | a row pushed into any chain counts as the first of the rows still to come |
| PushPlans.StopIsFinal | crates/idb-sql/src/execution/push.rs:177-190 | once a chain has said stop, nothing it could still be given would change the output |
| PushPlans.PushAllMeaning | crates/idb-sql/src/execution/push.rs:204-225 | stopping the source early loses nothing |
| PushPlans.FinishMeaning | crates/idb-sql/src/execution/push.rs:280-296 | finishing delivers what the chain owes, groups included |
| PushPlans.GroupingExact | crates/idb-sql/src/execution/push.rs:246-296 | accumulating in a hash table and emitting in key order gives each aggregate over exactly its group's rows |
| PushPlans.GroupsInOrder | crates/idb-sql/src/execution/push.rs:280-283 | grouped rows come out sorted, one for every key that occurs |
| PushPlans.BuildMeaning | crates/idb-sql/src/execution/push.rs:321-463 | threading sinks toward the source keeps the plan's meaning |
| PushPlans.ExecuteExact | crates/idb-sql/src/execution/push.rs:481-501 | the pipeline of any plan yields exactly the rows of its list semantics |
| Aggregates.CountsArgs | crates/idb-sql/src/execution/operators/hash_aggregate.rs:403-430 | COUNT counts the arguments that are not NULL, COUNT DISTINCT collects their values |
| Aggregates.BestOfArgs | crates/idb-sql/src/execution/operators/hash_aggregate.rs:465-487 | MIN and MAX return an argument that none beats, or nothing without arguments |
| Aggregates.SumsArgs | crates/idb-sql/src/execution/operators/hash_aggregate.rs:431-464 | SUM and AVG add up the arguments and fail exactly when a sum on the way leaves 64 bits |
| Aggregates.SumResult | crates/idb-sql/src/execution/operators/hash_aggregate.rs:532-606 | what SUM and AVG return, NULL without arguments included |
| Aggregates.AveragedIsNearest | crates/idb-sql/src/execution/operators/hash_aggregate.rs:553-606 | an average is the exact quotient rounded to its last digit, ties away from zero |
| Aggregates.AverageBothWays | crates/idb-sql/src/execution/operators/hash_aggregate.rs:584-606 | AVG of decimals equals SUM divided by COUNT |
| PushSinks.SinkNode.Push | crates/idb-sql/src/execution/push.rs:92-278 | pushing in place updates the chain as specified |
| PushSinks.SinkNode.Feed | crates/idb-sql/src/execution/push.rs:204-225 | a source's loop pushes until told to stop |
| PushSinks.SinkNode.Finish | crates/idb-sql/src/execution/push.rs:280-296 | finishing in place emits sorted groups until stopped and passes the signal on |
| PushSinks.Build | crates/idb-sql/src/execution/push.rs:321-463 | building in place yields the specified chain |
| PushSinks.Execute | crates/idb-sql/src/execution/push.rs:481-501 | executing in place returns exactly the rows of the plan |
| SqlCompare.CompareExact | crates/idb-core/src/types/value.rs:128-159 | the comparison answers exactly for comparable values, and by mathematical value across integers and decimals of every scale |
| SqlCompare.TotalPreorder | crates/idb-core/src/types/value.rs:128-159 | on each comparable class it is a total preorder |
| SqlCompare.ProductsFit | crates/idb-core/src/types/value.rs:228-247 | no product it forms leaves 128 bits |
| JoinKeys.NormalizeJoinKey | crates/idb-core/src/types/value.rs:169-190 | the zero-stripping loop computes the join key |
| JoinKeys.SameKeyIffEqual | crates/idb-core/src/types/value.rs:161-190 | two non-NULL values have the same join key exactly when the comparison says Equal |
| JoinKeys.MaterializeInSet | src/session.rs:728-757 | the set holds exactly the join keys of the non-NULL rows, the flags record NULLs and rows; refused above the limit |
| JoinKeys.FoundIffEqual | src/session.rs:724-757 | the set finds a probe exactly when some row equals it |
| JoinKeys.InAgreesIff | crates/idb-sql/src/sql/ir/expr.rs:1376-1396 | IN and NOT IN agree with the row-by-row search exactly when the unrelated-type case does not arise |
| JoinKeys.UnrelatedTypesMiss | crates/idb-sql/src/sql/ir/expr.rs:1376-1396 | an instance of that case: the search has no answer, IN says no and NOT IN says yes |
| Coercion.CoercionExact | crates/idb-core/src/types/value.rs:198-288 | conversion succeeds exactly when some value of the type equals the given one, and returns it |
| DecimalDivision.RoundIsNearest | crates/idb-core/src/types/decimal.rs:226-241 | the rounded quotient is the nearest integer, ties away from zero |
| DecimalDivision.NearestUnique | crates/idb-core/src/types/decimal.rs:226-241 | there is only one such integer |
| DecimalDivision.DivideExact | crates/idb-core/src/types/decimal.rs:162-197 | a successful division is the exact quotient at the larger scale, so rounded |
| DecimalDivision.DivideCases | crates/idb-core/src/types/decimal.rs:162-221 | each error exactly when it is due; the rescale error never |
| DecimalDivision.IntermediatesFit | crates/idb-core/src/types/decimal.rs:211-241 | quotient, doubled remainder and bumped quotient stay in 128 bits |
| CivilCalendar.DateRoundTrip | crates/idb-core/src/types/civil.rs:19-49 | every date that exists comes back from its day count |
| CivilCalendar.DaysRoundTrip | crates/idb-core/src/types/civil.rs:19-49 | every day count comes back from its date, which exists |
| CivilCalendar.Successor | crates/idb-core/src/types/civil.rs:32-49 | the date of the next day is the next date of the calendar |
| CivilCalendar.ExistsIffRoundTrip | crates/idb-core/src/types/civil.rs:9-15 | the round trip holds exactly for dates that exist |
| CivilCalendar.IntermediatesFit | crates/idb-core/src/types/civil.rs:19-49 | when the shifted day count fits, nothing leaves 32 bits and nothing unsigned goes below zero |
| SubquerySlots.Resolve | src/session.rs:361-417 | resolution succeeds exactly when inner queries run and at most one SELECT of the tree has sets and one correlated forms; then every slot finds its own; otherwise the error is that of the first check to fail |
| SubquerySlots.RunAll | src/session.rs:427-467 | inner queries are run in order and the first failure ends the resolution |
| TpchCompare.SharedMatchIff | src/bin/tpch.rs:1346-1364 | one cell can match both of two cells exactly when they are confusable or are different integers with the same double |
| TpchCompare.MatchesOne | src/bin/tpch.rs:1366-1385 | among sharp rows, which no single row could match two of, no actual row matches two expected ones |
| TpchCompare.SmallIsSharp | src/bin/tpch.rs:1346-1385 | rows that pass the check are sharp if no integer exceeds 2^53 |
| TpchCompare.ConfusablePair | src/bin/tpch.rs:1371-1385 | finds the first confusable pair exactly when there is one |
| TpchCompare.FirstFitExact | src/bin/tpch.rs:1457-1470 | first-fit accepts only with a one-to-one tolerant matching, and among sharp rows whenever there is one |
| TpchCompare.SharpIff | src/bin/tpch.rs:1439-1470 | among rows that pass the check, first-fit is exact for every result if and only if the rows are sharp |
| TpchCompare.BigIntegersMiss | src/bin/tpch.rs:1326-1364 | rows that pass the check and a result that first-fit wrongly rejects |
| TpchCompare.Greedy | src/bin/tpch.rs:1457-1470 | the loop over a used array is first-fit |
| TpchCompare.Compare | src/bin/tpch.rs:1416-1472 | ordered comparison reports the first differing row, multiset comparison the first confusable pair or the first row without a match; each accepts exactly what it should |

## Left out

- Real disk I/O, checksums, file formats and statistics counters: a sequence of pages stands for the disk.
- Concrete eviction policies, B+Tree and LSM engines, WAL, MVCC, transactions: used through their contracts only.
- Failed write-backs in the one-at-a-time pool: there disk writes succeed and reads fail only for unallocated ids; the concurrent model has both failures.
- `flush_page`, `flush_all_pages`, `delete_page` and page contents in the concurrent pool: they touch a frame after releasing the table lock; the one-at-a-time pool has them.
- Weak memory ordering: atomics are sequentially consistent.
- Liveness of the eviction loop under contention: the retry bound is modelled, its sufficiency is not claimed.
- The lost-race branch of a cache miss in the one-at-a-time pool: nothing can run between lookup and publish there; the concurrent model has it.
- Guards that would block on a page latch: an operation that blocks forever is not an operation of the one-at-a-time pool.
- TableRuns.Run: requires every operation to be safe where its turn comes, since after an unsafe one the property fails as `TableRuns.Mutate` says.
- Tables.Table.UpdateColumns: requires that the changes name existing columns, where the code panics otherwise, and does not claim NOT NULL, which the code does not re-check.
- Engine failures and write locks under a table: engine calls succeed, every engine key has a four-byte table id in front, and Decimal columns have scale at most 18.
- Column layouts other than the row layout, the catalog's own tables, and index registration.
- The typing, schema inference and error behaviour of expressions in push plans: predicates, expressions and aggregates are total functions, an aggregate that fails yields NULL, key columns have the declared types, and the limit on the number of groups is not reached.
- PushSinks.Execute: covers error-free runs; an early stop may skip rows on which an eager scan would fail.
- Projections that name a missing column and the fault channel of correlated subqueries in push plans.
- Volcano operators, planners, optimizer and binder: an operator the push model delegates is the list of rows it returns.
- How inner subqueries run: an inner query is given by its outcome in SubquerySlots.
- Floating point in the TPC-H comparator beyond the conversion of integers: numbers and their differences are reals.  Classifying text cells is not modelled.
- Decimal addition, subtraction and multiplication: one checked operation on mantissas each.
