# Swarm storage core: a verified model

A Dafny model of the storage and sync core of a Swarm node: the memory cache and
the disk store for content-addressed chunks, the Merkle chunkers, the manifest
trie, the request queue, and the handshake in which two peers exchange missing
chunks. `dafny verify dfyconfig.toml` checks everything.

| modules | what they model |
|---|---|
| `Bytes`, `Keys` | byte strings, their order, integer encodings, bit fields of a key |
| `MemTree`, `MemUpdate`, `MemEvict`, `MemModel`, `MemStore` | the LRU cache: a hash-prefix tree whose nodes carry a tournament of access stamps |
| `Chunker`, `ChunkerShape`, `ChunkerOps`, `Pyramid` | the two chunkers and the lazy reader |
| `Manifest`, `ManifestTheory`, `ManifestQuery`, `ManifestPath` | the compressed radix trie of a manifest as a path map |
| `ManifestStore`, `ManifestLost`, `ManifestOps`, `ManifestSave` | the same trie lazily loaded from and written back to content-addressed storage, and what a failed load costs |
| `GcSelect`, `DbRecords`, `DbGc`, `DbStore`, `DbSync` | the disk store: records, quickselect garbage collection, sync iterator |
| `SyncQueue`, `SyncQueueSteps`, `SyncQueueModes`, `SyncQueueRuns`, `SyncQueueStray`, `SyncQueueStop`, `SyncKeys` | the queue that moves between memory and the request database |
| `LocalStore` | the write-behind rule between cache and disk store |
| `Handshake` | the unsyncedKeys / deliveryRequest exchange |

How the code is rendered:

- Objects with mutable fields are classes (`MemStore.Store`, `DbStore.Store`,
  `DbSync.SyncIterator`), in-place algorithms work on arrays (`GcSelect`, the read
  buffer of `ChunkerOps`), loops are loops. Each method is tied to a function or
  predicate about the old and new state, and the theorems are about those.
- Concurrent code is a state machine. A blocking point is a step boundary, so a
  run is any interleaving; the results are invariants of every step and therefore
  of every run.
- The panics and endless loops of the cache, missing chunks and failed manifest
  loads are outcomes of the model, not excluded by preconditions.
- A hash is a function parameter. Where a result needs it to be free of collisions
  the lemma says on which chunks or documents.

What the proofs show about the code where it does not do what one would expect:

- `MemStore.setCapacity` finishes exactly when the pending requests fit into the
  new capacity; otherwise it panics or repeats `removeOldest` without effect.
- `addEntry` and `deleteEntry` update the path map correctly exactly when no two
  stored paths part at the path in question; otherwise a stored path is lost.
- `findPrefixOf` has no fallback: it finds something exactly when some stored
  prefix of the query is not outrun by another stored path that then leaves it.
- `loadSubTrie` drops the hash of an entry even if the load fails. Exactly that
  entry is lost then. A manifest can be stored exactly when no such entry is in the
  way, and its node stands for one path map only in exactly that case; after a
  failed add or delete neither holds any more.
- `PyramidChunker` creates a node that waits for no result exactly when the node is
  the last of its level and more than `branches - 1` full results are left for it;
  the first result that arrives there makes it panic. For more than
  `branches * (branches - 1)` and fewer than `branches` squared chunks it panics in
  every order of the leaf tasks.
- `DbStore.setCapacity` picks a target rank inside the scanned records exactly when
  the new capacity is more than a hundredth of the entry count. Otherwise a pass
  removes everything it scanned, or its selection leaves the scanned items.
- `DbStore.Put` does not restore a chunk whose data `Get` dropped as corrupt.
- `syncDb` can send something that was never accepted, exactly when it starts
  without a counter key and a full batch fits into its buffer: a replay that begins
  while the queue is stopping runs past the last record.
- `syncDb` can reorder requests while it stops. A step breaks the order exactly when
  it delivers from the buffer while records are waiting, or a record while older ones
  are waiting, or such a stray.
- A replay of the request database never looks at the quit signal and resends the
  same record for as long as its delivery is aborted.
- `LocalStore.Get` can make a chunk that was just put unreadable for a while, if the
  record it read was collected before it fills the cache; so can the pending request
  that a reader places after it missed the chunk.

## Model

| member | source | states |
|---|---|---|
| Keys.Bits | livepeer/storage/types.go:47-72 | the loop reads exactly the j key bits from position i on, across byte borders, and 0 past the end of the key |
| Keys.BitFieldConcat | livepeer/storage/types.go:58-70 | a bit field is the concatenation of its parts, which is what the byte loop relies on |
| Keys.DistinctKeysDiffer | livepeer/storage/types.go:47-72 | 32-byte keys that agree in all 122 digits the tree uses are equal |
| MemTree.SetFrame | livepeer/storage/memstore.go:41-52 | writing one cell of the stamp tournament can disturb only its own equation and the one above it |
| MemUpdate.ClimbOk | livepeer/storage/memstore.go:90-118 | the upward repair restores the tournament in the whole tree although it may stop early |
| MemUpdate.ClimbFrame | livepeer/storage/memstore.go:90-118 | the repair changes stamps only, and none of another entry |
| MemUpdate.UpdateEntry | livepeer/storage/memstore.go:90-118 | updateAccess gives one entry a new largest stamp, leaves every other entry alone and keeps shape and tournament |
| MemEvict.CellIsLeastStamp | livepeer/storage/memstore.go:41-52 | every access cell holds the least nonzero stamp of the entries below it, and 0 when there is none |
| MemEvict.RemoveOk | livepeer/storage/memstore.go:244-316 | while some stamp is not zero, the descent never panics, ends at an entry with the stamp it followed, and the way back restores the tournament |
| MemEvict.RemoveWithoutStamp | livepeer/storage/memstore.go:247-295 | with no stamp left removeOldest panics or leaves the tree as it was |
| MemModel.OneHome | livepeer/storage/memstore.go:62-73 | a key is stored at one node of the tree at most |
| MemModel.RemoveEvictsOldest | livepeer/storage/memstore.go:244-316 | removeOldest evicts the entry with the smallest stamp of the whole cache; a pending request stays and loses its stamp |
| MemModel.SplitRound | livepeer/storage/memstore.go:180-199 | one round of the split loop keeps shape, tournament and the represented map |
| MemModel.SplitEnds | livepeer/storage/memstore.go:180-199 | the split loop ends before level 122 because distinct keys differ in some digit |
| MemModel.DescendFinds | livepeer/storage/memstore.go:214-226 | the descent for a stored key ends at the node that holds it |
| MemModel.PutNewModel | livepeer/storage/memstore.go:202-205 | adding a leaf with the newest stamp adds exactly that key to the map and keeps all invariants |
| MemModel.ReplaceModel | livepeer/storage/memstore.go:166-178 | replacing a resident entry changes the map at that key only |
| MemStore.Store.constructor | livepeer/storage/memstore.go:54-60 | a new cache is valid and empty |
| MemStore.Store.UpdateAccess | livepeer/storage/memstore.go:90-118 | the loop over parent links computes the climb |
| MemStore.Store.WalkNode | livepeer/storage/memstore.go:249-262 | the inner loop follows the stamp down one node's tournament, writing the branch not taken, or panics as specified |
| MemStore.Store.StepDown | livepeer/storage/memstore.go:263-282 | the step into one of two subtrees, or the panic |
| MemStore.Store.CarryUp | livepeer/storage/memstore.go:299-315 | the upward loop carries the repaired minimum to the root |
| MemStore.Store.RemoveFromTree | livepeer/storage/memstore.go:244-316 | descent, removal and repair together compute the specified removal; it panics exactly when the specification does |
| MemStore.Store.RemoveOldest | livepeer/storage/memstore.go:244-316 | panics only if no resident entry has a stamp; otherwise the oldest entry goes and everything else stays |
| MemStore.Store.Get | livepeer/storage/memstore.go:210-242 | returns exactly the chunk the map holds for the key, with a new stamp, and changes nothing on a miss |
| MemStore.Store.SplitFor | livepeer/storage/memstore.go:180-199 | the split loop ends at a free address for the new key and keeps map and invariants |
| MemStore.Store.PutInTree | livepeer/storage/memstore.go:147-207 | the map is updated at exactly the put key with the newest stamp; data that is put wins, otherwise resident data and size survive, and so do a resident request and channel |
| MemStore.Store.Put | livepeer/storage/memstore.go:135-208 | at capacity the oldest entry goes first, then the map is updated at the put key; no other data and no request of a waiting reader is dropped; entryCnt stays within capacity while all entries have data |
| MemStore.PutKeeps | livepeer/storage/memstore.go:166-178 | data stays readable unless its key had to go and the entry brings none; a request is dropped only with an entry that has data and had to go |
| MemStore.Store.SetCapacity | livepeer/storage/memstore.go:120-128 | finishes exactly when the pending requests fit; then the entries are exactly c if there were more, pending requests stay and whatever left was older than what kept a stamp |
| MemStore.PutFits | livepeer/storage/memstore.go:143-145 | the capacity bound of Put when every entry has data |
| MemStore.RemovalOutcome | livepeer/storage/memstore.go:244-316 | the effect of removeOldest on the map, with or without a stamp left |
| Chunker.RootKeyBinds | livepeer/storage/chunker.go:116-238 | equal root keys mean equal documents unless the hash collides on two of the emitted chunks |
| Chunker.BindSection | livepeer/storage/chunker.go:170-238 | the same for any section at any depth: the size prefix fixes the shape of the tree |
| Chunker.AllChunksFit | livepeer/storage/chunker.go:179-236 | every emitted payload is at most chunkSize, plus its size prefix |
| Chunker.SectionAt | livepeer/storage/chunker.go:198-226 | the key at slot i of an intermediate chunk is the key of the i-th section of the document |
| ChunkerShape.ChunkBound | livepeer/storage/chunker.go:90-103 | no payload exceeds hashSize * branches bytes |
| ChunkerShape.SmallDocument | livepeer/storage/chunker.go:177-195 | a document of at most hashSize * branches bytes is one chunk and its hash is the root key |
| ChunkerShape.EveryLeaf | livepeer/storage/chunker.go:177-195 | the bytes from every multiple of hashSize * branches on, up to the next one or the end, are emitted as a leaf with their size |
| ChunkerShape.LongDocument | livepeer/storage/chunker.go:196-237 | a longer document has a root chunk of its size and at least two and at most branches keys, each the hash of an emitted chunk |
| ChunkerShape.NothingElse | livepeer/storage/chunker.go:170-238 | every emitted chunk is a leaf of the document or holds the keys of at most branches emitted chunks |
| Bytes.LittleEndianByte | livepeer/storage/chunker.go:180-203 | byte i of the size field is the digit of weight 256^i |
| ChunkerOps.TreeShape | livepeer/storage/chunker.go:133-146 | the loop finds the least depth that holds the document |
| ChunkerOps.SkipLevels | livepeer/storage/chunker.go:172-175 | the loop skips exactly the levels a short section does not need |
| ChunkerOps.SplitSection | livepeer/storage/chunker.go:170-238 | computes key and chunks of a section |
| ChunkerOps.SplitChildren | livepeer/storage/chunker.go:198-226 | the loop fills the parent chunk with the keys of all sections |
| ChunkerOps.Split | livepeer/storage/chunker.go:116-168 | returns the root key and emits exactly the chunks of the tree |
| ChunkerOps.Join | livepeer/storage/chunker.go:374-434 | copies exactly the requested bytes of a section into its part of the buffer; fails only if a chunk is missing |
| ChunkerOps.JoinChildren | livepeer/storage/chunker.go:396-433 | the loop over the touched children covers the range without gap or overlap |
| ChunkerOps.JoinChild | livepeer/storage/chunker.go:418-432 | one child is fetched by the key in its slot and read for its part of the range |
| ChunkerOps.ReadAt | livepeer/storage/chunker.go:333-372 | with any honest store the bytes reported are those of the document; a complete store never fails; EOF exactly at the end of the document |
| ChunkerOps.SplitThenRead | livepeer/storage/chunker.go:116-434 | splitting a document and reading any range of it gives that range |
| Pyramid.Process | livepeer/storage/pyramid.go:130-201 | one worker task updates the levels as specified, up to the highest node it completes, or panics where a result has no slot |
| Pyramid.TaskStep | livepeer/storage/pyramid.go:143-198 | after the first k tasks of any order the node holds exactly the hashes of those leaves and waits for the rest |
| Pyramid.Split | livepeer/storage/pyramid.go:80-128 | for 1 up to branches * chunkSize bytes the root key is the tree chunker's, for every order of the leaf tasks; when the second level wraps every order panics |
| Pyramid.PendingZeroIff | livepeer/storage/pyramid.go:160-168 | at every level, a node is created with nothing pending exactly when it is the last of its level and more than branches - 1 full results are left |
| Pyramid.RecordPanicsIff | livepeer/storage/pyramid.go:160-174 | recording a result panics in exactly that case |
| Pyramid.StalledStep | livepeer/storage/pyramid.go:140-198 | when the second level wraps, no task completes a leaf node without a panic |
| Manifest.AddWf | livepeer/api/manifest.go:100-146 | adding keeps the trie well formed: slot by first byte, at least two entries per subtrie, no empty branch path |
| Manifest.AddLookup | livepeer/api/manifest.go:100-146 | without a branch node at p, add changes the path map at p and nowhere else |
| Manifest.DeleteWf | livepeer/api/manifest.go:158-192 | deleting keeps the trie well formed, collapsing subtries that keep one entry |
| Manifest.DeleteLookup | livepeer/api/manifest.go:158-192 | without a branch node at p, delete removes p and nothing else |
| Manifest.CollapseLookup | livepeer/api/manifest.go:183-190 | replacing a one-entry subtrie by that entry with the joined path keeps the path map |
| Manifest.SplitLookup | livepeer/api/manifest.go:130-145 | splitting an edge at the common prefix adds the new path and keeps all old ones |
| Manifest.AddLosesPath | livepeer/api/manifest.go:109-112 | with a branch node at p, add loses a stored path |
| Manifest.DeleteLosesPath | livepeer/api/manifest.go:171-174 | with a branch node at p, delete loses another stored path |
| Manifest.AddExact | livepeer/api/manifest.go:100-146 | add in every case: p is stored, a branch node at p goes with all paths that extend p, everything else stays |
| Manifest.DeleteExact | livepeer/api/manifest.go:158-192 | delete in every case: p goes, a branch node at p goes with all paths that extend p, everything else stays |
| ManifestTheory.BranchAtIff | livepeer/api/manifest.go:100-192 | a branch node sits at p exactly when two stored paths part at p |
| ManifestTheory.AddCorrectIff | livepeer/api/manifest.go:100-146 | add is right for all paths if and only if no branch node sits at p |
| ManifestTheory.DeleteCorrectIff | livepeer/api/manifest.go:158-192 | delete is right for all paths if and only if no branch node sits at p |
| ManifestTheory.Canonical | livepeer/api/manifest.go:100-192 | two well-formed tries for the same path map are the same trie |
| ManifestQuery.FindSound | livepeer/api/manifest.go:287-319 | what findPrefixOf returns is stored, prefixes the query and no stored path follows the query further |
| ManifestQuery.FindIff | livepeer/api/manifest.go:287-319 | it finds something exactly when some stored prefix is not outrun by another stored path |
| ManifestQuery.FindLongest | livepeer/api/manifest.go:287-319 | what it finds is the longest stored path that prefixes the query |
| ManifestQuery.FindExact | livepeer/api/manifest.go:287-319 | a stored path is always found, in full and with its content |
| ManifestQuery.ListExact | livepeer/api/manifest.go:238-281 | the recursive listing reports each due item once, for any remaining prefix and path so far |
| ManifestQuery.ListWithPrefix | livepeer/api/manifest.go:283-285 | every stored path under the prefix is reported exactly once with its suffix and content, nothing else is |
| ManifestQuery.ListOrder | livepeer/api/manifest.go:249-279 | the listing is ordered by byte, and each path comes after those that extend it |
| ManifestPath.RegularSlashes | livepeer/api/manifest.go:323-333 | the result is the words of the path joined by single slashes |
| ManifestPath.WordsJoined | livepeer/api/manifest.go:321-333 | splitting undoes joining |
| ManifestPath.RegularFormCanonical | livepeer/api/manifest.go:321-333 | regularizing is idempotent, and two paths agree exactly when their words do |
| ManifestPath.RegularResult | livepeer/api/manifest.go:321-322 | no leading, trailing or double slash |
| ManifestPath.RegularKeepsLetters | livepeer/api/manifest.go:323-333 | the bytes that are not slashes are kept in order |
| ManifestStore.DocSlots | livepeer/api/manifest.go:203-214 | the packed document still determines the entry of every slot |
| ManifestStore.DocOrder | livepeer/api/manifest.go:203-214 | the entries of a document are in slot order |
| ManifestStore.DocUnique | livepeer/api/manifest.go:203-214 | a document in slot order is determined by its entry for each slot |
| ManifestStore.DocIff | livepeer/api/manifest.go:203-214 | the document of a trie is the one list in slot order that holds exactly its entries |
| ManifestStore.KeyBinds | livepeer/api/manifest.go:194-227 | with an injective hash the root hash determines the trie |
| ManifestStore.SameHashIffSameMap | livepeer/api/manifest.go:194-227 | two well-formed tries have the same root hash exactly when they stand for the same path map |
| ManifestStore.HistoryLookup | livepeer/api/manifest.go:100-192 | a permitted history of adds and deletes leaves exactly the path map it means |
| ManifestStore.HistoriesAgree | livepeer/api/manifest.go:100-227 | any two permitted histories with the same outcome reach the same root hash |
| ManifestStore.RepExtends | livepeer/api/manifest.go:221-225 | storing more documents keeps every partly loaded trie valid |
| ManifestLost.RepDetermines | livepeer/api/manifest.go:35-51 | a storable node stands for one trie only |
| ManifestLost.RepForgets | livepeer/api/manifest.go:229-236 | a node that is not storable stands for other tries as well |
| ManifestLost.DeterminedIffStorable | livepeer/api/manifest.go:194-236 | a node determines its trie exactly when it can be stored |
| ManifestLost.RepAgrees | livepeer/api/manifest.go:229-236 | every path that does not lead through a lost entry is still determined |
| ManifestLost.FullStorable | livepeer/api/manifest.go:194-214 | a node whose missing parts can all be loaded is storable |
| ManifestOps.ReadManifest | livepeer/api/manifest.go:91-97 | rebuilding a node puts each entry of the document into its slot |
| ManifestOps.LoadManifest | livepeer/api/manifest.go:53-98 | whatever the store returns for the root hash of a trie stands for that trie |
| ManifestOps.LoadSubTrie | livepeer/api/manifest.go:229-236 | succeeds exactly with a subtrie or a stored hash; the entry then stands for the same subtrie; on failure exactly this entry is lost |
| ManifestOps.CommonPrefix | livepeer/api/manifest.go:115-118 | the loop computes the length of the common prefix |
| ManifestOps.AddEntry | livepeer/api/manifest.go:100-146 | on a partly loaded trie it does what Add does to the whole one; a failed load loses exactly one entry on the way to the path, after which the node cannot be stored |
| ManifestOps.AddToLink | livepeer/api/manifest.go:114-145 | descending or splitting one entry keeps valid hashes of moved subtries; on failure exactly one entry below is lost |
| ManifestOps.GetCountLast | livepeer/api/manifest.go:148-156 | the number of entries and the last one |
| ManifestOps.DeleteEntry | livepeer/api/manifest.go:158-192 | on a partly loaded trie it does what Delete does to the whole one; a failed load costs the same as in AddEntry |
| ManifestOps.DeleteFromLink | livepeer/api/manifest.go:176-191 | deleting below one entry and collapsing it loses no entry; on failure exactly one is lost |
| ManifestSave.RecalcAndStore | livepeer/api/manifest.go:194-227 | succeeds exactly when the node is storable; then its hash is that of a stored document with exactly the entries of the trie in slot order, and the trie with all subtries is stored; no older document is touched |
| ManifestSave.RecalcLink | livepeer/api/manifest.go:204-213 | an entry without a hash is stored first; it fails exactly when the entry is not storable |
| ManifestSave.SaveAndReload | livepeer/api/manifest.go:53-98 | storing a trie and loading it by its root hash gives a trie for the same path map |
| ManifestSave.FindPrefixOf | livepeer/api/manifest.go:287-319 | returns what FindPrefix says of the whole trie; a failed load loses exactly one entry, on the way to the query |
| ManifestSave.ListInt | livepeer/api/manifest.go:238-281 | reports the listing of the whole trie in order; a failed load cuts it to a prefix and loses exactly one entry |
| ManifestSave.ListLink | livepeer/api/manifest.go:255-278 | the part of the listing below one entry, with the same cost of a failed load |
| GcSelect.Partition | livepeer/storage/dbstore.go:167-185 | a permutation of the range that puts the pivot in its place |
| GcSelect.Select | livepeer/storage/dbstore.go:187-202 | a permutation of the range after which place n holds its n-th oldest item; one past the range it ends at the newest item or leaves the range, with two items exactly when the first is newer |
| DbRecords.KeyLayout | livepeer/storage/dbstore.go:132-146 | index keys keep the order of chunk keys and precede data keys and counters; data keys keep the order of storage indexes |
| DbRecords.StorageIndexesDistinct | livepeer/storage/dbstore.go:300-309 | no two index records share a storage index |
| DbRecords.TouchKeeps | livepeer/storage/dbstore.go:321-339 | an access keeps the record links and the rule that a stamp is held at most twice |
| DbRecords.TouchUses | livepeer/storage/dbstore.go:328-334 | an access gives the record a stamp newer than every other one and changes nothing else |
| DbRecords.InsertKeeps | livepeer/storage/dbstore.go:296-313 | a new record keeps both and adds exactly its chunk |
| DbRecords.RemoveKeeps | livepeer/storage/dbstore.go:255-260 | removing a record and its data keeps both and removes exactly its chunk |
| DbRecords.SortedKeys | livepeer/storage/dbstore.go:205-211 | an iterator visits every index record once in ascending key order |
| DbGc.SelectKeepsScan | livepeer/storage/dbstore.go:247-248 | selecting leaves the scanned items what they were, each once |
| DbGc.CutSize | livepeer/storage/dbstore.go:247-262 | a pass with target rank n removes n + 1 or n + 2 records |
| DbGc.CutCollects | livepeer/storage/dbstore.go:247-262 | the removed records are exactly the scanned ones no newer than the one of rank n |
| DbGc.RotationDistinct | livepeer/storage/dbstore.go:214-244 | the wrap-around scan never visits a record twice |
| DbGc.ShrinkTargetIff | livepeer/storage/dbstore.go:392-400 | the target rank of setCapacity lies inside the scan exactly when the new capacity is more than a hundredth of the entries |
| DbGc.OlderGoFirst | livepeer/storage/dbstore.go:253-262 | a pass removes a record only together with every scanned one used less recently |
| DbGc.LastUsedStays | livepeer/storage/dbstore.go:253-262 | the record used last goes only if everything scanned goes, so never from more than n + 2 scanned records |
| DbGc.TargetMeans | livepeer/storage/dbstore.go:247 | the target rank is the whole part of count * ratio |
| DbGc.FreeRank | livepeer/storage/dbstore.go:292-294 | making room targets a tenth of the scanned records |
| DbGc.ShrinkTarget | livepeer/storage/dbstore.go:392-400 | shrinking to c targets the whole part of 1.01 * count - c, and at least a tenth |
| DbGc.OnePassShrinks | livepeer/storage/dbstore.go:392-403 | when one scan covers all entries a single pass is enough |
| DbStore.Store.constructor | livepeer/storage/dbstore.go:77-104 | a new store on an empty database is valid and empty |
| DbStore.Store.TryAccess | livepeer/storage/dbstore.go:321-339 | a hit gets the next stamp, newer than every other, and nothing else changes; a miss changes nothing |
| DbStore.Store.Scan | livepeer/storage/dbstore.go:205-245 | scans min(gcArraySize, entryCnt) distinct records in ring order from the saved position and saves the next one |
| DbStore.Store.Sweep | livepeer/storage/dbstore.go:253-262 | the loop removes exactly the items no newer than the cut and keeps entryCnt equal to the number of index records |
| DbStore.Store.FindCut | livepeer/storage/dbstore.go:204-248 | the cut for every ratio up to 1; only at 1 and with at least two items can the selection leave the scan |
| DbStore.Store.CollectGarbage | livepeer/storage/dbstore.go:204-267 | of the scanned records the oldest n + 1 or n + 2 go, with their data, everything else stays |
| DbStore.Store.Put | livepeer/storage/dbstore.go:275-318 | a new chunk is added under the next storage index and the current stamp after at most one collection; a known key only gets the newest stamp and is readable afterwards exactly if it was; entryCnt stays within capacity |
| DbStore.Store.Get | livepeer/storage/dbstore.go:341-373 | returns the stored data exactly if it is there and hashes to the key; the record gets the newest stamp; corrupt data is dropped and its index record stays |
| DbStore.Store.SetCapacity | livepeer/storage/dbstore.go:385-405 | the loop ends with at most c entries, with more than c before its last pass, and what remains is unchanged; a pass can leave its scan only for a new capacity of at most a hundredth of at least two entries |
| DbSync.AllDue | livepeer/storage/dbstore.go:435-445 | from the start position on, the keys due are exactly those in (Start, Stop] with storage index in [First, Last), ascending |
| DbSync.SyncIterator.constructor | livepeer/storage/dbstore.go:435-445 | the iterator starts with exactly the wanted keys to come |
| DbSync.SyncIterator.Next | livepeer/storage/dbstore.go:449-473 | returns the next wanted key and leaves the rest, or nothing when there is none |
| DbSync.Walk | livepeer/storage/dbstore.go:435-473 | repeated Next yields every wanted key once, ascending; First > Last is refused |
| SyncQueueSteps.StepInv | livepeer/network/syncdb.go:112-344 | every step of bufferRead, dbRead, push and stop keeps the invariant, also past the end of the records |
| SyncQueueModes.LeavesBuffer | livepeer/network/syncdb.go:143-164 | buffer mode is left exactly when a delivery ends with a full buffer, a delivery fails, or the quit signal is taken |
| SyncQueueModes.EntersBuffer | livepeer/network/syncdb.go:179-190 | it is entered exactly when dbRead asks for a batch, there is none, and the queue is not stopping |
| SyncQueueModes.SavingStep | livepeer/network/syncdb.go:210-230 | a save appends one record numbered by the counter; the batch is written exactly when its number of records is a multiple of dbBatchSize |
| SyncQueueModes.OtherWrites | livepeer/network/syncdb.go:168-197 | besides, the batch is written when dbRead asks for it and at the end, exactly then with the counter |
| SyncQueueModes.ReaderStarts | livepeer/network/syncdb.go:218-223 | a dbRead begins exactly with a replay and with the first record saved after the switch to the database, and looks from there on |
| SyncQueueModes.ReaderEnds | livepeer/network/syncdb.go:293-304 | it ends exactly when it takes the quit signal or is handed an empty batch |
| SyncQueueModes.ReaderStartsOver | livepeer/network/syncdb.go:318-322 | at the counter key it starts over from the first record, leaving nothing behind |
| SyncQueueModes.NumbersContinue | livepeer/network/syncdb.go:123-132 | records are numbered on from the saved counter over any run |
| SyncQueueRuns.QueueSafety | livepeer/network/syncdb.go:112-344 | in every reachable state accepted plus strays is delivered plus waiting; in order and without strays until a step overtakes, which none does before stop; never two dbRead loops |
| SyncQueueRuns.StepOrderIff | livepeer/network/syncdb.go:112-344 | from a state in order with distinct requests a step leads out of order exactly when it overtakes |
| SyncQueueRuns.OrderIff | livepeer/network/syncdb.go:112-344 | with distinct requests a run is in order exactly when none of its steps overtakes |
| SyncQueueRuns.SkipStarts | livepeer/network/syncdb.go:179-190 | records first fall behind dbRead exactly when bufferRead takes an empty batch for an empty database that still holds records |
| SyncQueueRuns.CleanStop | livepeer/network/syncdb.go:167-175 | after a clean stop delivered plus database backlog is everything accepted plus strays, in order unless overtaken |
| SyncQueueStray.StrayNeeds | livepeer/network/syncdb.go:306-322 | only a queue without a counter key whose buffer holds a full batch can stray |
| SyncQueueStray.StrayRun | livepeer/network/syncdb.go:316-339 | a run of every such queue in which any given request goes out unasked |
| SyncQueueStray.StrayIff | livepeer/network/syncdb.go:306-339 | a queue can send something never accepted if and only if it starts without a counter key and 1 <= dbBatchSize <= bufferSize |
| SyncQueueStray.NothingAdded | livepeer/network/syncdb.go:112-344 | for every other queue accepted is exactly delivered plus waiting |
| SyncQueueStray.RestartOrderIff | livepeer/network/syncdb.go:276-344 | over a clean stop and a restart the deliveries are the beginning of all pushes, backlog first, exactly when neither session overtook |
| SyncQueueStop.StopProceeds | livepeer/network/syncdb.go:347-350 | after stop bufferRead always has a step of its own that brings it nearer to the end |
| SyncQueueStop.StopEnds | livepeer/network/syncdb.go:347-350 | so from every reachable state stop returns |
| SyncQueueStop.ReplayIgnoresQuit | livepeer/network/syncdb.go:287-305 | a replay without batches never takes the quit signal |
| SyncQueueStop.ReplaySpins | livepeer/network/syncdb.go:287-343 | after an aborted delivery it comes back to the same record with nothing changed |
| SyncQueueStop.ReorderExample | livepeer/network/syncdb.go:143-153 | a run in which a later request overtakes an earlier one during stop |
| SyncQueue.WriteBatchAppends | livepeer/network/syncdb.go:211-230 | a write batch goes to the end of the backlog because the counter only grows |
| SyncQueue.OpenRecords | livepeer/network/syncdb.go:306-312 | Seek finds exactly the records not yet delivered |
| SyncQueue.SentRecords | livepeer/network/syncdb.go:316-339 | the record being sent is the oldest one left |
| SyncQueue.DeleteRecords | livepeer/network/syncdb.go:336-341 | deleting the sent records leaves the rest of the backlog |
| SyncKeys.EntryKeyOrder | livepeer/network/syncdb.go:377-382 | byte order of entry keys is counter order |
| SyncKeys.CounterKeyIsLast | livepeer/network/syncdb.go:67-69 | every counter key sorts after every entry key |
| SyncKeys.HighPriorityFirst | livepeer/network/syncdb.go:63-65 | entries of a higher priority sort first |
| SyncKeys.DomainsDisjoint | livepeer/network/syncdb.go:261-266 | entry keys of different queues or counters differ |
| SyncKeys.Layout | livepeer/network/syncdb.go:261-270 | which byte of key and value is where |
| SyncKeys.ParseRecoversRequest | livepeer/network/syncer.go:751-778 | parseRequest recovers key and id of a saved entry |
| SyncKeys.ByteOrderIsQueueOrder | livepeer/network/syncdb.go:276-344 | iterating the bytes in key order is iterating the queue by counter |
| SyncKeys.ReplayDecodes | livepeer/network/syncdb.go:323-327 | the i-th replayed record decodes to the i-th saved request |
| LocalStore.StepInv | livepeer/storage/localstore.go:44-74 | every careful step keeps each put chunk in the cache unwritten or on disk |
| LocalStore.OwedUntilCollected | livepeer/storage/localstore.go:44-74 | only the collection of its record releases a chunk that was put |
| LocalStore.PutStaysReadable | livepeer/storage/localstore.go:44-74 | after a Put the chunk can be read in every continuation by careful steps in which its disk record is not collected; evictions, writes and puts are always careful |
| LocalStore.PutReadsBack | livepeer/storage/localstore.go:44-74 | it is the data that was put, if the hash has no collision at its key |
| LocalStore.PutNeverLost | livepeer/storage/localstore.go:44-56 | in every interleaving, careful or not, a put chunk is on disk or its write can still bring it there, until its record is collected |
| LocalStore.WaitEnds | livepeer/storage/memstore.go:286-288 | an eviction that waits for dbStored waits for a write that is on its way |
| LocalStore.WriteReleases | livepeer/storage/dbstore.go:313-316 | the write puts the chunk on disk and lets the eviction go on |
| LocalStore.WriteExact | livepeer/storage/dbstore.go:275-318 | the write adds the chunk if its key is new and touches no other record |
| LocalStore.EvictExact | livepeer/storage/memstore.go:286-295 | an eviction takes exactly its entry, and only one with data |
| LocalStore.FillExact | livepeer/storage/localstore.go:67-73 | the second half of a Get caches what it read without a flag |
| LocalStore.CarefulIff | livepeer/storage/localstore.go:62-74 | a step keeps the invariant exactly when it is careful |
| LocalStore.FillLosesChunk | livepeer/storage/localstore.go:67-72 | the second half of a Get whose record was collected since can make a put chunk unreadable |
| LocalStore.StaleFillReachable | livepeer/storage/localstore.go:62-74 | a run that leads there |
| LocalStore.RequestLosesChunk | livepeer/storage/netstore.go:123-141 | a pending request placed after the chunk was put makes it unreadable, at once or after one eviction |
| LocalStore.LateRequestReachable | livepeer/storage/netstore.go:123-141 | one Put leads there |
| Handshake.StepInv | livepeer/network/syncer.go:398-560 | every step keeps the token count and the three conservation laws |
| Handshake.OneToken | livepeer/network/syncer.go:398-403 | in every run exactly one place holds the right to send, and the non-blocking send never drops a wake-up |
| Handshake.CheckWasTrue | livepeer/network/depo.go:56-62 | every verdict of the receiver was true of its store at some point of the run |
| Handshake.PushedWasMissing | livepeer/network/depo.go:81-96 | a chunk is pushed only if its key was announced and at some point of the run the receiver did not have it |
| Handshake.ReadyMeansDone | livepeer/network/depo.go:51-96 | when the sender is ready again, all announced keys were checked and exactly the missing ones were pushed, in order |
| Handshake.LaneOrder | livepeer/network/syncer.go:434-490 | no queue loses, repeats or reorders a key between addKey and the announcement |
| Handshake.NoDeadlock | livepeer/network/syncer.go:467-516 | while the sender waits, some step of the exchange is enabled |
| Handshake.ExchangeEnds | livepeer/network/syncer.go:467-516 | every step of the exchange brings the next batch nearer |
| Handshake.OthersLeave | livepeer/network/syncer.go:467-516 | no other step undoes that progress |

## Left out

- Integer widths: access counters, storage indexes and sync counters do not wrap at 2^64, document sizes and depths stay below the int64 range.
- MemStore: keys are 32 bytes long; the wait on `dbStored` inside `removeOldest` is modelled in `LocalStore`, not in `MemStore.Store`; the forced update of the disk access count in `Get` is never reached from the initial state.
- MemStore tree nodes: addressed by their digits from the root instead of by pointers; parent links are the shorter address.
- ChunkerOps.Split: hash workers and the goroutines of `join` run one after the other; the emitted chunks are a set.
- ChunkerOps.ReadAt: ranges inside the document only; what the code does for a range beyond its end is not modelled.
- Pyramid.Split: what it returns beyond one level of branching when the second level does not wrap; short reads of the input; rounding in the logarithm that gives the depth. A task climbs its levels without another task in between.
- ManifestOps and ManifestSave: nodes are values that the methods return; update in place and sharing of one entry object by two tries are not captured.
- ManifestOps.ReadManifest: documents in which no two entries share a slot, as `recalcAndStore` writes them; JSON encoding, size checks and the abort channel are left out.
- Manifest: entries added by a user are not of manifest type and have a hash.
- DbStore.Store: one session from an empty database with capacity at least 1; persisted counters, reopening and crash recovery are left out, because counters are written before they are incremented.
- DbStore.Store.CollectGarbage: what happens after the selection has left the scanned items: the source then reads the slot behind them, which is past the array, nil or left over from an earlier pass. Ratios are real numbers, float32 rounding is not modelled.
- SyncQueue: one queue owns the database, dbBatchSize is at least 1, writes succeed, delivery fails only after stop, nothing is pushed after stop, and requests are not database entries of another queue. What an exhausted iterator yields is left open: the stray is any request.
- LocalStore: cache capacity at least 1, every Put uses its own chunk object, data hashes to its key. Which entry the cache evicts is left open, so the results hold for every choice.
- Handshake: lossless first-in first-out links; a push counts as done when it is attempted; batch sizes, the choice among the queues and the history script of `syncer.sync` are left open.
- Concrete hashes, RLP, JSON, LevelDB internals, timers, logging and accounting.
- Routing, the protocol loop, the HTTP server, commands, streaming and media code: I/O or thin wrappers.
