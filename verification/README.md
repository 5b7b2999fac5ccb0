# GEFS verification model

A Dafny model of the GEFS engine, a copy-on-write Bε-tree file system, and proofs about it: the
tree (`src/tree.c`), the commit and recovery protocol (`src/fs.c`, `src/blk.c`, `src/load.c`), the
allocator and its log (`src/blk.c`), epoch reclamation (`src/blk.c`), snapshot reclamation
(`src/snap.c`), file reads and writes (`src/fs.c`), the block cache (`src/cache.c`) and the leaf
rebuild of the FUSE port (`src/gefs_storage.c`).

`dafny verify dfyconfig.toml` checks everything.

## How the model is built

**Tree.** A finished block is never changed again, and a pointer carries a hash of what it points at,
so a pointer is modelled as the block it names: `Nodes.Node` is a leaf with its entries or a pivot
with its entries, children and message buffer. `Nodes.View` is what a tree means: for each key, what
its leaf holds with the messages on the path applied from the leaf upwards. The states of a key are
`Absent`, `Has` and `Bad`; `Bad` is a message that its key cannot take (a delete or a stat of a
missing entry, say). apply and btlookup stop the program on most of these, but updateleaf writes some
as entries (src/tree.c:535-545) and a second delete of a key in one run is passed over
(src/tree.c:408-410); upserts and lookups are only described for keys that never are `Bad`.
`Nodes.Inv` is the shape of a tree: all leaves at one depth, strictly sorted entries and pivots,
sorted buffers within their space, and every key between its pivots. Keys are compared as the source
does; `Keys.Rank` embeds that order in the reals, which makes its transitivity arithmetic. Blocks
under construction (`Blocks.Blk`), flush paths (`Blocks.Path`), the tree (`Upsert.Tree`) and scans
(`ScanNext.Scan`) are classes whose fields the methods update as the source does. The byte layout of a
node, with records in any order, is in `Slots`, those of a stat and of a relink in `Stats`. A round of btupsert is the way down (`Descent`) and the
flush back up (`Flushing`). `Removals` and `Keeping` say which deletes and clears may be pending without
a flush emptying a node, and `Progress` why the rounds come to an end. After a round in which a pivot was
dropped with messages that have an effect, `Answers` compares the tree with what it should mean, which the
source does not: where something is lost the model stops following it (`Upsert.Stopped` says why an upsert
is not done).

**Commit.** `Commit` is a state machine: one step for each statement of `sync`, interleaved with other
writers queueing blocks and with the syncer popping the queue. A crash leaves the writes popped so
far, and the one being written possibly torn. Hashes are modelled as the contents they are hashes
of. `SyncLoop` runs the loops of `sync` and shows that they produce those steps; `SyncQueue` is the
heap the steps pop from; `Recovery` is the loader.

**Allocator.** `Ranges.RangeTree` holds the free ranges in order; `Arenas.Arena` adds the log: words of
entries in chained blocks, each written to `disk` as the source writes it, the last one kept in
memory. The log's own blocks come out of the free ranges. `Restarts` starts an arena from `disk` as a
crash leaves it.

**Epochs.** `Epochs` is a state machine with any number of threads. `epochstart` is one step; everything
else, including the two halves of `limbo` and each iteration of `epochwait`, is a step of its own.

**Snapshots.** `Deadlists.Timeline` is one chain of snapshots above a base; a deadlist is the set of its
blocks. `Snapshots` states what holds of one block at a time.

**Files and cache.** `FileIO.File` holds the data blocks of a file by offset and refines an array of
bytes. `Cache.Cache` keeps the source's pointers; `Lists` reasons about them as maps.

## What was found

- A pivot that loses its last child is given back by the flush although messages pulled into its
  buffer count as taken (src/tree.c:439-450 with 582-645). `PivUpdate.UpdatePiv` says exactly when that
  loses nothing, and `Flushing.Flush` that no level loses its meaning in any other way. In
  `Emptied.InsertLost` a round on a tree of three levels loses an entry that the batch does not touch.
  It cannot happen where the keys with a delete or clear pending are not about to be inserted as well,
  no two of them are neighbours in a leaf, and every leaf has a key that is none of them: such an upsert
  of up to `Flushing.SafeSz` bytes is always done and leaves such a tree behind (`Upsert.BtUpsert`).
- The retry loop of `btupsert` ends on every well-formed tree and batch: a round that takes nothing from
  the batch moves messages down, or splits a node that cannot be split for ever
  (`Progress.FlushProgress`).
- A leaf reports fewer bytes as pulled than it took: the first message of a key that meets a value, or is a
  clear, is not counted (src/tree.c:521-553), so the pivot above pulls less than would fit.
  `LeafUpdate.UpdateLeaf` gives the exact count.
- `readblk` tests `!flg & GBnochk`, which is zero for every `flg` (src/blk.c:121), so no block hash is ever
  checked and `loadarena` always takes the first header copy. The protocol leaves a good copy at every
  crash point (`Recovery.CrashSafe`); `Recovery.LoaderRight` says exactly when the copy taken is a good
  one, and `Recovery.HeaderAhead` is a run where it is not.
- `loadlog` drops the barrier it stops at (src/blk.c:364-369). On disk it stays until the block is
  written again: at the next commit, or earlier when the block is full and is chained
  (src/blk.c:321-330). A crash after that replays past the commit. `Restarts.SecondStart` says exactly
  when the free set then differs from the commit's, and `Restarts.CommitMissed` is such a run.
- When the log block is full and the arena, with the block just taken, is down to its reserve or
  empty, `blkalloc` has taken a block in memory and fails to log it: `Arenas.Arena.Blkalloc` gives the
  exact condition, `Restarts.BlockLost` a run.
- `epochclean` is called by the mutator and by the sweeper without a lock between them (src/fs.c:2503,
  src/fs.c:2763). With one caller at a time reclamation is safe (`Epochs.ReclaimSafe`); with two it is not
  (`Epochs.TwoCleaners`).
- The port's `statupdate` bumps no version and leaves the qid type alone, and its leaf rebuild deletes an
  entry that a relink is meant for: `PortLeaf.PortAgrees` says on which messages the port and the file
  server agree. It reads four bytes of flags where the file server writes one (src/gefs_storage.c:621,
  src/fs.c:1982), so of a stat the file server left pending it takes the fourth byte for the flags
  (`PortLeaf.PortFlags`, `PortLeaf.PortMisses`).

## Model

| member | source | states |
|---|---|---|
| Keys.KeyCmp | src/tree.c:73-87 | keycmp is a strict total order whose ties are equal keys: it is the order of Rank |
| Messages.PlayConcat | src/tree.c:1370-1379 | messages applied in two stretches are applied as one |
| Stats.Walk | src/tree.c:356-397 | statupdate over the bytes of a stat: each flagged field is set to the value of its width at its place in flag order, no other one changes, the version goes up by one; malformed exactly when the values do not end where the message ends; on the bytes of any stat that fits its fields it is the update the model uses |
| Stats.Relink | src/tree.c:417-427 | a relink replaces succ and leaves pred, a reprev the reverse, both add the signed count changes, and refuse exactly a count below zero |
| Stats.LastObeyed | src/tree.c:399-432 | after the last message of a key: an insert's value, no entry after a delete or clear, exactly the fields of a stat set, the one link of a relink replaced |
| Slots.ReadBytes | src/tree.c:189-205 | a record whose bytes stand at an offset is read back from there field by field |
| Slots.Area.Put | src/tree.c:127-187 | setval and setmsg, with room for slot and record, onto records in any order: one record more, every earlier one still in its slot, no two sharing a byte, table and records apart |
| Slots.Area.PutAll | src/tree.c:291-303 | a batch that filledbuf does not refuse is added whole without table and records meeting, also to a table a fast upsert has reordered |
| Slots.Area.Get | src/tree.c:102-205 | getval and getmsg return exactly the record of the slot, wherever it lies |
| Slots.Area.MoveSlot | src/tree.c:1206-1212 | moving the last offset down the table moves that record to its place in the order and leaves every record readable |
| Lookup.BlkSearch | src/tree.c:248-282 | the last entry at or below the key, and whether it is the key's |
| Lookup.BufSearch | src/tree.c:207-246 | the first message of the key, or the last one below it |
| Lookup.BtLookup | src/tree.c:1337-1385 | the answer of a lookup on any well-formed tree is the tree's meaning at that key |
| Sorting.StableSort | src/tree.c:35-50 | in place: the array ends sorted, and the messages of each key are as submitted |
| Sorting.FastMerge | src/tree.c:1189-1217 | the root buffer ends as the stable merge of itself with the batch, older messages first |
| Sorting.FilledBytes | src/tree.c:291-296 | filledbuf on the model's messages is filledbuf on the bytes of the table and the records |
| BufMerge.MergeUnique | src/tree.c:600-638 | there is only one stable merge: sorted buffers that agree key by key are equal |
| LeafUpdate.UpdateLeaf | src/tree.c:476-572 | a leaf that filledleaf does not refuse takes its whole segment, fits a leaf, replaces the old leaf with the segment applied in order, and reports as pulled all but the first messages of keys that meet a value or are clears |
| LeafSplit.SplitLeaf | src/tree.c:652-760 | the two leaves together are the old one with exactly the pulled prefix applied; they are parted at the first value, with two on either side, by which half of the size has been copied; the pull goes on to the end, to a message above all values, or to one that does not fit |
| PivUpdate.CopyUp | src/tree.c:317-351 | the entries written for a flushed child are those of the nodes it left, under their low keys; the size reported is that of their first values |
| PivUpdate.MergeBuf | src/tree.c:596-638 | the new buffer is the stable merge of the survivors with the pulled prefix, and the pull stops only at the end or where the next message does not fit beside the last one counted twice |
| PivUpdate.UpdatePiv | src/tree.c:582-645 | the pivot takes over the flush below and a prefix of the segment, within Bufspc; its meaning is right if and only if a child is left or its surviving and pulled messages have no effect |
| PivUpdate.PivEmptied | src/tree.c:439-450 | giving a childless pivot back is right exactly when no message it kept or pulled has an effect |
| Emptied.InsertLost | src/tree.c:1244-1315 | on a well-formed tree of three levels and an accepted batch, the path btupsert takes and its flush leave a root in which an entry the batch does not touch is gone |
| PivSplit.SplitPiv | src/tree.c:768-830 | the halves hold the entries and the surviving messages of the pivot, each message in the half that owns its key, and mean what it meant; they are parted at the first entry, with two on either side, by which half of the size has been copied; nothing is pulled |
| PivSplit.SplitBuf | src/tree.c:805-826 | messages below the first key of the right half go left, the others right, none lost |
| Victims.Victim | src/tree.c:1128-1167 | the chosen child is the first of those with a largest segment, and the segment is exactly the child's messages |
| Splice.SpliceViewIn | src/tree.c:317-351 | inside the range of a replaced child the new entries answer every key |
| Splice.SpliceViewOut | src/tree.c:317-351 | outside the range of a replaced child no key changes |
| Splice.PullDown | src/tree.c:582-645 | moving a prefix of a child's segment into what replaces the child changes the meaning of no key |
| Removals.HalvesSparse | src/tree.c:652-760 | where no two neighbours of a leaf have a removal pending, either half of a split keeps a value that nothing removes, and no two neighbours with one |
| Keeping.PivLives | src/tree.c:582-645 | a pivot over a level that left something keeps a child, and what replaces it is as safe from being emptied as it was |
| Flushing.Flush | src/tree.c:1048-1105 | from the bottom of any path to the root: what becomes of every level; one is reported as dropped if and only if some pivot is given back with messages that have an effect, and if and only if some level does not mean what it meant with its pulled messages applied; otherwise the level that becomes the root is the right one |
| Upsert.FastUpsert | src/tree.c:1169-1223 | the copied root has the batch merged into its buffer, and the tree means the old one with the batch applied |
| Descent.Descend | src/tree.c:1262-1289 | the path goes on exactly from pivots without room for the batch, each time to the child with most pending, and ends at a leaf or the first pivot with room |
| Upsert.Round | src/tree.c:1252-1315 | one round keeps the tree's shape and applies exactly the messages it says it pulled, unless its flush is one that drops a pivot or leaves no root; it fails exactly on a root leaf of fewer than four values without room; if it pulls none of a batch that is not done, the tree it leaves is smaller; on a tree that accepts the batch it always does, and leaves such a tree |
| Progress.FlushProgress | src/tree.c:1244-1321 | after a flush that took nothing from the batch fewer bytes are pending, each counted for the levels it still has to go, or as many and fewer splits are left |
| Upsert.BtUpsert | src/tree.c:1226-1321 | over fast inserts, flushes of many levels, splits, partial pulls and retries: it terminates, the new tree is well formed, and every key means what it meant with the batch's messages for it applied in submission order; where the root has room, and on a tree no removal can empty a node of, it is always done; it fails exactly on a root leaf of fewer than four values without room, and otherwise only after a flush that leaves no root, no key having an entry, a pivot having been dropped or a half of the root leaf being empty, or one that drops a pivot and leaves a tree that does not mean the old one with the messages taken |
| Client.UpsertThenLookup | src/tree.c:1226-1385 | a lookup after an upsert that is done gives the old meaning of the key with the batch's messages for it applied, and an upsert that the root has room for or the tree accepts is done |
| Client.SendThenLookup | src/tree.c:1226-1385 | one message sent and its key looked up: an insert is found, a deleted or cleared entry is not, a stat has set exactly its fields, a relink exactly its link and counts; no other key changes |
| Answers.SameIs | src/tree.c:1337-1385 | two trees differ in meaning only where a key with an entry or a message in one of them, or in the batch, is answered differently |
| ScanPath.Successor | src/tree.c:1427-1443 | nothing lies between a key and the same key with a zero behind it, so a scan that has returned a key goes on at that successor |
| ScanPath.PrefixRun | src/tree.c:1507-1511 | the keys with a prefix have no others between them, so a scan may stop at the first without it |
| ScanPath.Before | src/tree.c:1495-1506 | no key between the position and the least next key of the path appears anywhere in the tree |
| Scanning.Enter | src/tree.c:1403-1446 | btenter puts every level of the path at the prefix, or right behind the key returned last |
| ScanSteps.DropOk | src/tree.c:1466-1482 | letting a used-up block go and advancing its parent keeps the position |
| ScanSteps.FirstInsert | src/tree.c:1494-1496 | the lowest message of a key that is nowhere below is an insert, as the source asserts |
| ScanNext.Scan.Least | src/tree.c:1484-1506 | the key chosen is the least of the path, and comes from the lowest level that has it |
| ScanNext.Scan.Consume | src/tree.c:1513-1533 | all messages of the key are applied, lowest level first, and give its meaning; every level moves behind the key |
| ScanNext.Scan.BtNext | src/tree.c:1448-1538 | the first entry at or behind the position, if it has the prefix, with its value; otherwise no entry with the prefix is left |
| ScanNext.ScanPrefix | src/tree.c:1387-1538 | a scan by prefix, left and entered again at will, returns exactly the entries with the prefix, once each, in ascending order |
| ScanNext.ScanUnique | src/tree.c:1387-1538 | there is only one such list, so where a scan is stopped and resumed does not matter |
| SyncQueue.Syncq.QPut | src/blk.c:1014-1040 | the heap stays a heap and holds one entry more |
| SyncQueue.Syncq.QPop | src/blk.c:1042-1080 | the heap stays a heap, and the entry returned is one that none held is before |
| QueueRuns.PoppedInOrder | src/blk.c:1002-1080 | over any run of puts, barriers and pops the generations popped never decrease |
| QueueRuns.FencePassed | src/blk.c:1002-1080 | once a fence is popped every entry put under an earlier generation has been |
| QueueRuns.PopsSooner | src/blk.c:1002-1080 | within a generation a fence is popped before what else was put, a write before a free, and of two writes or two frees the one at the lower address |
| SyncLoop.Gefs.Sync | src/fs.c:83-197 | the loops of sync queue headers, superblocks, footers and the fence under the right generations, each statement a step of the commit protocol |
| Commit.NextInv | src/fs.c:83-197 | every step of sync, of other writers and of the syncer keeps the protocol's invariant: where old and new contents of each fixed place and each needed block may be |
| Commit.FinishInv | src/fs.c:60-81 | once the fence is through, the new commit is entirely on disk |
| Commit.WaitEnds | src/fs.c:60-81 | from wherever sync waits, the syncer can pop the queue up to the fence, and then the new commit is the last one |
| Recovery.CrashSafe | src/fs.c:83-197 | cut any run off anywhere, with at most one torn block: a superblock is readable, it is the last or the new commit's, every arena has a header copy of that commit, and all its blocks are on disk |
| Recovery.NewestChosen | src/load.c:95-113 | the newer commit is chosen as soon as either superblock on disk is its own, the first one lying at the lower address |
| Recovery.NeverChecked | src/blk.c:121-126 | the hash check of readblk fires for no flag |
| Recovery.LoadArena | src/load.c:19-66 | the header unpacked is the first copy, whatever it holds |
| Recovery.LoaderRight | src/load.c:19-66 | the headers loaded are the chosen commit's if and only if that is not the last one or no first copy of the next has been begun |
| Recovery.HeaderAhead | src/fs.c:154-167 | a run in which the loader pairs the old superblock with a new header though the old one's copy is there |
| Ranges.CanonUnique | src/blk.c:171-236 | the free set determines the ranges: sorted, disjoint, never adjacent ranges over the same addresses are the same |
| Ranges.RangeTree.FreeRange | src/blk.c:171-202 | the free set grows by exactly the range, and the ranges stay sorted, whole and never adjacent |
| Ranges.RangeTree.GrabRange | src/blk.c:204-236 | the free set shrinks by exactly the range, and the source aborts exactly when not all of it is free |
| LogEnts.ParseAppend | src/blk.c:311-322 | a log read back after an entry was appended has exactly that entry more |
| Arenas.Arena.BlkallocLk | src/blk.c:514-550 | the lowest or highest free block leaves the free set; refused exactly when the arena is down to its reserve or empty |
| Arenas.Arena.LogAppend | src/blk.c:263-333 | the log gains the entry, preceded by the log's own allocation when a block is chained, which is the highest free block and leaves the free set; it fails exactly when the block is full and the arena has none to give; chaining writes the two blocks to disk and nothing else is written |
| Arenas.Arena.BlkdeallocLk | src/blk.c:552-559 | exactly the block becomes free, in memory and in the log alike |
| Arenas.Arena.Blkalloc | src/blk.c:561-599 | exactly the block, the lowest free one or the highest as asked, stops being free, in memory and in the log; a block the log takes is the highest of the rest; the block is lost to memory and not to the log exactly when the log block is full and the arena has no other block to give |
| Arenas.Arena.LogBarrier | src/blk.c:501-506 | what precedes the barrier replays to the free set of that moment |
| Arenas.Arena.LoadLog | src/blk.c:335-403 | replay from nothing gives the free set of the entries before the first barrier that counts, and accounts for all of it |
| Restarts.Reload | src/blk.c:335-412 | a start after the tail was written gives the free set in memory, range by range, or that of the first barrier that counts, and an arena that can go on |
| Restarts.Restart | src/blk.c:335-403 | a start from the disk as it is, whatever is in memory, the log whole or cut behind a linked block, gives the free set of the entries on disk before the first barrier that counts, and a disk that can be started from again |
| Restarts.CrashInChain | src/blk.c:321-327 | a start between the two writes that chain a block, with anything of the new block on disk, gives the free set as it was before the chaining |
| Restarts.ReplayToBarrier | src/blk.c:359-370 | whatever was appended behind the committed barrier, replay gives what was before it |
| Restarts.SecondStart | src/blk.c:364-369 | after a start, any operations and a crash, a second start gives the commit's free set while the tail has not been written since, and in general if and only if what was written since has no effect |
| Restarts.CommitMissed | src/blk.c:321-330 | a new arena, allocations until its log block is full, and a crash: the second start gives the commit's free set; one allocation more, which chains a block, and it does not |
| Restarts.BlockLost | src/blk.c:589-595 | a run in which a block taken in memory is not logged |
| Compress.FreesMean | src/blk.c:463-478 | one free entry for each range replays to the ranges |
| Compress.EstimateEnough | src/blk.c:441-454 | the blocks set aside are never too few |
| Compress.CompressLog | src/blk.c:414-499 | the rewritten log replays to the free set in memory, which has lost exactly the blocks the log lies in, from the lowest on; it succeeds when the arena can spare a block more than the estimate and fails when it cannot spare the estimate |
| Epochs.NextInv | src/blk.c:803-966 | every step of any number of threads and one cleaner keeps the epoch invariant |
| Epochs.ReclaimSafe | src/blk.c:900-966 | with one cleaner nothing retired in a section is reclaimed while a section begun before that one ended is open |
| Epochs.Conserved | src/blk.c:803-966 | in every run, with any number of cleaners, an entry is on the limbo lists, with the cleaners or reclaimed exactly as often as it was retired |
| Epochs.AllTaken | src/blk.c:923-963 | a cleaner reclaims what it took, in order, and all of it before it leaves |
| Epochs.ThreePasses | src/blk.c:900-966 | while no section is open three passes of a cleaner leave nothing waiting to be reclaimed |
| Epochs.TwoCleaners | src/blk.c:900-966 | with two, a run in which a block is reclaimed inside its own section |
| Snapshots.OneList | src/snap.c:572-587 | a block is on one deadlist at most, and then it is not freed |
| Snapshots.KillInv | src/snap.c:572-587 | a block put on the deadlist of the tree being written is where the timeline says it belongs |
| Snapshots.ReclaimInv | src/snap.c:255-293 | joining and freeing the deadlists of a removed snapshot keeps the timeline: freed is exactly what nothing refers to |
| Deadlists.Timeline.Write | src/blk.c:659-671 | a block at any address, one used before included, belongs to the tree being written only |
| Deadlists.Timeline.FreeBp | src/blk.c:837-858 | a block of an earlier generation goes on a deadlist, one of the present generation is freed, none twice |
| Deadlists.Timeline.ReclaimBlocks | src/snap.c:255-293 | lists no younger than the predecessor join the successor's, younger ones of the successor are freed, none of their blocks freed before |
| Deadlists.Timeline.UpdateSnap | src/snap.c:433-496 | the tree being written becomes a snapshot with one label, the one it was mounted from loses one, and without a label left it is reclaimed; nothing happens when nothing was written |
| Deadlists.Timeline.DelSnap | src/snap.c:303-359 | removing a label leaves one less, and removing the last one removes the snapshot and nothing another one refers to |
| Deadlists.Timeline.DelLabels | src/snap.c:303-359 | a snapshot goes with the last of its labels and not before |
| Deadlists.Timeline.FreedExactly | src/snap.c:255-293 | at any time the freed blocks born after the base are exactly those no snapshot and not the tree being written refers to |
| FileIO.File.ReadB | src/fs.c:439-473 | nothing from the length on, and otherwise as many bytes as are asked for and left in the block, each the block's or zero |
| FileIO.File.ReadFile | src/fs.c:2129-2162 | the bytes of the array in the range asked for, up to its end |
| FileIO.File.WriteB | src/fs.c:475-524 | the new block has the data on top of the old one's bytes, and zeros where there was nothing |
| FileIO.File.FsWrite | src/fs.c:2234-2288 | the file becomes the zero-extended array with the data written, at the offset or appended |
| FileIO.WrittenParts | src/fs.c:2238-2261 | a write in two parts is the write of the whole |
| FileIO.WrittenBack | src/fs.c:2129-2294 | what is written is read back, and no other byte changes |
| Lists.Unlink | src/cache.c:9-22 | relinking the neighbours of any block leaves a well-formed list without it |
| Cache.Cache.LruDel | src/cache.c:9-22 | a block in the list is taken out and the others keep their order; one outside is left alone |
| Cache.Cache.LruTop | src/cache.c:24-49 | a block nobody holds ends at the head with the others in their order, one somebody holds is left alone |
| Cache.Cache.LruBot | src/cache.c:51-76 | a block nobody holds ends at the tail with the others in their order |
| Cache.Cache.CacheIns | src/cache.c:78-97 | the block is the one of its address in the chain of its bucket |
| Cache.Cache.CacheDelLk | src/cache.c:99-124 | afterwards exactly the block of the address is no longer cached |
| Cache.Cache.CacheGet | src/cache.c:133-154 | the one block of the address, held and out of the list, or none when none is cached |
| Cache.Cache.CachePluck | src/cache.c:159-185 | the tail of the list, which nobody held, out of list and chain, with every other block as it was |
| Cache.Cache.DropBlk | src/blk.c:771-787 | the last to let go puts the block in the list, at the end its freed flag says; nothing else changes |
| Cache.Cache.GetBlk | src/blk.c:730-760 | the block of the address, held and cached: the one already cached for it, or else the tail of the list; every other block is as it was |
| PortLeaf.PortAgrees | src/gefs_storage.c:1416-1446 | the port and the file server treat a message alike if and only if it is an insert, a clear, or a delete of an entry |
| PortLeaf.PortObeys | src/gefs_storage.c:1416-1446 | where they differ: a stat changes an entry and makes none, anything else but an insert leaves no entry |
| PortLeaf.PortStatSets | src/gefs_storage.c:612-631 | a stat sets the fields it has values for and no others, and neither version nor qid type |
| PortLeaf.PortFlags | src/gefs_storage.c:621 | of a stat as the file server writes it the port takes the fourth byte for the flags |
| PortLeaf.PortMisses | src/gefs_storage.c:621-631 | such a stat of the last modifier alone, for a user below 256, sets nothing in the port |
| PortLeaf.MergeLeaf | src/gefs_storage.c:1394-1447 | the merged leaf is strictly sorted and is the old map updated by the messages |
| PortLeaf.GefsBtUpsert | src/gefs_storage.c:1357-1447 | the same for a batch of different keys in any order |
| PortLeaf.OrderFree | src/gefs_storage.c:1381-1392 | the order of submission makes no difference to the leaf |

## Left out

- Upsert.BtUpsert: after a flush that lost something only the shape of the tree is claimed, and the source goes on with it; that this does not happen is proved for what Accepts describes and for the fast path, not for every tree and batch with which it does not.
- Client.UpsertThenLookup: says nothing of a lookup after an upsert that dropped a pivot; after one that failed the source has stopped.
- Deadlists.Timeline.TagSnap: has the count of the snapshot's record; in the tree it has in memory the source counts such a label twice and makes the tree its own predecessor (src/snap.c:411-418).
- Restarts.CrashInChain: does not model a torn write of the full block that links the new one.
- LeafSplit.SplitLeaf: does not bound the bytes of the two leaves; the byte assertions of setval are not modelled there, nor for pivots, where Kpmax omits the length and fill fields (src/dat.h:71) and a child entered under a short key may leave two entries under long ones.
- PortLeaf.MergeLeaf: takes the values of a stat as read; the layout the port reads them from is in PortFlags only.
- The bytes of a directory entry and of a snapshot record (packdval, packtree); names in keys.
- ScanNext.Scan.BtNext: needs the lowest pending message of each key from the prefix on that has no entry to be an insert, which the source asserts on one path and takes for granted on the other (src/tree.c:1495).
- PortLeaf.GefsBtUpsert: does not model room in the new leaf, a root that is a pivot, or several messages of one key; the port's block allocation, write and cache insertion are not part of the model.
- Recovery.CrashSafe: rests on new blocks not being placed where a block of the last commit or of the one under way is, which is what deadlists and the log barrier are for, and on one syncer, as src/main.c:400 sets up. The log's direct writes in flushlog are not interleaved with the queue.
- Epochs.ReclaimSafe: covers blocks retired inside a section; the upsert of a removed file's entry on close (src/fs.c:2720-2723) retires blocks outside one.
- Freeing of overwritten data pointers during apply, with its assertion that the value of a data key is a pointer (src/tree.c:529-534), and reference counts and freeing of tree blocks in freepath.
- The fill field kept with pointers; trybalance, merge, rotate and spillscan, which the guard at src/tree.c:1010 makes unreachable.
- Deletion of the newest snapshot, forks above the base, sweeptree, and the order of blocks within deadlists (mergedl does not advance the tail).
- Truncation and background clearing, whose offsets do not start at a block.
- Concrete hashing; 64-bit wrap-around of generations and offsets; entries of a log whose generation needs more than 56 bits.
- Locks and atomic instructions below the level of a step; epochstart as two steps; disk errors.
- The chains of the other tables, 9P, permissions, the console, formatting and checking tools, the port's own loader and sync.
