# Verified model of rust-ipfs

A Dafny model of the parts of rust-ipfs that carry state from step to step, with proofs of what they
keep, compute and promise over every input and every run. `dafny verify dfyconfig.toml` checks it.

The parts, each against the source it models:

- **Walking UnixFS trees** (`UnixFs`, `FileVisit`, `Walk`, `WalkTree`, `WalkBlocks`, `WalkRun`, `Walker`,
  `WalkFacts`). The walker is a class whose fields are patched in place; its steps are proved equal to a transition on
  plain states, and whole walks equal to the recursive pre-order of the tree. Asserts, `expect` and
  `unreachable!` are an outcome of their own, so that not reaching them is a theorem. They are
  reached exactly when a continuation bucket directly follows an empty plain directory.
- **Resolving paths** (`Ipld`, `Resolver`, `ResolverDocs`, `ResolverBlocks`, `ResolverLoop`,
  `ResolverLaws`, `WalkLookup`). The loops that count segments refine a recursive meaning of paths, and
  agree with the walker; the meaning is pinned to trails through a document and to the links of a block. A store is a map
  from cids to blocks with a `rank` that goes down along links, which content addressing makes
  possible. A block is kept in the two readings the code takes of it, dag-pb and IPLD.
- **Reference walk, pins and garbage collection** (`Refs`, `RefsUnique`, `RefsLevels`, `RefsWalk`,
  `Pins`, `Repo`, `RepoRuns`). The walk is a breadth-first search in unique mode and an enumeration of
  link paths otherwise; recursive pins mark what it finds, and cleanup respects the marks over any run.
- **Concurrent block writes** (`BlockWriter`). Puts are program counters in a transition system whose
  moves are joining or opening a channel, `create_new`, rename, removing the key, sending, dropping the
  sender and receiving. No write fails, no future is dropped and nothing is removed meanwhile.
- **Connection accounting** (`PeerBook`, `PeerBookLaws`, `PeerBookRuns`). The behaviour is a class over sets and maps;
  a run is a sequence of swarm events, in which ids are new, a close names its own peer, and a
  connection is established as what it was accepted for, with a bounded number of others accepted but
  not yet established.
- **Bitswap messages** (`Varint`, `CidBytes`, `Bitswap`, `BitswapLength`, `BitswapWire`,
  `BitswapRoundTrip`, `BitswapLaws`). Messages are a class; the wire form is the protobuf structure, with real bytes
  for cids and cid prefixes. The digest is a parameter. Versions follow the Bitswap 1.0.0, 1.1.0 and
  1.2.0 sections of the IPFS Bitswap specification, and numbers the multiformats unsigned-varint
  specification.
- **Path text** (`IpfsPath`, `IpfsPathTexts`). Splitting, parsing, printing and appending, given that cids and peer ids
  read back from what they print.

Where the code and its own documentation part, the model follows the code:

- The reference walk's comment announces a depth at which links are not listed; that branch is never
  taken, and links are always queued (`src/refs.rs:183`).
- A connection limit of none is the largest 32-bit number, and counts are cut to 32 bits
  (`src/p2p/peerbook.rs:308-320`).
- A segment found by searching buckets is consumed but counted as none matched (`src/dag.rs:599-600`),
  so the remaining path and error paths are off by it.
- Removing a directly pinned block recursively, and pinning a directly pinned block recursively, lose
  the direct pin; marks are kept under the version 1 form of the root, which both versions share.

## Model

| member | source | states |
|---|---|---|
| `Walker.InnerEntry.SetPath` | unixfs/src/walk.rs:407-422 | popping the path and pushing the name succeeds exactly when both depth asserts hold, and then the path is the one of the given depth |
| `Walker.InnerEntry.MoveTo` | unixfs/src/walk.rs:424-463 | moving to a named directory, shard, file or symlink panics exactly when a file visit is unfinished or the depths do not fit; otherwise every field is the new one |
| `Walker.InnerEntry.Climb` | unixfs/src/walk.rs:477-485 | climbing pops exactly as many path components as levels; it panics exactly when the path is too short or the entry is above the level |
| `Walker.InnerEntry.MoveToBucket` | unixfs/src/walk.rs:465-489 | moving to a continuation bucket climbs to the bucket's depth; it panics exactly on a preceding plain directory, an unfinished file or a wrong depth, and leaves the cid alone directly below a sharded root |
| `Walker.InnerEntry.constructor` | unixfs/src/walk.rs:352-405 | the root entry has the root's name as its path |
| `Walker.Walker.constructor` | unixfs/src/walk.rs:75-86 | a new walk has the root in its look-ahead slot, at depth 1 or 2 |
| `Walker.Walker.PendingLinks` | unixfs/src/walk.rs:94-113 | the next cid and the cids to prefetch: unfinished file blocks first, then the look-ahead entry, then the stack from its top |
| `Walker.Walker.PushAll` | unixfs/src/walk.rs:162-173 | links are pushed last one first; a bad cid stops with the earlier ones pushed, a bad name panics |
| `Walker.Walker.PopNext` | unixfs/src/walk.rs:175-178 | the top of the stack becomes the look-ahead entry and the walk may go on |
| `Walker.Walker.Enter` | unixfs/src/walk.rs:180-191 | the first block makes a new entry, later ones patch the current entry in place |
| `Walker.Walker.Next` | unixfs/src/walk.rs:120-305 | the object step is the transition on plain states, with the same event, error or panic and the same fields afterwards |
| `Walker.Walker.ContinueFile` | unixfs/src/walk.rs:131-151 | a block of an unfinished file gives the next segment, or ends the walk with an error |
| `Walker.Walker.EnterDirectory` | unixfs/src/walk.rs:156-192 | a directory block queues its links and is reported with its full path |
| `Walker.Walker.EnterShard` | unixfs/src/walk.rs:193-237 | a shard block is a bucket step without a name and a directory step with one |
| `Walker.Walker.EnterFile` | unixfs/src/walk.rs:238-271 | a file block starts a visit and reports its first segment |
| `Walker.Walker.EnterSymlink` | unixfs/src/walk.rs:276-303 | a symlink block is reported with its target |
| `Walker.WalkAll` | unixfs/src/walk.rs:120-310 | for every stored, well-named tree: driving the walker until it has no more reports exactly the recursive pre-order and loads exactly the tree's blocks in that order, if and only if no bucket directly follows an empty plain directory; otherwise it panics after a prefix of both |
| `WalkRun.StepWalks` | unixfs/src/walk.rs:120-305 | every step of every reachable state takes exactly one block, the one asked for, and one event off what is left, or panics where the tree is not safe |
| `WalkRun.StepOfDir` | unixfs/src/walk.rs:156-192 | the step at a plain directory replaces it by its entries, in order, ahead of the rest |
| `WalkRun.StepOfNamedShard` | unixfs/src/walk.rs:193-237 | the step at a sharded directory does the same with the two-character prefixes stripped |
| `WalkRun.StepOfBucket` | unixfs/src/walk.rs:193-237 | the step at a continuation bucket walks over it, and panics exactly right after a plain directory |
| `WalkRun.StepOfFile` | unixfs/src/walk.rs:238-271 | the step at a file reports its first segment and leaves its other blocks to be visited before the rest |
| `WalkRun.StepInFile` | unixfs/src/walk.rs:131-151 | each later block of a file gives one segment, flagged last exactly on the last block |
| `WalkRun.StepOfSymlink` | unixfs/src/walk.rs:276-303 | the step at a symlink reports it and goes on with the rest |
| `WalkRun.RootWalks` | unixfs/src/walk.rs:120-305 | the first step reports the root and leaves exactly the rest of the tree |
| `WalkRun.PrefetchOrder` | unixfs/src/walk.rs:94-113 | in every reachable state the offered links are those of all blocks and entries still to go, soonest first |
| `WalkRun.UnreadableBlock` | unixfs/src/walk.rs:131-154 | a block that does not parse ends the walk with an error, except in the middle of a file, where it panics |
| `Walk.ErrorsEndTheWalk` | unixfs/src/walk.rs:120-132 | after any error the walk does not continue |
| `WalkFacts.FileSegments` | unixfs/src/walk.rs:592-607 | a file's segments are contiguous, the first alone is flagged first, the last alone last, and their bytes are the file |
| `WalkFacts.OneEventPerBlock` | unixfs/src/walk.rs:120-305 | a walk takes as many calls as the unfolded tree has blocks |
| `WalkFacts.WalkFlattens` | unixfs/src/walk.rs:193-237 | without its bucket steps, a walk is the pre-order of the tree with all buckets merged and prefixes stripped |
| `WalkFacts.BucketsReportTheirDirectory` | unixfs/src/walk.rs:465-489 | every bucket step reports the path of a directory reported before and not left since |
| `WalkFacts.UnmixedTreesAreSafe` | unixfs/src/walk.rs:465-489 | trees without a plain directory below a sharded one reach no panic |
| `WalkFacts.EmptyDirBeforeBucket` | unixfs/src/walk.rs:465-489 | a sharded directory with an empty plain directory before a bucket is a well-named tree that panics; filled, the same tree does not |
| `WalkBlocks.PushesUsable` | unixfs/src/walk.rs:32-71 | all links of a directory or shard are queued if and only if each has a cid and a usable name; otherwise the last one that does not decides, as an error with its index without a cid and as a panic with a bad name |
| `WalkBlocks.DirectoryBlocks` | unixfs/src/dir/directory.rs:5-27 | a directory block is refused exactly when it has data, a file size, block sizes, a hash type or a fanout, whatever its metadata; a root one is entered exactly when it has none and all links are usable, and reported with its metadata |
| `WalkBlocks.ShardBlocks` | unixfs/src/dir/sharded_lookup.rs:142-160 | a shard block is refused exactly unless its fanout is 256, its hash type 34 and it has no file size and no block sizes; likewise for its links |
| `WalkBlocks.OtherBlocks` | unixfs/src/walk.rs:153-303 | a metadata block and a block that does not parse are errors; a root symlink is always entered, with its data as the target |
| `WalkBlocks.FileBlocksRead` | unixfs/src/file/reader.rs:103-155 | a block is read as part of a file exactly when its type is file or raw, it has as many sizes as links, no shard fields, a file size, and content if it has a size but no links; where it panics |
| `WalkBlocks.FileBlocksRefused` | unixfs/src/file/reader.rs:103-155 | which error any other block gives, and in which order the checks come |
| `WalkBlocks.NextRanges` | unixfs/src/file/reader.rs:47-72 | which range may follow content or an inner block, and which error any other gives |
| `WalkBlocks.LaterBlocks` | unixfs/src/file/reader.rs:88-101 | a later block that carries a mode or a modification time is refused, after the check of its range and of its parsing |
| `WalkBlocks.TouchingRanges` | unixfs/src/file/visit.rs:227-235 | a block is in the target exactly when the two ranges have a position in common, ends included |
| `WalkBlocks.PendingLinks` | unixfs/src/file/visit.rs:173-222 | only links in the target are looked at, and the first of them without a cid is the error |
| `FileVisit.StartVisits` | unixfs/src/file/visit.rs:37-97 | starting on a stored file reports the root block's part of the target range and leaves exactly the blocks in range |
| `FileVisit.ContinueVisits` | unixfs/src/file/visit.rs:152-196 | continuing with the block asked for reports its part and leaves exactly the blocks after it |
| `FileVisit.TargetSliceIsClip` | unixfs/src/file/visit.rs:239-278 | slicing a block by the target never goes out of bounds and is clipping the file |
| `FileVisit.ReaderOfTree` | unixfs/src/file/reader.rs:103-155 | a block of a well-formed file is accepted with its extent |
| `FileVisit.SegmentsCarryTarget` | unixfs/src/file/visit.rs:227-278 | the reported parts of the blocks are together exactly the target range of the file |
| `FileVisit.FinishVisit` | unixfs/src/file/visit.rs:152-196 | driving a visit to its end gives the rest of the range and loads each block in it once |
| `FileVisit.ReadFile` | unixfs/src/file/visit.rs:32-196 | reading a whole file, or any range of it, gives exactly those bytes and loads exactly the blocks in range |
| `Resolver.ResolveLocalIpld` | src/dag.rs:641-716 | the loop inside one document consumes and counts exactly the segments the recursive meaning uses, and reports the failing segment's index |
| `Resolver.IndexRoundTrip` | src/dag.rs:681-699 | a list index reads from its decimal text, with or without a plus sign, exactly up to the largest 64-bit number |
| `Resolver.ResolveHamt` | src/dag.rs:434-454 | the loop over buckets is the recursive breadth-first search |
| `Resolver.JumpsGoDown` | src/dag.rs:370-430 | on an acyclic store every jump goes down, so following links ends |
| `Resolver.ResolveSuffix` | src/dag.rs:347-366 | what is left over, and the failing segment with what follows it, are the end of the path |
| `ResolverLoop.ResolveLocal` | src/dag.rs:548-628 | one block resolves a path as the single hop says, or hands over the buckets to search; in a block that is not dag-pb it is a value exactly when following the segments leads to that value |
| `ResolverLoop.ResolveHop` | src/dag.rs:386-427 | one turn of the loop is one hop, a bucket search included, with its count of matched segments |
| `ResolverLoop.Resolve0` | src/dag.rs:370-430 | the counting loop over documents refines the recursive meaning of the path, with and without following links |
| `ResolverLoop.IntoShifted` | src/path.rs:120-126 | dropping matched segments; the assert is its precondition and holds at every call |
| `ResolverLoop.IntoTruncated` | src/path.rs:128-134 | cutting a path; the assert is its precondition and holds at every call |
| `ResolverLoop.WithPath` | src/dag.rs:134-165 | an index-carrying error becomes the error with the path cut after that index |
| `ResolverLoop.ResolvePath` | src/dag.rs:321-367 | the caller gets the node of the recursive meaning and the path inside its document, or the error with its path; no path operation fails. In a stored document that is not dag-pb the result is a value exactly when the segments, as map keys and list indices, lead to that value and it is no link |
| `ResolverDocs.IndicesRead` | src/dag.rs:681-699 | a segment is a list index exactly when it is decimal digits, with or without a plus sign, for a number below 2^64 |
| `ResolverDocs.ResolvesToValue` | src/dag.rs:641-716 | with links followed or not, a path ends at a value of the document it starts in if and only if it leads there from value to value |
| `ResolverDocs.LeavesByLink` | src/dag.rs:647-664 | a path that leaves a document does so at the first link it leads to, which absorbs one "." |
| `ResolverDocs.FailsAtSegment` | src/dag.rs:665-706 | a path that fails in a document fails at the first segment behind which nothing lies: no key, no index, an index out of range, or a value with nothing below |
| `ResolverDocs.NoWayNoChild` | src/dag.rs:665-706 | a segment at which a path fails leads to no value, whichever spelling of an index it is |
| `ResolverDocs.OtherDocuments` | src/dag.rs:548-587 | the empty path is the block; a block that is not stored cannot be loaded; one that does not decode is unsupported |
| `ResolverBlocks.PlainBlockHops` | unixfs/src/dir.rs:37-77 | in a plain dag-pb block a segment leads to the only link of that name; two links of the name, or one without a cid, make the block unsupported; "Data" as the last segment, where no link has that name, is the block's data |
| `ResolverBlocks.OtherBlockHops` | src/dag.rs:591-629 | nothing is found below a file; other blocks, and directories with foreign fields, are unsupported |
| `ResolverBlocks.ShardLooksUp` | unixfs/src/dir/sharded_lookup.rs:118-193 | one shard gives the entry whose name follows the prefix, or all buckets waiting with its own last; foreign fields, two entries of the name, and entries or buckets without a cid are refused |
| `ResolverBlocks.SearchSteps` | src/dag.rs:434-454 | a bucket search ends with nothing at the first bucket that is not stored or not usable, and otherwise goes on as that shard says |
| `ResolverBlocks.ShardHops` | src/dag.rs:591-629 | a segment in a shard is counted to its own entry, uncounted to one found in further buckets, and fails otherwise |
| `ResolverLaws.LateIsUncounted` | src/dag.rs:591-605 | segments go uncounted exactly on paths that need a search through further buckets |
| `ResolverLaws.ErrorPathsEndAtTheFailure` | src/dag.rs:104-165 | the path in an index, not-found or no-links error ends in exactly the failing segment, across any number of documents, if and only if no segment before was found by a bucket search |
| `ResolverLaws.ErrorKinds` | src/dag.rs:134-165 | which error each failure becomes |
| `ResolverLaws.DocumentErrors` | src/dag.rs:134-165 | a path that fails in a document is not found at a map without the key or a list for which the segment is no index, out of range with that index and length, or without links at any other value, with the path through the failing segment |
| `ResolverLaws.ResolveByHops` | src/dag.rs:347-366 | resolving one link at a time from each returned destination and remaining path ends at the node of the recursive meaning, when no bucket search is needed |
| `ResolverLaws.FollowAgreesWithHops` | src/dag.rs:310-367 | then following links and iterating single steps give the same result |
| `ResolverLaws.UncountedSegmentIsHandedBack` | src/dag.rs:591-605 | a segment found by a bucket search is still in the remaining path |
| `ResolverLaws.SteppingFailsBelowABucket` | src/dag.rs:591-605 | a concrete store where following links finds an entry and stepping does not |
| `ResolverLaws.DotAfterLink` | src/dag.rs:648-664 | one "." after a segment that lands on a link, when the next is not ".", changes neither the node nor the path inside its document |
| `WalkLookup.SearchFindsTheHit` | unixfs/src/dir/sharded_lookup.rs:58-191 | searching buckets breadth first finds the one entry of a name wherever it is in the sharded directory, and nothing otherwise |
| `WalkLookup.HopInTree` | unixfs/src/dir.rs:37-78 | one segment below a stored tree leads to the entry of that name or nowhere |
| `WalkLookup.ResolveFollowsTheTree` | src/dag.rs:370-430 | resolving below a stored tree finds a block if and only if the path names an entry, and then that entry's |
| `WalkLookup.StepsReportEntries` | unixfs/src/walk.rs:156-192 | each walk step but those for buckets reports the entry its path names |
| `WalkLookup.EntriesAreReported` | unixfs/src/walk.rs:156-192 | each entry a path names is reported by some step |
| `WalkLookup.WalkAndLookupAgree` | unixfs/src/walk.rs:156-237 | for every stored tree with distinct names, plain and sharded: the walk reports a cid at a path if and only if resolving the path finds that block |
| `Refs.ExtractedLinksAreLinks` | src/refs.rs:247-325 | every extracted link is a link of the document; outside dag-pb they are all its links in order, unnamed |
| `Refs.DagPbLinksAreAll` | src/refs.rs:278-325 | the links of a dag-pb document are exactly those of the entries of its "Links" with a hash, whatever their names, in order, each with its name and cid |
| `Refs.LinksByDocument` | src/refs.rs:247-325 | a document has a link exactly when an entry of its "Links" gives it, or, outside dag-pb, when the iterator over its values meets it |
| `Ipld.LinksAreIterated` | src/refs.rs:247-270 | the links of a document are those an iterator with a stack meets, in its order |
| `RefsWalk.PushLinks` | src/refs.rs:159-167 | links are queued in order, in unique mode only those seen for the first time |
| `RefsWalk.Begin` | src/refs.rs:155-169 | the queue starts with the links of the origins at depth zero |
| `RefsWalk.Visit` | src/refs.rs:177-242 | one turn of the loop: limit, loading, decoding and queueing; the branch that would not list links is never taken |
| `RefsUnique.QuietTurn` | src/refs.rs:177-224 | a turn at the limit or at a block that does not load or decode keeps the search invariant |
| `RefsUnique.ExpandingTurn` | src/refs.rs:225-242 | a turn that visits a document keeps it: depths stay in order over at most two levels, and all links are queued no deeper than one below |
| `RefsUnique.TurnTakesOne` | src/refs.rs:225-242 | the queue length plus the number of unvisited cids drops by exactly one per turn |
| `RefsUnique.Searched` | src/refs.rs:136-245 | when the queue is empty, or the walk has stopped, the items are those of a breadth-first search, each at its exact distance |
| `RefsWalk.UniqueRefs` | src/refs.rs:136-245 | on any finite graph and with any limit: each loadable cid reachable by 1 to d links through loadable, decodable documents is reported exactly once, nearest first, every edge a real link; without fetching, the walk stops if and only if some such cid does not load, at one that does not; every reported cid, before a stop too, is at its exact distance |
| `RefsWalk.AllRefs` | src/refs.rs:136-245 | without uniqueness the items are those of all levels in order; each turn takes one path from the count of link paths, and where all blocks are good there are exactly as many edges as link paths. Without fetching, the walk stops if and only if some level holds a block within the limit that does not load, and then the items are those of the levels up to and including the first such block |
| `RefsWalk.IpldsRefs` | src/refs.rs:136-245 | the walk with either option, with the same characterisation of its items and of where it stops |
| `RefsLevels.TurnTakesOnePath` | src/refs.rs:177-242 | the path count of the queue drops by exactly one per turn |
| `RefsLevels.TurnInLevel` | src/refs.rs:177-242 | the queue is always the rest of one level followed by the beginning of the next |
| `RefsLevels.TurnStops` | src/refs.rs:192-216 | without fetching, a turn stops the walk exactly at the first block of all levels that is within the limit and does not load |
| `RefsLevels.NothingHalts` | src/refs.rs:177-242 | a walk through all levels has met no such block, at any depth |
| `RefsLevels.PlacesArePaths` | src/refs.rs:177-242 | each place in level k is the end of a path of k + 1 links, found at that place |
| `RefsLevels.PathsHavePlaces` | src/refs.rs:177-242 | each path of links has exactly one place in the level of its length |
| `RefsLevels.EmptyLevels` | src/refs.rs:177-242 | no level follows an empty one |
| `RefsWalk.OneEdgePerPath` | src/refs.rs:177-242 | where all blocks are good, link paths and edges of a length correspond one to one |
| `Pins.UpdateKeepsGood` | src/repo/datastore/memory.rs:407-530 | the changed flag is exact; no update leaves an empty document or one both direct and recursive, except a removal that leaves nothing |
| `Pins.UpdateLaw` | src/repo/datastore/memory.rs:407-530 | what each kind of pin does to a document, when it is refused, and with which error |
| `Pins.MemPinStore.IsPinned` | src/repo/datastore/memory.rs:110-123 | a block is pinned exactly when it has a document |
| `Pins.MemPinStore.Insert` | src/repo/datastore/memory.rs:31-74 | the target's document is updated or the error returned with nothing changed; the flag says whether the store changed |
| `Pins.MemPinStore.Remove` | src/repo/datastore/memory.rs:77-105 | likewise, and a document without any reason left is removed |
| `Pins.MemPinStore.InsertDirect` | src/repo/datastore/memory.rs:125-129 | fails exactly on a recursively pinned block, and changes nothing else |
| `Pins.MemPinStore.RemoveDirect` | src/repo/datastore/memory.rs:131-135 | succeeds exactly on a direct pin, and changes nothing else |
| `Pins.MemPinStore.InsertRecursive` | src/repo/datastore/memory.rs:137-172 | succeeds exactly when the target is not fully pinned and no reference fails; the exact documents of all cids afterwards, partial work on failure included |
| `Pins.MemPinStore.RemoveRecursive` | src/repo/datastore/memory.rs:174-223 | the exact documents of all cids afterwards, up to the first reference that fails or is no longer pinned |
| `Pins.UnpinsAll` | src/repo/datastore/memory.rs:174-223 | with distinct references and no error, unpinning gets to the end if and only if every one is pinned for some reason besides the root's own pin |
| `Pins.MarkThenUnmark` | src/repo/datastore/memory.rs:407-530 | pinning and unpinning restores a document if and only if the root was not pinned itself and its mark was not there |
| `Repo.MemBlockStore.Put` | src/repo/blockstore/memory.rs:53-68 | an existing block is kept, a new one stored |
| `Repo.MemBlockStore.Remove` | src/repo/blockstore/memory.rs:70-75 | removes the block and says whether it was there |
| `Repo.MemBlockStore.List` | src/repo/blockstore/memory.rs:77-80 | all stored cids, each once |
| `Repo.Repository.References` | src/repo/mod.rs:718-723 | the references streamed for a root are stored blocks below it; they are without error exactly when all stored blocks below decode (and, without fetching, all are stored), and then they are all the stored blocks below, each once |
| `Repo.Repository.InsertDirectPin` | src/repo/mod.rs:704-716 | succeeds exactly on a stored block that is not pinned recursively; the exact documents of all cids afterwards |
| `Repo.Repository.InsertRecursivePin` | src/repo/mod.rs:704-728 | succeeds exactly when the root is stored, decodes and is not yet pinned so and every stored block below decodes; then the root holds the count and every stored block below its mark, and nothing else changed; a failure changes nothing, or leaves an intention and marks on some of those blocks |
| `Repo.Repository.RemoveDirectPin` | src/lib.rs:1076-1081 | takes only the direct pin of that block |
| `Repo.Repository.RemoveRecursivePin` | src/lib.rs:1076-1107 | succeeds on a recursively pinned root exactly when everything below is stored, decodes and is pinned, and then takes exactly its pin and marks; a failure has taken its pin and some of the marks; a root with only a direct pin loses that, any other is left alone |
| `Repo.Repository.PutBlock` | src/repo/mod.rs:561-577 | stores a new block and keeps an existing one, and says which |
| `Repo.Repository.RemoveBlock` | src/repo/mod.rs:642-665 | removes exactly an unpinned stored block |
| `Repo.Repository.Cleanup` | src/repo/mod.rs:752-763 | keeps exactly the pinned blocks and returns exactly the others, each once |
| `RepoRuns.PinAndCollect` | src/repo/mod.rs:704-763 | after a successful recursive pin, cleanup keeps the root and every stored block reachable through stored blocks, removes exactly the unpinned blocks and returns exactly those |
| `RepoRuns.PinAndUnpin` | src/lib.rs:1061-1107 | unpinning right after pinning succeeds if and only if everything below is stored; then the pins are as before if and only if the root was not pinned and none of its blocks bore its mark |
| `RepoRuns.StepKeepsGuard` | src/repo/mod.rs:642-763 | no operation but unpinning the root, under either cid version, ends its protection |
| `RepoRuns.Run` | src/repo/mod.rs:642-763 | a guarded root and its blocks survive any run of puts, removals, pins, unpins and cleanups in which the root is not unpinned under either cid version |
| `RepoRuns.PinThenRun` | src/repo/mod.rs:642-763 | everything stored below a root when it was pinned is stored, unchanged, after any such run |
| `RepoRuns.OtherVersionReleases` | src/repo/datastore/memory.rs:207-222 | unpinning the other version of a pinned root makes the next cleanup remove exactly those blocks below that are pinned for no other reason, with the root still pinned |
| `RepoRuns.PinnedBlockIsRemoved` | src/repo/datastore/memory.rs:207-222 | a concrete run in which that happens |
| `BlockWriter.MoveKeepsInv` | src/repo/blockstore/flatfs.rs:181-337 | every possible move of any put keeps the invariant and never panics |
| `BlockWriter.MoveTouches` | src/repo/blockstore/flatfs.rs:181-337 | what each action of a put changes and what it leaves alone; removing the key clears the entry whichever channel it names |
| `BlockWriter.LaggedWhen` | src/repo/blockstore/flatfs.rs:299-311 | a waiting put panics exactly when its channel carried two messages since it joined |
| `BlockWriter.MoveShrinks` | src/repo/blockstore/flatfs.rs:181-337 | every move brings its put nearer to its end |
| `BlockWriter.NeverStuck` | src/repo/blockstore/flatfs.rs:302-318 | while a put has not returned, some put can move |
| `BlockWriter.RunsExtend` | src/repo/blockstore/flatfs.rs:181-337 | a schedule can always be continued by any put that can move |
| `BlockWriter.EverySchedule` | src/repo/blockstore/flatfs.rs:181-337 | in every schedule of any number of puts, at every moment: at most one message per channel, the bytes counted at most once, a loser on the winner's channel has returned only after the rename, and at most seven moves per put; with no move left, all have returned |
| `BlockWriter.ExactlyOneNewBlock` | src/repo/blockstore/flatfs.rs:181-337 | when all have returned, exactly one wrote a new block if the file was absent and none otherwise, all others found it existing, and the bytes were counted exactly then |
| `BlockWriter.EarlyReturnOnAnotherChannel` | src/repo/blockstore/flatfs.rs:62-76 | a schedule in which a put on another channel returns before the rename |
| `PeerBook.AdmitsBelowTheLimit` | src/p2p/peerbook.rs:308-320 | the check compares the count with the limit exactly when the count fits 32 bits or is refused anyway |
| `PeerBook.CountsWrapAround` | src/p2p/peerbook.rs:308-320 | a count of 2^32 passes a limit of one |
| `PeerBook.Behaviour.CheckLimit` | src/p2p/peerbook.rs:308-320 | the comparison of the cut count with the limit, or with the largest 32-bit number |
| `PeerBook.Behaviour.HandlePendingInbound` | src/p2p/peerbook.rs:327-341 | a pending inbound connection is recorded exactly when accepted |
| `PeerBook.Behaviour.HandlePendingOutbound` | src/p2p/peerbook.rs:343-366 | likewise outbound, whitelisted peers always |
| `PeerBook.Behaviour.HandleEstablishedInbound` | src/p2p/peerbook.rs:368-397 | accepted for whitelisted peers or within the three limits; the connection is no longer pending either way |
| `PeerBook.Behaviour.HandleEstablishedOutbound` | src/p2p/peerbook.rs:399-428 | likewise outbound |
| `PeerBook.Behaviour.OnEstablished` | src/p2p/peerbook.rs:441-487 | the connection enters the direction's set, the peer's list and the peer's set |
| `PeerBook.Behaviour.OnClosed` | src/p2p/peerbook.rs:498-534 | the connection leaves every index, an emptied peer goes with it, and a pending disconnection ends |
| `PeerBook.Behaviour.OnDialFailure` | src/p2p/peerbook.rs:488-497 | the dial is no longer pending |
| `PeerBook.Behaviour.OnListenFailure` | src/p2p/peerbook.rs:535-537 | the inbound connection is no longer pending |
| `PeerBook.Behaviour.RequestDisconnect` | src/p2p/peerbook.rs:216-236 | becomes pending exactly for a connected peer without a pending one |
| `PeerBookRuns.ListWithout` | src/p2p/peerbook.rs:512-519 | moving the last connection into the gap loses exactly the closed one |
| `PeerBookRuns.EventsKeepConsistent` | src/p2p/peerbook.rs:439-540 | every event keeps inbound and outbound disjoint and partitioned by peer, the lists equal to the sets without repeats or empty entries, and an open connection for each pending disconnection |
| `PeerBookRuns.FollowKeeps` | src/p2p/peerbook.rs:308-487 | every event in order keeps the indexes in agreement and the accepted connections within the limits but for those in flight |
| `PeerBookRuns.EveryRun` | src/p2p/peerbook.rs:308-540 | in every reachable state the indexes agree; connections admitted for peers not whitelisted exceed the incoming, outgoing, per-peer and total limits by at most the number of other accepted connections ever in flight beside one, so not at all when they are established one by one; pending inbound connections and the pending dials of such peers are within their limits |
| `PeerBookRuns.Drive` | src/p2p/peerbook.rs:325-540 | the object driven through a run is in the state of the trace, and so consistent and within its limits but for what was in flight |
| `PeerBookRuns.ExcessIsReached` | src/p2p/peerbook.rs:368-397 | for every number of others in flight there is a run that exceeds the limit by exactly that number |
| `PeerBookLaws.WhitelistedPass` | src/p2p/peerbook.rs:343-428 | a whitelisted peer is let through in every state |
| `PeerBookLaws.OthersRefusedAtTheLimit` | src/p2p/peerbook.rs:368-428 | any other peer is refused exactly when its direction, its own connections or all connections have reached their limit, counts cut to 32 bits |
| `PeerBookLaws.OthersRefusedBelow` | src/p2p/peerbook.rs:308-428 | the same on the counts themselves where they fit 32 bits, with 2^32 - 1 where there is no limit |
| `PeerBookLaws.PendingAccepted` | src/p2p/peerbook.rs:327-366 | pending inbound connections are let through by their limit alone, dials to whitelisted peers always and others by theirs |
| `PeerBookLaws.PendingEvents` | src/p2p/peerbook.rs:327-428 | pending connections, dials, admissions and failures change only the pending sets, by their own id |
| `PeerBookLaws.PeerEvents` | src/p2p/peerbook.rs:216-236 | a disconnection request becomes pending exactly for a connected peer |
| `PeerBookLaws.EstablishedEvent` | src/p2p/peerbook.rs:441-487 | an established connection joins the set of its direction, the end of its peer's list and its peer's set, and nothing else changes |
| `PeerBookLaws.ListAfterClose` | src/p2p/peerbook.rs:512-519 | the last connection of the list takes the place of the closed one |
| `PeerBookLaws.ClosedEvent` | src/p2p/peerbook.rs:498-534 | a closed connection leaves every index, emptied entries go, the pending disconnection ends, and nothing else changes |
| `Varint.RoundTrip` | packages/beetle-bitswap-next/src/prefix.rs:25-51 | every 64-bit number decodes from its encoding, whatever follows |
| `Varint.Canonical` | packages/beetle-bitswap-next/src/prefix.rs:25-30 | accepted bytes are the number's own encoding exactly when no bits were dropped |
| `CidBytes.CidRoundTrip` | packages/beetle-bitswap-next/src/message.rs:143-152 | every cid reads back from its bytes |
| `CidBytes.CidsAreTheirBytes` | packages/beetle-bitswap-next/src/message.rs:465 | apart from cut numbers, bytes read as a cid exactly when they start with the bytes of that cid |
| `CidBytes.WritePrefix` | packages/beetle-bitswap-next/src/prefix.rs:40-57 | the four numbers are appended one after the other |
| `CidBytes.PrefixRoundTrip` | packages/beetle-bitswap-next/src/prefix.rs:24-57 | every prefix with a known hash function reads back, whatever follows |
| `CidBytes.PrefixesAreTheirBytes` | packages/beetle-bitswap-next/src/prefix.rs:24-37 | apart from cut numbers, bytes read as a prefix exactly when they start with its bytes and its hash function is known |
| `CidBytes.PrefixKeepsVerified` | packages/beetle-bitswap-next/src/prefix.rs:60-72 | a cid's prefix and the data give back the cid exactly when the hash verifies |
| `CidBytes.PrefixCidVerifies` | packages/beetle-bitswap-next/src/prefix.rs:60-63 | what a prefix makes of data always verifies |
| `Bitswap.BitswapMessage.AddFullEntry` | packages/beetle-bitswap-next/src/message.rs:331-373 | a request is merged into its entry field by field, or makes a new one; the returned length is a new entry's, and zero for a known cid |
| `Bitswap.BitswapMessage.AddBlock` | packages/beetle-bitswap-next/src/message.rs:375-378 | a block replaces a presence of the same cid |
| `Bitswap.BitswapMessage.AddBlockPresence` | packages/beetle-bitswap-next/src/message.rs:380-385 | a presence is added only where there is no block |
| `Bitswap.BitswapMessage.VerifyBlocks` | packages/beetle-bitswap-next/src/message.rs:242-266 | exactly the blocks that verify stay |
| `Bitswap.BitswapMessage.Remove` | packages/beetle-bitswap-next/src/message.rs:313-315 | only the entry of that cid goes |
| `Bitswap.BitswapMessage.Cancel` | packages/beetle-bitswap-next/src/message.rs:317-319 | a cancel counts as a request for the block, with the length reported for it |
| `Bitswap.BitswapMessage.Clear` | packages/beetle-bitswap-next/src/message.rs:229-235 | nothing is left |
| `Bitswap.OperationKeepsProper` | packages/beetle-bitswap-next/src/message.rs:313-385 | no operation lets a cid have both a block and a presence |
| `Bitswap.EntriesFoldRequests` | packages/beetle-bitswap-next/src/message.rs:313-385 | after any operations an entry is what the requests since its last removal amount to |
| `Bitswap.FlagsAccumulate` | packages/beetle-bitswap-next/src/message.rs:331-373 | an entry is a cancel, asks for DONT_HAVEs or wants the block exactly when one of its requests does |
| `Bitswap.FlagsDependOnTheSet` | packages/beetle-bitswap-next/src/message.rs:331-373 | these fields depend only on the set of requests |
| `Bitswap.PriorityLaw` | packages/beetle-bitswap-next/src/message.rs:331-373 | which request's priority an entry has |
| `Bitswap.Replay` | packages/beetle-bitswap-next/src/message.rs:220-385 | the object after any operations is proper, with every entry what its requests amount to |
| `BitswapLength.EncodedLength` | packages/beetle-bitswap-next/src/message.rs:395-402 | the encoded length is the sum over blocks, presences and wants, in whatever order the maps are walked |
| `BitswapLength.AskingChangesLength` | packages/beetle-bitswap-next/src/message.rs:331-373 | asking changes the encoded length by the merged entry's length less the known one's |
| `BitswapLength.ReportedIsGrowth` | packages/beetle-bitswap-next/src/message.rs:331-373 | the returned length is the growth of the message if and only if the cid is new or its entry keeps its length |
| `BitswapLength.UnreportedGrowth` | packages/beetle-bitswap-next/src/message.rs:339-361 | a known want whose priority is raised makes the message longer with nothing reported |
| `BitswapLaws.LengthOfEntry` | packages/beetle-bitswap-next/src/pb/bitswap_pb.rs:139-157 | the computed length of an entry is that of its protobuf bytes |
| `BitswapLaws.LengthOfPresence` | packages/beetle-bitswap-next/src/pb/bitswap_pb.rs:251-263 | the computed length of a presence is that of its protobuf bytes |
| `BitswapLaws.OnlyVerifiedStay` | packages/beetle-bitswap-next/src/message.rs:242-266 | exactly the blocks whose hash function is known and gives their digest stay, as they were, and nothing else changes |
| `BitswapLaws.BlockIsAdded` | packages/beetle-bitswap-next/src/message.rs:375-378 | an added block replaces any block or presence of its cid, and nothing else changes |
| `BitswapLaws.PresenceIsAdded` | packages/beetle-bitswap-next/src/message.rs:380-385 | an added presence replaces any other unless there is a block of its cid, and nothing else changes |
| `BitswapLaws.EntryIsAsked` | packages/beetle-bitswap-next/src/message.rs:331-373 | asking touches only the entry of its cid, and a new entry is the request |
| `BitswapWire.Read` | packages/beetle-bitswap-next/src/message.rs:456-499 | the loops read exactly the message the structure stands for, or its first error |
| `BitswapWire.ReadBlocksVerify` | packages/beetle-bitswap-next/src/message.rs:472-487 | every block read verifies, so verify_blocks removes nothing from a message that was read |
| `BitswapLaws.PayloadCidLaw` | packages/beetle-bitswap-next/src/message.rs:483-486 | apart from cut numbers, a prefix makes of data exactly the cid that it starts the bytes of and that the data hashes to |
| `BitswapLaws.MessageReads` | packages/beetle-bitswap-next/src/message.rs:459-499 | a message reads exactly when all its cids and prefixes do; its wants are what the requests of its entries amount to in order, its blocks those of its data and payload, its presences those of other cids, the last of several |
| `BitswapLaws.FirstErrorIsReported` | packages/beetle-bitswap-next/src/message.rs:459-499 | the error of a message is the first among those of its entries, prefixes and presences, in this order |
| `BitswapRoundTrip.EncodeV1` | packages/beetle-bitswap-next/src/message.rs:423-453 | writes the message in some order of its maps; panics exactly when a block's hash function is unknown |
| `BitswapRoundTrip.EncodeV0` | packages/beetle-bitswap-next/src/message.rs:404-421 | writes wants and bare data in some order |
| `BitswapLaws.NewerForm` | packages/beetle-bitswap-next/src/message.rs:423-453 | the newer form has an entry for each want, a prefixed block for each block and no bare data, a presence for each, and the two other fields |
| `BitswapLaws.OlderForm` | packages/beetle-bitswap-next/src/message.rs:404-421 | the older form has the same wants and bare data, and nothing else |
| `BitswapLaws.KnownBytes` | packages/beetle-bitswap-next/src/prefix.rs:40-57 | the bytes of known numbers, cids and prefixes |
| `BitswapRoundTrip.V1RoundTrip` | packages/beetle-bitswap-next/src/message.rs:423-499 | for any order of the maps, reading what was written gives the same message if and only if all blocks verify |
| `BitswapRoundTrip.V0RoundTrip` | packages/beetle-bitswap-next/src/message.rs:404-499 | the older form keeps the wantlist, the full flag and, unless data collide, every verifying version 0 block |
| `BitswapRoundTrip.SendAndReceive` | packages/beetle-bitswap-next/src/message.rs:423-499 | the object written and read back is the same if and only if all blocks verify |
| `IpfsPath.SlashedPath.PushSplit` | src/path.rs:183-201 | pushes the pieces before the first empty one and succeeds exactly when that is the last |
| `IpfsPath.SlashedPath.PushPath` | src/path.rs:174-181 | appends the segments of a string; every segment stays non-empty and slash-free |
| `IpfsPath.SlashedPath.Shift` | src/path.rs:219-221 | drops the first segments |
| `IpfsPath.SlashedPath.Truncate` | src/path.rs:223-225 | keeps the first segments |
| `IpfsPath.FromString` | src/path.rs:45-85 | parses exactly the texts that are paths, into the root and good segments they stand for |
| `IpfsPathTexts.ParsesRoot` | src/path.rs:45-84 | for every text that starts with a root: a bad cid is an error whatever follows; after a good root the pieces are the segments, and the path is invalid exactly when one but the last is empty |
| `IpfsPathTexts.NamesParse` | src/path.rs:57-74 | a name parses as the peer it reads as, or else the peer whose key it holds in cid form, and as a domain exactly when it reads as neither |
| `IpfsPathTexts.CidsParse` | src/path.rs:49-58 | a path below a cid parses in all three spellings exactly when its cid does, and is an invalid cid otherwise |
| `IpfsPathTexts.NoPaths` | src/path.rs:52-78 | the empty text, a protocol without a key, and any other protocol are invalid paths |
| `IpfsPathTexts.EveryText` | src/path.rs:45-84 | every text is one of these or starts with a root |
| `IpfsPathTexts.SegmentsOfText` | src/path.rs:175-194 | a text gives its pieces as segments unless it starts with a slash or has two in a row; a slash at its end is dropped |
| `IpfsPathTexts.AppendsText` | src/path.rs:165-194 | appending a text appends its pieces, and fails exactly when one but the last is empty |
| `IpfsPathTexts.PrintsAs` | src/path.rs:284-293 | cids are printed behind "/ipfs/", peers and domains behind "/ipns/", and then the segments |
| `IpfsPath.ParsePrintParse` | src/path.rs:45-147 | parsing a printed parsed path gives the same path |
| `IpfsPath.SpellingsAgree` | src/path.rs:49-58 | a path that starts with a cid is the same bare, behind /ipfs/ and behind /ipld/ |
| `IpfsPath.TrailingSlash` | src/path.rs:188-198 | one slash at the end of a path that parses changes nothing |
| `IpfsPath.SecondTrailingSlash` | src/path.rs:188-198 | a second slash at the end makes it invalid |
| `IpfsPath.AppendTwiceLaw` | src/path.rs:109-113 | appending a then b is appending a/b, for all paths and all b, if and only if a is itself invalid or is neither empty nor ends in a slash |

## Left out

- Walker.WalkAll: asks for names that are single path components other than "."; empty names, names
  with a slash and two-character shard links to something other than a shard panic or are normalised
  away by the path type. The two characters of a shard prefix are characters here, bytes in the source.
- Walker.Walker.EnterDirectory: after a panic the fields of the walker are not specified, since the
  source object is unusable then.
- FileVisit.ReadFile: offsets are unbounded; the 64-bit overflow of block size sums is not modelled.
- ResolverLoop.ResolvePath: IPNS and DNSLink roots, network fetching and the bucket cache are not
  modelled; the root is a cid, and a block that is not in the store cannot be loaded.
- WalkLookup.WalkAndLookupAgree: the cid of a bucket step is left out, because the walk reports the
  root's for buckets directly below a sharded root.
- RefsWalk.Visit: dag-pb links without a name, or named "/", make the source give up on purpose and are
  excluded; a block that has to be fetched counts as one that does not load. The largest 64-bit limit,
  where adding one overflows, is not modelled.
- RefsWalk.IpldsRefs: without uniqueness a limit or an acyclic store is needed, because the source does
  not end otherwise.
- Repo.Repository.PutBlock: subscriptions and repo events are left out.
- Pins.MemPinStore.Remove: the JSON form of pin documents, listing and querying pins are left out.
- BlockWriter.EverySchedule: failed writes, dropped futures, cancelled tasks and concurrent removal are
  left out; the source notes races there.
- PeerBook.Behaviour.OnEstablished: dial requests and their reply channels, identify timers, round-trip times and peer info are
  left out.
- PeerBookRuns.EveryRun: asks that the counts fit 32 bits and the limits are not changed in between.
  An accepted connection that is never established stays in flight until a dial or listen failure is
  reported for it.
- Bitswap.BitswapMessage.AddFullEntry: priorities are unbounded integers, 32-bit in the source; the
  length of a negative one is that of its 64-bit extension.
- BitswapWire.Read: protobuf bytes are left out; the structure is what was decoded.
- IpfsPath.ParsePrintParse: the text forms of cids and peer ids are parameters.
- The file-backed pin store, IPNS, the keystore, the swarm, the Bitswap client, server and peer task
  queue, and the HTTP and example crates are not modelled.
