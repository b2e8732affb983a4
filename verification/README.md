# Verified models of a blockchain's core

A Dafny 4.11 model of the parts of an Ethereum-style node whose correctness is least
obvious from the code, with proofs of what these parts are for. `dafny verify
dfyconfig.toml` checks everything.

| files | what they model |
|---|---|
| `RlpSpec`, `RlpRaw`, `RlpSplice`, `RlpEncode`, `RlpDecode` | RLP (`rlp/`): the recursive definition of Appendix B of the Yellow Paper, the slice splitter, the encoder that defers list headers, the reader, the stream decoder with its stack of lists |
| `HexPrefix`, `PathOrder` | hex-prefix keys (`trie/encoding.go`) and the order of paths |
| `TrieTree`, `TrieNode`, `TrieRep`, `TrieOps`, `TrieHasher`, `TrieUnique`, `Trie` | the Merkle Patricia trie (`trie/`): normal form, decoding, lazily loaded nodes, get, insert, delete, cached hashing, commit |
| `TrieIterator`, `TrieWalk`, `TrieEntries`, `TrieDifference` | node iteration with seek, iteration over entries, the difference of two tries (`trie/iterator.go`) |
| `SyncBook`, `SyncSteps`, `SyncRound`, `SyncUses`, `TrieSync` | the scheduler of trie synchronisation (`trie/sync.go`): counts and links, one result, references, the operations |
| `Cycles`, `SyncComplete`, `SyncWhole`, `SyncDrive`, `SyncPlain`, `SyncCases` | whole runs of it: what a finished sync has, that driving one comes to an end, and three runs that show why the conditions are there |
| `TrieDatabase`, `TrieDurable`, `TrieCommit` | the node cache in front of the disk (`trie/database.go`), tries committed through it, and tries opened after that |
| `StateWorld`, `StateDB` | accounts, journal and snapshots (`core/state/`) |
| `EvmState`, `EvmMemory`, `EvmOps`, `Evm` | the virtual machine (`core/vm/`) |
| `Sponge` | the buffered sponge behind Keccak (`crypto/sha3/sha3.go`) |
| `Protocols` | matching of sub-protocols and their message codes (`p2p/peer.go`) |
| `DialPlan`, `Dial`, `DialLoop` | the dial state and the server's task loop (`p2p/dial.go`, `p2p/server.go`) |

## How the models are built

- Objects that change are classes whose methods follow the source; each has a ghost
  abstraction (the map a trie stores, the message a sponge has absorbed, the world at
  each snapshot, the log of a dial loop) and every method is proved against it.
- A node in memory *represents* a tree: parts may be loaded, left as a hash, dirty or
  clean, with or without cached hash. All trie operations keep that relation, and it
  includes that every cached hash is the one computed from scratch and that whatever
  is clean is found in the database.
- The hash function is a parameter with 32-byte results. That no two hashes collide is
  only ever asked of a finite set of node encodings, namely those of the tries at hand.
- Database contents, write failures, the clock, random nodes, lookup results, leaf
  callbacks and precompiled contracts are parameters.
- Integers are unbounded, and 64-bit wrap-around is written out where the source can
  reach it: message codes, memory fees, the refund counter, gas, header tags and cache
  generations.

## Where the code decides

- The fee for memory is exact only below 2^32 words, although the guard lets larger
  sizes through: `EvmMemory.FeeExact` gives the condition both ways.
- The table says JUMPI pops one element, and it pops two. On a stack of one element the
  model crashes, and `Evm.Machine.ExecPlain` says exactly then.
- Finalise keeps old snapshots but empties the journal. `StateDB.OlderSnapshots` says
  exactly when the list is still sorted by journal index afterwards, and
  `StateDB.StateDB.RevertToSnapshot` what going back to an old one does: it panics
  (`StateDB.LostSnapshot`), or it restores some state since the Finalise
  (`StateDB.StaleSnapshot`).
- Message codes reach their protocol exactly if those of the highest shared versions all
  fit 64 bits (`Protocols.Multiplexed`; `Protocols.Overflow` is an input where they do not).
- The sync scheduler merges requests for the same hash, and the first one decides whether
  the entry is raw data or a node. A node first asked for as raw data is stored without
  its children (`SyncCases.RawFirst`). `SyncUses.NodeClosedExactly` says exactly when
  all nodes have their children, and `SyncWhole.FinishedStores` what users of the
  scheduler have to see to.
- A callback may announce entries and then fail. The error is reported once; when the
  announced entries have arrived, the node is written without its children
  (`SyncCases.FailedCallback`). If nothing was announced, the request waits for ever.
- Process does not check that data has the hash it is delivered for. Data that refers to
  that hash makes a request wait for itself (`SyncCases.SelfReference`), and requests
  remain at the end exactly if some wait for each other in a circle
  (`TrieSync.NothingPending`).
- A sponge cloned while squeezing places its buffer by the capacity of a slice into
  storage of 168 bytes. `Sponge.State.Clone` says when that panics and by how much the
  copy falls back otherwise; it is exact only for a rate of 168.
- In the difference iterator the variable that decides whether to descend is called
  hasHash and is true when the node has no hash. The model follows the value.
- The static list is part of the dial state, but the server loop does not pass its
  addstatic and removestatic signals on to it. In `DialLoop` these signals have no
  effect on the dial state, and changes of the static list are separate events. On
  addstatic the server dials the node directly, whatever the history says: that no node
  is dialed again too soon (`DialLoop.Safety`) holds of dial tasks only.
- The server loop never handles the signal that a peer has gone, so peers only join.
- Before a task starts, the server formats it for its log, and the String method of a wait
  task calls itself (`p2p/dial.go:367-369`). A round that makes a wait task therefore ends
  the process. `DialLoop` lets wait tasks run and end; runs past one do not occur in the
  source.

## Model

| member | source | states |
|---|---|---|
| `RlpRaw.SplitSound` | rlp/raw.go:39-156 | whatever Split accepts is canonical: putting the minimal header of that kind back in front of the content gives the input, byte for byte |
| `RlpRaw.SplitWrap` | rlp/raw.go:39-156 | splitting a wrapped content followed by anything returns kind, content and the bytes behind it, for every content length below 2^64 |
| `RlpRaw.SplitEncode` | rlp/raw.go:39-71 | splitting the encoding of any value returns its kind, its payload and the rest |
| `RlpRaw.TagSound` | rlp/raw.go:86-125 | an accepted header has the size field of minimal length, fits the buffer, and is never used for a single byte below 0x80 |
| `RlpRaw.LongHead` | rlp/raw.go:127-156 | an accepted size field is minimal: at least 56, no leading zero byte |
| `RlpRaw.ReadHead` | rlp/raw.go:86-156 | every header that can be written is read back as the same kind, header length and size |
| `RlpRaw.EncodePrefixFree` | rlp/raw.go:39-45 | no encoding is a prefix of another, and different values have different encodings |
| `RlpRaw.CountValues` | rlp/raw.go:74-84 | the loop counts the values laid end to end, or reports the first bad one |
| `RlpRaw.CountEncodeAll` | rlp/raw.go:74-84 | the concatenated encodings of n values count as n |
| `RlpSplice.SpliceValue` | rlp/encode.go:201-246 | splicing the deferred headers of a value into its string data at the noted offsets gives its recursive encoding |
| `RlpSplice.EncodedSize` | rlp/encode.go:226-228 | string data plus header bytes is the length of the recursive encoding |
| `RlpSplice.SpliceWhole` | rlp/encode.go:230-246 | the contents of an encode buffer after one value are spliced to exactly the encoding of that value |
| `RlpEncode.IntSize` | rlp/encode.go:643-649 | the number of bytes of the minimal big-endian form |
| `RlpEncode.PutInt` | rlp/encode.go:585-640 | the minimal big-endian form is written, and nothing else in the buffer changes |
| `RlpEncode.PutHead` | rlp/encode.go:150-158 | the header of the recursive definition is written, and nothing else in the buffer changes |
| `RlpEncode.EncBuf.constructor` | rlp/encode.go:165-173 | an empty buffer |
| `RlpEncode.EncBuf.EncodeStringHeader` | rlp/encode.go:190-199 | appends a string header to the string data |
| `RlpEncode.EncBuf.EncodeString` | rlp/encode.go:201-209 | appends the encoding of a string, without header for a single byte below 0x80 |
| `RlpEncode.EncBuf.List` | rlp/encode.go:211-215 | opens a header at the present position |
| `RlpEncode.EncBuf.ListEnd` | rlp/encode.go:217-224 | closes a header with the size of all that was written since, nested headers included |
| `RlpEncode.EncBuf.WriteItem` | rlp/encode.go:491-525 | adds exactly the string data and the deferred headers of one value |
| `RlpEncode.EncBuf.WriteItems` | rlp/encode.go:507-525 | the same for the elements of a list, in order |
| `RlpEncode.EncBuf.ToBytes` | rlp/encode.go:230-246 | the result is the recursive encoding and has length size() |
| `RlpEncode.EncBuf.ToWriter` | rlp/encode.go:248-270 | the writer receives the same bytes; a writer that fails has received a prefix of them |
| `RlpEncode.PutPiece` | rlp/encode.go:233-243 | the string data before a header and the header are the next bytes of the splice |
| `RlpEncode.EncBuf.WritePiece` | rlp/encode.go:250-262 | the same bytes go to the writer, or a prefix of them if it fails |
| `RlpEncode.EncReader.constructor` | rlp/encode.go:112-119 | everything is pending |
| `RlpEncode.EncReader.Next` | rlp/encode.go:306-337 | the pieces handed out one by one are the pending bytes in order |
| `RlpEncode.EncReader.Read` | rlp/encode.go:281-302 | fills the buffer with the next pending bytes and reports the end exactly when none are left |
| `RlpEncode.ReadInChunks` | rlp/encode.go:281-337 | under every sequence of buffer sizes a client receives the encoding from its start, in order |
| `RlpEncode.EncodeToBytes` | rlp/encode.go:97-105 | returns the recursive encoding of the value |
| `RlpEncode.EncodeTo` | rlp/encode.go:80-93 | writes the recursive encoding, or a prefix of it if the writer fails |
| `RlpEncode.EncodeToReader` | rlp/encode.go:112-119 | the reader has the whole encoding pending |
| `RlpDecode.Stream.constructor` | rlp/decode.go:824-856 | at the start of the input, limited by its length |
| `RlpDecode.Stream.ReadLongSize` | rlp/decode.go:926-960 | the size behind a long tag, refused if a short tag would do |
| `RlpDecode.Stream.WillRead` | rlp/decode.go:1016-1034 | succeeds exactly when the bytes fit the innermost list and the input limit, and accounts for them |
| `RlpDecode.Stream.ReadFull` | rlp/decode.go:990-1003 | the next bytes of the input, all of them or an error |
| `RlpDecode.Stream.ReadByte` | rlp/decode.go:1005-1014 | the next byte of the input or an error |
| `RlpDecode.Stream.ReadUint` | rlp/decode.go:964-988 | a size field is accepted exactly when the slice splitter accepts it, with the same value |
| `RlpDecode.Stream.ReadKind` | rlp/decode.go:902-962 | reads one header; what it accepts is a header of the recursive definition |
| `RlpDecode.Stream.Kind` | rlp/decode.go:869-900 | the next header, the end of the list exactly at its end, and an error only where no value can be decoded |
| `RlpDecode.Stream.Bytes` | rlp/decode.go:648-669 | the content of a string, accepted exactly when it is there and needed its header |
| `RlpDecode.Stream.List` | rlp/decode.go:757-769 | opens the list ahead, and only a list |
| `RlpDecode.Stream.ListEnd` | rlp/decode.go:773-788 | closes the innermost list exactly when it has been read completely |
| `RlpDecode.Stream.DecodeInterface` | rlp/decode.go:511-533 | succeeds exactly when some value is encoded at the current position, returns that value and consumes exactly its bytes |
| `RlpDecode.Stream.DecodeListSlice` | rlp/decode.go:323-336 | the elements of the list ahead, or an error only if its content is no sequence of values |
| `RlpDecode.Stream.DecodeSliceElems` | rlp/decode.go:338-365 | all values up to the end of the innermost list |
| `RlpDecode.DecodeBytes` | rlp/decode.go:136-146 | for every input below 2^64 bytes: if it is accepted, re-encoding the result gives the input; if it is rejected, no value has that encoding |
| `RlpDecode.RoundTrip` | rlp/decode.go:136-146 | decoding the encoding of any nested value returns that value |
| `HexPrefix.KeybytesToHex` | trie/encoding.go:36-47 | the buffer holds the nibbles of the key and the terminator |
| `HexPrefix.HexKeyOfKeyHex` | trie/encoding.go:36-63 | the hex form of a key can be read back, so different keys have different hex forms |
| `HexPrefix.DecodeNibbles` | trie/encoding.go:66-70 | pairs of nibbles are packed into the buffer, and no other byte changes |
| `HexPrefix.HexToCompact` | trie/encoding.go:5-22 | the buffer holds the hex-prefix form: flags for terminator and parity, then the nibbles in pairs |
| `HexPrefix.UncompactOfCompact` | trie/encoding.go:5-34 | hex-prefix form is inverted for every nibble path, odd or even, with or without terminator |
| `HexPrefix.CompactOfUncompact` | trie/encoding.go:5-34 | every canonical hex-prefix string is the form of the path it decodes to |
| `HexPrefix.CompactIsCompact` | trie/encoding.go:5-22 | only canonical hex-prefix strings arise |
| `HexPrefix.PrefixLen` | trie/encoding.go:76-87 | the length of the longest common prefix |
| `TrieTree.Canonical` | trie/trie.go:198-396 | normal form is canonical: two normal trees that store the same map are the same tree |
| `TrieTree.NotBoth` | trie/trie.go:198-265 | a short node and a full node never store the same map |
| `TrieTree.ForkCorrect` | trie/trie.go:217-233 | splitting a path into a full node with two branches stores both values, in normal form |
| `TrieTree.JoinExt` | trie/trie.go:307-318 | a short node under a short node stores what one short node with the joined key stores |
| `TrieTree.CollapseBranch` | trie/trie.go:349-369 | a full node with one child left stores what a one-nibble short node stores |
| `TrieNode.DecodeStored` | trie/node.go:122-213 | the stored bytes of every normal node decode to that node, with children of 32 bytes or more as hash nodes and smaller ones embedded |
| `TrieNode.EncBounded` | trie/node.go:87-89 | the encoding of a node with keys and values in range is itself in range |
| `TrieRep.RepNodeOf` | trie/node.go:122-213 | a decoded node represents the tree whose bytes it was decoded from |
| `TrieRep.Resolves` | trie/trie.go:412-421 | loading the node behind a hash gives the node that was stored, and fails only if the database lacks it |
| `TrieOps.TryGet` | trie/trie.go:122-158 | returns the stored value with any parts left as hash nodes; the node it returns represents the same tree; errors only for missing nodes |
| `TrieOps.Insert` | trie/trie.go:198-265 | the new node represents the tree with the value put in, in normal form, with correct cache flags; dirty exactly when the map changed |
| `TrieOps.Delete` | trie/trie.go:289-396 | the new node represents the tree without the key, in normal form, with correct cache flags; dirty exactly when the map changed |
| `TrieOps.ScanChildren` | trie/trie.go:338-348 | tells no child, the only child, or several apart |
| `TrieOps.NotAll` | trie/trie.go:329-348 | deleting one path from a normal full node never empties it |
| `TrieHasher.HashCorrect` | trie/hasher.go:37-185 | hashing any mix of cached, dirty, clean and unloaded nodes gives the hash computed from scratch, keeps what the node represents, and on a commit makes every hash reference resolvable |
| `TrieHasher.StoreCorrect` | trie/hasher.go:125-185 | a node goes by hash exactly if it has 32 bytes or more or is the root, and then the database holds its bytes |
| `TrieHasher.RepGrows` | trie/hasher.go:147-167 | nodes go on representing their trees while the database grows |
| `Trie.StoresCanonical` | trie/trie.go:180-396 | only one normal tree stores a given map |
| `Trie.Trie.constructor` | trie/trie.go:76-92 | a new trie is empty |
| `Trie.Trie.New` | trie/trie.go:76-92 | the trie behind a root hash stores what the tree with that hash stores; the only error is a missing root |
| `Trie.Trie.SetCacheLimit` | trie/trie.go:61-63 | changes the limit only |
| `Trie.Trie.TryGet` | trie/trie.go:113-120 | returns the value of the map for the key, and keeps the map and all caches correct |
| `Trie.Trie.TryUpdate` | trie/trie.go:180-196 | the map after it is the old one with the value put in, or without the key if the value is empty; on an error nothing has changed |
| `Trie.Trie.TryDelete` | trie/trie.go:276-284 | the map after it is the old one without the key |
| `Trie.Trie.Hash` | trie/trie.go:429-434 | the root hash computed from scratch, whatever is cached |
| `Trie.Trie.Commit` | trie/trie.go:438-459 | the same hash, and afterwards the whole trie is found behind it in the database |
| `Trie.SameContent` | trie/trie.go:180-434 | two tries with the same content are the same tree and have the same root hash, however they came about |
| `Trie.SameRoot` | trie/trie.go:429-434 | without collisions among the node encodings, tries with the same root hash have the same content |
| `Trie.Edit` | trie/trie.go:113-459 | any operation but a commit refines the operation on maps, and leaves the database alone |
| `Trie.Do` | trie/trie.go:113-459 | any single operation does to the trie what it does to the map |
| `Trie.Replay` | trie/trie.go:113-459 | any sequence of updates, deletions, lookups, hashes, commits and cache limits on a new trie succeeds and ends in the map these operations describe |
| `Trie.TwoHistories` | trie/trie.go:180-459 | history independence: any two such sequences that end in the same map end with the same root hash |
| `Trie.Reopen` | trie/trie.go:76-92 | New on the hash returned by Commit sees the same map |
| `TrieUnique.SameEnc` | trie/hasher.go:125-185 | without collisions, trees with the same encoding are the same |
| `TrieUnique.SameHash` | trie/hasher.go:125-185 | without collisions, trees with the same hash are the same |
| `TrieIterator.AllSorted` | trie/iterator.go:219-341 | the pre-order of all nodes has strictly increasing paths |
| `TrieIterator.VisitsLeaf` | trie/iterator.go:158-178 | a value occurs in the pre-order of a tree exactly if it is stored under that path |
| `TrieIterator.AllLeaf` | trie/iterator.go:158-178 | a leaf of the whole iteration is a stored path with its value |
| `TrieWalk.NextChild` | trie/iterator.go:305-341 | finds the next child that is not nil, so that nothing to be visited is skipped |
| `TrieWalk.PeekAt` | trie/iterator.go:257-291 | the next node is the first of all nodes still ahead, with or without those below the current one |
| `TrieWalk.MoveUp` | trie/iterator.go:273-290 | goes up exactly to the node that has the next child |
| `TrieWalk.NodeIterator.Start` | trie/iterator.go:135-142 | all nodes are ahead |
| `TrieWalk.NodeIterator.Peek` | trie/iterator.go:257-291 | the same on the iterator's own stack |
| `TrieWalk.NodeIterator.Push` | trie/iterator.go:343-349 | the node pushed is the first one ahead, and the others stay ahead |
| `TrieWalk.NodeIterator.Seek` | trie/iterator.go:238-254 | afterwards exactly the nodes whose path is not below the key are ahead; a failed seek can be taken up again |
| `TrieWalk.NodeIterator.Next` | trie/iterator.go:219-236 | moves to the first node ahead, or reports the end exactly when there is none; errors only for missing nodes |
| `TrieEntries.NewNodeIterator` | trie/iterator.go:135-142 | exactly the nodes from the start key on are ahead |
| `TrieEntries.KeyIterator.constructor` | trie/iterator.go:38-42 | an iterator over keys and values on a node iterator |
| `TrieEntries.KeyIterator.Next` | trie/iterator.go:45-57 | key and value of the next leaf ahead; false exactly when no leaf is ahead |
| `TrieEntries.Drain` | trie/iterator.go:45-57 | calling Next to the end returns all leaves ahead, in order |
| `TrieEntries.Entries` | trie/iterator.go:38-355 | iterating from a start key returns exactly the entries of the map whose terminated hex path is not below the hex of the start, each once, in path order |
| `TrieEntries.EntriesExact` | trie/iterator.go:45-57 | the leaves from a start on are exactly the entries of the map from there on |
| `PathOrder.Compare` | trie/iterator.go:357-360 | lexicographic order of paths, a proper prefix first |
| `TrieDifference.Compared` | trie/iterator.go:357-373 | the sign agrees with the order of paths, and equality means same path and hash, and the same value at a leaf |
| `TrieDifference.SameSpot` | trie/iterator.go:421-461 | without collisions, nodes of two tries at the same path with the same hash are the same tree, so skipping both loses nothing |
| `TrieDifference.DifferenceIterator.constructor` | trie/iterator.go:384-391 | nothing of b has been passed yet |
| `TrieDifference.DifferenceIterator.AdvanceA` | trie/iterator.go:439-458 | moves a to its next node or notes that it has ended |
| `TrieDifference.DifferenceIterator.AdvanceB` | trie/iterator.go:425-453 | moves b to its next node |
| `TrieDifference.DifferenceIterator.Round` | trie/iterator.go:435-459 | one round of the loop stops with what Next promises, or moves on without passing a leaf of the difference |
| `TrieDifference.DifferenceIterator.Together` | trie/iterator.go:447-458 | the same where both stand at the same node, and everything below it is skipped if it has a hash |
| `TrieDifference.DifferenceIterator.Next` | trie/iterator.go:421-461 | stops at the next node of b that is not in a; every leaf of b passed on the way is in a |
| `TrieDifference.Collect` | trie/iterator.go:421-461 | calling Next to the end finds exactly the leaves of b that are not in a |
| `TrieDifference.Differences` | trie/iterator.go:384-461 | for two tries without collisions: exactly the entries of b that a does not have with that value, from a start key on, each once, in path order |
| `TrieSync.Sync.constructor` | trie/sync.go:53-62 | starts on a database where every entry has what it was asked for, with all references noted; the root is requested unless it is there; the state is exactly that |
| `TrieSync.Sync.AddSubTrie` | trie/sync.go:135-168 | exactly when a request is made and which; the root is the empty one or has been asked for, and nothing asked for is forgotten |
| `TrieSync.Sync.AddSub` | trie/sync.go:135-199 | one announcement of a callback: which request is made or merged; the hash is there or waited for by its parent, whose counter has been raised |
| `TrieSync.Sync.AddSubs` | trie/sync.go:135-199 | the same for all that one leaf announces, in order |
| `TrieSync.Sync.CallBack` | trie/sync.go:266-275 | the callback is called for leaves only; what it announces is there or waited for, also if it then fails |
| `TrieSync.Sync.Children` | trie/sync.go:237-296 | which requests are returned, or none exactly if the callback fails; everything the node needs is there, waited for, or among them |
| `TrieSync.Sync.Expect` | trie/sync.go:116-120 | the counter of the request is the number of children it waits for, each of which knows its parent |
| `TrieSync.Sync.CommitRequest` | trie/sync.go:202-220 | the request enters the batch after everything it needs, and so does every parent that waited for it alone |
| `TrieSync.Sync.Release` | trie/sync.go:210-218 | a parent's counter goes down by one for each time it occurs among the parents |
| `TrieSync.Sync.Handle` | trie/sync.go:81-121 | which results are refused and why; what is stored, what waits and for which requests; a failing callback leaves the node waiting for what was announced |
| `TrieSync.Sync.ProcessOne` | trie/sync.go:81-121 | the same, with every reference that the node makes noted |
| `TrieSync.Sync.Process` | trie/sync.go:77-124 | the results one after the other up to the first one refused, with the states in between; what each delivered is in the batch or with its waiting request, nothing delivered earlier is lost or altered, nothing else appears, nothing asked for is forgotten |
| `TrieSync.Sync.ProcessRaw` | trie/sync.go:91-97 | a raw entry needs nothing and enters the batch at once |
| `TrieSync.Sync.ProcessNode` | trie/sync.go:99-120 | a node enters the batch or waits with its data; if its callback failed it waits for what was announced, and for ever if that was nothing |
| `TrieSync.Sync.Settle` | trie/sync.go:111-120 | stored at once exactly if nothing is missing, and otherwise it waits |
| `TrieSync.Flush` | trie/sync.go:223-229 | the entries before the failing write are on disk, in order, and all counts stay right |
| `TrieSync.Sync.Missing` | trie/sync.go:127-133 | hands out queued hashes, the deepest first, at most the number asked for, and all if no number is given |
| `TrieSync.Sync.Commit` | trie/sync.go:223-234 | the batch is written in order; after every single write, also if a later one fails, every entry has in the database what it was first asked for, and every entry that anybody refers to as a node has its children, if no hash is referred to both as raw data and as a node and no callback has failed |
| `TrieSync.NothingPending` | trie/sync.go:65-220 | when nothing is queued and everything handed out has been processed, without a callback that failed before announcing anything: no request is left if and only if no requests wait for each other in a circle |
| `SyncSteps.WriteClosed` | trie/sync.go:223-234 | writing the next entry of the batch leaves every entry with what it was first asked for |
| `SyncSteps.NoEnd` | trie/sync.go:202-220 | if every pending request waits for something, some of them wait for each other in a circle |
| `SyncSteps.PendingCycle` | trie/sync.go:65-220 | the same both ways on the state of the scheduler |
| `SyncSteps.Deepest` | trie/sync.go:127-133 | a queue entry of greatest depth |
| `SyncSteps.ScheduleOk` | trie/sync.go:65-75 | scheduling merges parents of the same hash without losing a count |
| `SyncBook.OccAdd` | trie/sync.go:65-75 | a new request adds its parents to the occurrences counted |
| `SyncBook.LowerLinks` | trie/sync.go:210-218 | breaking one link keeps counters and occurrences equal |
| `SyncUses.ProcessedArrived` | trie/sync.go:77-124 | a result that is taken adds its data and changes no other, and every hash asked for stays asked for or is there; a result that is refused changes nothing |
| `SyncUses.ProcessedNoted` | trie/sync.go:77-124 | after a result every reference made by any entry is noted, and with each entry the reference that decided its kind |
| `SyncUses.NodeClosedExactly` | trie/sync.go:65-75 | everything referred to as a node has its children in the database if and only if this holds of those entries that were first asked for as raw data or whose callback failed |
| `SyncUses.NodeClosedWhen` | trie/sync.go:65-75 | without failed callbacks: children are there if nothing is both raw data and a node; all that anybody expects of an entry is there if everything is referred to in one way |
| `SyncCases.RawFirst` | trie/sync.go:65-97 | the input on which it fails: a root whose leaf announces its child as raw data; all data is genuine and nothing is left to do, but the child of that node is not in the database |
| `SyncCases.FailedCallback` | trie/sync.go:104-110 | a callback that announces an entry and then fails: once that entry has arrived, the node is written without its children |
| `SyncCases.SelfReference` | trie/sync.go:99-120 | data that refers to the hash it is delivered for: the request waits for itself, with nothing queued or handed out |
| `SyncCases.SelfForever` | trie/sync.go:81-89 | after that no result changes anything |
| `SyncComplete.BigChild` | trie/sync.go:237-296 | the children a node refers to by hash are among what the scheduler fetches for it |
| `SyncComplete.ClosedStores` | trie/sync.go:223-234 | a database whose entries have what they were asked for, and that has the root of a trie whose nodes were asked for as nodes, has the whole trie |
| `SyncWhole.Perform` | trie/sync.go:77-234 | one call of Missing, Process or Commit: nothing asked for is forgotten, and all data is what was delivered |
| `SyncWhole.Run` | trie/sync.go:77-234 | the same for any calls in any order |
| `SyncWhole.NoneLeft` | trie/sync.go:65-220 | in terms of the data delivered: if it does not refer to itself in a circle, nothing is pending when all that was handed out has been processed |
| `SyncWhole.FinishedStores` | trie/sync.go:53-234 | when nothing is queued, handed out or unwritten, the database has the whole trie, if no callback failed, none announces one of its nodes as raw data, and the data delivered does not refer to itself in a circle |
| `SyncWhole.SyncTrie` | trie/sync.go:53-234 | the same from NewSync on, for any calls in any order |
| `SyncDrive.ServedStep` | trie/sync.go:77-124 | a result for a hash that was handed out, with data that has all it refers to, is never refused, and what is asked for afterwards can be had again and is queued once |
| `SyncDrive.ProcessAll` | trie/sync.go:77-124 | Process on the data for everything handed out refuses nothing |
| `SyncDrive.Round` | trie/sync.go:77-234 | fetching, processing and writing all that is missing: less is left to arrive |
| `SyncDrive.Drive` | trie/sync.go:77-234 | such rounds come to an end, with nothing queued, handed out or unwritten |
| `SyncDrive.SyncToEnd` | trie/sync.go:53-234 | a sync into an empty database from data that has all it refers to, with callbacks that succeed, ends; nothing is pending, and the whole trie is there |
| `SyncPlain.NoCircle` | trie/sync.go:237-296 | the nodes of one trie without collisions never refer to each other in a circle |
| `SyncPlain.SyncOne` | trie/sync.go:53-234 | a sync of one trie without callback into an empty database, with any calls in any order: when it is finished nothing is pending and the whole trie is there |
| `SyncPlain.TreeComplete` | trie/sync.go:237-296 | the nodes of a trie have all that they refer to |
| `SyncPlain.SyncOneToEnd` | trie/sync.go:53-234 | the sync of one trie without callback, by asking for what is missing until nothing is, ends, and the whole trie is there |
| `TrieDatabase.Database.constructor` | trie/database.go:44-52 | lookups find what is on disk, and an empty entry for the zero hash |
| `TrieDatabase.Database.Insert` | trie/database.go:73-93 | the node can be looked up, and no other lookup changes |
| `TrieDatabase.Database.Reference` | trie/database.go:102-117 | the parent keeps the child if that is cached, what is kept already stays, and no lookup changes |
| `TrieDatabase.Database.Store` | trie/hasher.go:147-166 | a node stored after its children keeps every one that is not on disk |
| `TrieDatabase.Database.Flush` | trie/database.go:148-153 | the batch is on disk, or nothing has been written |
| `TrieDatabase.Database.Put` | trie/database.go:182-192 | the pair is in the batch or on disk |
| `TrieDatabase.Database.CommitNode` | trie/database.go:167-194 | every cached node below is saved, children before parents, so that the disk never has a node without its children |
| `TrieDatabase.Database.Uncache` | trie/database.go:196-216 | exactly the nodes reachable from this one leave the cache |
| `TrieDatabase.Database.Commit` | trie/database.go:119-165 | no lookup changes, whether the commit succeeds or a write fails; after success the nodes are on disk; in both cases every node on disk has its children there, if that was so before and cached nodes keep their children |
| `TrieDatabase.Database.CommitPreimages` | trie/database.go:124-138 | writing preimages disturbs no node |
| `TrieDatabase.SecureKey` | trie/database.go:218-222 | preimage keys have 43 bytes and so never meet node keys |
| `TrieDatabase.ReachDownClosed` | trie/database.go:167-216 | what commit and uncache visit is closed under cached children |
| `TrieDurable.Reopen` | trie/trie.go:76-92 | a trie opened after Database.Commit has the content it had before, whether or not a write failed |
| `TrieDurable.Durable` | trie/database.go:119-216 | a disk where every node has its children and that has the root of a trie has the whole trie |
| `TrieDurable.Restart` | trie/trie.go:76-92 | after a Commit that succeeds, a trie opened in a new database on the same disk has the whole content |
| `TrieCommit.StoreInto` | trie/hasher.go:125-185 | with a database, store replaces and writes the same as on a map, and the node is stored after its children |
| `TrieCommit.HashInto` | trie/hasher.go:36-75 | hashing with a database gives the same nodes and the same lookups as on a map, and leaves a cache whose nodes keep their children |
| `TrieCommit.ChildrenInto` | trie/hasher.go:77-123 | the same for the children of a node |
| `TrieCommit.CommitThrough` | trie/trie.go:438-450 | committing a trie through the database: the trie and the database agree, and the root can be loaded |
| `TrieCommit.WriteOut` | trie/database.go:119-165 | a Commit of the database for any hash, whether or not it succeeds, keeps all that |
| `TrieCommit.Live` | trie/trie.go:76-450 | any sequence of trie operations, trie commits and database commits, from an empty trie on a new database: the content is the expected map, every cached node keeps its children and every node on disk has them there |
| `TrieCommit.Survives` | trie/trie.go:76-92 | after any such sequence, a trie commit and a database commit that succeeds, a trie opened in a new database on the same disk has the whole content |
| `StateWorld.UndoSame` | core/state/journal.go:97-174 | what an entry undoes does not depend on what no getter can see |
| `StateWorld.StepCreate` | core/state/journal.go:97-100 | undoing a creation makes the account disappear again |
| `StateWorld.StepObj` | core/state/journal.go:106-174 | undoing any change of an account restores everything observable of it |
| `StateWorld.StepRefund` | core/state/journal.go:160-162 | undoing a refund restores the counter |
| `StateWorld.StepTouch` | core/state/journal.go:122-126 | undoing a touch changes nothing observable |
| `StateWorld.LoadSame` | core/state/statedb.go:135-158 | loading an account into the cache cannot be observed |
| `StateDB.StateDB.constructor` | core/state/statedb.go:45-57 | a state on an account trie, without snapshots |
| `StateDB.StateDB.Record` | core/state/journal.go:27-32 | the journal remains able to undo everything, and the dirty counts stay right |
| `StateDB.StateDB.Snapshot` | core/state/statedb.go:64-69 | a new id greater than all others, standing for the present state |
| `StateDB.StateDB.RevertToSnapshot` | core/state/statedb.go:71-84 | existence, balance, nonce, code, storage, suicide flag and refund are as they were at the snapshot, if that is newer than the last Finalise, and otherwise as they were when the present journal had as many entries as the snapshot says; later snapshots are gone, earlier ones stay; fails exactly if there is no such snapshot or no such index |
| `StateDB.UndoAll` | core/state/journal.go:38-50 | undoing from the end down to an index restores the state at that index and the dirty counts |
| `StateDB.Search` | core/state/statedb.go:71-84 | the position of an id among sorted snapshots |
| `StateDB.StateDB.Load` | core/state/statedb.go:135-158 | the account as observed, with no observable effect |
| `StateDB.StateDB.Exist` | core/state/statedb.go:344-346 | whether there is an account, with no observable effect |
| `StateDB.StateDB.GetBalance` | core/state/statedb.go:348-354 | the balance, with no observable effect |
| `StateDB.StateDB.HasSuicided` | core/state/statedb.go:410-416 | the suicide flag, with no observable effect |
| `StateDB.StateDB.GetCode` | core/state/statedb.go:356-362 | the code, with no observable effect although it is cached |
| `StateDB.StateDB.GetState` | core/state/statedb.go:238-244 | the storage value, with no observable effect although it is cached |
| `StateDB.StateDB.Create` | core/state/statedb.go:105-116 | a blank account there, no other account changed, undoable |
| `StateDB.StateDB.GetOrNew` | core/state/statedb.go:125-131 | the account or a new one, no other account changed, undoable |
| `StateDB.StateDB.SetNonce` | core/state/state_object.go:141-147 | only the nonce of this account changes, undoable |
| `StateDB.StateDB.SetBalance` | core/state/state_object.go:174-180 | only the balance of this account changes, undoable |
| `StateDB.StateDB.AddBalance` | core/state/state_object.go:157-165 | only the balance of this account changes, by the amount, undoable |
| `StateDB.StateDB.SubBalance` | core/state/state_object.go:167-172 | only the balance of this account changes, by the amount, undoable |
| `StateDB.StateDB.Touch` | core/state/state_object.go:124-131 | nothing observable changes, undoable |
| `StateDB.StateDB.SetStorage` | core/state/state_object.go:216-223 | only this storage entry changes, undoable |
| `StateDB.StateDB.SetCode` | core/state/state_object.go:230-238 | only code and code hash of this account change, undoable |
| `StateDB.StateDB.CreateAccount` | core/state/statedb.go:118-123 | a blank account that keeps the balance, undoable |
| `StateDB.StateDB.Suicide` | core/state/statedb.go:418-432 | marks the account and takes its balance, false exactly if there is none, undoable |
| `StateDB.StateDB.AddRefund` | core/state/statedb.go:401-404 | adds to the 64-bit counter, undoable |
| `StateDB.StateDB.Finalise` | core/state/statedb.go:271-295 | of the dirty accounts exactly the suicided ones, and the empty ones if wanted, disappear; every other account looks as before; the refund counter is zero |
| `StateDB.OlderSnapshots` | core/state/statedb.go:271-295 | a snapshot after a Finalise keeps the list sorted by journal index if and only if all older snapshots stand at index zero |
| `StateDB.LostSnapshot` | core/state/statedb.go:71-84 | a snapshot of a journal with entries cannot be reverted to after a Finalise |
| `StateDB.StaleSnapshot` | core/state/statedb.go:71-84 | a snapshot of an empty journal can be reverted to after a Finalise, and a nonce set in between stays |
| `StateDB.Perform` | core/state/statedb.go:64-432 | any single operation leaves earlier snapshots usable |
| `StateDB.Attempt` | core/state/statedb.go:64-84 | snapshot, any interleaving of changes, reads of state, code, balance, existence and suicide flag, nested snapshots and nested reverts, then revert: nothing observable has changed |
| `EvmMemory.ToWordSize` | core/vm/common.go:22-29 | bytes rounded up to whole words |
| `EvmMemory.FeeExact` | core/vm/gas_table.go:9-34 | for every size that can be paid for, the computed fee is 3w + w*w/512 if and only if w is below 2^32 |
| `EvmMemory.FeeGrows` | core/vm/gas_table.go:9-34 | more memory costs more |
| `EvmMemory.Memory.constructor` | core/vm/memory.go:8-10 | empty memory, nothing paid |
| `EvmMemory.Memory.GasCost` | core/vm/gas_table.go:9-34 | the fees charged telescope: all paid so far is the exact fee for the present size, without wrap-around, up to 2^32 - 1 words |
| `EvmMemory.Memory.Resize` | core/vm/memory.go:26-30 | old contents stay, new bytes are zero |
| `EvmMemory.Memory.Set` | core/vm/memory.go:16-24 | the region holds the bytes and nothing else changes |
| `EvmMemory.Memory.Read` | core/vm/memory.go:33-57 | the bytes of the region |
| `EvmOps.MemorySize` | core/vm/interpreter.go:104-115 | whole words, enough for what the instruction touches, zero exactly if it touches nothing |
| `EvmOps.GetData` | core/vm/common.go:40-58 | the bytes from an offset on, zeroes beyond the end |
| `EvmOps.RightPad` | common/bytes.go:108-117 | at least the size asked for |
| `EvmOps.Bytes32Inverse` | core/vm/instructions.go:111-126 | a word stored as 32 bytes is read back as the same word |
| `EvmState.TotalChange` | core/evm.go:25-28 | a change of one account changes the sum of all balances by the change of its balance |
| `EvmState.RevertBeyond` | core/state/statedb.go:71-84 | reverting to a snapshot leaves all older ones usable |
| `Evm.PlainGas` | core/vm/gas_table.go:36-173 | a price below 2^64, and positive for every instruction that does not halt |
| `Evm.CallCodeGas` | core/vm/gas_table.go:175-197 | the price covers the gas handed on, the call itself and the transfer |
| `Evm.Machine.constructor` | core/vm/evm.go:50-59 | a machine on a state, at depth zero |
| `Evm.Machine.Price` | core/vm/interpreter.go:117-121 | the table price plus the memory fee just paid; positive unless the instruction halts |
| `Evm.Machine.PriceStore` | core/vm/gas_table.go:77-94 | set, clear or reset price by old and new value; only clearing adds to the refund; nothing else shows |
| `Evm.Machine.PriceSuicide` | core/vm/gas_table.go:136-142 | a refund exactly if the contract has not suicided before; nothing else shows |
| `Evm.Machine.ExecPlain` | core/vm/instructions.go:20-215 | stack, memory, next position and halting of each instruction; a crash exactly for JUMPI on a stack of one element |
| `Evm.Machine.Writing` | core/vm/instructions.go:102-117 | MSTORE, MSTORE8 and CALLDATACOPY change exactly their region |
| `Evm.Machine.ExecState` | core/vm/instructions.go:90-167 | SLOAD reads without observable effect, SSTORE changes one entry, SELFDESTRUCT empties the account |
| `Evm.Machine.SelfDestruct` | core/vm/instructions.go:146-154 | the heir gets the balance and the sum of balances stays, unless the heir is the contract itself, when its balance is lost; the account is marked |
| `Evm.EffectSuicide` | core/vm/instructions.go:146-154 | self-destruction never raises the sum of balances, also if the contract is its own heir |
| `Evm.Machine.Rollback` | core/vm/evm.go:107-112 | nothing observable is left of what happened since the snapshot |
| `Evm.Machine.Step` | core/vm/interpreter.go:83-154 | a refused instruction fails with its reason and changes nothing; one that does not halt strictly lowers the gas by its price; stack, memory and position are as the instruction says; no balance is made; under StaticCall nothing observable changes |
| `Evm.Machine.Execute` | core/vm/interpreter.go:131-153 | the same once the gas is paid |
| `Evm.Machine.ExecCall` | core/vm/instructions.go:217-243 | after a nested call the caller has strictly less gas than before it, 0 or 1 on the stack, and with 0 nothing observable has changed; memory changes only in the return region |
| `Evm.Machine.Run` | core/vm/interpreter.go:42-156 | every run ends, with gas as the measure, and gas never rises |
| `Evm.Machine.RunContract` | core/vm/evm.go:187-197 | the same for precompiled contracts |
| `Evm.Machine.Guarded` | core/vm/evm.go:129-147 | a failed run is rolled back completely and uses all its gas |
| `Evm.Machine.CallCode` | core/vm/evm.go:116-148 | on an error nothing observable has changed; gas and the sum of balances never rise |
| `Evm.Machine.StaticCall` | core/vm/evm.go:150-184 | nothing observable changes, whatever the code does and however it ends |
| `Evm.Machine.Call` | core/vm/evm.go:66-114 | on an error nothing observable has changed, refunds and nested calls included; the sum of all balances never rises; gas never rises |
| `Evm.Machine.RunTransferred` | core/vm/evm.go:91-113 | the call after the transfer, rolled back to before the transfer if it fails |
| `Evm.Machine.Transfer` | core/evm.go:25-28 | exactly the two balances change, by the value, and the sum stays |
| `Evm.EffectTransfer` | core/evm.go:25-28 | the sum of balances is kept, also if payer and payee are the same |
| `Sponge.Padding` | crypto/sha3/sha3.go:98-121 | one to rate bytes that complete the last block |
| `Sponge.AbsorbSplit` | crypto/sha3/sha3.go:125-157 | absorbing whole blocks and then the rest is absorbing all at once |
| `Sponge.SqueezeStream` | crypto/sha3/sha3.go:160-181 | outputs of all lengths are prefixes of one stream |
| `Sponge.State.constructor` | crypto/sha3/hashes.go:15-39 | a sponge that has seen nothing |
| `Sponge.State.Reset` | crypto/sha3/sha3.go:57-64 | back to a sponge that has seen nothing |
| `Sponge.State.PadAndPermute` | crypto/sha3/sha3.go:98-121 | the padded message is absorbed and its first block of output is ready |
| `Sponge.State.Round` | crypto/sha3/sha3.go:134-154 | fast and slow path both extend the message by exactly the bytes taken |
| `Sponge.State.Write` | crypto/sha3/sha3.go:125-157 | the message absorbed grows by the bytes written; panics exactly after the first read |
| `Sponge.State.Read` | crypto/sha3/sha3.go:160-181 | the bytes are the next ones of the one-shot output for everything written |
| `Sponge.State.Clone` | crypto/sha3/sha3.go:66-75 | an exact copy while absorbing; while squeezing it panics exactly if fewer bytes of the block were read than the storage exceeds the rate, and otherwise the copy falls back by that difference |
| `Sponge.State.Sum` | crypto/sha3/sha3.go:185-192 | while absorbing, the one-shot digest of everything written so far, and the sponge itself is unchanged |
| `Sponge.Hash` | crypto/sha3/sha3.go:125-192 | for every cut of the input into writes, every cut of the output into reads and any sums in between, the output is that of the one-shot sponge |
| `Protocols.Sort` | p2p/protocol.go:10-24 | capabilities sorted by name and version, none lost or added |
| `Protocols.First` | p2p/peer.go:97-98 | the first protocol with this name and version, if there is one |
| `Protocols.Search` | p2p/peer.go:97-107 | the inner loop finds that protocol |
| `Protocols.MatchProtocols` | p2p/peer.go:90-112 | every shared name has an entry for its highest shared version, and in the order of names each range of codes starts where the one before ends, from 16 on |
| `Protocols.TiledStep` | p2p/peer.go:99-104 | a higher version takes over the place of the lower one without leaving a gap |
| `Protocols.BestStep` | p2p/peer.go:95-109 | the last match for a name is the one with the highest version |
| `Protocols.Tiles` | p2p/peer.go:90-112 | exactly the codes from 16 to the sum of the lengths are covered, if they fit 64 bits |
| `Protocols.GetProto` | p2p/peer.go:256-263 | a protocol whose range covers the code, or none exactly if there is none |
| `Protocols.Multiplexed` | p2p/peer.go:53-112 | every code written by every protocol is covered by that protocol alone, lies above the base protocol and is read back unchanged, if and only if 16 plus the lengths of the highest shared versions is below 2^64 |
| `Protocols.SpanNeeded` | p2p/peer.go:53-112 | the codes dealt out are as many as the highest shared versions have, which protocols and capabilities determine |
| `Protocols.Overflow` | p2p/peer.go:53-112 | a single protocol of 2^64 - 16 codes, of which some do not arrive |
| `Protocols.SameOrder` | p2p/peer.go:90-112 | the order of names does not depend on the list they came from |
| `Protocols.SameVersions` | p2p/peer.go:90-112 | both peers settle on the same version of each protocol |
| `Protocols.Peers` | p2p/peer.go:90-112 | two peers that advertise what they implement and agree on lengths compute the same names, versions and offsets |
| `Protocols.Exchange` | p2p/peer.go:53-112 | a code written on one side reaches the protocol of the same name with the same code on the other |
| `DialPlan.MinIndex` | p2p/dial.go:75-77 | an entry that expires first |
| `DialPlan.Expire` | p2p/dial.go:102-106 | exactly the entries that expire before now are dropped |
| `DialPlan.Remove` | p2p/dial.go:83-91 | the first entry of the node is dropped, and whether there was one |
| `DialPlan.Contains` | p2p/dial.go:93-100 | whether the node has an entry |
| `DialPlan.GreedyOk` | p2p/dial.go:230-247 | the nodes picked are new, distinct and within the quota; candidates stay only if the quota is used up |
| `DialPlan.GreedyTakes` | p2p/dial.go:230-247 | no candidate looked at is passed over unless it was busy |
| `DialPlan.ChooseOk` | p2p/dial.go:218-248 | boot, random and lookup picks together never exceed the open slots, and slots stay open only if the lookup results are used up |
| `DialPlan.AddDialKeeps` | p2p/dial.go:179-188 | a new dial for a free node keeps tasks and dialing table in agreement and the dynamic nodes within their limit |
| `DialPlan.DialDoneKeeps` | p2p/dial.go:159-163 | a finished dial leaves the table and enters the history, one entry per node |
| `DialPlan.JoinKeeps` | p2p/server.go:300-308 | a node that joins by its own dial does not raise the number of dynamic nodes |
| `DialPlan.LogStep` | p2p/dial.go:159-283 | until it expires or is removed, the history has an entry for every finished dial |
| `Dial.DialState.constructor` | p2p/dial.go:130-148 | nothing dialed, nothing in the history, the static nodes listed |
| `Dial.DialState.RemoveStatic` | p2p/dial.go:154-157 | off the static list, and one entry less in the history |
| `Dial.DialState.CheckDial` | p2p/dial.go:272-283 | free exactly if neither dialing nor connected nor in the history, with the first of these as the error |
| `Dial.DialState.TaskDone` | p2p/dial.go:159-168 | what a finished task changes |
| `Dial.DialState.AddDial` | p2p/dial.go:179-188 | a task and a table entry exactly if the node is free |
| `Dial.DialState.DialStatic` | p2p/dial.go:207-216 | a task for exactly the static nodes that are free, in any order |
| `Dial.DialState.DialBoot` | p2p/dial.go:219-228 | the first boot node moves to the end and is dialed if it is free |
| `Dial.DialState.DialFirst` | p2p/dial.go:231-239 | the free ones among the first random candidates, in order |
| `Dial.DialState.DialLookup` | p2p/dial.go:242-248 | the free ones among the lookup results, in order, while slots are open; what was not looked at stays |
| `Dial.CountDynamic` | p2p/dial.go:190-202 | the number of dynamic nodes in a table |
| `Dial.DialState.DialDynamic` | p2p/dial.go:218-248 | boot node, random nodes and lookup results together are the picks of the plan |
| `Dial.DialState.Slots` | p2p/dial.go:190-202 | the limit less connected and dialing dynamic nodes |
| `Dial.DialState.TopUp` | p2p/dial.go:251-261 | a lookup exactly if too few candidates are left and none runs; a wait until the first expiry exactly if there is nothing else |
| `Dial.DialState.NewTasks` | p2p/dial.go:170-264 | one round of planning agrees with the plan put together from these parts |
| `DialLoop.PlannedKeeps` | p2p/dial.go:170-264 | a round keeps all that holds of the outstanding tasks, and dials nobody who is connected, dialing or in the history |
| `DialLoop.Fills` | p2p/dial.go:190-255 | after a round no slot is open unless a lookup is on its way |
| `DialLoop.Server.constructor` | p2p/server.go:223-231 | no peers and no tasks |
| `DialLoop.Server.StartTasks` | p2p/server.go:241-253 | starts tasks in order up to 16 running, and returns the rest |
| `DialLoop.Server.ScheduleTasks` | p2p/server.go:254-263 | waiting tasks come first; new ones are made only if there is room; every task created is running or queued |
| `DialLoop.Server.DelTask` | p2p/server.go:233-240 | exactly one occurrence leaves the running tasks |
| `DialLoop.Server.TaskDone` | p2p/server.go:289-292 | a finished task is no longer outstanding, and the dial state has noted it |
| `DialLoop.Server.AddPeer` | p2p/server.go:300-308 | a peer unless it is one already or is this node; the dynamic nodes stay within their limit |
| `DialLoop.Server.AddStatic` | p2p/dial.go:150-152 | the static list changes and nothing else |
| `DialLoop.Server.RemoveStatic` | p2p/dial.go:154-157 | the node is off the list and can be dialed again at once |
| `DialLoop.Handle` | p2p/server.go:271-315 | any event keeps everything that holds between rounds; signals that only start a dial outside the tasks change nothing here |
| `DialLoop.Run` | p2p/server.go:223-316 | every run of rounds and events, in any order, keeps everything that holds between rounds |
| `DialLoop.Safety` | p2p/server.go:223-316 | what that means: dynamic nodes within the limit; no node with two outstanding dial tasks; every created task queued, running or finished, exactly once; a lookup marked as running exactly if one is outstanding; no dial task for a node before its history entry has expired at a round or was removed (a node given to addstatic is dialed outside the tasks) |

## Left out

- RLP for Go types: reflection, the type cache, struct tags, big integers, `Stream.Uint`, `Bool` and `Raw`; values are byte strings and lists.
- RlpDecode.DecodeBytes: inputs of 2^64 bytes and more are not covered; a Go slice cannot be that long.
- Trie.Trie.TryUpdate: keys and values of 2^60 bytes and more are not covered, so that node encodings stay below 2^64 bytes.
- Trie.Trie.Commit: asks that the encodings committed do not collide with each other or with what the database holds under their hashes.
- TrieEntries.NewNodeIterator: asks that the root hash is not the hash of the empty string, for which the source returns an iterator without a trie.
- TrieEntries.Entries: is stated for a database that lacks no node; with missing nodes `TrieWalk.NodeIterator.Next` and `Seek` say what has been visited up to the error.
- TrieWalk.NodeIterator.Next: what a call without descending does after a failed seek is not specified beyond keeping the iterator valid.
- Iterators copy the root, its hash and the database when they are created; updates of the trie during an iteration are not modelled. Parent hashes, leaf proofs, Prove and the union iterator are not modelled.
- The debug output in decodeNode, error wrapping, and the texts of all errors.
- Request objects of the sync scheduler are named by their hash rather than by reference, and the queue by what it hands out (a deepest entry).
- TrieSync.Sync.AddSubTrie: is modelled without a parent from outside and with the request's own node as parent inside callbacks; other parents are not modelled.
- TrieSync.Sync.Process: a node with an empty compact key counts as a bad node; decoding it makes the source panic.
- DialLoop.Server.StartTasks: formatting a task for the log, which does not end for a wait task, is not modelled.
- TrieSync.Sync.Commit: the writer is the same database the scheduler reads.
- SyncWhole.FinishedStores: asks that no callback has failed and none announces a node of the trie as raw data; `SyncCases` has runs where one of these does not hold and the trie is incomplete.
- SyncWhole.SyncTrie: speaks of runs that have come to an end, in any order of calls; that a sync comes to an end is proved for the loop of `SyncDrive.Drive`, with writes that succeed.
- Flush list, reference counts and size counters of the node database.
- TrieDatabase.Database.Commit: asks for ranks that fall along the references made with `reference`, since on a circle the recursion of the source does not end; in `TrieCommit.Live` the sizes of the trees are such ranks.
- TrieDurable.Restart: asks that cached nodes keep their children; `TrieCommit.Survives` has it without that, from a new database on.
- TrieCommit.HashInto: the leaf callback of a commit is not modelled, and the database is assumed to lack no node of the trie.
- TrieDatabase.Database.Commit: speaks of 32-byte keys only, since preimages are written under longer ones.
- State objects are values in a map rather than shared objects. Storage tries, code database, Commit to disk, Copy, preimages and database errors are not modelled.
- StateDB.StateDB.RevertToSnapshot: an old index beyond the end of the journal counts as a panic, also where the capacity of the slice would let the source go on with entries that are not there.
- Evm.Machine.Call: is not modelled while writing is forbidden; no instruction leads there.
- Evm.Machine.RunContract: precompiled contracts are functions of address and input, and the call stipend is a parameter of at most 9000.
- Return data between calls, tracing, the abort flag, object pools, and the jump destination cache, which is a scan of the code here.
- Sponge.State.Sum: while squeezing it describes what the source does, which is not the digest of the message.
- Lanes of the permutation are bytes in order; the permutation itself, its assembly and the unaligned exclusive-or are not modelled.
- Protocols.MatchProtocols: the list of capabilities is returned sorted instead of being sorted in place, and channels are not modelled.
- DialPlan.MinIndex: stands for the front of the heap; the sift operations of the heap are not modelled.
- DialLoop.Server.AddPeer: asks that a dynamic connection belongs to a running dial of that node, as connections are set up inside their dial task.
- Tasks are named by kind, target and flags instead of by reference; outstanding tasks are proved to be distinct. What a dial or a lookup does on the network is not modelled.
- Peer discovery, RLPx handshakes and their cryptography, the RPC layer, node configuration, logging and command line tools.
