# Verified models of six components

This project models six parts of the repository in Dafny and proves what they promise, over all
inputs and all runs.

**Compressed B-tree chunks** (`IntCodec`, `PairCodec`, `SortedPairs`, `BtreeSteps`,
`BtreeSearch`, `CompressedBtree`). Berkeley DB stores sorted key/data pairs as chunks of an
ordinary B-tree. A chunk is keyed by its first pair, and every other pair in it is prefix-coded
against the one before. `CompressedBtree.Cursor` has the fields of the C cursor: two
decompression slots, pointers to the current and the previous one, and byte offsets into the
chunk. Its merges, walks and look-ups are proved against plain sorted sequences.
`SortedPairs.InsertAll` and `RemoveAll` say what a merge must leave, and four lemmas beside
them say that by membership alone, also for a merge that stops early. `BtreeSearch.LookUp` says
what a look-up must find. The comparison function is any total preorder on pairs, given by a
rank in the reals: every total preorder on a countable set has one.

**Block tree and block synchronisation** (`BlockTree`, `PowProtocol`, `PowSync`). The ledger is a map from
hash to parent and index, with a first-seen longest-chain tip. The four message handlers are
methods of `ProtocolLayerPoW`, each proved equal to a reaction function, and a network of nodes
that react so is a state machine: candidates are made, blocks are mined, messages are delivered
in any order, delayed or lost. A block hash names one block, all nodes share one genesis block,
and no message is forged. The code's run-time assertions are an outcome of the model
(`AssertionFailed`, `None`), and no run reaches it.

**Event loop** (`EvPending`, `EvTimers`, `EvFd`, `EvLoop`). libev's pending stacks with
cancellation in place, its 4-ary timer heap with back-pointers, timer expiry, its collected
file-descriptor changes feeding the poll array, and the loop that puts them together, with
callbacks that start and stop watchers of all kinds. A ghost trace of feeds, clears and
invocations gives pending events a meaning that does not mention the stacks. The invariants are
those that `ev_verify` asserts (external/libev/4.33/ev.c:3571-3593, 3609-3691), and more.
Deadlines are reals.

**Wide integers** (`Arithmetic`, `UInt128`, `UInt256`, `HashKey`). 128-bit integers from two
64-bit words, and 256-bit ones from two of those, against integers modulo 2^128 and 2^256.
Wrap-around is written out. `HashKey` has the byte constructors and the strings that ledger
keys are.

**SHA-256** (`Sha256`, `Sha256Example`). The streaming context against the definition of FIPS 180-4 over a whole
message: padding (section 5.1.1), message schedule and compression (section 6.2.2), and the
constants of sections 4.2.2 and 5.3.3, which are proved to be the root bits of the first 64 and
the first eight primes.

**Framed channel** (`Framing`, `Channel`). A send queue with partial writes, a network that
cuts the bytes as it likes, and a receive buffer with an incremental parser, for BLEEP and for
Bitcoin frames.

In five places the code does not do what a reader may expect. The wide-integer operators that
take a machine integer add or subtract it if and only if it is not negative, because a negative
one is turned into a 64-bit word first (`UInt128.MachineMeans`, `UInt256.Machine256Means`). The
root of the timer heap is its own parent only because C divides toward zero; rounding down
would give the slot before it (`EvTimers.ParentSlots`). The BLEEP parser compares a signed
length as an unsigned one, so that a header with a length from -12 to -1, and nothing else,
makes it read outside its buffer (`Framing.BrokenIff`); no sender writes such a header. An
empty BLEEP message is never taken off the buffer, and everything sent behind it waits there
for ever (`Framing.ChannelDelivers`). And an error that a single write reports ends the
process, which happens exactly when `Channel.ExitsIff` says.

`ByteStrings`, `Arithmetic` and `Wrappers` hold what several components share.

## Model

| member | source | states |
|---|---|---|
| IntCodec.CountInt | external/bdb/4.8.30/common/db_compint.c:113-135 | An encoding has 1 to 9 bytes, and a positive number is never shorter than its own encoding. |
| IntCodec.CountClasses | external/bdb/4.8.30/common/db_compint.c:19-31 | The largest number of each length is the sum of powers of two that the table at the head of the source gives. |
| IntCodec.CountMonotone | external/bdb/4.8.30/common/db_compint.c:113-135 | A larger number never has a shorter encoding. |
| IntCodec.CountSubadditive | external/bdb/4.8.30/common/db_compint.c:113-135 | Splitting a number in two never makes the encodings shorter together. |
| IntCodec.CountGrowth | external/bdb/4.8.30/common/db_compint.c:113-135 | Growing a number by d lengthens its encoding by at most d bytes. |
| IntCodec.CompressInt | external/bdb/4.8.30/common/db_compint.c:144-293 | The encoding has the counted length, and its first byte is below the spare marker that means a duplicate key. |
| IntCodec.EncodingSpells | external/bdb/4.8.30/common/db_compint.c:19-36 | Read as one big-endian number, an encoding is the first one of its length plus the distance to the first number of that length: so encodings count up as numbers do. |
| IntCodec.FirstByteTells | external/bdb/4.8.30/common/db_compint.c:74-104 | The first byte tells the length of every encoding, up to nine bytes, and the four bytes that start none are told apart. |
| IntCodec.IntRoundTrip | external/bdb/4.8.30/common/db_compint.c:478-553 | Every 32-bit number is read back from its encoding, and the first byte alone tells the encoding's length, whatever bytes follow. |
| PairCodec.Lcp | external/bdb/4.8.30/btree/bt_compress.c:402-408 | The two strings agree on this many bytes and cannot be seen to agree on one more. |
| PairCodec.MatchLength | external/bdb/4.8.30/btree/bt_compress.c:413-417 | The comparison loop finds the longest common prefix. |
| PairCodec.Compress | external/bdb/4.8.30/btree/bt_compress.c:390-470 | Writes the pair's encoding if that fits in the room given, and otherwise reports a small buffer and writes nothing. |
| PairCodec.EncodeDup | external/bdb/4.8.30/btree/bt_compress.c:411-442 | The duplicate form opens with the spare marker and costs one byte over prefix, suffix length and suffix of the data. |
| PairCodec.EncodeNew | external/bdb/4.8.30/btree/bt_compress.c:445-469 | The new-key form never opens with the spare marker, and its size is that of the coded key and of the data with its length. |
| PairCodec.EntryBytes | external/bdb/4.8.30/btree/bt_compress.c:411-469 | Two entries, one of each form, are these very bytes. |
| PairCodec.Decode | external/bdb/4.8.30/btree/bt_compress.c:479-584 | An accepted entry consumes at least one byte and no more than there are; anything else is refused. What is decoded is the next row. |
| PairCodec.PairRoundTrip | external/bdb/4.8.30/btree/bt_compress.c:479-584 | In both forms decoding gives back the pair and consumes exactly the bytes that encoding wrote, whatever bytes follow. |
| PairCodec.ChunkRoundTrip | external/bdb/4.8.30/btree/bt_compress.c:592-719 | Any non-empty run of pairs stored as one chunk decompresses to the same run. |
| PairCodec.ChunkInjective | external/bdb/4.8.30/btree/bt_compress.c:675-719 | Different runs never make the same chunk. |
| PairCodec.EncodeTriangle | external/bdb/4.8.30/btree/bt_compress.c:411-448 | Coding a pair against a farther predecessor costs no more than coding the pair between them and then it, in every mix of the two forms. |
| PairCodec.DeletionNeverGrows | external/bdb/4.8.30/btree/bt_compress.c:1229-1234 | Re-encoding a chunk after deleting any subset of its entries needs no more bytes than before, in any order of entries. |
| SortedPairs.InsertMeans | external/bdb/4.8.30/btree/bt_compress.c:1048-1051 | Inserting keeps the order and replaces exactly the pair that compares equal. |
| SortedPairs.InsertAllMeans | external/bdb/4.8.30/btree/bt_compress.c:914-1134 | The overwriting merge, by membership: the result is sorted and holds the stream's first copy of each pair, and every old pair that nothing in the stream compares equal to. |
| SortedPairs.InsertUniqueMeans | external/bdb/4.8.30/btree/bt_compress.c:1023-1046 | The merge that does not overwrite, by membership: it stops if and only if a pair of the stream compares equal to one held, and then exactly the pairs before the first such one have been put in. |
| SortedPairs.RemoveAllMeans | external/bdb/4.8.30/btree/bt_compress.c:1138-1321 | The delete specification, by membership: it runs to the end if and only if the stream names distinct pairs that are all held, and then exactly those are gone. |
| SortedPairs.RemoveUntilMeans | external/bdb/4.8.30/btree/bt_compress.c:1246-1256 | However a deletion ends, the pairs of the stream before the first that is missing are gone, and no others. |
| BtreeSteps.SeekLte | external/bdb/4.8.30/btree/bt_compress.c:721-758 | The seek for a whole pair, which the merges use, finds the last chunk that starts at or before it; every later one starts after it. |
| BtreeSteps.SeekSplits | external/bdb/4.8.30/btree/bt_compress.c:721-777 | Around the chunk found, everything stored before it is below the pair and everything after it above: only that chunk can hold it. |
| BtreeSteps.PlaceOf | external/bdb/4.8.30/btree/bt_compress.c:1112-1115 | A finished chunk that belongs between two stored ones is put exactly there by the B-tree's ordered put, and overwrites none. |
| BtreeSteps.KeptFits | external/bdb/4.8.30/btree/bt_compress.c:1229-1234 | An entry kept by the delete merge always fits the chunk being written. |
| BtreeSteps.FullScan | external/bdb/4.8.30/btree/bt_compress.c:1692-1731 | The steps that `Walk` ties the cursor to visit every entry once in order and then report the end. |
| BtreeSteps.BackScan | external/bdb/4.8.30/btree/bt_compress.c:1549-1611 | Steps back from nowhere visit every entry once, last to first, and then report the end and stay. |
| BtreeSteps.GapIsDeleted | external/bdb/4.8.30/btree/bt_compress.c:1692-1716 | From the gap that a deletion leaves, a step either way leads where it would have led from the entry that was deleted. |
| BtreeSteps.Retrace | external/bdb/4.8.30/btree/bt_compress.c:1549-1611 | Of the steps that `Walk` ties the cursor to, k back undo k forward. |
| BtreeSearch.StartSkips | external/bdb/4.8.30/btree/bt_compress.c:760-773 | Nothing before the chunk where a search starts is what is looked for, although duplicates of one key may span chunks: the step back that a look-up by key alone takes is enough. |
| BtreeSearch.LandsLte | external/bdb/4.8.30/btree/bt_compress.c:751-758 | For a whole pair the search starts at the chunk that the merges' seek finds. |
| BtreeSearch.SetFinds | external/bdb/4.8.30/btree/bt_compress.c:1883-1894 | DB_SET succeeds if and only if some entry's key compares equal, and finds the first such entry. |
| BtreeSearch.SetRangeFinds | external/bdb/4.8.30/btree/bt_compress.c:1841-1907 | DB_SET_RANGE succeeds if and only if some entry's key is not before the one looked for, and finds the first such entry. |
| BtreeSearch.GetBothFinds | external/bdb/4.8.30/btree/bt_compress.c:1895-1902 | DB_GET_BOTH succeeds if and only if some entry has the key and the data, where data is compared with sorted duplicates and has to be the very bytes without, and finds it. |
| BtreeSearch.GetBothRangeFinds | external/bdb/4.8.30/btree/bt_compress.c:1883-1894 | DB_GET_BOTH_RANGE succeeds if and only if some entry has the key and, with sorted duplicates, data not before the data looked for, and finds the first such entry. |
| CompressedBtree.Cursor.StartDecompress | external/bdb/4.8.30/btree/bt_compress.c:592-619 | Puts the window on the chunk's first entry, with no previous entry. |
| CompressedBtree.Cursor.NextDecompress | external/bdb/4.8.30/btree/bt_compress.c:622-669 | Moves the window one entry on and keeps the old one in the other slot, or reports the end of the chunk and changes nothing. |
| CompressedBtree.Cursor.Store | external/bdb/4.8.30/btree/bt_compress.c:675-719 | Appends the pair to the chunk being written, or refuses without a change, and refuses only a pair that would exceed the overflow size; a first pair is never refused. |
| CompressedBtree.Cursor.StorePair | external/bdb/4.8.30/btree/bt_compress.c:901-912 | The flush-on-full loop ends, and what has been written then ends in the pair, whether it went into the chunk or started a new one. |
| CompressedBtree.Cursor.OpenChunk | external/bdb/4.8.30/btree/bt_compress.c:972-1007 | The contents are those written, those in the chunk taken out and those ahead; the pair sought lies above the first and below the last. |
| CompressedBtree.Cursor.ReadDistinct | external/bdb/4.8.30/btree/bt_compress.c:1071-1089 | Skips exactly the stream's pairs that compare equal to the previous one. |
| CompressedBtree.Cursor.InsertStep | external/bdb/4.8.30/btree/bt_compress.c:1009-1110 | One turn of the inner loop keeps the merge's goal, uses up an entry of the chunk or of the stream, and leaves the pointer to the last pair stored readable. |
| CompressedBtree.Cursor.MergeInsert | external/bdb/4.8.30/btree/bt_compress.c:914-1134 | For any chunking, any overflow size and any flushes, merging a sorted stream ends, and leaves exactly the contents that the specification says, in chunks that are sorted, disjoint and fit; in the mode that does not overwrite it stops at the first pair already held. |
| CompressedBtree.Cursor.StoreKept | external/bdb/4.8.30/btree/bt_compress.c:1229-1245 | The delete merge's store, which has no flush loop, never sees a full buffer. |
| CompressedBtree.Cursor.MergeDelete | external/bdb/4.8.30/btree/bt_compress.c:1138-1321 | Deleting a sorted stream ends and leaves exactly the contents that the specification says; it reports a missing pair if and only if one stopped it. |
| CompressedBtree.Cursor.GetNext | external/bdb/4.8.30/btree/bt_compress.c:1692-1731 | Moves as the index into the flattened contents does, across chunk boundaries and after a deletion, and then reads that entry. |
| CompressedBtree.Cursor.GetPrev | external/bdb/4.8.30/btree/bt_compress.c:1549-1611 | Moves back as the index does, from the stored slot or by decompressing the chunk again, and then reads that entry. |
| CompressedBtree.Cursor.DecompressTo | external/bdb/4.8.30/btree/bt_compress.c:1599-1607 | Decompressing from the start up to a saved byte position stops on the entry that ends there. |
| CompressedBtree.Cursor.Walk | external/bdb/4.8.30/btree/bt_compress.c:1549-1731 | Any sequence of steps in any order leaves the cursor where the same steps leave an index, with the same results. |
| CompressedBtree.Cursor.SeekFor | external/bdb/4.8.30/btree/bt_compress.c:760-773 | The seek, with its step to the chunk before or to the first one, reads the chunk where the search has to start. |
| CompressedBtree.Cursor.GetSet | external/bdb/4.8.30/btree/bt_compress.c:1841-1907 | For any chunking, the look-up succeeds exactly when the contents hold an entry of the kind that the method asks for, told by the results of the comparisons alone, and leaves the cursor reading the first of them. |
| BlockTree.BlockTree.constructor | BLEEPlib/src/BL3_protocol/BlockTree.cpp:22-43 | A new ledger holds genesis alone, as tip, at height one. |
| BlockTree.BlockTree.AppendBlock | BLEEPlib/src/BL3_protocol/BlockTree.cpp:181-274 | The new state is that of the append function, about which the next lemmas are. |
| BlockTree.CandidateConsistent | BLEEPlib/src/BL3_protocol/ProtocolLayerPoW.h:68-76 | A block made by a node's candidate step fits its ledger. |
| BlockTree.AppendRooted | BLEEPlib/src/BL3_protocol/BlockTree.cpp:181-274 | Appending a fitting block keeps an acyclic tree rooted at genesis whose indices are depths, whose height is the tip's depth plus one and bounds every block's. |
| BlockTree.AppendGrows | BLEEPlib/src/BL3_protocol/BlockTree.cpp:181-274 | The block is added exactly when its parent is held, nothing else changes in the ledger, and the tip moves only to a strictly deeper block. |
| BlockTree.AppendHeld | BLEEPlib/src/BL3_protocol/BlockTree.cpp:202-220 | Appending a held block again changes nothing. |
| BlockTree.ChainUnique | BLEEPlib/src/BL3_protocol/BlockTree.cpp:276-293 | There is one walk from a block down parent links to genesis. |
| BlockTree.LocatorShape | BLEEPlib/src/BL3_protocol/BlockTree.cpp:46-95 | Every locator has at most eleven entries, all on the main chain, starts at the tip and ends in genesis. |
| BlockTree.LocatorHas | BLEEPlib/src/BL3_protocol/BlockTree.cpp:56-94 | A chain block is listed if and only if it is genesis or at one of the ten depths. |
| BlockTree.BlockTree.GetBlockLocator | BLEEPlib/src/BL3_protocol/BlockTree.cpp:46-95 | The walk with its doubling steps, and its three ways to end at genesis, lists exactly the entries at those depths and then genesis. |
| BlockTree.BlockTree.WalkUp | BLEEPlib/src/BL3_protocol/BlockTree.cpp:76-90 | Follows the doubling number of parent links, or finds that the chain is shorter than that. |
| BlockTree.BlockTree.FindCommonBlock | BLEEPlib/src/BL3_protocol/BlockTree.cpp:122-138 | Finds the first main-chain block that the locator lists; passing genesis is the failed assertion. |
| BlockTree.FirstListed | BLEEPlib/src/BL3_protocol/BlockTree.cpp:122-138 | The block found is on the chain and in the locator; none is found exactly when they share nothing. |
| BlockTree.CommonBlockExists | BLEEPlib/src/BL3_protocol/BlockTree.cpp:132-133 | With genesis in the locator the assertion of the search cannot fire. |
| BlockTree.ForkExists | BLEEPlib/src/BL3_protocol/BlockTree.cpp:122-138 | The main chains of two trees with one genesis share a tail and nothing before it. |
| BlockTree.CommonBlockNearFork | BLEEPlib/src/BL3_protocol/BlockTree.cpp:46-138 | With the fork d below the peer's tip, the search on the peer's locator returns a block of both main chains: the fork itself for d up to 4, less than 2d below the tip for d from 5 to 66, and the exact depth in every case. |
| BlockTree.BlockTree.GetChainFromBlock | BLEEPlib/src/BL3_protocol/BlockTree.cpp:140-161 | Collects the main chain down to the block given; it fails exactly when that block is not on it. |
| BlockTree.DownTo | BLEEPlib/src/BL3_protocol/BlockTree.cpp:140-161 | What is collected is a prefix of the chain that ends in the block; nothing is only when the block is not on the chain. |
| PowProtocol.ProtocolLayerPoW.RecvInv | BLEEPlib/src/BL3_protocol/ProtocolLayerPoW.cpp:52-106 | The handler of inventories reacts as the state machine's node does; its failure is the read of the first hash of an empty inventory. |
| PowProtocol.ProtocolLayerPoW.RecvGetBlocks | BLEEPlib/src/BL3_protocol/ProtocolLayerPoW.cpp:108-138 | The handler of locators reacts as the state machine's node does, assertion included; what it answers is stated by `PowSync.AnswerMeans`. |
| PowProtocol.ProtocolLayerPoW.RecvGetData | BLEEPlib/src/BL3_protocol/ProtocolLayerPoW.cpp:140-154 | The handler of requests reacts as the state machine's node does, its two assertions included. |
| PowProtocol.ProtocolLayerPoW.RecvBlk | BLEEPlib/src/BL3_protocol/ProtocolLayerPoW.cpp:157-225 | The handler of blocks reacts as the state machine's node does. |
| PowProtocol.ProtocolLayerPoW.MiningComplete | BLEEPlib/src/BL3_protocol/ProtocolLayerPoW.cpp:235-269 | The mining step reacts as the state machine's node does. |
| PowProtocol.FirstMissing | BLEEPlib/src/BL3_protocol/ProtocolLayerPoW.cpp:195-207 | The block requested is missing and everything listed before it is held; none is requested exactly when all are held. |
| PowProtocol.ReversedHeld | BLEEPlib/src/BL3_protocol/ProtocolLayerPoW.cpp:124-137 | The chain down to a block of it, reversed, is a non-empty contiguous parent chain that the node holds. |
| PowSync.AnswerMeans | BLEEPlib/src/BL3_protocol/ProtocolLayerPoW.cpp:108-138 | The answer to a locator is one inventory that starts at a block the locator lists and ends in the tip, each block the parent of the next, with no listed block after the first. |
| PowSync.AnswerUnique | BLEEPlib/src/BL3_protocol/ProtocolLayerPoW.cpp:124-137 | Only one list of blocks is such an answer, so it leaves out none. |
| PowSync.InvMeans | BLEEPlib/src/BL3_protocol/ProtocolLayerPoW.cpp:52-106 | A node that is processing ignores an inventory; one that lacks its first block asks the sender with its own locator; any other keeps it and asks for the first block it lacks, or is done when it lacks none. |
| PowSync.LocatorIs | BLEEPlib/src/BL3_protocol/BlockTree.cpp:46-95 | The locator sent lists, of the main chain, exactly the blocks 0, 1, 2, 3, 4, 6, 10, 18, 34 and 66 below the tip, and genesis. |
| PowSync.DataMeans | BLEEPlib/src/BL3_protocol/ProtocolLayerPoW.cpp:140-154 | A request fails without the block, and is answered with the block of that hash, index and parent otherwise. |
| PowSync.BlkMeans | BLEEPlib/src/BL3_protocol/ProtocolLayerPoW.cpp:157-225 | A node appends a block it does not hold; while processing it asks for the first block still missing, and once none is it announces the inventory to every neighbour but the sender, once each. |
| PowSync.MinedMeans | BLEEPlib/src/BL3_protocol/ProtocolLayerPoW.cpp:235-269 | A mined block is appended and announced to every neighbour, once each. |
| PowSync.CandidateMeans | BLEEPlib/src/BL3_protocol/ProtocolLayerPoW.h:68-76 | A candidate is made on the tip, one index above it. |
| PowSync.AnswerStarts | BLEEPlib/src/BL3_protocol/ProtocolLayerPoW.cpp:52-138 | In any run, the answer to a locator starts at a block that the node that asked holds, so an idle node takes it up. |
| PowSync.SessionBrings | BLEEPlib/src/BL3_protocol/ProtocolLayerPoW.cpp:52-225 | In any run, when the session that an answer starts is over, the node that asked holds every block of the answer and the tip that the other had when it answered, and is at least as high as that one was. |
| PowProtocol.StepSafe | BLEEPlib/src/BL3_protocol/ProtocolLayerPoW.cpp:52-273 | Every step of the network keeps: no assertion failed, every tree rooted, every inventory in flight a chain its sender holds, and every node's session in order. |
| PowProtocol.RunSafe | BLEEPlib/src/BL3_protocol/ProtocolLayerPoW.cpp:52-273 | All of that holds in every state of every run from genesis, with messages reordered, delayed or lost. |
| PowProtocol.RunExchanges | BLEEPlib/src/BL3_protocol/ProtocolLayerPoW.cpp:78-103 | In every reachable state a request or block in flight is its node's only one, the node is processing an inventory, the other end is the inventory's sender, and the block it names is held there and missing here. |
| PowProtocol.RunInventories | BLEEPlib/src/BL3_protocol/ProtocolLayerPoW.cpp:124-137 | In every reachable state an inventory in flight is a non-empty chain, each block the parent of the next, that its sender holds. |
| PowProtocol.RequestedHeld | BLEEPlib/src/BL3_protocol/ProtocolLayerPoW.cpp:147-148 | Whoever receives a request holds the block, so neither assertion fires, and the answer carries the block of that hash. |
| PowProtocol.RunNeverFails | BLEEPlib/src/BL3_protocol/ProtocolLayerPoW.cpp:119-119 | No assertion fires in any run, and every tree stays rooted in the shared genesis. |
| PowProtocol.AnswerFits | BLEEPlib/src/BL3_protocol/ProtocolLayerPoW.cpp:165-175 | A block in flight is not held by its receiver and its parent is, so the append never drops it. |
| PowProtocol.BlkProgress | BLEEPlib/src/BL3_protocol/ProtocolLayerPoW.cpp:190-211 | Each block delivered strictly lowers the number of missing inventory blocks; processing ends exactly when it is zero, and the height is then at least the last inventory block's index plus one. |
| PowProtocol.TipDeepens | BLEEPlib/src/BL3_protocol/BlockTree.cpp:219-248 | Over any step a ledger only grows, the height never falls and the tip changes only to a strictly deeper block. |
| PowProtocol.ChainsKept | BLEEPlib/src/BL3_protocol/BlockTree.cpp:181-274 | No step of the network changes the chain from a held block down to genesis. |
| EvPending.PendingQueue.FeedEvent | external/libev/4.33/ev.c:2311-2329 | Adds to the events of a pending watcher in its slot, or gives it a slot on top of its priority's stack; no watcher ever has two slots. |
| EvPending.PendingQueue.ClearPending | external/libev/4.33/ev.c:4277-4303 | Returns what the watcher was waiting with, leaves a stand-in in its slot, and moves no other slot. |
| EvPending.PendingBits | external/libev/4.33/ev.c:2311-2329 | A watcher is pending if and only if it was fed since it was last cleared or invoked, and bit by bit what is pending is what it was fed since. |
| EvPending.PendingQueue.TopIsHighest | external/libev/4.33/ev.c:3765-3770 | The watcher on top of the current stack has the highest priority pending, and its slot has all events fed since it became pending. |
| EvPending.FedAgain | external/libev/4.33/ev.c:3754-3775 | A watcher that was cleared or invoked is not invoked until it is fed again. |
| EvTimers.ParentSlots | external/libev/4.33/ev.c:2585-2587 | The parent slot is right for every slot, and the root's is the root itself because the division truncates. |
| EvTimers.Timers.Upheap | external/libev/4.33/ev.c:2669-2689 | Restores the order of a heap broken upward at one entry, keeps its entries, and leaves each timer with its slot number. |
| EvTimers.Timers.MinChild | external/libev/4.33/ev.c:2602-2618 | Both the fast and the slow path find a smallest child. |
| EvTimers.Timers.Downheap | external/libev/4.33/ev.c:2589-2631 | Restores the order of a heap broken downward at one entry, keeps its entries, and leaves each timer with its slot number. |
| EvTimers.Timers.AdjustHeap | external/libev/4.33/ev.c:2691-2699 | Restores the order when one entry was replaced by any other. |
| EvTimers.Timers.Reheap | external/libev/4.33/ev.c:2701-2711 | Makes an ordered heap of an arbitrary array, with the same entries and correct slot numbers. |
| EvTimers.RootIsLeast | external/libev/4.33/ev.c:3588-3588 | In an ordered heap no deadline is before the root's. |
| EvTimers.Timers.EntryOf | external/libev/4.33/ev.c:3585-3592 | An active timer's number is the slot of its own entry, whose cached time is the timer's. |
| EvTimers.Timers.TimerStart | external/libev/4.33/ev.c:4384-4407 | Adds exactly the timer's entry at a deadline counted from now; starting an active timer changes nothing. |
| EvTimers.Timers.TimerStop | external/libev/4.33/ev.c:4409-4438 | Takes out exactly the timer's entry, clears its pending event and leaves the time remaining. |
| EvTimers.Timers.TimerAgain | external/libev/4.33/ev.c:4440-4466 | The timer is active afterwards exactly when it repeats, due one period from now, and no other entry changes. |
| EvTimers.Timers.ExpireRoot | external/libev/4.33/ev.c:3806-3826 | The expired timer at the root is due one period after its deadline, or now if that has passed too, or is stopped if it does not repeat; no other changes. |
| EvTimers.Timers.FeedReverseDone | external/libev/4.33/ev.c:2338-2344 | Feeds the collected timers last first, so each stack has them in reverse on top. |
| EvTimers.Timers.TimersReify | external/libev/4.33/ev.c:3802-3838 | Ends; deals with exactly the active timers whose deadline has passed, once each. One that repeats is due one period after the deadline it expired at if that is not before now, and now otherwise; others are stopped. It feeds each once, leaves no deadline before now, and with nothing pending before leaves each stack with exactly its expired timers on top. |
| EvTimers.Timers.ExpireInTime | external/libev/4.33/ev.c:3816-3824 | Expiries that are each dealt with within the period after them let no drift add up: after n of them the deadline is the first one plus n periods. |
| EvTimers.Timers.PopsInOrder | external/libev/4.33/ev.c:3831-3836 | Popping a stack after that yields the timers in nondecreasing order of the deadlines they expired at. |
| EvTimers.Timers.Perform | external/libev/4.33/ev.c:3571-3593 | Any sequence of start, stop, again and expiry keeps the heap ordered, slot numbers and cached times right, and the stored timers exactly the active ones. |
| EvFd.Poll.Modify | external/libev/4.33/ev_poll.c:54-89 | The poll array keeps exactly one entry for each descriptor with a mask and the index table its place, when a mask is set, changed or removed with the last entry moved into the gap. |
| EvFd.Fds.FdChange | external/libev/4.33/ev.c:2470-2484 | A descriptor is on the change list once exactly while it has a reason to be looked at. |
| EvFd.WithoutMeans | external/libev/4.33/ev.c:4262-4275 | Unlinking takes exactly the one watcher off its list. |
| EvFd.Fds.Unlink | external/libev/4.33/ev.c:4262-4275 | Following the list to the watcher unlinks its first occurrence. |
| EvFd.Fds.IoStart | external/libev/4.33/ev.c:4331-4359 | Puts an inactive watcher at the front of its descriptor's list and no other, clears its new-descriptor flag, and keeps every invariant; starting an active one changes nothing. |
| EvFd.Fds.IoStop | external/libev/4.33/ev.c:4361-4383 | Clears the watcher's pending event, takes it off its list and no other, and keeps every invariant. |
| EvFd.Fds.Collect | external/libev/4.33/ev.c:2447-2450 | The loop over a list finds the events wanted. |
| EvFd.WantedMeans | external/libev/4.33/ev.c:2447-2450 | A list wants an event exactly when one of its watchers does. |
| EvFd.Fds.FdReify | external/libev/4.33/ev.c:2390-2468 | Every change is passed on, the list is empty afterwards, and no watcher list changes. |
| EvFd.Fds.PollExact | external/libev/4.33/ev.c:2390-2468 | After that the poll array has one entry for each descriptor that its active watchers want events of, none for any other, each with all those events. |
| EvFd.Fds.PollsWanted | external/libev/4.33/ev_poll.c:54-89 | In bits: the kernel is asked for data exactly where an active watcher of the descriptor reads, for room exactly where one writes, and for nothing else. |
| EvFd.Fds.PollPoll | external/libev/4.33/ev_poll.c:92-133 | The loop over the poll array feeds, entry by entry and watcher by watcher, what the kernel reports about each descriptor that has not changed since it was asked. |
| EvFd.Fds.ReadyIsFed | external/libev/4.33/ev.c:2358-2381 | With all changes passed on, a watcher is fed if and only if it is active and its descriptor has an entry with a report of something it waits for, and just those events. |
| EvFd.Fds.FedByBits | external/libev/4.33/ev_poll.c:125-130 | In bits: a watcher is fed reading if and only if it is active, waits for it, and its descriptor has data, an error or a hang-up; writing likewise with room; and nothing else. |
| EvLoop.Loop.Act | external/libev/4.33/ev.c:4289-4466 | Whatever a callback starts, stops, restarts, feeds or clears, timers, descriptors and the pending queue stay in order together. |
| EvLoop.Loop.InvokePending | external/libev/4.33/ev.c:3754-3775 | With callbacks that start and stop watchers of both kinds, and feed and clear, every invocation is of a watcher with the highest priority then pending and gets the union of the events fed to it since it last became pending; nothing but these invocations and what the callbacks do happens, and at the end nothing is pending. |
| EvLoop.PendingIsInvoked | external/libev/4.33/ev.c:3754-3775 | Events that were pending are passed to a callback of their watcher in that round unless a callback takes them away. |
| EvLoop.NotFedNotInvoked | external/libev/4.33/ev.c:3754-3775 | A watcher that is not pending and that no callback feeds is not called. |
| EvLoop.ClearsIff | external/libev/4.33/ev.c:4277-4303 | An action of a callback counts as clearing or feeding a watcher if and only if it can leave a clear or a feed of it behind. |
| EvLoop.Loop.ReadyBits | external/libev/4.33/ev_poll.c:125-130 | In bits, which watchers are ready for what the kernel reports, and what each gets. |
| EvLoop.Loop.TurnIsRight | external/libev/4.33/ev.c:4074-4190 | For any outcome of polling, expiry and callbacks in one turn: every watcher ready or due is called with those events unless a callback takes them away, and no other is unless it was pending or a callback feeds it. |
| EvLoop.Loop.RunOnce | external/libev/4.33/ev.c:4074-4190 | One turn keeps all invariants and leaves nothing pending. In bits of what the kernel reports and in deadlines: every watcher that was ready or due at its start is called with those events unless a callback takes them away, and one that was not pending and that no callback feeds is called only if it was, and with nothing else. |
| EvLoop.Loop.Run | external/libev/4.33/ev.c:4021-4196 | In any run of the loop every invocation is of a watcher with the highest priority pending, with all events it was waiting with. |
| UInt128.LessMeans | BLEEPlib/src/utility/UInt256.cpp:155-175 | The comparisons of words compare the numbers. |
| UInt128.AddMeans | BLEEPlib/src/utility/UInt256.cpp:186-188 | Addition with its carry test is addition modulo 2^128. |
| UInt128.SubMeans | BLEEPlib/src/utility/UInt256.cpp:190-192 | Subtraction with its borrow test is subtraction modulo 2^128. |
| UInt128.MachineMeans | BLEEPlib/src/utility/UInt256.h:155-165 | Adding or subtracting a machine integer gives the sum or difference modulo 2^128 if and only if the integer is not negative. |
| UInt128.ShlMeans | BLEEPlib/src/utility/UInt256.cpp:120-135 | Every left shift, of any 128-bit amount, multiplies by that power of two modulo 2^128. |
| UInt128.ShrMeans | BLEEPlib/src/utility/UInt256.cpp:137-152 | Every right shift divides by that power of two, rounding down. |
| UInt128.SumColumns | BLEEPlib/src/utility/UInt256.cpp:207-223 | No column of the product table wraps a 64-bit word. |
| UInt128.ColumnsMean | BLEEPlib/src/utility/UInt256.cpp:200-223 | The columns, weighted by the powers of their base, make the product up to a multiple of the range; the base is any, so this serves both widths. |
| UInt128.Mul | BLEEPlib/src/utility/UInt256.cpp:194-238 | Multiplication by 32-bit limbs is multiplication modulo 2^128. |
| UInt128.Bits | BLEEPlib/src/utility/UInt256.cpp:11-28 | The two counting loops give the bit length. |
| UInt128.BitLenMeans | BLEEPlib/src/utility/UInt256.cpp:11-28 | A number with n bits lies between the powers of two n - 1 and n. |
| UInt128.DivStep | BLEEPlib/src/utility/UInt256.cpp:253-265 | One turn keeps quotient and remainder of the dividend's leading bits; neither shift nor sum overflows. |
| UInt128.DivMod | BLEEPlib/src/utility/UInt256.cpp:240-275 | Division ends, fails only for zero, and gives q and r with lhs = q * rhs + r and r < rhs. |
| UInt256.Less256Means | BLEEPlib/src/utility/UInt256.cpp:418-440 | The comparisons of halves compare the numbers. |
| UInt256.Add256Means | BLEEPlib/src/utility/UInt256.cpp:462-464 | Addition of halves is addition modulo 2^256. |
| UInt256.Sub256Means | BLEEPlib/src/utility/UInt256.cpp:470-472 | Subtraction of halves is subtraction modulo 2^256. |
| UInt256.Machine256Means | BLEEPlib/src/utility/UInt256.h:343-354 | Adding or subtracting a machine integer gives the sum or difference modulo 2^256 if and only if the integer is not negative. |
| UInt256.ShiftMeans | BLEEPlib/src/utility/UInt256.cpp:358-395 | Both shifts, of any 256-bit amount, multiply modulo 2^256 and divide by that power of two. |
| UInt256.SumColumns256 | BLEEPlib/src/utility/UInt256.cpp:491-507 | No column of the product table wraps 128 bits. |
| UInt256.JoinedMeans | BLEEPlib/src/utility/UInt256.cpp:509-513 | Lining the columns up and adding them loses only multiples of 2^256. |
| UInt256.Mul256 | BLEEPlib/src/utility/UInt256.cpp:478-514 | Multiplication by 64-bit limbs is multiplication modulo 2^256. |
| UInt256.Bits256 | BLEEPlib/src/utility/UInt256.cpp:277-294 | The two counting loops give the bit length. |
| UInt256.Or256Means | BLEEPlib/src/utility/UInt256.cpp:338-340 | Or word by word is or of the numbers bit by bit. |
| UInt256.Align | BLEEPlib/src/utility/UInt256.cpp:529-534 | The shifted divisor is the divisor times the adder, at most the dividend and more than half of it. |
| UInt256.Turn | BLEEPlib/src/utility/UInt256.cpp:536-541 | Each turn keeps copyd = rhs * adder and r < 2 * copyd, and the or adds because the bit is clear. |
| UInt256.LongDivision | BLEEPlib/src/utility/UInt256.cpp:528-543 | The loop ends and leaves quotient and remainder. |
| UInt256.DivMod256 | BLEEPlib/src/utility/UInt256.cpp:516-552 | Division ends, fails only for zero, and gives q and r with lhs = q * rhs + r and r < rhs. |
| UInt256.Mod256 | BLEEPlib/src/utility/UInt256.cpp:558-560 | The remainder, computed as a - b * (a / b), is the mathematical one. |
| HashKey.FromBytes128 | BLEEPlib/src/utility/UInt256.cpp:61-83 | Bytes of any number give the big-endian number modulo 2^128. |
| HashKey.FromBytes256 | BLEEPlib/src/utility/UInt256.cpp:315-324 | Bytes of any number give the big-endian number modulo 2^256, and 32 bytes give it exactly. |
| HashKey.StrRoundTrip | BLEEPlib/src/utility/UInt256.cpp:587-602 | A hash's string has 64 hexadecimal digits that spell its value. |
| HashKey.StrInjective | BLEEPlib/src/utility/UInt256.cpp:296-299 | Two hashes never share a ledger key. |
| Sha256.RoundConstants | BLEEPlib/src/crypto/SHA256.cpp:32-41 | Each round constant is the first 32 fractional bits of the cube root of its prime, as section 4.2.2 of FIPS 180-4 says. |
| Sha256.FirstPrimes | BLEEPlib/src/crypto/SHA256.cpp:32-41 | The table of primes holds the first 64 primes, each once and in order. |
| Sha256.InitialConstants | BLEEPlib/src/crypto/SHA256.cpp:84-95 | Each initial word is the first 32 fractional bits of the square root of its prime, as section 5.3.3 says. |
| Sha256.PadSmallest | BLEEPlib/src/crypto/SHA256.cpp:130-141 | The padding has the fewest zeros that section 5.1.1 allows. |
| Sha256.Sha256Ctx.Expand | BLEEPlib/src/crypto/SHA256.cpp:47-50 | The 64 words are the message schedule of section 6.2.2. |
| Sha256.Sha256Ctx.Transform | BLEEPlib/src/crypto/SHA256.cpp:44-82 | The 64 rounds over rotating variables, and the final sums, are the compression of section 6.2.2. |
| Sha256.Sha256Ctx.constructor | BLEEPlib/src/crypto/SHA256.cpp:84-95 | A new context is in step with the empty message. |
| Sha256.Sha256Ctx.Update | BLEEPlib/src/crypto/SHA256.cpp:111-123 | After an update the context is in step with the message extended by its bytes: whole blocks hashed and counted, the rest in the buffer. |
| Sha256.Sha256Ctx.MarkEnd | BLEEPlib/src/crypto/SHA256.cpp:130-141 | The one-block and the two-block branch both produce the padding of section 5.1.1. |
| Sha256.Sha256Ctx.PutLength | BLEEPlib/src/crypto/SHA256.cpp:145-152 | The eight stores write the bit counter, most significant byte first. |
| Sha256.Sha256Ctx.Final | BLEEPlib/src/crypto/SHA256.cpp:125-167 | The result is the FIPS 180-4 digest of the whole message. |
| Sha256.HashMessage | BLEEPlib/src/crypto/SHA256.cpp:84-167 | However a message is cut into updates, the digest is that of the whole. |
| Sha256Example.DigestOfAbc | BLEEPlib/src/crypto/SHA256.cpp:25-167 | The digest of the message "abc" is the one published with the standard, worked out over all rounds. |
| Framing.TakeBleepMeans | BLEEPlib/src/BL1_socket/SocketLayer_API.cpp:132-202 | A message frame is taken if and only if the buffer starts with the magic and a little-endian length from 1 to 2^31 - 1 and the payload is there; the event has that payload. |
| Framing.TakeBitcoinMeans | BLEEPlib/src/BL1_socket/SocketLayer_Bitcoin.cpp:79-131 | A Bitcoin frame is taken if and only if the buffer starts with the magic and has the whole header and payload, of any length; the event has the command, checksum and payload from their places. |
| Framing.TakeStable | BLEEPlib/src/BL1_socket/SocketLayer_Bitcoin.cpp:81-137 | Bytes that arrive behind a front that the parser acts on, whole frame or not, do not change what it does. |
| Framing.IncrementalIsBatch | BLEEPlib/src/BL1_socket/SocketLayer_Bitcoin.cpp:73-139 | For both protocols, every byte stream and every chunking, parsing chunk by chunk gives the outcome of parsing the whole, reads outside the buffer included. |
| Framing.RestIsOpen | BLEEPlib/src/BL1_socket/SocketLayer_Bitcoin.cpp:114-138 | What a parse leaves over is the end of the stream and starts with nothing that the parser acts on. |
| Framing.OutOfBoundsIff | BLEEPlib/src/BL1_socket/SocketLayer_API.cpp:142-152 | One turn of the parser reads outside the buffer if and only if the protocol is BLEEP and the buffer starts with a whole header whose signed length is from -12 to -1. |
| Framing.BrokenIff | BLEEPlib/src/BL1_socket/SocketLayer_API.cpp:142-152 | A parse reads outside the buffer if and only if one of the fronts it reaches is such a header. |
| Framing.MinusOneBreaks | BLEEPlib/src/BL1_socket/SocketLayer_API.cpp:142-152 | Twelve bytes do: the magic and the length -1. |
| Framing.TakeFrame | BLEEPlib/src/BL1_socket/SocketLayer_API.cpp:137-202 | A frame that the sender wrote is taken whole, whatever follows, if and only if its message is not empty; an empty one is never taken. |
| Framing.ReceivedPrefix | BLEEPlib/src/BL1_socket/SocketLayer_API.cpp:132-207 | From any first k bytes of what was sent the parser has exactly the messages that are whole, up to the first empty one; the rest is a proper prefix of the next frame, or all that came since the empty one; and it never reads outside the buffer. |
| Framing.ChannelDelivers | BLEEPlib/src/BL1_socket/SocketLayer_API.cpp:132-207 | The same for every chunking of those bytes; and with all bytes there, all messages are if and only if none is empty. |
| Framing.TakeBitcoinFrame | BLEEPlib/src/BL1_socket/SocketLayer_Bitcoin.cpp:79-131 | A Bitcoin frame made of command, checksum and payload, empty payload included, is taken as exactly that, whatever follows. |
| Framing.TakeBitcoinPartial | BLEEPlib/src/BL1_socket/SocketLayer_Bitcoin.cpp:87-131 | No proper prefix of a Bitcoin frame is taken. |
| Framing.ReceivedFrames | BLEEPlib/src/BL1_socket/SocketLayer_Bitcoin.cpp:73-139 | Any first k bytes of a stream of Bitcoin frames give exactly the whole ones, in order, and a proper prefix of the next. |
| Framing.FramesDelivered | BLEEPlib/src/BL1_socket/SocketLayer_Bitcoin.cpp:36-140 | The same for every chunking; with all bytes there, all frames are. |
| Framing.FrameBytes | BLEEPlib/src/BL1_socket/SocketLayer_API.cpp:137-150 | A message frame is these very bytes. |
| Framing.BitcoinFrameBytes | BLEEPlib/src/BL1_socket/SocketLayer_Bitcoin.cpp:79-98 | A Bitcoin frame is these very bytes. |
| Channel.DataSocket.AppendToSendBuff | BLEEPlib/src/BL1_socket/Socket.cpp:165-168 | The bytes go behind all bytes still to be sent, and the socket is watched for room to write. |
| Channel.DataSocket.DoSend | BLEEPlib/src/BL1_socket/Socket.cpp:170-195 | For any pattern of partial writes and errors, what was sent and what is left are together what was queued, in order; as much is sent as the network takes; an error ends the process; and the socket stays watched exactly while bytes are left. |
| Channel.ExitsIff | BLEEPlib/src/BL1_socket/Socket.cpp:176-181 | The process ends if and only if the call for one of the queued messages reports an error after every call before it took its whole message. |
| Channel.DataSocket.SendMsg | BLEEPlib/src/BL2_peer_connectivity/PeerConnectivityLayer_API.cpp:402-412 | Three pieces are queued that make one frame, for an empty message too. |
| Channel.RecvBufferManager.AppendToBuffer | BLEEPlib/src/BL1_socket/RecvBufferManager.cpp:7-20 | The bytes go behind those of the same descriptor and touch no other. |
| Channel.WriteMsg.Write | BLEEPlib/src/BL1_socket/Socket.h:141-164 | What is handed over and what is left afterwards are together what was left, and it is as much as the network takes. |
| Channel.SocketLayer.RecvHandler | BLEEPlib/src/BL1_socket/SocketLayer_Bitcoin.cpp:36-140 | The events pushed and the bytes kept, or the read outside the buffer, are those of parsing the old buffer and all reads together; other descriptors keep theirs. |
| Channel.Connection.Delivered | BLEEPlib/src/BL1_socket/SocketLayer_API.cpp:94-208 | At every moment the messages received are the first ones sent, in order, up to the first empty one, and the rest is a proper prefix of one frame or all since the empty one; with nothing queued or under way all have arrived if and only if none is empty. |
| Channel.Connection.Perform | BLEEPlib/src/BL1_socket/SocketLayer_API.cpp:94-208 | Any run of sends, partial or failing writes and reads keeps that. |

## Left out

- IntCodec.IntRoundTrip: states 32-bit numbers only, because those are what the B-tree reads; the 64-bit decoder is not part of this model.
- PairCodec.Decode: what it decodes is stated by `PairRoundTrip`; a malformed entry is `Invalid`, and its destination sizes are not truncated to 32 bits.
- PairCodec.Compress: the encoding's size is not truncated to 32 bits (external/bdb/4.8.30/btree/bt_compress.c:423 and 446), so a pair of almost 4 GB, for which the source's size would wrap, is refused here.
- CompressedBtree.Cursor.MergeInsert: error codes of the underlying B-tree, locks and allocation failures do not occur, and compression is the default one, not a user's callback.
- CompressedBtree.Cursor.GetSet: `DB_GET_BOTHC`, which goes on from the cursor, and copying the entry found to the caller.
- CompressedBtree.Cursor.Walk: the deleted flag is taken as given, since what sets it (relocation after another cursor's delete) is not modelled, and so are the steps that skip or stay within duplicates.
- The underlying B-tree is a sequence of chunks ordered by first entry; pages are not modelled. `__bamc_compress_merge_delete_dups`, bulk reads, reported counts and transactional cursor duplication are left out.
- BlockTree: `AppendBlockHash` and its null entries, which no handler uses; printing and event logs.
- PowProtocol: the transaction pool, when a miner starts or is stopped, and mining times. A candidate may be mined at any later time. Liveness is no claim: an inventory that arrives during another is dropped.
- EvLoop.Loop.InvokePending: a callback does what a finite script says it does, changes no watcher's events or repeat interval, and none runs the loop again. Growing of arrays is that of sequences.
- EvLoop.Loop.RunOnce: how long the kernel is asked to wait, errors of `poll`, descriptors it calls invalid, and what ends the loop; the number of turns is any.
- EvTimers.Timers.Perform: deadlines are reals, so rounding is not modelled. A watcher's priority is in range and fixed, so `pri_adjust` does nothing, and the loop's reference count is left out. The clock is a parameter of each expiry.
- EvFd.Fds.Unlink: a descriptor's watchers are a sequence, not a chain of pointers, so a corrupted chain is not modelled.
- Periodic, idle, signal, child and stat watchers, other backends than poll, fork and wake-ups are left out; so are the checks of `ev_verify` on them.
- Bitwise and, exclusive or and complement of wide integers, their stream output and their serialisation would only add easy members.
- UInt128.MachineMeans: multiplication, division and the comparisons with a machine integer turn it into a wide integer in the same way and are not repeated.
- Sha256.Sha256Ctx.Update: one call takes fewer than 2^32 bytes, because the source's index is a 32-bit word and would not end the loop for more.
- Sha256.Sha256Ctx.Final: the message has fewer than 2^64 bits, the bound of the standard.
- Framing.ReceivedPrefix: messages have fewer than 2^31 bytes, because the sender writes the length as a signed 32-bit number.
- Channel.Connection.Delivered: connections stay open. A close during a read discards the buffer.
- Message serialisation, message types and the routing of events to layers are left out.
