# BFSS, modelled and proved

BFSS keeps objects of bytes on the volumes of storage nodes. An object is created with a size,
written, completed, and from then on read, linked to or deleted. This project models the four
components behind that in Dafny and proves what they promise to each other.

- **Storage node.** Device blocks are cached as ciphertext and plaintext nodes of one LRU list
  (`Cache.dfy`, in the code's own form, over the pure state machine of `CacheSpec.dfy`), above a block
  device with a written-bitmap (`Device.dfy`) and a cipher that permutes 16-byte units (`Cipher.dfy`,
  electronic codebook mode, section 6.1 of NIST SP 800-38A). Whatever is evicted, reloaded or flushed,
  the node is an array of blocks; at a clean stop all but at most one block is on the device.
- **Requests.** A request is split at block boundaries, and an incremental SHA-256 (section 6.2 of
  FIPS 180-4) follows each object (`StorageNode.dfy`, `StorageSpec.dfy`, `EncryptedRead.dfy`): one
  contiguous write or read, and a digest of exactly the object under a stated condition.
- **Allocator.** Volumes with a moving position, and a collection of free chips that are carved and
  merged (`Regm.dfy`, `RegmSequential.dfy`). `RegmSpec.dfy` to `RegmRuns.dfy` treat any number of calls
  interleaved at single database operations.
- **Objects.** The object table, the hash table that shares equal contents, and the object cache
  (`Api.dfy`, `ApiSteps.dfy`, `ApiStore.dfy`, `ApiCipher.dfy`). The files from `ObjectSpec.dfy` on treat any
  number of calls interleaved at single operations of the databases, the cache and the nodes, excluding
  each other only by the object's lock: the invariant (`ObjectProof.dfy`), completed objects and records
  (`ObjectRuns.dfy`), the nodes' hashes (`ObjectNodes.dfy`), contents (`ObjectContents.dfy`), what a client
  can know of a hash (`ObjectLedger.dfy`), and what goes wrong for careless clients (`ObjectRaces.dfy`,
  `ObjectLeftovers.dfy`). `JointRuns.dfy` interleaves this with the allocator's own calls. `Api.ApiHandler`
  runs on the allocator class itself and on `StorageSpec.SnState`, which is what `StorageNode.SndHandler` is
  proved to present to its clients whatever its cache evicts.

`Layout.dfy` has the address arithmetic for a symbolic block size, any positive multiple of 16, and
`Ownership.dfy` the partition of bytes among owners that both protocols keep.

## Main results

1. The cache refines an array over every run, and its assertions never fail (`Cache.RunFresh`,
   `CacheRuns.RunRefinesArray`, `CacheAsserts.AssertsHold`).
2. The device only ever holds what a block once contained, and exactly which blocks a clean stop
   leaves behind (`CacheRuns.DeviceHistory`, `CacheStop.StopPersists`).
3. The digest covers exactly the object if and only if a condition on flags and the hashed prefix
   holds (`StorageSpec.DigestWholeIff`, `StorageSpec.CompleteDigestsObject`).
4. However allocator calls interleave, no byte has two holders and no insert meets the unique index
   (`RegmRuns.NeverHandedOutTwice`, `RegmRuns.IndexUnique`).
5. In a sequential run no free chip ends where another one begins, and no space is reported exactly when
   no chip spans and no queued volume has left as much as the aligned size
   (`Regm.RegmHandler.AddBlkChip`, `Regm.RegmHandler.AllocateBlks`).
6. However object calls interleave, a completed object reads the same until it is deleted, its record
   is for ever, and exactly one completer per content is the first (`ObjectRuns.CompletedReadsStay`,
   `ObjectRuns.RecordForever`, `ObjectRuns.ExactlyOneFirst`).
7. So it is when the allocator's own calls interleave with them: each layer meets what the other takes
   for granted (`JointRuns.MoveKeeps`, `JointRuns.JointReadsStay`).
8. From its creation to any later read, every byte of an object is the one last written there, also after
   it has been completed and moved to shared storage (`ObjectLedger.ClientReadsLastWrites`,
   `ObjectContents.ReadsLastWrites`).
9. An access of the cache uses the nodes its block is cached in and, for what is missing, the nodes that
   have not been used for the longest time, and disturbs no other (`CacheLru.OldestIsTaken`).
10. A read in ciphertext returns every 16-byte unit encrypted under the key of the block it lies in, and
    decrypting segment by segment gives back what a plain read returns (`Api.ApiHandler.ReadBlk`,
    `ApiCipher.DecryptsToContent`).

## Where the code falls short

Each is modelled as the code has it and bounded by its exact condition; where a run is named, it
reaches the failure.

- Stopping cleanly loses the last write to a block whose plaintext is dirty while its ciphertext node is
  the most recent one. Run: `CacheStop.StopLosesWrite`; condition: `CacheStop.StopPersists`, and
  `CacheStop.WriteStrands` says which writes meet it.
- The "+ 1" in `get_index` makes completion read one block too far. Condition: the hashed prefix ends one
  byte before a block boundary (`StorageSpec.ResumeIsExact`).
- `Flags` set by a resize restarts the counter but not the running hash, and a resize can leave the counter
  beyond the object's end. Run: `ObjectRaces.ResizedHash`; conditions: `ObjectRaces.ResizedRecordedUnder`,
  `StorageSpec.DigestWholeIff`.
- Rewriting hashed bytes leaves the hash of what the object no longer contains, so that a later object
  with that content silently changes. Run: `ObjectRaces.RewrittenHash`; conditions:
  `ObjectRaces.RewriteSpoilsIff`, `ObjectRaces.JoinChangesContentIff`.
- The node's hash of an object outlives the deletion of the incomplete object, so that a later object on
  the same storage is recorded under a hash of other bytes. Run: `ObjectLeftovers.LeftoverHash`;
  condition: `ObjectLeftovers.LeftoverSpoilsIff`.
- The written-bitmap has no bit for the last blocks of some devices. Condition: `Device.BitmapCovers`.
- `CreateObject` writes the cached entry late; a client that does not wait for it can have a completed
  object taken for an incomplete one, and overwritten. Run: `ObjectRaces.LateEntryHidesCompletion`;
  condition: `ObjectRaces.EnterAgreesIff`.
- `CreateObject` that gets no storage deletes its document twice; what another call has made of the oid in
  between goes with the second. Run: `ObjectLeftovers.SecondDeleteRemovesLink`; condition:
  `ObjectLeftovers.SecondDeleteIff`.
- A `CreateObject` that fails after writing the cached entry leaves it; after a link of the oid, handlers
  take the complete object for an incomplete one, and write to storage given back. Run:
  `ObjectLeftovers.StaleLinkOverwrites`; condition: `ObjectLeftovers.StaleLinkOpensIff`.
- Deleting an incomplete object frees its storage and keeps its document, so that a write to it changes
  another object. Run: `ObjectRaces.DiscardLeavesDocument`.
- Calls on complete objects see an incomplete one while it is cached. Condition:
  `ObjectRaces.CacheMattersIff`.

The object layer's promises are therefore stated for careful clients (`ObjectSpec.Polite`). They use an oid
only after the call that makes it has returned success, leave it alone after deleting it incomplete, create
or link no oid while a `CreateObject` of it has not returned, create none while a link of it has not, and
link none whose creation failed. Results about contents after sharing also ask that clients go by a ledger
of their own calls (`ObjectLedger.Heeds`): they do not write below or resize into the bytes written in order
from the object's start, do not delete an incomplete object they have written to, and complete an object in
a state that digests whole; and they are for a hash without collisions. All of this a client can check
before each call; `ObjectLedger.ClientRunIsTidy` is the proof that it suffices for what the nodes do.

## Model

| member | source | states |
|---|---|---|
| Layout.PositionAlgebra | utils/bfss_utils.h:143-162 | block index and end offset are quotient and remainder of begin plus size, also for negative sizes |
| Layout.PositionUnique | utils/bfss_utils.h:185-188 | an address names one position and a position has one address |
| Layout.CanonicalEnd | utils/bfss_utils.h:143-162 | the end of an aligned extent is again a canonical address |
| Layout.ByteAddress | bfss_api/bfss_api.cpp:261-265 | the two separate computations of a byte's block and offset name position begin + offset, aligned or not |
| Layout.ResizeSplitsExtent | bfss_api/bfss_api.cpp:647-661 | the early return is taken exactly when the aligned sizes are equal; otherwise kept prefix and freed suffix are the old extent |
| HexCodec.DecodeEncode | utils/bfss_utils.h:231-272 | decoding undoes encoding |
| HexCodec.EncodeDecode | utils/bfss_utils.h:231-272 | encoding undoes decoding exactly for lower-case hexadecimal strings |
| HexCodec.EncodeHex | utils/bfss_utils.h:231-241 | two lower-case digits a byte: byte / 16, then byte % 16 |
| HexCodec.DecodeHex | utils/bfss_utils.h:243-272 | every byte is 16 times the value of its first digit and the value of its second |
| HexCodec.EncodesDigits | utils/bfss_utils.h:231-241 | the digits of byte i of the encoding, in terms of its quotient and remainder by 16 |
| HexCodec.DecodesDigits | utils/bfss_utils.h:243-272 | byte i of the decoding, in terms of its two digits |
| Cipher.Inverse | bfss_sn/bfss_keys.cpp:106-123 | decryption undoes encryption and the reverse |
| Cipher.EncryptsUnits | bfss_sn/bfss_keys.cpp:106-114 | every 16-byte unit is encrypted on its own by the cipher under the key |
| Cipher.DecryptsUnits | bfss_sn/bfss_keys.cpp:115-123 | every 16-byte unit is decrypted on its own by the cipher under the key |
| Cipher.SliceCommutes | bfss_sn/bfss_keys.cpp:106-114 | an aligned slice of a ciphertext is the ciphertext of the slice |
| Device.BitmapCovers | bfss_sn/blkdev.cpp:85 | every block has its bit if and only if the block count leaves the bitmap large enough |
| Device.SetWritedMarksOne | bfss_sn/blkdev.cpp:100-110 | marking one block changes no other block's mark |
| Device.WriteChangesOneBlock | bfss_sn/blkdev.cpp:64-73 | writing a block changes the contents of that block only |
| Device.ReservedIsApart | bfss_sn/blkdev.cpp:111-117 | saving the bitmap changes no block |
| Device.BlkDevice.ReadBlk | bfss_sn/blkdev.cpp:51-62 | an unwritten block, by its bit, reads as zeros, and a written one as the bytes at its position |
| Device.BlkDevice.WriteBlk | bfss_sn/blkdev.cpp:64-73 | the device's blocks are the old ones with this one replaced: its bytes are at its position, its bit is set, and nothing else changes |
| Device.Reopen | bfss_sn/blkdev.cpp:78-99 | closing and opening again keeps every block's contents |
| Cache.CacheNode.Write | bfss_sn/bfss_node.cpp:12-28 | patches the node's bytes, clipped to the block, and marks it dirty |
| Cache.CacheNode.BlkToCache | bfss_sn/bfss_node.cpp:46-59 | fills the node from the device |
| Cache.CacheNode.CacheToBlk | bfss_sn/bfss_node.cpp:61-74 | writes the node to its block and nothing else |
| Cache.CacheNode.EncryptInto | bfss_sn/bfss_node.cpp:76-100 | the ciphertext node gets the plaintext node, every unit encrypted under the key of the block |
| Cache.CacheNode.DecryptFrom | bfss_sn/bfss_node.cpp:102-123 | the plaintext node gets its ciphertext node, every unit decrypted under the key of the block |
| Cache.CacheNode.ResetIndex | bfss_sn/bfss_node.cpp:125-134 | binds a clean node to a block and a role |
| Cache.UpdateList | bfss_sn/bfss_node.cpp:246-270 | from a ring, or a single node, one ring with the node first and all others in their order |
| Cache.LinkAll | bfss_sn/bfss_node.cpp:154-158 | singletons become one ring of all nodes |
| Cache.LruIndexableList.EveryNodeOnce | bfss_sn/bfss_node.h:157-172 | a full traversal visits every node exactly once |
| Cache.LruIndexableList.Traverse | bfss_sn/bfss_node.h:157-172 | visits nodes in ring order until the action stops it |
| Cache.LruIndexableList.constructor | bfss_sn/bfss_node.cpp:138-160 | an initialised list is the initial state of the cache |
| Cache.LruIndexableList.GetCacheIndex | bfss_sn/bfss_node.cpp:190-243 | the two passes over existing and oldest nodes do the step of the pure cache |
| Cache.LruIndexableList.GetNode | bfss_sn/bfss_node.cpp:162-188 | looks up, loads and returns the node serving the block |
| Cache.LruIndexableList.FlushAsync | bfss_sn/bfss_cache.cpp:51-67 | the two accesses of the flusher do the flush step |
| Cache.LruIndexableList.FlushAndStop | bfss_sn/bfss_cache.cpp:101-114 | the stopping traversal does the stop step |
| Cache.RunFresh | bfss_sn/bfss_cache.cpp:34-49 | over a fresh device every reply of every run is that of a plain array of blocks |
| CacheAccess.AccessKeeps | bfss_sn/bfss_node.cpp:162-243 | any access keeps the cache invariant and every block's logical content, ciphertext more recent than plaintext |
| CacheLru.OldestIsTaken | bfss_sn/bfss_node.cpp:190-270 | in every case which two nodes an access uses, by their place in the order of use, that they come first afterwards, and that all other nodes keep their block and their order |
| CacheAsserts.AssertsHold | bfss_sn/bfss_node.cpp:61-134 | on a reachable state no assertion met while nodes are claimed, flushed and bound to a block fails; those of loading, reading and writing are preconditions met in `Cache.LruIndexableList` |
| CacheRuns.WriteRefines | bfss_sn/bfss_cache.cpp:34-40 | a write patches one logical block and leaves all others |
| CacheRuns.ReadRefines | bfss_sn/bfss_cache.cpp:42-49 | a read returns the logical block or its encryption and changes no block |
| CacheRuns.RunRefinesArray | bfss_sn/bfss_node.cpp:162-243 | replies and final contents of any run are those of a plain array |
| CacheRuns.FlushBlockPersists | bfss_sn/bfss_cache.cpp:58-67 | afterwards the device holds the encryption of the block's logical content |
| CacheRuns.DeviceHistory | bfss_sn/bfss_node.cpp:46-100 | each device block always holds the encryption of a content that block once had |
| CacheStop.StopPersists | bfss_sn/bfss_node.h:164-171 | after a stop no plaintext is dirty, and a block is on the device if and only if it was not stranded |
| CacheStop.WriteStrands | bfss_sn/bfss_node.h:164-171 | a write to a block whose ciphertext is accessed last strands it |
| CacheStop.StopLosesWrite | bfss_sn/bfss_cache.cpp:101-114 | write then stop leaves the device with the old content exactly when the write changes the block |
| StorageSpec.PatchSplices | bfss_sn/bfss_sn.cpp:131-140 | patching a block splices the volume |
| StorageSpec.ResumeIsExact | bfss_sn/bfss_sn.cpp:181-187 | the resumed read starts at the end of the prefix, or one block too far exactly at a block's last byte |
| StorageSpec.DigestWholeIff | bfss_sn/bfss_sn.cpp:214-243 | the digested positions are the object's if and only if flags and prefix allow it, also for a counter beyond the object's end |
| StorageSpec.CompleteDigestsObject | bfss_sn/bfss_sn.cpp:214-249 | then the digested bytes are the object's if and only if the node had hashed its prefix |
| StorageSpec.RunHashesObject | bfss_sn/bfss_sn.cpp:92-115 | any run of writes off the hashed prefix, in or out of order, ends in a digest of exactly the object |
| StorageNode.WriteLoop | bfss_sn/bfss_sn.cpp:131-145 | the split write terminates and is one contiguous write |
| StorageNode.ReadLoop | bfss_sn/bfss_sn.cpp:159-173 | the split read terminates and is one contiguous read, plain or encrypted |
| StorageNode.SndHandler.WriteData | bfss_sn/bfss_sn.cpp:117-149 | accepted exactly within the bounds of the object; then the volume has the data at the position and nothing else changes, and the hash nodes are what a client expects |
| StorageNode.SndHandler.ReadData | bfss_sn/bfss_sn.cpp:151-179 | returns the stretch of the volume in plaintext or in ciphertext, whatever is cached |
| StorageNode.SndHandler.CompleteHash | bfss_sn/bfss_sn.cpp:214-249 | digests the fed bytes and the rest, and forgets the node |
| EncryptedRead.GetObjectBlksInfo | bfss_api/bfss_api.cpp:576-600 | the segments tile the aligned object, each inside one block |
| EncryptedRead.KeyBlockOfOffset | bfss_api/bfss_api.cpp:737 | the key of an offset belongs to the block of its segment |
| EncryptedRead.EncryptedReadIsRead | bfss_api/bfss_api.cpp:501-600 | decrypting an aligned slice of a volume in ciphertext segment by segment gives that slice in plaintext |
| RegmProof.StepKeeps | bfss_regm/bfss_regm.cpp:198-374 | every database operation of every interleaving keeps the partition of bytes |
| RegmRuns.TendedKeeps | bfss_regm/bfss_regm.cpp:276-325 | a locked chip always has a carver that will unlock or delete it |
| RegmRuns.IndexUnique | bfss_regm/bfss_regm.cpp:97-100 | no two chip documents of a volume begin at one address, so no operation meets the unique index |
| RegmRuns.RunKeeps | bfss_regm/bfss_regm.cpp:198-374 | the allocator's invariant holds in every reachable state |
| RegmRuns.NeverHandedOutTwice | bfss_regm/bfss_regm.cpp:267-374 | between two grants of one byte it was given back |
| RegmRuns.Accounting | bfss_regm/bfss_regm.cpp:110-128 | from its registration on, position and reserve of a volume add up to its size, aligned and not negative |
| RegmRuns.NothingLost | bfss_regm/bfss_regm.cpp:198-374 | with no call in flight each byte below the position is held or in exactly one chip, and a chip's size is its span |
| Regm.BehindOnce | bfss_regm/bfss_regm.cpp:223-235 | among coalesced chips the merge loop behind runs at most once |
| Regm.AheadOnce | bfss_regm/bfss_regm.cpp:236-246 | and so does the loop ahead |
| Regm.RegmHandler.AddBlkChip | bfss_regm/bfss_regm.cpp:198-265 | in positions: the chips that end where the range begins or begin where it ends go, one new chip spans them and the range, nothing else changes, and no chip ends where another begins |
| Regm.RegmHandler.CarveChip | bfss_regm/bfss_regm.cpp:276-325 | the tail of the aligned size goes to the caller, the chip keeps the rest or is deleted |
| Regm.RegmHandler.AllocateFromVolumes | bfss_regm/bfss_regm.cpp:330-371 | the first volume in queue order with as much reserve gives its next bytes; there is none exactly when no queued volume has the aligned size left, and then nothing changes |
| Regm.RegmHandler.AllocateBlks | bfss_regm/bfss_regm.cpp:267-374 | fresh bytes of the aligned size, off a chip if one spans as much; no space exactly when no chip spans and no queued volume has left as much |
| Regm.RegmHandler.RegisterVolume | bfss_regm/bfss_regm.cpp:104-140 | a new volume starts empty, a known one keeps size and position, and shrinking below the position is refused |
| Regm.RegmHandler.RebuildQueue | bfss_regm/bfss_regm.cpp:376-393 | the queue holds each online volume once |
| Regm.RegmHandler.Manage | bfss_regm/bfss_regm.cpp:49-87 | a known volume changes its state and the queue follows |
| ObjectProof.StepKeeps | bfss_api/bfss_api.cpp:102-454 | every operation of every careful interleaving keeps ownership, counts, documents and cache agreement, through both deletes of a refused creation |
| ObjectRuns.RunKeeps | bfss_api/bfss_api.h:91-120 | so in every reachable state a cached entry agrees with the object table and extents have one owner |
| ObjectRuns.OwnedBytesStay | bfss_api/bfss_api.cpp:233-299 | a step changes no byte of any owner but the object it writes |
| ObjectRuns.RecordForever | bfss_api/bfss_api.cpp:338-357 | a record's place and bytes never change and its storage is never given back |
| ObjectRuns.ReadIsContent | bfss_api/bfss_api.cpp:501-548 | a finished object reads as an excerpt of its bytes, cached or not |
| ObjectRuns.ReadRefusedIff | bfss_api/bfss_api.cpp:501-528 | each error reply of a read, exactly when the tables call for it |
| ObjectRuns.CompletedContentStays | bfss_api/bfss_api.cpp:233-299 | the bytes of a finished object stay until it is deleted |
| ObjectRuns.CompletedReadsStay | bfss_api/bfss_api.cpp:501-548 | every read of it gives the same reply until then |
| ObjectRuns.JoinIsFirstIff | bfss_api/bfss_api.cpp:338-371 | a completer sees `_RefCount` 1 exactly when it makes the record |
| ObjectRuns.ExactlyOneFirst | bfss_api/bfss_api.cpp:338-371 | every record that appears over a run has exactly one completer that was the first |
| ObjectRuns.CountIsObjects | bfss_api/bfss_api.cpp:433-448 | with no call in flight `RefCount` is the number of complete objects with the key |
| ObjectNodes.InputIsContentIff | bfss_sn/bfss_sn.cpp:214-249 | what the node digests is the object if and only if it has hashed a prefix of it |
| ObjectNodes.UnlitteredKeeps | bfss_sn/bfss_sn.cpp:189-212 | if no one deletes an incomplete object it has written to, every hash node stays that of an open object |
| ObjectNodes.FreshPlace | bfss_sn/bfss_sn.cpp:189-200 | and so new storage never comes with a hash node |
| ObjectNodes.NodesKeep | bfss_sn/bfss_sn.cpp:92-115 | tidy steps keep every open object's hash node in order |
| ObjectNodes.MarkIsTrue | bfss_api/bfss_api.cpp:316-337 | a tidy completion records the hash of the object's own bytes |
| ObjectNodes.GenuineKeeps | bfss_api/bfss_api.cpp:338-357 | every record's hash stays that of its bytes |
| ObjectContents.JoinHolds | bfss_api/bfss_api.cpp:360-383 | joining a record moves the object to the very same bytes |
| ObjectContents.WriteStores | bfss_api/bfss_api.cpp:263-299 | byte i of the object is data[i - offset] where the data covers it, and what it was before elsewhere |
| ObjectContents.NewHeadIff | bfss_api/bfss_api.cpp:123-143 | the head of a new object is all digits 0, and that of its bytes exactly if its first sixteen bytes are zero |
| ObjectContents.HeadRun | bfss_api/bfss_api.cpp:272-283 | over any run a head that matches goes on matching the overlay of the writes |
| ObjectContents.RecordHeadIsContent | bfss_api/bfss_api.cpp:338-357 | from the first write that covers it on, up to the head in the key of the record the object ends up with: the digits of the object's own first bytes |
| ObjectContents.ContentIsFold | bfss_api/bfss_api.cpp:233-299 | over any run an object contains the overlay of its writes, truncated by its resizes |
| ObjectContents.LastWriteWins | bfss_api/bfss_api.cpp:233-299 | in that overlay every byte is the one last written there, or what it was at first |
| ObjectContents.ReadsBack | bfss_api/bfss_api.cpp:501-548 | a later read returns that overlay, cut at the end |
| ObjectContents.CreatedReadsBack | bfss_api/bfss_api.cpp:102-191 | from the creation of the object to any later read |
| ObjectContents.ReadsLastWrites | bfss_api/bfss_api.cpp:501-548 | what a read returns, byte for byte: the byte of the last write that covers it |
| ObjectLedger.BookKeeps | bfss_sn/bfss_sn.cpp:109-114 | a client's ledger of its own calls tells what the node has hashed |
| ObjectLedger.HeededIsTidy | bfss_sn/bfss_sn.cpp:181-249 | a client that heeds its ledger does what the node needs, whatever the flags in the cache |
| ObjectLedger.ClientRunIsTidy | bfss_sn/bfss_sn.cpp:92-115 | over any run from an empty service |
| ObjectLedger.ClientReadsBack | bfss_api/bfss_api.cpp:233-299 | so that every object such clients create reads back as the overlay of its writes |
| ObjectLedger.ClientReadsLastWrites | bfss_api/bfss_api.cpp:233-299 | and byte for byte as what was last written |
| ObjectRaces.EnterAgreesIff | bfss_api/bfss_api.cpp:148-163 | the late entry agrees exactly when the document is as it was filled |
| ObjectRaces.PoliteEntersAgree | bfss_api/bfss_api.cpp:148-163 | which holds when clients wait for `CreateObject` |
| ObjectRaces.LateEntryHidesCompletion | bfss_api/bfss_api.cpp:126-163 | a run in which they do not, and a completed object's record is overwritten |
| ObjectLeftovers.SecondDeleteIff | bfss_api/bfss_api.cpp:109-123 | the second delete of a refused creation removes a document exactly when the oid has been taken again since the first |
| ObjectLeftovers.PoliteSecondDelete | bfss_api/bfss_api.cpp:109-123 | which careful clients rule out |
| ObjectLeftovers.SecondDeleteRemovesLink | bfss_api/bfss_api.cpp:109-123 | a run in which it removes a linked object, and the record counts one too many |
| ObjectLeftovers.StaleLinkOpensIff | bfss_api/bfss_api.cpp:172-179 | handlers find an object linked to the oid of a failed creation incomplete exactly while the old entry is cached |
| ObjectLeftovers.StaleLinkOverwrites | bfss_api/bfss_api.cpp:172-179 | a run in which a write to it changes another object |
| ObjectLeftovers.LeftoverHash | bfss_sn/bfss_sn.cpp:189-200 | a run of careful clients after which an object is recorded under the hash of a deleted one's bytes |
| ObjectLeftovers.LeftoverSpoilsIff | bfss_sn/bfss_sn.cpp:189-200 | written at once, an object is digested right exactly if what its node had been fed is its first bytes |
| ObjectRaces.RewriteSpoilsIff | bfss_sn/bfss_sn.cpp:111-114 | a write into the hashed prefix spoils the hash exactly when it changes hashed bytes |
| ObjectRaces.RewrittenHash | bfss_sn/bfss_sn.cpp:111-114 | an object written whole and then changed is recorded under the key of its former content |
| ObjectRaces.ResizedRecordedUnder | bfss_sn/bfss_sn.cpp:214-243 | an object completed after a resize is recorded under the hash of all its node was fed before, followed by all of the object |
| ObjectRaces.ResizedHash | bfss_sn/bfss_sn.cpp:214-243 | a run in which an object written whole and resized is recorded under the hash of its former content and its new one |
| ObjectRaces.JoinChangesContentIff | bfss_api/bfss_api.cpp:360-383 | joining changes an object's content exactly when the record holds other bytes |
| ObjectRaces.DiscardLeavesDocument | bfss_api/bfss_api.cpp:429-432 | after it another object can have the storage, and a write to the deleted one changes that object |
| ObjectRaces.CacheMattersIff | bfss_api/bfss_api.h:91-116 | expiry changes what calls on complete objects find exactly for a cached incomplete object |
| JointRuns.GrantIsAsked | bfss_api/bfss_api.cpp:125-127 | the range the allocator grants a waiting creation has just the aligned size asked for, so the assertion on it holds |
| JointRuns.GrantMeets | bfss_regm/bfss_regm.cpp:267-374 | and it is nobody's: what the object layer takes for granted of new storage |
| JointRuns.GiveBackMeets | bfss_api/bfss_api.cpp:397-418 | what objects and failed creations give back is a proper range they hold: what the allocator takes for granted |
| JointRuns.MoveKeeps | bfss_api/bfss_api.cpp:102-454 | so both layers stay in order, and agree on what is handed out, over any interleaving of both |
| JointRuns.ObjectPart | bfss_api/bfss_api.cpp:102-454 | the object layer's part of a joint run is one of its runs, to which its results apply |
| JointRuns.JointReadsStay | bfss_api/bfss_api.cpp:501-548 | every read of a finished object gives the same reply until it is deleted |
| ApiStore.NodeAccepts | bfss_sn/bfss_sn.cpp:92-108 | the node's checks never fail on an address inside the object |
| ApiStore.OwnedIsStored | bfss_api/bfss_api.cpp:397-418 | whatever an object or record owns lies inside a volume |
| ApiStore.InputIsStored | bfss_sn/bfss_sn.cpp:250-262 | the node's digest and forgetting are what the object layer takes them to be |
| Api.ApiHandler.Fetch | bfss_api/bfss_api.h:91-117 | finds the cached entry or the document and returns what agrees with the document, or after a failed creation an incomplete object |
| Api.ApiHandler.CreateObject | bfss_api/bfss_api.cpp:102-191 | each result exactly when it is due; on success a new incomplete object, with a head of zeros, on storage nobody held |
| Api.ApiHandler.Write | bfss_api/bfss_api.cpp:233-299 | each result exactly when it is due; every byte of the data inside the object is stored, nothing else changes, and a mark left by a resize stays |
| Api.ApiHandler.Read | bfss_api/bfss_api.cpp:501-548 | each error reply exactly when it is due, and otherwise the bytes of the complete object, cut at its end |
| Api.ApiHandler.ReadBlk | bfss_api/bfss_api.cpp:501-559 | each error reply exactly when it is due, and otherwise the object's units, each encrypted under the key of its own block |
| Api.ApiHandler.GetObjectBlksInfo | bfss_api/bfss_api.cpp:561-608 | found exactly for a complete object; segments by which those units decrypt to the object's bytes |
| Api.ApiHandler.GetObjectBlkKey | bfss_api/bfss_api.cpp:725-748 | the block of the segment an offset lies in, exactly for a complete object |
| ApiCipher.BlocksFlat | bfss_sn/bfss_sn.cpp:151-179 | what a node returns in ciphertext is a function of what it presents in plaintext |
| ApiCipher.CipherUnit | bfss_sn/bfss_sn.cpp:151-179 | a unit of the volume read in ciphertext is its plaintext encrypted under the key of its own block |
| ApiCipher.DecryptsToContent | bfss_api/bfss_api.cpp:501-608 | decrypting the whole of `ReadBlk` segment by segment gives the bytes `Read` returns |
| Api.ApiHandler.CompleteObject | bfss_api/bfss_api.cpp:301-394 | the object is complete with the node's own digest; it counts in the record of its key and moves there, or makes it |
| Api.ApiHandler.DeleteObject | bfss_api/bfss_api.cpp:420-454 | a complete object leaves the tables and counts no more in its record; of an incomplete one exactly the storage is given back |
| Api.ApiHandler.ResizeObject | bfss_api/bfss_api.cpp:609-667 | each result exactly when it is due; shrinks the object and gives back exactly the units it no longer needs |
| Api.ApiHandler.CreateObjectLink | bfss_api/bfss_api.cpp:668-723 | each result exactly when it is due; a new complete object where the known record lies, or the count undone for a taken oid |
| ApiSteps.CompletedIs | bfss_api/bfss_api.cpp:301-394 | a whole completion: where the object ends up, what its record counts, and what is given back |
| ApiSteps.NoStorageIs | bfss_api/bfss_api.cpp:109-123 | a refused creation, with both its deletes, changes nothing |
| ApiSteps.AbortedIs | bfss_api/bfss_api.cpp:172-179 | a failed creation changes nothing but the cache |
| ApiSteps.LinkedIs | bfss_api/bfss_api.cpp:668-723 | a whole link changes one record and at most one document |

## Left out

- Thrift, reconnecting, configuration, logging and signal handling.
- MongoDB and memcached: one operation is one atomic step on a map; the hash table's upsert makes one
  document per key; an object's lock excludes its other handlers and never expires.
- Failures of database operations, and of `pread` and `pwrite`.
- Lock-level concurrency inside a storage node: one access holds the cache lock for its whole duration
  and is one step. Timers, `mtime` and the asynchronous flush queue's policy are not modelled.
- Key derivation and the cipher itself: any permutation of 16-byte units per block, with a stable key.
- The state of SHA-256 is the bytes fed to it; the digest is any function of them.
- The hash map's 64-bit key is the pair of begin index and begin offset.
- 32-bit arithmetic: sizes are below 2^31 by the code's own guards, and indices and offsets are integers.
- `check_oid`, `Flag`, tags, creation times, `OIdArray`, `GetObjectInfo` and `ObjectLockHasHash`.
- The document that holds only an oid, met by a handler: the handler fails and changes nothing.
- Allocator calls that search for a neighbour may miss one in `RegmSpec`: more runs than the code has.
- Write, Resize and marking an object complete are one step each; their operations are under the object's
  lock, and no other step of a careful client reads what they change in between. A reply of the allocator
  is not lost.
- StorageNode.SndHandler.WriteData: a range beyond the volume's end is excluded; the node looks its block up
  beyond the end of the cache's index array (bfss_sn/bfss_node.cpp:166), and nothing can be said of that.
- StorageNode.SndHandler.ReadData: likewise.
- StorageNode.SndHandler.CompleteHash: likewise, where the resumed read would leave the volume.
- Api.ApiHandler.CompleteObject: likewise; and oids deleted incomplete or whose creation failed are excluded,
  as in the next four. What the code does for those is shown in `ObjectRaces` and `ObjectLeftovers`.
- Api.ApiHandler.Write: oids deleted incomplete or whose creation failed.
- Api.ApiHandler.DeleteObject: the same; a second deletion would give the storage back twice.
- Api.ApiHandler.ResizeObject: the same.
- Api.ApiHandler.CreateObjectLink: oids whose creation failed.
- Regm.RegmHandler.AddBlkChip: ranges that are empty or not canonical pass its checks and are excluded.
- Device.BlkDevice.ReadBlk: a block index equal to the block count passes the code's check; the
  model's devices end before it.
