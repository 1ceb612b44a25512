# dvbipitools: verified models of its hard parts

This project states, in Dafny 4.11, what the most intricate parts of dvbipitools do and proves
that they do it. It is checked with `dafny verify dfyconfig.toml`.

What is modelled:

- **The kernel capture filter** (`Cidr`, `Bpf`). A list of address ranges is compiled to classic
  BPF with hand-computed jumps. An interpreter gives the program its meaning; the compiled
  program accepts exactly the frames the userspace matcher wants, if and only if there are at
  most 63 IPv4 ranges.
- **Frame parsing** (`Frame`, `FrameRoundTrip`, `FrameDelivered`). Whatever the parser delivers is
  also accepted by the filter; a frame is delivered with a payload exactly when it is one that a
  reference builder makes, and parsing returns what went into it.
- **The channel index** (`LookupProtocol`, `IndexInvariant`, `LookupSafety`, `ReapRace`,
  `LookupAlone`, `ChannelTable`). Any number of threads looking up, claiming, publishing, rolling
  back and rebuilding, one atomic access per step; what a lookup answers; and, with whole operations
  as steps, a class that refines a map.
- **The retransmission ring and the channel-change cache** (`RetRing`, `RapCache`). No torn reads
  of a seqlock ring stored word by word, and exactly what a find returns; a wrapping cache that
  refines an unbounded log.
- **Bursts** (`Burst`, `BurstTable`, `BurstRefs`). Paced sending from a pinned position, with
  appends, rate cuts, stops and slot reuse between any two loads; striped slots with free lists and
  an address index, reference counts.
- **NACK repair** (`Ret`). Repairs behind a token bucket.
- **The parallel scan** (`ScanJob`). Ordered reports by any number of workers that sleep on a
  condition variable; no lost wake-up, and the scan can always be brought to its end.
- **The guide announcer** (`Packing`, `Fragments`, `Guide`, `GuideReuse`, `GuideBuilds`, `GuideKept`,
  `GuideKeys`, `GuideSource`, `GuideIndex`, `GuideVersions`, `GuideRuns`, `GuideDrift`, `GuideBuilder`,
  `StagedVersions`). Container planning, fragment identities and versions, the documents the reader delivers, an
  index that leads back to the fragments; when incremental builds equal full builds, along runs that
  go on after failed builds, and exactly what a failure can break; who owns the saved contents.
- **Control messages** (`EcmProfile`, `EcmDecode`, `EcmRoundTrip`, `EcmForged`, `EcmProgram`). A
  validated, configurable layout, its decoder, the round trip with a matching encoder, and exactly
  which tags are accepted.
- **Replay suppression** (`Dedup`). A bit mask over a circular history, against a specification
  on sequences; writes may be refused.

Conventions. Code that updates state in the source is a class or a method with loops, proved
against a function; the main theorems are lemmas about those functions. Concurrent code is a
state machine whose steps are single atomic accesses, in any order, sequentially consistent.
Integers are unbounded except where the width decides something: the 8-bit jump of the filter,
16-bit sequence numbers, 8-bit message sequence numbers, fragment versions modulo 255 and
container versions modulo 256. Doubles are reals. Clocks, hashes, encoders, compression and
cryptography are parameters: functions about which only what is stated is assumed.

Where code and comments differ, the code is followed:

- src/dipifccret/capture/bpf.c:115-117 says that the conditional jumps avoid long distances. The
  jump over the IPv4 clauses at line 96 does not: its 8-bit field drops high bits from 64 IPv4
  ranges on. `Bpf.CompiledRightIff` has the exact condition. The command line never passes more
  than 16 ranges.
- src/dipisrt/bridge.c:191-208 stops at the first place where the replay reaches the newest
  history entry, even when an earlier place would still match. `Dedup.ReplayDroppedIff` says
  exactly which replays are dropped in full, `Dedup.RepeatedChunkWritten` gives one that is not.
- src/dipisrt/bridge.c:303-310 records a chunk whose network write failed, so after a reconnect its
  replay is dropped and it never gets out. `Dedup.LostIff` says exactly which chunks are lost that
  way, `Dedup.RefusedThenDropped` is such a run.
- src/dipifccret/channel/channel.c:393 calls a reap safe from any thread. The channel index keeps one
  channel per key as long as a reap stays ahead of every search: no search is past the bucket that
  becomes a tombstone or looking at that channel, no rebuild body runs and nobody is publishing the
  channel (`LookupProtocol.Reapable`). `ReapRace.PassedReapDoubles` and
  `ReapRace.ReclaimedReapDoubles` are the other direction.
- A reap is two steps: the tombstone (src/dipifccret/channel/channel.c:399) and `in_use` (line 414).
  In between, a lookup of the same key makes a second channel while the first is still in use, even
  where the reap stays ahead of every search (`ReapRace.HalfReapOverlaps`), and a rebuild that came
  to the channel would index it again (`ReapRace.StaleRebuild`). The program does not come there:
  src/dipifccret/run/dispatch.c:67 and :71 reap and look up from the same capture callback.
- src/dipifccret/fcc/burst.c:132-133 says that a read raced with a reuse of the slot stops the burst
  rather than misread. It does only while the new channel's cache is shorter than the cursor:
  `Burst.DisturbedReadStrays` has the runs that send one packet of the other channel,
  `Burst.SendsContiguousRun` the condition and `Burst.AtMostOneStray` the bound.
- Reusing an unchanged channel (src/dipibcg/announce/run.c:180-199) is meant to give what encoding it
  gives. It does for every document the reader delivers, along every run in which each failed build
  but the last was a cycle that selected for each channel what is published
  (`GuideRuns.IncrementalIsFull`).
  After other failures it does exactly while the fragment table holds the channel's fragments with
  the contents they encode to and the identifiers and versions the container lists
  (`GuideKept.Held`, `GuideRuns.ReuseEqualIffHeld`). `GuideDrift.FailedReloadDrifts` is a run in which
  it does not: a reload that fails at `segment_fits` for its second channel leaves new versions of
  the first channel's fragments in the table, and the next cycle copies the old ones.
- Containers of different channels must not share a fragment key. They never do: a CRID carries the
  encoded id of its channel (`GuideSource.CridTellsChannel`, `GuideSource.DeliveredIsDistinct`), and
  keys repeated inside one container, as those of programmes with the same start are, do no harm.
  `GuideDrift.SharedCridDrifts` shows what the keys are distinct for; no delivered document is like
  that.
- src/dipidescramble/ecm_profile/crypto.c:222-246 lets a period number behind a group of control words
  overwrite the group's own first number; `EcmRoundTrip.GroupNumbersSurviveIff`.

## Model

| member | source | states |
|---|---|---|
| `Cidr.ScanRanges` | src/dipifccret/capture/ranges.c:47-59 | the scan answers yes exactly when some range of the same family matches |
| `Cidr.PrefixMatchBytes` | src/dipifccret/capture/ranges.c:37-45 | whole bytes and a masked rest byte compare equal exactly when all 16 masked bytes do |
| `Cidr.WordsDecidePrefix` | src/dipifccret/capture/bpf.c:54-61 | comparing four masked 32-bit words decides the same as the byte-wise prefix match |
| `Cidr.WordDecidesRange4` | src/dipifccret/capture/bpf.c:41-51 | comparing one masked word decides the same as the masked IPv4 comparison |
| `Bpf.Buffer.EmitV4Clause` | src/dipifccret/capture/bpf.c:41-51 | the buffer grows by the four instructions of the clause |
| `Bpf.Buffer.EmitV6Clause` | src/dipifccret/capture/bpf.c:64-80 | the buffer grows by four chained word checks and the accept |
| `Bpf.Buffer.EmitV4Clauses` | src/dipifccret/capture/bpf.c:98-100 | one clause per IPv4 range, in order |
| `Bpf.Buffer.EmitV6Clauses` | src/dipifccret/capture/bpf.c:109-111 | one clause per IPv6 range, in order |
| `Bpf.Buffer.EmitDispatchBlock` | src/dipifccret/capture/bpf.c:87-113 | the whole dispatch block, with the jump length cut to 8 bits |
| `Bpf.CountFamilies` | src/dipifccret/capture/bpf.c:123-127 | the number of ranges of each family |
| `Bpf.Build` | src/dipifccret/capture/bpf.c:118-154 | fails exactly above 4096 instructions; otherwise, with at most 63 IPv4 ranges, the program accepts every wanted frame and rejects every other |
| `Bpf.V4CodeRuns` | src/dipifccret/capture/bpf.c:98-102 | running the IPv4 clauses accepts exactly when the destination is in the frame and in one of the ranges |
| `Bpf.V6CodeRuns` | src/dipifccret/capture/bpf.c:109-112 | the same for the IPv6 clauses |
| `Bpf.DispatchRuns` | src/dipifccret/capture/bpf.c:86-113 | a dispatch block decides one payload by ether type, length and destination |
| `Bpf.ProgramCorrect` | src/dipifccret/capture/bpf.c:115-154 | for every frame the program halts inside itself and accepts exactly the wanted ones |
| `Bpf.DecoyAccepted` | src/dipifccret/capture/bpf.c:96-97 | with 64 or more IPv4 ranges the program accepts a frame that is neither IPv4 nor IPv6 and is not wanted |
| `Bpf.CompiledRightIff` | src/dipifccret/capture/bpf.c:94-97 | the program is right for all frames if and only if there are at most 63 IPv4 ranges |
| `Frame.WalkExtHeaders` | src/dipifccret/capture/frame.c:13-42 | the walk ends, reads below the length only, and finds the UDP header the recursive definition finds |
| `Frame.HandleNet` | src/dipifccret/capture/frame.c:60-119 | link and network headers are parsed as specified, every read in bounds |
| `Frame.NetWanted` | src/dipifccret/capture/frame.c:71-122 | a frame whose network part parses and whose destination is in range is wanted in the filter's sense |
| `Frame.HandleFrame` | src/dipifccret/capture/frame.c:44-143 | what is delivered is the specified parse, is wanted, and is accepted by the compiled filter when that has at most 63 IPv4 ranges |
| `FrameRoundTrip.WalkChain` | src/dipifccret/capture/frame.c:13-42 | walking any chain of well-formed extension headers arrives right behind it |
| `FrameRoundTrip.RtpRoundTrip` | src/lib/demux/rtp.c:7-58 | an RTP packet built with any sources, extension and padding gives back its header fields and payload |
| `FrameRoundTrip.Ip4RoundTrip` | src/dipifccret/capture/frame.c:72-93 | a built IPv4 header gives back destination, code point and UDP offset |
| `FrameRoundTrip.Ip6RoundTrip` | src/dipifccret/capture/frame.c:94-116 | a built IPv6 header with extension headers gives back the same |
| `FrameRoundTrip.ParseBuilt` | src/dipifccret/capture/frame.c:44-143 | parsing a built frame delivers exactly its parts when its destination is in range, and nothing otherwise |
| `FrameDelivered.WalkIsChain` | src/dipifccret/capture/frame.c:13-42 | the walk passes chains of skippable extension headers and nothing else |
| `FrameDelivered.NetIs` | src/dipifccret/capture/frame.c:60-116 | what the network part accepts begins with a built link header and a built IP header, unfragmented and with UDP behind it |
| `FrameDelivered.RtpIs` | src/lib/demux/rtp.c:7-58 | a payload that is not empty comes out of a packet the RTP builder makes |
| `FrameDelivered.DeliveredIff` | src/dipifccret/capture/frame.c:44-143 | a frame is delivered with a payload if and only if it is a built one with its destination in range, and what is delivered is its contents |
| `FrameDelivered.FieldValue` | src/dipifccret/capture/frame.c:124-125 | 16-bit fields are read high byte first |
| `FrameDelivered.WordValue` | src/lib/demux/rtp.c:53-55 | 32-bit fields are read high half first |
| `LookupProtocol.GateStep` | src/dipifccret/channel/hash.c:15-28 | a step of enter or exit changes its own thread and the writer count, never the buckets, the channels or the rebuild flag |
| `LookupProtocol.FindStep` | src/dipifccret/channel/hash.c:59-94 | a step of the search changes its own thread and at most one bucket, nothing else |
| `LookupProtocol.ClaimStep` | src/dipifccret/channel/channel.c:122-188 | a step of the claim changes its own thread, at most one bucket and at most one channel slot, nothing else |
| `LookupProtocol.RebuildStep` | src/dipifccret/channel/hash.c:32-56 | a step of the rebuild changes its own thread, the flag and at most one bucket, never a channel slot or the writer count |
| `IndexInvariant.ClaimTable` | src/dipifccret/channel/hash.c:67-74 | claiming the remembered bucket keeps one owner per key and every chain |
| `IndexInvariant.PublishTable` | src/dipifccret/channel/hash.c:96-100 | publishing a claim keeps one owner per key and every chain |
| `IndexInvariant.UnclaimTable` | src/dipifccret/channel/hash.c:102-104 | rolling a claim back keeps one owner per key and every chain |
| `IndexInvariant.ReapTable` | src/dipifccret/channel/channel.c:395-403 | a tombstone in place of a channel keeps every other chain, whether the channel is free already or still in use |
| `IndexInvariant.ReapScan` | src/dipifccret/channel/hash.c:59-94 | what a search has established stays true after a reap of a bucket it is not past: beyond its noted tombstone, or beyond its position when it has none |
| `IndexInvariant.ReapInspect` | src/dipifccret/channel/hash.c:76-92 | the same for a search that has read a bucket and is looking at its channel |
| `IndexInvariant.ReapCas` | src/dipifccret/channel/hash.c:67-74 | a search about to claim may still do so after a reap of a bucket behind the one it claims |
| `IndexInvariant.InsertTable` | src/dipifccret/channel/hash.c:43-53 | reinserting a channel at the first empty bucket keeps the rebuilt part right |
| `IndexInvariant.EmptyEndsSearch` | src/dipifccret/channel/hash.c:67-74 | an empty bucket met by a search proves that the key has no owner |
| `LookupSafety.RunInv` | src/dipifccret/channel/hash.c:15-104 | the protocol's invariant holds after every run of every number of threads |
| `LookupSafety.ReapInv` | src/dipifccret/channel/channel.c:393-404 | the tombstone of a reap that stays ahead of every search keeps the invariant, whatever the other threads are doing |
| `LookupSafety.ReleaseSlotInv` | src/dipifccret/channel/channel.c:404-414 | so does setting the channel free, at any later time |
| `LookupSafety.KeyUnique` | src/dipifccret/channel/channel.c:112-192 | in every state reached with such reaps, their two halves interleaved with everything else, at most one channel that is not being reaped has a given key |
| `LookupSafety.CallersAgree` | src/dipifccret/channel/channel.c:111-192 | lookups of one key that found or made their channel since the last tombstone returned the same channel, and it is live under that key and not being reaped |
| `LookupSafety.RebuildExclusive` | src/dipifccret/channel/hash.c:14-56 | no bucket operation and no second rebuild while a rebuild body runs |
| `LookupSafety.ChainsUnbroken` | src/dipifccret/channel/hash.c:59-104 | probing from its home bucket meets a live channel before any empty bucket, whatever was claimed and rolled back |
| `LookupAlone.LookupAnswers` | src/dipifccret/channel/channel.c:112-192 | from every reachable state with no claim and no rebuild under way, a lookup that is not interfered with is lookup-or-insert on the map of live channels: the key's channel, or a new one in a free slot, or nothing exactly when there is neither; nothing else changes |
| `LookupAlone.LookupSpins` | src/dipifccret/channel/hash.c:59-94 | with neither a channel of its key nor an empty bucket it never ends, so the condition of the row above is exact |
| `LookupAlone.BacksOff` | src/dipifccret/channel/hash.c:15-24 | a lookup that meets a rebuild leaves the writer count again and waits |
| `LookupAlone.WaiterAnswers` | src/dipifccret/channel/hash.c:15-24 | once the rebuild is over it is answered like any other |
| `LookupAlone.RebuildIndexes` | src/dipifccret/channel/hash.c:32-56 | a rebuild that is not interfered with ends with every live channel indexed, no tombstone left and no channel changed, in a table larger than the number of channels |
| `ReapRace.ReapDuringScan` | src/dipifccret/channel/channel.c:393-404 | such a state is reached: one thread makes a channel, another search passes it, the reap then doubles its key |
| `ReapRace.PassedReapDoubles` | src/dipifccret/channel/channel.c:393-404 | from every reachable state in which a search for an unowned key is past the reaped bucket, with an idle thread, no claim or rebuild under way and room, actions follow that give the key two live channels |
| `ReapRace.ReclaimedReapDoubles` | src/dipifccret/channel/hash.c:67-74 | the same from every reachable state where the bucket a search is about to claim has been taken by another key and is reaped, and its own key lives elsewhere |
| `ReapRace.PastIffNotAhead` | src/dipifccret/channel/hash.c:59-94 | for a search that has noted no tombstone, being past the bucket is exactly what the condition on reaps excludes |
| `ReapRace.WholeReap` | src/dipifccret/channel/channel.c:394-414 | the two halves of a reap in a row are the whole reap |
| `ReapRace.HalfReapOverlaps` | src/dipifccret/channel/channel.c:399-414 | after the tombstone of every admissible reap, with an idle thread, no claim under way and room, a lookup of the same key makes a second channel while the reaped one is still in use |
| `ReapRace.StaleRebuild` | src/dipifccret/channel/hash.c:43-53 | a rebuild that came to a channel between its two halves would leave a bucket that names a free channel |
| `ChannelTable.ChannelIndex.constructor` | src/dipifccret/channel/channel.c:15-33 | a new index stands for the empty map |
| `ChannelTable.ChannelIndex.FindOrClaim` | src/dipifccret/channel/hash.c:59-94 | finds the key's channel, or claims a bucket that may take it; the loop ends |
| `ChannelTable.ChannelIndex.FindFree` | src/dipifccret/channel/channel.c:122-133 | the first free slot, or none is free |
| `ChannelTable.ChannelIndex.Reinsert` | src/dipifccret/channel/hash.c:45-52 | one more live channel is indexed, one more bucket used |
| `ChannelTable.ChannelIndex.Probe` | src/dipifccret/channel/hash.c:48-50 | the first empty bucket of a chain; the loop ends |
| `ChannelTable.ChannelIndex.Rebuild` | src/dipifccret/channel/hash.c:32-56 | restores the full invariant, the counter within its threshold, without changing the channels |
| `ChannelTable.ChannelIndex.Lookup` | src/dipifccret/channel/channel.c:112-192 | a map: returns the key's channel, or adds it in a free slot, or changes nothing when no slot is free |
| `ChannelTable.ChannelIndex.Reap` | src/dipifccret/channel/channel.c:385-415 | removes exactly the key of that channel |
| `ChannelTable.ChannelIndex.FindBucket` | src/dipifccret/channel/channel.c:394-403 | the bucket of a live channel is met and the empty-bucket exit is unreachable |
| `ChannelTable.EmptyExists` | src/dipifccret/channel/channel.c:190-190 | while fewer buckets are used than there are, one is empty |
| `ChannelTable.CreateWhole` | src/dipifccret/channel/channel.c:163-180 | creating a channel keeps the invariant and counts one bucket unless a tombstone was reused |
| `ChannelTable.ReapWhole` | src/dipifccret/channel/channel.c:393-414 | reaping keeps the invariant and the number of used buckets |
| `ChannelTable.ChannelMapAdd` | src/dipifccret/channel/channel.c:163-179 | filling a free slot adds exactly that key to the map |
| `ChannelTable.ChannelMapRemove` | src/dipifccret/channel/channel.c:414-414 | freeing a slot removes exactly its key from the map |
| `RetRing.UnpackPack` | src/dipifccret/channel/ring.c:13-17 | unpacking the words of a payload gives the payload |
| `RetRing.LogIsStores` | src/dipifccret/channel/ring.c:10-29 | every packet in a slot's log was handed to a store |
| `RetRing.NoTornReads` | src/dipifccret/channel/ring.c:84-108 | whenever a find succeeds, all returned fields and the payload come from one store of that sequence number, in every interleaving |
| `RetRing.FindReturns` | src/dipifccret/channel/ring.c:84-108 | after every run with no store to the slot under way, a find that is not interfered with returns the slot's newest packet, all its fields and bytes, if that has the number asked for, and nothing otherwise |
| `RetRing.FindAnswers` | src/lib/helper/seqlock.h:24-35 | so does a find at the start of any of its eight attempts |
| `RetRing.GivesUp` | src/lib/helper/seqlock.h:24-31 | a find gives up exactly after eight attempts |
| `RetRing.StoreThenFind` | src/dipifccret/channel/ring.c:10-29 | what is stored is found: the store ends, and a find of its number returns that packet |
| `RapCache.HoldsAppend` | src/dipifccret/channel/ring.c:70-81 | appending to the ring keeps it the last entries of the log |
| `RapCache.NewestRapAppend` | src/dipifccret/channel/ring.c:64-67 | the newest random access point after an append |
| `RapCache.LogEmptyIff` | src/dipifccret/channel/ring.c:68-68 | nothing is cached exactly until the first random access point |
| `RapCache.Cache.Append` | src/dipifccret/channel/ring.c:54-82 | the log grows by the packet; ring and counters still represent it |
| `RapCache.Cache.HasRap` | src/dipifccret/channel/ring.c:135-137 | true exactly when a random access point was seen |
| `RapCache.Cache.Count` | src/dipifccret/channel/ring.c:139-149 | the length of the log suffix from the newest random access point, cut to the capacity |
| `RapCache.Cache.Get` | src/dipifccret/channel/ring.c:173-186 | the entry at that index of the suffix |
| `RapCache.Cache.PeekMeta` | src/dipifccret/channel/ring.c:110-133 | its sequence number and timestamp |
| `RapCache.Cache.Pin` | src/dipifccret/channel/ring.c:188-196 | the start of the suffix, a random access point unless already overwritten |
| `RapCache.Cache.End` | src/dipifccret/channel/ring.c:198-200 | the length of the log |
| `RapCache.Cache.GetAbs` | src/dipifccret/channel/ring.c:202-209 | the log entry at an absolute position, or none when not yet written or overwritten |
| `Burst.SendsContiguousRun` | src/dipifccret/fcc/burst.c:118-150 | over every run in which no reuse of the slot falls between a test of the generation and the read it guards, a burst has sent exactly the contiguous run of its own log from the pinned position |
| `Burst.AtMostOneStray` | src/dipifccret/fcc/burst.c:118-150 | over every run all packets but the last are the own run, and the last may be another channel's only after a reuse of the slot |
| `Burst.DisturbedReadStrays` | src/dipifccret/fcc/burst.c:127-132 | from every state at such a read, a reuse of the slot there has a continuation in which the burst sends a packet of the other channel |
| `Burst.ReadIsReached` | src/dipifccret/fcc/burst.c:118-132 | every burst with something to send reaches such a read |
| `Burst.SendsWithinBudget` | src/dipifccret/fcc/burst.c:109-118 | over every run its bytes stay below what its ticks earned, each at the rate then in force, plus one maximum payload |
| `Burst.BudgetIsAccrued` | src/dipifccret/fcc/burst.c:109-110 | over every run rate, clock and budget are the halved rate, the last earning tick and the sum of the earnings read off the actions |
| `Burst.AccruedBound` | src/dipifccret/fcc/burst.c:109-110 | what is earned is at most the initial rate for all the time |
| `Burst.AccruedFrom` | src/dipifccret/fcc/burst.c:109-110 | from any point on, rate cuts included, a burst earns at most the rate of that point for the time since |
| `Burst.SendsWithinRate` | src/dipifccret/fcc/burst.c:109-118 | over every run eight times the bytes sent stay below the initial rate times the time, plus one payload |
| `Burst.SendsWithinRateFrom` | src/dipifccret/fcc/burst.c:109-118 | from any point on they stay below what the unspent budget and the rate of that point give, plus one payload |
| `Burst.SendsTheRate` | src/dipifccret/fcc/burst.c:109-150 | without cuts, an undisturbed tick that leaves the burst going has sent at least rate times time bits |
| `Burst.AccruedBits` | src/dipifccret/fcc/burst.c:109-110 | eight times what is earned is at most rate times time, and exactly that without cuts |
| `Burst.StopClips` | src/dipifccret/fcc/burst.c:135-141 | after a stop request nothing at or past that sequence number, modulo 65536, is sent, but for a packet that had passed the test before the request |
| `Burst.BeforeIs` | src/dipifccret/fcc/burst.c:138-138 | a sequence number counts as before the 32768 that follow it, modulo 65536, and before no other |
| `Burst.CommittedIsSent` | src/dipifccret/fcc/burst.c:143-149 | a packet past the test is sent whatever comes in between |
| `Burst.DoneIsPermanent` | src/dipifccret/fcc/burst.c:95-125 | a done burst stays done and sends nothing, or at most the packet of an iteration that had passed its loop test |
| `Burst.RecycledSendsNothing` | src/dipifccret/fcc/burst.c:127-130 | once the channel slot has a newer generation nothing more is sent, but at most one packet of an iteration past its test of the generation, and that the one it holds if it has read one |
| `Burst.WholeTickIsRun` | src/dipifccret/fcc/burst.c:91-157 | an undisturbed tick is one of the runs above |
| `Burst.WholeTickUsesBudget` | src/dipifccret/fcc/burst.c:118-156 | an undisturbed tick ends because the burst is done or its budget is used up |
| `Burst.Sender.constructor` | src/dipifccret/fcc/burst.c:58-76 | a new burst is pinned at the start of the cached suffix |
| `Burst.Sender.Tick` | src/dipifccret/fcc/burst.c:91-157 | the new state is that of a whole tick over the cache's log |
| `Burst.Sender.SendLoop` | src/dipifccret/fcc/burst.c:118-156 | the loop over the cache computes the rest of the tick |
| `BurstTable.OneSessionPerAddress` | src/dipifccret/fcc/burst_table.c:200-235 | two live slots of one address are the same slot |
| `BurstTable.HitIsLive` | src/dipifccret/fcc/burst_table.c:123-142 | the index finds an address exactly when a live slot has it, and no entry is stale |
| `BurstTable.UpdateOk` | src/dipifccret/fcc/burst_table.c:208-216 | replacing the burst of a slot keeps the table's invariant |
| `BurstTable.ClaimOk` | src/dipifccret/fcc/burst_table.c:146-178 | popping a slot and indexing it keeps the invariant |
| `BurstTable.ClearOk` | src/dipifccret/fcc/burst_table.c:320-331 | clearing a slot and pushing it on the free list keeps the invariant |
| `BurstTable.New` | src/dipifccret/fcc/burst_table.c:37-73 | fails exactly for capacity 0; otherwise a table that satisfies the invariant, all slots vacant, over the smaller of the capacity and eight stripes that differ by at most one slot |
| `BurstTable.Layout` | src/dipifccret/fcc/burst_table.c:56-71 | the stripes tile all slots |
| `BurstTable.NewStripe` | src/dipifccret/fcc/burst_table.c:13-29 | the free list holds exactly the stripe's slots |
| `BurstTable.Sessions.Find` | src/dipifccret/fcc/burst_table.c:126-142 | index hit checked against the slot, stale entries dropped |
| `BurstTable.Sessions.ClaimLocked` | src/dipifccret/fcc/burst_table.c:146-178 | succeeds exactly while the stripe has a free slot |
| `BurstTable.Sessions.StartBurst` | src/dipifccret/fcc/burst_table.c:200-235 | replaces, claims or rejects, keeps the invariant and hands the replaced burst to the caller |
| `BurstTable.Sessions.Nack` | src/dipifccret/fcc/burst_table.c:237-277 | counts a session's NACK and tells whether its burst is halved or ended |
| `BurstTable.NackCourse` | src/dipifccret/fcc/burst_table.c:255-274 | over any number of NACKs the rate is halved once, at exactly half a threshold of two or more, and the burst is ended from the threshold on; threshold zero does neither |
| `BurstTable.Sessions.Release` | src/dipifccret/fcc/burst_table.c:311-335 | owns the slot exactly when it is live with the expected burst, and clears it only then |
| `BurstTable.Sessions.FindStripe` | src/dipifccret/fcc/burst_table.c:92-97 | the stripe of a slot is found, so the NULL result is unreachable |
| `BurstRefs.CountsAreHolders` | src/dipifccret/fcc/burst.c:82-89 | over every run a burst is alive exactly while a slot or a thread holds it, and its count is the number of holders |
| `BurstRefs.FreedOnce` | src/dipifccret/fcc/burst.c:86-89 | every burst is alive or freed once, and never freed while held or in a slot |
| `BurstRefs.AcquireAdds` | src/dipifccret/fcc/burst_table.c:290-309 | in every state of every run, a snapshot of a live slot adds one reference to its burst, which has not been freed |
| `BurstRefs.DropTakes` | src/dipifccret/fcc/burst.c:86-89 | giving a reference back takes one holder away, and frees the burst exactly when it was the last |
| `BurstRefs.ReleaseHandsOver` | src/dipifccret/fcc/burst_table.c:311-335 | clearing a slot empties it and hands its reference to the caller |
| `BurstRefs.StartPlaces` | src/dipifccret/fcc/burst_table.c:200-235 | a started burst ends up in a slot with one holder, or stays with its maker and nothing else changes |
| `BurstRefs.SessionsAndFreeLists` | src/dipifccret/fcc/burst_table.c:146-335 | over every run one live slot per address, and the free lists hold exactly the vacant slots |
| `Ret.Limiter.TakeOne` | src/dipifccret/ret/ratelimit.c:86-118 | refills by elapsed time up to the depth, grants when a whole token is there, and always grants at rate 0 |
| `Ret.Server.Afford` | src/dipifccret/ret/ret.c:119-124 | the first repair is prepaid, later ones cost a token each |
| `Ret.Server.HandleNack` | src/dipifccret/ret/ret.c:139-174 | sends the stored packets asked for, in order, as far as the tokens go, and leaves the bucket as specified; at rate 0 sends them all |
| `Ret.Server.RepairEntry` | src/dipifccret/ret/ret.c:157-169 | answers a packet id and then its bitmask, or stops when the tokens are used up |
| `Ret.Server.RepairSeq` | src/dipifccret/ret/ret.c:119-127 | answers one sequence number if it is stored and affordable |
| `Ret.Server.Unlimited` | src/dipifccret/ret/ret.c:157-170 | without a limit the stored packets asked for are all answered, in order |
| `Ret.ReportRoundTrip` | src/dipifccret/ret/ret.c:157-169 | a packet id and the bitmask of any set of distances 1 to 16 ask for that packet and exactly the packets at those distances, modulo 65536, nearest first |
| `Ret.ReportRepaired` | src/dipifccret/ret/ret.c:157-169 | without a limit exactly the stored ones of these are repaired, in that order |
| `Ret.RequestedSplit` | src/dipifccret/ret/ret.c:153-170 | entries are answered one after the other |
| `Ret.NackGets` | src/dipifccret/ret/ratelimit.c:86-118 | a new source gets the first three seconds' worth of what it asks for, a known one what its tokens and the time since its last NACK allow, up to the same |
| `Ret.RunCovered` | src/dipifccret/ret/ret.c:115-174 | over every run repairs plus tokens left are covered by the depth and the time the bucket clock moved |
| `Ret.RepairBound` | src/dipifccret/ret/ret.c:115-174 | while no other source shares its bucket, one source gets at most 3 rate plus rate times the bucket clock's time, clock steps backward included |
| `ScanJob.OrderedReports` | src/dipiscan/scan.c:251-314 | over every run reports are strictly increasing in address and port, and one worker at most reports |
| `ScanJob.CompleteReports` | src/dipiscan/scan.c:264-310 | without a stop, when the workers are gone every port of every address was reported |
| `ScanJob.ScanEnds` | src/dipiscan/scan.c:251-314 | from every reachable state the workers can bring the scan to its end; unless it was stopped or nobody is left, every port of every address is then reported, in order |
| `ScanJob.MoveShrinks` | src/dipiscan/scan.c:251-314 | every move of a worker brings the scan closer to its end |
| `ScanJob.StopEndsProbing` | src/dipiscan/scan.c:269-281 | once stopped, nobody begins to probe an address or goes on to a further port of one |
| `ScanJob.SomebodyMoves` | src/dipiscan/scan.c:264-308 | over every run, while a claimed index is uncommitted, the worker whose turn it is does not sleep on the condition variable and can move |
| `ScanJob.SleepersWait` | src/dipiscan/scan.c:270-308 | over every run a worker asleep waits for an index whose turn has not come |
| `ScanJob.AddrAt` | src/dipiscan/scan.c:27-38 | the address is the start plus the index less one, modulo the size of the address space |
| `ScanJob.AddingStep` | src/dipiscan/scan.c:32-36 | one octet of the carry loop keeps the sum |
| `Packing.VluLenIs` | src/lib/bim/bitwriter.c:104-110 | a length prefix takes the fewest bytes of seven bits that hold the number, and at least one |
| `Packing.StaysAhead` | src/dipibcg/announce/segment.c:96-111 | no packing gets further with as many groups as the greedy one |
| `Packing.NoFewer` | src/dipibcg/announce/segment.c:96-111 | every packing has at least as many groups |
| `Packing.PlanBounds` | src/dipibcg/announce/segment.c:131-178 | the groups are consecutive, cover every unit, respect both limits and are as few as possible; it fails only when no packing into 65535 groups exists |
| `Fragments.SetVersion` | src/dipibcg/announce/doc.c:92-107 | the content is recorded; the version stays exactly when it was already, and otherwise is the next one modulo the wrap, unsent |
| `Fragments.FreeKey` | src/dipibcg/announce/doc.c:136-149 | the search over "#n" suffixes ends with a key this build has not emitted |
| `Fragments.FreeKeyIsFresh` | src/dipibcg/announce/doc.c:136-149 | the search depends only on which suffixed keys were emitted, so a second fragment of a base always gets the next suffix |
| `Fragments.MarkOk` | src/dipibcg/announce/doc.c:131-163 | fragment identifiers stay unique and are handed out in increasing order |
| `Fragments.MarkPlain` | src/dipibcg/announce/doc.c:136-149 | a base not emitted yet is its own key |
| `Fragments.SecondOfBaseDrifts` | src/dipibcg/announce/doc.c:148-148 | the second fragment of one base gets another identifier when the next build marks it first |
| `Fragments.ForgottenGetsNewId` | src/dipibcg/announce/doc.c:250-257 | a pruned key that comes back gets an identifier larger than all in use |
| `Fragments.FragmentList.constructor` | src/dipibcg/announce/run.c:439-446 | starts with no fragments |
| `Fragments.FragmentList.Find` | src/dipibcg/announce/doc.c:114-129 | binary search finds the key exactly when it is there, and otherwise the place where it belongs |
| `Fragments.FragmentList.Locate` | src/dipibcg/announce/doc.c:136-149 | the search loop over suffixes finds the specified key |
| `Fragments.FragmentList.Get` | src/dipibcg/announce/doc.c:131-163 | the sorted array does what the map does, failure at exhausted identifiers included |
| `Fragments.FragmentList.SetContent` | src/dipibcg/announce/doc.c:220-223 | records one content and changes nothing else |
| `Fragments.FragmentList.PruneAll` | src/dipibcg/announce/doc.c:250-257 | the compaction keeps exactly the entries of this build, in order |
| `Guide.ChannelRefsAgree` | src/dipibcg/announce/run.c:185-190 | the fragments the reuse path lists are those the encoder emits, in the same order |
| `Guide.Plan` | src/dipibcg/announce/segment.c:142-149 | up to 65535 channels get one container each; otherwise the bounds cover all channels in order |
| `GuideReuse.WalkFrame` | src/dipibcg/announce/doc.c:203-238 | assigning or touching a container emits exactly its keys, repeated bases under their suffixes, and changes no other key |
| `GuideReuse.WalkAssigns` | src/dipibcg/announce/doc.c:203-227 | after assigning, every content is recorded under its key and every reference is the table's |
| `GuideReuse.WalkTouches` | src/dipibcg/announce/doc.c:229-238 | touching recorded fragments, repeated bases included, gives the same table and references as assigning them |
| `GuideReuse.SortSorts` | src/dipibcg/announce/doc.c:165-169 | the references are a permutation in order of identifier |
| `GuideReuse.SortEntries` | src/lib/bim/index.c:83-91 | sorting references does not change the multiset of index entries |
| `GuideReuse.ReuseIsEncode` | src/dipibcg/announce/run.c:180-199 | reusing a channel whose fragments are recorded is the same as encoding it |
| `GuideReuse.EncodeRecords` | src/dipibcg/announce/run.c:113-142 | an encoded container is what its recorded fragments encode to, all of them emitted |
| `GuideBuilds.GroupsChannels` | src/dipibcg/announce/run.c:251-262 | after the containers of a build every channel is as recorded |
| `GuideBuilds.GroupsEqual` | src/dipibcg/announce/run.c:251-262 | the container loop with reuse equals the loop without |
| `GuideBuilds.MainEqual` | src/dipibcg/announce/segment.c:210-253 | reusing the operator fragment is the same as encoding it |
| `GuideBuilds.BuildEqual` | src/dipibcg/announce/run.c:224-287 | one build with reuse equals one without, failures included, when different containers share no key and the table holds what would be reused |
| `GuideBuilds.BuildKeepsLive` | src/dipibcg/announce/run.c:224-287 | every build, of any document and selection, with or without reuse, successful or not, leaves published containers that were made from the published selection, and a failed one publishes nothing |
| `GuideBuilds.BuildKeepsInv` | src/dipibcg/announce/run.c:224-287 | after a successful build the table holds every published container, whatever failed before |
| `GuideVersions.VersionMoves` | src/dipibcg/announce/doc.c:203-227 | encoding a container gives a new fragment version 1, leaves the version of one with the recorded bytes, and moves that of one with other bytes to the next modulo 255 |
| `GuideVersions.EveryByteCounts` | src/dipibcg/announce/doc.c:206-219 | an encoded body of the same layout that differs anywhere differs in some fragment's bytes |
| `GuideIndex.IndexLeadsBack` | src/dipibcg/announce/segment.c:270-357 | the index of a successful build leads back: every container is built from a list of exactly the fragments of its channels, and the entries are exactly those that name a container, the identifier of a fragment it lists and that fragment's CRID, title, schedule end or showing title |
| `GuideIndex.EverythingIsFound` | src/dipibcg/announce/segment.c:275-295 | every selected programme and its channel's schedule have their entries of every indexed kind |
| `GuideIndex.RefsAreOfChannels` | src/dipibcg/announce/run.c:185-190 | a container's fragments are the selected programmes of its announced channels, a schedule for each that has any, and a service for each |
| `GuideIndex.ReusedIndexLeadsBack` | src/dipibcg/announce/run.c:180-199 | so does the index of a build that reuses channels the table holds as published |
| `GuideKept.ReuseIffHeld` | src/dipibcg/announce/run.c:180-199 | copying a channel's container equals encoding the channel if and only if the table holds its fragments with their contents and with the identifiers and versions the container lists |
| `GuideKept.ChannelOkIffHeld` | src/dipibcg/announce/run.c:113-142 | the invariant behind reuse says no more than that |
| `GuideKept.GroupEqualIffHeld` | src/dipibcg/announce/run.c:251-262 | the same inside any build, when the channel's turn comes, read off the table the build began with |
| `GuideKept.BuildEqualIffKept` | src/dipibcg/announce/run.c:224-287 | a build that would succeed by encoding everything gives the same with reuse if and only if every channel it would reuse is recorded |
| `GuideKept.KeptIffHeld` | src/dipibcg/announce/run.c:217-222 | recorded means held with the listed identifiers and versions, for all channels a build would reuse |
| `GuideKept.BuildKeepsChannel` | src/dipibcg/announce/run.c:224-287 | a build that selects for a channel what is published for it leaves the channel recorded if it was, also when the build fails |
| `GuideKept.FailedKeepsAll` | src/dipibcg/announce/run.c:224-287 | a failed build that selected for every channel what is published leaves everything recorded |
| `GuideKeys.DistinctKeysIff` | src/dipibcg/announce/doc.c:176-189 | with one container per channel, containers share no key if and only if announced channels differ in their ids and have no programme key in common |
| `GuideKeys.PlainIsDistinct` | src/dipibcg/announce/doc.c:176-189 | so it is enough that channels differ in their ids and in their CRIDs, none of which holds a "#"; programmes of one channel may share a CRID |
| `GuideSource.PctEncodeInjective` | src/lib/helper/uriparse.c:145-163 | different ids have different percent encodings |
| `GuideSource.PctEncodeSeg` | src/lib/helper/uriparse.c:145-163 | the loop writes a prefix of the encoding that fits the buffer, and all of it into a buffer with room |
| `GuideSource.CridFits` | src/lib/tva/tva_xml/crid.c:72-81 | a CRID fits its buffer and its key the fragment table, whatever id and start time hold |
| `GuideSource.CridTellsChannel` | src/lib/tva/tva_xml/crid.c:72-81 | two ids with CRIDs that begin the same string are the same id, whatever the start times hold |
| `GuideSource.FirstOnlyDiffer` | src/dipibcg/announce/doc.c:21-53 | channels that are left have pairwise different ids |
| `GuideSource.DropDupChannels` | src/dipibcg/announce/doc.c:40-47 | in place, the first channel of every id moves to the front, in order |
| `GuideSource.DeliveredIsDistinct` | src/dipibcg/announce/doc.c:176-189 | in every delivered document, with every selection, channels differ in id and share no programme key |
| `GuideSource.DeliveredDistinct` | src/dipibcg/announce/doc.c:176-189 | so no build of a delivered document has one key in two containers |
| `GuideRuns.StartOk` | src/dipibcg/announce/run.c:439-446 | an announcer that has published nothing meets the invariant |
| `GuideRuns.NewSource` | src/dipibcg/announce/run.c:324-345 | a reloaded document is never taken for a published one, whatever builds have failed |
| `GuideRuns.RunLive` | src/dipibcg/announce/run.c:224-432 | every run of cycles, reloads and sends keeps what the theorems on reuse start from, through any failures |
| `GuideRuns.ReuseEqualIffHeld` | src/dipibcg/announce/run.c:180-287 | in every state of every run, with or without reuse so far and whatever failed, a build that would succeed by encoding everything gives the same with reuse if and only if the table holds what it would reuse as published |
| `GuideRuns.KeptRunEqual` | src/dipibcg/announce/run.c:180-287 | along a run whose builds find everything they would reuse recorded, incremental and full building go through the same states |
| `GuideRuns.IncrementalIsFull` | src/dipibcg/announce/run.c:180-287 | along any run of cycles, reloads and sends of delivered documents in which every build before the last event succeeds or is a cycle that selected what is published, incremental and full building reach the same containers, identifiers, versions and index, and the same builds fail |
| `GuideRuns.IndexAlongRuns` | src/dipibcg/announce/run.c:180-287 | at any point of any run the index of a build that reuses only what is recorded leads back, and no container lists an identifier twice |
| `GuideDrift.SharedCridDrifts` | src/dipibcg/announce/run.c:180-199 | what the distinct keys are for: with one CRID in two channels, which the reader never delivers, two successful builds publish different containers with reuse and without |
| `GuideDrift.FailedReloadDrifts` | src/dipibcg/announce/run.c:324-345 | a first build, a reload that fails on its second channel and a cycle of the old document, after which reuse and full encoding publish different containers |
| `GuideBuilder.Announcer.constructor` | src/dipibcg/announce/run.c:439-446 | an announcer that has published nothing |
| `GuideBuilder.Announcer.OneKey` | src/dipibcg/announce/doc.c:211-223 | finds or makes one fragment and records its content when there is one |
| `GuideBuilder.Announcer.WalkKeys` | src/dipibcg/announce/doc.c:203-238 | the loops over references do what the specification does, up to the first failure |
| `GuideBuilder.Announcer.Collect` | src/dipibcg/announce/segment.c:275-295 | the entries of all references are added |
| `GuideBuilder.Announcer.EntriesOf` | src/dipibcg/announce/segment.c:280-293 | the entries of one fragment |
| `GuideBuilder.Announcer.TitlesOf` | src/dipibcg/announce/segment.c:291-293 | one entry for every title a schedule shows |
| `GuideBuilder.Announcer.XmltvGroup` | src/dipibcg/announce/run.c:113-142 | encodes one container into the staged output as specified |
| `GuideBuilder.Announcer.ReusedGroup` | src/dipibcg/announce/run.c:180-199 | copies one container as specified |
| `GuideBuilder.Announcer.OperatorGroup` | src/dipibcg/announce/segment.c:210-253 | builds or copies the operator container as specified |
| `GuideBuilder.Announcer.IndexSegments` | src/dipibcg/announce/segment.c:325-357 | stages a version and wraps every index container, or fails |
| `GuideBuilder.Announcer.AllGroups` | src/dipibcg/announce/run.c:251-262 | the container loop, up to the first failure |
| `GuideBuilder.Announcer.AnnounceBuild` | src/dipibcg/announce/run.c:224-287 | the whole build computes `Guide.Build` with reuse; a failure leaves the published output |
| `StagedVersions.Publisher.constructor` | src/dipibcg/announce/run.c:443-443 | nothing published, nothing allocated |
| `StagedVersions.Publisher.OutStage` | src/dipibcg/announce/segment.c:359-379 | the copy shares every buffer at its own place |
| `StagedVersions.Publisher.GrowSegments` | src/dipibcg/announce/run.c:243-243 | new records are zeroed and own nothing |
| `StagedVersions.Publisher.GrowIndexes` | src/dipibcg/announce/segment.c:339-339 | the same for index records |
| `StagedVersions.Publisher.VersionStage` | src/dipibcg/announce/doc.c:92-111 | new content gets a buffer of its own and the next version, other records and all old buffers stay; without memory nothing changes |
| `StagedVersions.Publisher.VersDrop` | src/dipibcg/announce/segment.c:390-397 | frees exactly the buffers not shared at the same position, each once |
| `StagedVersions.Publisher.DropAll` | src/dipibcg/announce/segment.c:399-416 | frees exactly the buffers of one output that the other does not share |
| `StagedVersions.Publisher.OutCommit` | src/dipibcg/announce/segment.c:399-407 | frees exactly the replaced buffers, after which each live buffer has one published owner and contents are as staged |
| `StagedVersions.Publisher.OutDiscard` | src/dipibcg/announce/segment.c:409-416 | frees exactly the newly staged buffers, after which each live buffer has one published owner |
| `StagedVersions.Publisher.Build` | src/dipibcg/announce/run.c:224-287 | a build failing anywhere leaves records, buffers and contents as they were; one that succeeds publishes exactly the staged versions and leaks nothing |
| `EcmProfile.Padded` | src/dipidescramble/ecm_profile/wire.c:51-64 | the fewest whole blocks that hold the plaintext under the padding rule; none exactly for an unpadded plaintext that does not fill its blocks |
| `EcmDecode.LocateOk` | src/dipidescramble/ecm_profile/crypto.c:9-40 | for an accepted profile every component pointer the decoder dereferences is set and inside the message |
| `EcmDecode.FieldsUpTo` | src/dipidescramble/ecm_profile/crypto.c:215-249 | extraction reads only the fields and ends exactly behind them |
| `EcmDecode.PlainHoldsCw` | src/dipidescramble/ecm_profile/validate.c:131-143 | the plaintext of an accepted profile holds a control word and the ciphertext holds the plaintext |
| `EcmRoundTrip.TokensTile` | src/dipidescramble/ecm_profile/wire.c:66-75 | components and markers of an accepted profile make up the message length exactly |
| `EcmRoundTrip.LocateIff` | src/dipidescramble/ecm_profile/crypto.c:15-39 | a message of that length is located exactly when every marker is in its place |
| `EcmRoundTrip.LocateFinds` | src/dipidescramble/ecm_profile/crypto.c:28-37 | every component is located where the encoder put its bytes |
| `EcmRoundTrip.GroupExtracts` | src/dipidescramble/ecm_profile/crypto.c:84-99 | extracting a group gives each control word with its carried or counted period number |
| `EcmRoundTrip.FieldsExtract` | src/dipidescramble/ecm_profile/crypto.c:215-249 | extracting the encoder's plaintext gives its control words and period numbers |
| `EcmRoundTrip.InnerTagAgrees` | src/dipidescramble/ecm_profile/crypto.c:201-214 | the tag inside the plaintext is found behind the fields it covers |
| `EcmRoundTrip.RoundTrip` | src/dipidescramble/ecm_profile/crypto.c:101-259 | for every accepted profile, decoding a matching encoder's message returns its control words with their period numbers, the first as the next row says, whatever the padding, the random vector and the caller's array |
| `EcmForged.ForgedIff` | src/dipidescramble/ecm_profile/crypto.c:182-219 | the encoder's message with any tags of the right lengths is decoded if and only if the tag its profile checks covers what the message holds |
| `EcmForged.OtherTagRejected` | src/dipidescramble/ecm_profile/crypto.c:189-192 | with the tag on the wire changed and nothing else, a message that was decoded is not |
| `EcmForged.InnerTagIff` | src/dipidescramble/ecm_profile/crypto.c:207-219 | the inner tag is compared with the tag of the fields before it |
| `EcmForged.EncodeIsForge` | src/dipidescramble/ecm_profile/crypto.c:182-219 | the encoder's own message has the right tags |
| `EcmForged.MessageLength` | src/dipidescramble/ecm_profile/wire.c:19-76 | the bytes of a message by cipher: vector, padded ciphertext, cipher tag, integrity tag and headers |
| `EcmForged.OneMode` | src/dipidescramble/ecm_profile/common.c:28-40 | every cipher has exactly one mode |
| `EcmRoundTrip.GroupNumbersSurviveIff` | src/dipidescramble/ecm_profile/crypto.c:222-246 | the words of a group keep the group's own numbers for all messages if and only if no period number stands behind the group |
| `EcmRoundTrip.FirstCpOfGroup` | src/dipidescramble/ecm_profile/crypto.c:222-246 | the first word of a group gets the number beside the group exactly when that stands behind the group |
| `EcmRoundTrip.FirstCpWithoutGroup` | src/dipidescramble/ecm_profile/crypto.c:222-235 | a single control word gets the carried number, or that of the message around it |
| `EcmProgram.CountKind` | src/dipidescramble/ecm_profile/validate.c:14-20 | the number of tokens of that kind |
| `EcmProgram.CheckGroup` | src/dipidescramble/ecm_profile/validate.c:48-67 | accepts exactly one control word and at most one period number, nothing else |
| `EcmProgram.CheckHeaders` | src/dipidescramble/ecm_profile/validate.c:90-96 | accepts exactly when no name is reserved and none occurs twice |
| `EcmProgram.CheckFields` | src/dipidescramble/ecm_profile/validate.c:115-157 | accepts exactly the specified field orders |
| `EcmProgram.CheckWires` | src/dipidescramble/ecm_profile/validate.c:159-184 | accepts exactly the specified wire orders |
| `EcmProgram.ValidateProfile` | src/dipidescramble/ecm_profile/validate.c:69-186 | accepts exactly the specified profiles and fills in the default orders |
| `EcmProgram.DefaultsAccepted` | src/dipidescramble/ecm_profile/validate.c:22-46 | the default orders always pass the checks, and the field order has a default exactly with at most one header |
| `EcmProgram.GroupUnitLen` | src/dipidescramble/ecm_profile/wire.c:8-17 | the length of one word of a group |
| `EcmProgram.ComputeLayout` | src/dipidescramble/ecm_profile/wire.c:19-76 | all lengths of the layout, or the alignment failure |
| `EcmProgram.LocateComponents` | src/dipidescramble/ecm_profile/crypto.c:9-40 | the offsets of all components, or a failure |
| `EcmProgram.ExtractUnit` | src/dipidescramble/ecm_profile/crypto.c:84-99 | one word of a group and the offset behind it |
| `EcmProgram.ExtractGroup` | src/dipidescramble/ecm_profile/crypto.c:239-244 | all words of a group and the offset behind them |
| `EcmProgram.ExtractFields` | src/dipidescramble/ecm_profile/crypto.c:215-249 | all fields, ending exactly at the plaintext length |
| `EcmProgram.ComputeTag` | src/dipidescramble/ecm_profile/crypto.c:42-81 | the checksum's four bytes in either order, or the left or right end of the keyed hash; nothing for data that is too long |
| `EcmProgram.MakeKeys` | src/dipidescramble/ecm_profile/crypto.c:131-156 | the derived or given keys, cut to the cipher's length |
| `EcmProgram.MakeIv` | src/dipidescramble/ecm_profile/crypto.c:163-168 | zero, or the period number in the first or last two bytes |
| `EcmProgram.BoundData` | src/dipidescramble/ecm_profile/crypto.c:172-180 | the message's id and period number, as far as the profile binds them |
| `EcmProgram.CheckInner` | src/dipidescramble/ecm_profile/crypto.c:207-219 | accepts exactly when the end of the plaintext is the tag of what comes before it |
| `EcmProgram.DecryptCw` | src/dipidescramble/ecm_profile/crypto.c:101-259 | fails exactly when the specification does, and otherwise leaves its combinations in the array |
| `Dedup.SkippedPrefix` | src/dipisrt/bridge.c:191-208 | a dropped chunk's predecessors since the reconnect were dropped too |
| `Dedup.SkippedIsOld` | src/dipisrt/bridge.c:191-208 | a dropped run is no longer than the history and every chunk of it is in the history |
| `Dedup.SkipsBound` | src/dipisrt/bridge.c:191-208 | at most as many chunks as the history holds are dropped per reconnect |
| `Dedup.ReplayDroppedIff` | src/dipisrt/bridge.c:191-208 | a replay of the last k chunks is dropped in full and nothing after it, if and only if those chunks do not overlap themselves |
| `Dedup.RepeatedChunkWritten` | src/dipisrt/bridge.c:202-206 | a repeated chunk that still fits the history is written after the first match |
| `Dedup.WrittenAfterReconnect` | src/dipisrt/bridge.c:294-310 | after a reconnect exactly the chunks behind the dropped ones are written, to a sink that takes them |
| `Dedup.NothingLost` | src/dipisrt/bridge.c:294-310 | every delivered chunk is in the output, unless its own write or the write of an equal chunk still in the history was refused |
| `Dedup.LostIff` | src/dipisrt/bridge.c:298-310 | exactly which delivered chunks are missing: those of which every copy was refused by the sink, or dropped while a refused copy was in the history |
| `Dedup.RefusedThenDropped` | src/dipisrt/bridge.c:298-310 | a refused chunk is recorded all the same, so its replay is dropped and it is never written |
| `Dedup.HistoryIs` | src/dipisrt/bridge.c:310-310 | the history is the last chunks handed to the sink, taken or refused |
| `Dedup.OldestPush` | src/dipisrt/bridge.c:210-214 | writing over the oldest entry of the circular history pushes the new one |
| `Dedup.Receiver.constructor` | src/dipisrt/bridge.c:223-227 | an empty history, nothing armed |
| `Dedup.Receiver.ReplayBegin` | src/dipisrt/bridge.c:186-189 | every history entry becomes a candidate |
| `Dedup.Receiver.Keep` | src/dipisrt/bridge.c:194-199 | candidate bit s is kept exactly when the run with the new chunk occurs at the s-th oldest entry |
| `Dedup.Receiver.Finished` | src/dipisrt/bridge.c:203-205 | tells whether the run has reached the newest entry somewhere |
| `Dedup.Receiver.ReplayMatch` | src/dipisrt/bridge.c:191-208 | drops the chunk exactly when the specification does |
| `Dedup.Receiver.Record` | src/dipisrt/bridge.c:210-214 | the history gets the chunk, the replay is over |
| `Dedup.Receiver.Receive` | src/dipisrt/bridge.c:294-310 | one read is dropped, written or refused and the state changes as specified; a refusal ends the loop exactly without retry |
| `Dedup.Receiver.ReceiveAll` | src/dipisrt/bridge.c:258-311 | any number of reads writes exactly the specified output, up to the first refused write when there is no retry |

## Left out

- Sockets, capture rings, threads, signals, metrics, logging, option parsing and start-up code.
- Out-of-memory paths, except where a version does not advance without memory.
- Effects of the C11 memory model weaker than sequential consistency, and wrap-around of 32-bit seqlock and channel generations.
- The SSRC index, resolve slots and headend tables of src/dipifccret/channel/channel.c; seqlock reads across the reuse of a channel slot.
- LookupProtocol.RebuildStep: any idle thread may start a rebuild at any time, instead of only above the load threshold, so the results hold for more runs than the code has.
- LookupSafety.KeyUnique: reaps are admitted under `LookupProtocol.Reapable`, and a rebuild that comes to a channel between the two halves of its reap waits for the second half, where the code would go on as in `ReapRace.StaleRebuild`. The converse covers searches past the bucket by `ReapRace.Past` and the reclaimed bucket; it leaves open reaps while a rebuild body runs, while other claims are in flight, and under a search still scanning whose noted tombstone lies at or before the reaped bucket or has been taken meanwhile. Reaping the bucket that a search met empty and is about to claim is refused though harmless.
- ChannelTable.ChannelIndex.constructor: rounding the table size up is not modelled, its result is a precondition.
- RapCache.Cache.Append: a cache operation is one step; separate reads of its counters by another thread are not modelled.
- BurstTable.Sessions.StartBurst: addresses are of the two families the comparison handles; an index insertion that fails for lack of memory is not modelled.
- BurstRefs.FreedOnce: slots are filled by starting sessions, not by the bare claim operation.
- Burst.SendsContiguousRun: a cache read, the pair of stop flag and number, and the reuse of a slot are one step each.
- Burst.Sender.constructor: the decision whether to accept a burst (src/dipifccret/fcc/burst.c:30-56) only compares values and is left out.
- FrameDelivered.DeliveredIff: a payload that RTP padding has used up entirely is delivered empty, and such frames are not built.
- LookupAlone.LookupAnswers: nobody interferes from the call to the answer; under interference the results of `LookupSafety` hold.
- Ret.Server.HandleNack: the multicast copy of a repair, its duplicate suppression and the feedback message are left out; the channel of the NACK is known.
- ScanJob.CompleteReports: what a probe finds is left out; a report is its address index and port.
- Packing.PlanBounds: sizes of encoded units are inputs.
- Guide.Plan: planning of more than 65535 channels is a parameter here; `Packing.PlanBounds` is its own model.
- GuideRuns.IncrementalIsFull: the library encoder, container builder, compression and index writer are functions of their inputs; so are reading a start time and looking up programmes by channel. The plain XML encoding, the input formats other than XMLTV, the initialisation message and the counters for metrics are left out; cycles that skip the build because nothing changed are not events; the source number does not wrap.
- GuideRuns.ReuseEqualIffHeld: a container is taken to tell the references it lists (`GuideKept.OneContainer`). For a build that fails even when everything is encoded only one direction is proved (`GuideBuilds.BuildEqual`): its containers are thrown away, so a lost channel need not show.
- GuideSource.DropDupChannels: the sorted index that marks later duplicates is a set of the ids seen.
- GuideBuilder.Announcer.XmltvGroup: sorting is a function with a proved result instead of the C library's sort.
- StagedVersions.Publisher.Build: each record is staged at most once per build, as the build does; segment buffers other than saved contents are left out.
- Selecting programmes by time window (src/dipibcg/announce/programmes.c).
- EcmRoundTrip.RoundTrip: ciphers, tags and key derivation are functions; decryption undoing encryption is assumed, security is not stated. Parsing of the profile string is left out.
- EcmProgram.DecryptCw: the profile is validated and the caller's array has room for its control words, as the parser guarantees; clearing of key material is left out.
- Dedup.Receiver.ReceiveAll: chunks are represented by checksum and length, as the code compares them; what a sink does with a chunk it takes is left out.
- The other programs of the repository, and the libraries under src/lib except for the parts cited.
