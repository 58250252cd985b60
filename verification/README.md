# GravityGPU: verified model of the transport and the host daemon

GravityGPU forwards Metal-style commands from a macOS guest to a Linux host daemon through
shared memory. This project models the parts whose correctness is a matter of protocol or
state, and proves what the rest of the system relies on:

- **the shared-memory rings** (`protocol/include/gravity_ring.h`), twice. `Channel.dfy` is a
  step-level protocol in which every step touches one shared location and a schedule is any
  sequence of actions, so each theorem about schedules is one about all interleavings.
  `Ring.dfy` is the code over a byte array and two 32-bit indices; each method is proved to be
  a run of that protocol with nobody in between;
- **framing and the host loop** (`Protocol.dfy`, `HostLoop.dfy`, `ChannelProgress.dfy`,
  `ChannelLiveness.dfy`): how command_loop splits an unread byte stream, for arbitrary bytes, and
  that it gets through it;
- **the whole system** (`Wire.dfy`, `Decoding.dfy`, `Exchange.dfy`): both rings and the command
  processor, from the structs the guest writes to the fields it reads in its completions, lost
  ones included;
- **the layout** of the shared memory (`Layout.dfy`) and **the bulk data region**
  (`DataRegion.dfy`);
- **the resource tracker** (`Hash.dfy`, `Tracker*.dfy`, `ResourceTracker.dfy`): free list, open
  addressing, and exactly when it is a finite map; `TrackedHandles.dfy` carries that to the
  commands a guest sends;
- **the command processor** (`Processor.dfy`, `Ownership.dfy`, `Creations.dfy`,
  `RenderPasses.dfy`, `ImageLayouts.dfy`, `Recordings.dfy`, `Fences.dfy`,
  `CommandProcessor.dfy`): what creations leave behind and who owns it, under every pattern of
  call failures; render passes with their attachments, draws, image layouts, recording, fences
  and resets against the emitted call trace;
- **runs that end badly** (`TrackerLosses.dfy`, `Shortfalls.dfy`): each way the code falls
  short, reached from the start.

Conventions. 32-bit words are integers reduced modulo 2^32 where the C code wraps; `&` and `^`
are defined bit by bit in `Words.dfy`, the hash's multiplication by shifting and adding in
`Hash.dfy`, and lemmas relate them to `%` and `*`. Operations on values
(`Channel`, `Tracker`, `Processor`) are functions; the classes are proved equal to them, and
the properties of runs are lemmas about the functions. History fields (`accepted`,
`delivered`, `taken`, `served`, `answers`, `orphans`) record what happened and are never read
by the modelled code. Interleaving is sequentially consistent, which abstracts the
acquire/release index accesses and fences. Whether a Vulkan call succeeds is an input
(`Outcomes`), and so are the bytes the host's command buffer holds at first. Render commands are
taken with handles of the type the handlers assume (`Processor.Typed`), and with at most eight
colour attachments, since the handlers read the entry's union and fill an eight-element array
without checking.

Where the code falls short of a plain statement, the model keeps the code and the theorem
states the exact condition:

- the tracker's lookups answer as a finite map after every operation of a run if and only if
  the run is smooth: each accepted add finds an empty slot, and each remove that finds its handle
  crosses nobody's probe path (`MapExactlyWhenSmooth`). `remove` blanks its slot without
  rehashing, so a lookup of another handle breaks exactly when that slot lies on its probe path
  (`RemoveHidesExactlyCrossedHandles`; three operations do it, `ARemoveCanLoseAnotherHandle`); an
  add to a full table hands out an entry that cannot be found (`AddIsFoundExactly`; the 4097th
  add does it, `AnAcceptedAddCanBeLost`);
- a header whose size field exceeds 64 KiB or the ring's capacity stops the command ring for
  good, and nothing else does (`StuckExactlyWhenOversized`; one accepted write does it,
  `OneWriteSticksTheRing`);
- DESTROY commands untrack a handle and free nothing (`DestroyLeaksExactly`,
  `DestroyOrphansASampler`);
- committing a command buffer with an open pass resets the buffer but not `in_render_pass`. The
  flags mirror the trace after every command of a run exactly when no commit meets an open pass
  (`MirrorExactly`, `CommitBreaksTheMirror`), and vkCmdEndRendering stays inside open passes
  exactly when no RENDER_END reaches a buffer committed inside a pass that has begun none since
  (`BalancedExactly`, `AnEndCanFallOutsideItsPass`);
- nothing begins a command buffer again after its commit, and no handler looks at `recording`: all
  calls come in turn exactly when no command records on or commits a committed buffer
  (`RecordedInTurnExactly`, `RecordingGoesOnAfterCommit`);
- the doubling loops of init end exactly for requests up to 2^31
  (`DoublingTerminatesExactly`), and two requests above 2^30 make the offsets wrap
  (`InitHost`: init then succeeds for any total above the header, and the areas do not tile it);
- the ring unit test writes 12 bytes and expects to read them back; peek refuses fewer than 16,
  and the model follows peek.

## Model

| member | source | states |
|---|---|---|
| Words.PowerOfTwoTest | protocol/include/gravity_ring.h:222 | on a non-zero word, `n & (n - 1)` is zero exactly for powers of two |
| Words.WrapThenMask | protocol/include/gravity_ring.h:252 | wrapping to 32 bits and masking with size - 1 is reduction modulo the ring size |
| Words.MaskedDistance | protocol/include/gravity_ring.h:292-297 | masked difference of the wrapped indices is the distance of the running counters, for counters less than a lap apart |
| Protocol.HeaderRoundTrip | protocol/include/gravity_protocol.h:1030-1040 | the header gravity_cmd_init writes reads back as the opcode, size and sequence given, with flags and fence zero |
| Protocol.HeaderOnTheWire | protocol/include/gravity_protocol.h:1030-1040 | the sixteen bytes of an initialised header, little-endian, field by field |
| Protocol.DrainWellFormed | host-daemon/src/main.c:323-348 | the size fields re-parse any concatenation of well-formed commands exactly, one loop iteration a command |
| Protocol.DrainInStages | host-daemon/src/main.c:323-348 | for arbitrary bytes, draining, then draining the leftover plus later bytes, is draining everything at once |
| Protocol.DrainLosesNothing | host-daemon/src/main.c:323-348 | with no header skipped and nothing left over, the dispatched frames concatenate to the bytes |
| Protocol.BlockedHeader | protocol/include/gravity_ring.h:326-329 | no continuation of the stream makes peek return a header exactly when its size field exceeds the host buffer |
| Protocol.RefusedHeaderIsSkipped | host-daemon/src/main.c:336-340 | after a refused header, whatever size it announces, what follows is parsed as if it had stood alone |
| Channel.StoreKeepsInv | protocol/include/gravity_ring.h:279-281 | one copied byte lands at its stream position and keeps the ring invariant, including every unread byte |
| Channel.PublishKeepsInv | protocol/include/gravity_ring.h:283-284 | the single store of tail appends the whole frame to the readable stream |
| Channel.RunKeepsInv | protocol/include/gravity_ring.h:247-346 | every schedule of writer and reader steps keeps the ring invariant |
| ChannelTheorems.FullIsNeverEmpty | protocol/include/gravity_ring.h:247-253 | in every reachable state the masked difference is the true unread count, at most size - 1, and equal indices mean empty |
| ChannelTheorems.UnreadBytesSurvive | protocol/include/gravity_ring.h:263-287 | no step of any schedule changes a byte that is still unread after it, however stale the head the writer checked |
| ChannelTheorems.CopiedBytesAreTheStream | protocol/include/gravity_ring.h:303-337 | every byte the reader has copied is the byte written at that stream position |
| ChannelTheorems.DispatchIsScheduleFree | host-daemon/src/main.c:323-348 | for arbitrary bytes and any interleaving, commands dispatched plus those a drain of the ring would dispatch are those found by splitting all accepted bytes at once |
| ChannelTheorems.RingIsAFifo | protocol/include/gravity_ring.h:263-346 | when all accepted writes are well-formed, dispatched commands followed by those pending in the ring equal the accepted list, byte for byte |
| ChannelProgress.ReaderAdvances | protocol/include/gravity_ring.h:303-417 | on either ring a completely published frame, on the completion ring one with a non-zero size, is passed within a bounded number of the reader's own steps, whatever the writer does |
| ChannelProgress.ZeroSizeIsNeverPassed | protocol/include/gravity_ring.h:402-414 | a completion with size field zero is never passed, under any schedule |
| ChannelLiveness.EveryCommandIsDispatched | host-daemon/src/main.c:323-354 | from any reachable state, with well-formed writes, any schedule giving the reader three steps for each byte then unread dispatches every command accepted so far, in order |
| ChannelProgress.StepsLeftBound | protocol/include/gravity_ring.h:303-346 | that bound is at most max(16, size) + 21 steps |
| ChannelProgress.StuckExactlyWhenOversized | protocol/include/gravity_ring.h:326-329 | head never moves again under any schedule if and only if the announced size exceeds the host buffer or the ring's capacity |
| ChannelProgress.OneWriteSticksTheRing | protocol/include/gravity_ring.h:326-329 | one accepted 16-byte write with 65537 in its size field, and no schedule ever dispatches a command or moves head |
| ChannelProgress.WriteAlone | protocol/include/gravity_ring.h:263-287 | a write with nobody in between is the copy loop followed by the tail store |
| ChannelProgress.ReadAlone | protocol/include/gravity_ring.h:303-346 | a poll with nobody in between hands over exactly the next frame and releases it |
| ChannelProgress.FrameHandedOver | protocol/include/gravity_ring.h:383-417 | on the completion ring the frame read is the next accepted one, whole |
| Ring.SharedRing.constructor | protocol/include/gravity_ring.h:189-192 | a new ring is empty and in the protocol's initial state |
| Ring.SharedRing.CmdSpace | protocol/include/gravity_ring.h:247-253 | the space is size - 1 less the unread bytes |
| Ring.SharedRing.CmdWrite | protocol/include/gravity_ring.h:263-287 | accepted exactly for sizes 1 to size/2 that fit; appends the data to the unread bytes; a refusal changes nothing; acceptance is the run of the step-level writer |
| Ring.SharedRing.CmdAvailable | protocol/include/gravity_ring.h:292-297 | the number of unread bytes |
| Ring.SharedRing.CmdPeek | protocol/include/gravity_ring.h:303-337 | non-NULL exactly when a whole frame that fits the buffer is unread; the caller's buffer byte by byte in all cases: header bytes, frame bytes, and which bytes stay as they were |
| Ring.SharedRing.CmdConsume | protocol/include/gravity_ring.h:342-346 | for any size the new head; up to the unread bytes, drops exactly that many from the front and keeps the ring invariant; after a peek, completes the step-level read |
| Ring.SharedRing.CompWrite | protocol/include/gravity_ring.h:355-378 | accepted exactly when it fits; appends; a refusal changes nothing |
| Ring.SharedRing.CompRead | protocol/include/gravity_ring.h:383-417 | with a buffer of any size chosen per call: 0, -1 or the frame size in exactly the code's cases; consumes only on success; the bytes of the buffer; the step-level read of a reader with that buffer |
| HostLoop.Iterate | host-daemon/src/main.c:323-354 | idle exactly without a whole frame that fits; a header whose size is below 16 or whose opcode is at least 0x0B02 costs exactly its own 16 bytes and dispatches nothing; any other command is dispatched whole and exactly its bytes go |
| HostLoop.DrainWhileGuestIdle | host-daemon/src/main.c:313-358 | with the guest idle the loop computes the drain of the unread bytes in at most available/16 iterations; with well-formed writes it ends empty and every allowed size is accepted again |
| Decoding.FrameDeterminesCommand | protocol/include/gravity_protocol.h:491-846 | a frame that carries all fields of its command decodes to one command, whatever earlier commands left in the buffer |
| Decoding.FormatsAreTheEnumerators | protocol/src/gravity_formats.c:14-45 | a pixel format is supported exactly when it is one of the enumerators other than INVALID |
| Decoding.DecodesToCommit | host-daemon/src/main.c:166-242 | exactly the commit opcode is a commit, of the handle after the header |
| Wire.EncodedDecodes | protocol/include/gravity_protocol.h:491-846 | for every struct and all field values: its packed bytes, whatever follows them in the buffer, decode to the command with those fields; creations, destroys, commit, the attachment array and depth of RENDER_BEGIN, vertex buffer and the three draws |
| Wire.EncodedIsWellFormed | protocol/src/gravity_protocol.c:123-131 | such bytes are a frame the host loop accepts, with the struct's size in its header |
| Exchange.ResponseEchoes | host-daemon/src/main.c:137-165 | exactly HELLO, PING and found commits get one completion; every field of it by its offset: a commit's status, handle and time, HELLO's magic, version, features and limits, and the request's sequence number |
| Exchange.CompletionsAnswerCommands | host-daemon/src/cmd_processor.c:435-466 | in any interleaving of both rings and for any bytes: commands dispatched plus those pending are the split of the guest's accepted bytes (its writes, when well-formed), each full frame served as the command it holds; completions attempted are those due for them in order, a commit getting one exactly when the tracker then knows its command buffer; the guest reads those that found space, in order, and the ring holds the rest |
| Exchange.CompletionsFollowTheProcessor | host-daemon/src/main.c:313-358 | from the guest's writes through both rings in any interleaving, the host's tracker, objects and trace are those of the command processor run on the decoded frames, which with well-formed writes are the first of the accepted ones, and the completions are those due along that run |
| Exchange.ProcessorRunsWhatWasWritten | host-daemon/src/main.c:323-347 | when the guest writes command structs, field by field in declaration order, the commands processed are those the structs ask for, in the order written, through both rings in any interleaving |
| Exchange.ProcessorRunsFullFrames | host-daemon/src/main.c:323-347 | for any full, well-formed frames the commands processed are those the accepted frames hold, in order |
| Exchange.FrameOverlaysBuffer | protocol/include/gravity_ring.h:303-337 | a frame in the host's buffer overlays its front; behind it lie the bytes that were there before |
| Exchange.CompletionsFollowTheHandles | host-daemon/src/cmd_processor.c:435-441 | in smooth runs the commits completed are those of handles created as command buffers before and not removed since, read off the commands alone |
| Exchange.NothingMissingWithSpace | protocol/include/gravity_ring.h:355-378 | when the completions together fit the ring, every one is sent |
| Exchange.HelloIsAnsweredFirst | guest-driver/GravityGPU/GravityGPUAccelerator.cpp:267-303 | if HELLO is dispatched first, the first completion the guest reads carries the magic, version, feature bits and limits at the offsets the guest reads, with the request's sequence number |
| DataRegion.PayloadSurvives | protocol/include/gravity_ring.h:433-467 | a payload is unchanged after later writes whose 64-byte-rounded sizes, refused writes not counted, total at most half the rest of the region, through both kinds of wrap |
| DataRegion.SurvivalBoundIsTight | protocol/include/gravity_ring.h:433-467 | one more 64-byte line of later writes can destroy it, for every payload size |
| DataRegion.BulkData.DataWrite | protocol/include/gravity_ring.h:433-467 | refused exactly when larger than the region, then nothing changes; otherwise the payload lies at the cursor, or at 0 if it would run over the end, no other byte changes, the cursor goes to the next 64-byte line or wraps, and data_ptr of the returned offset finds the payload |
| DataRegion.StoreThenKeepWriting | guest-driver/GravityGPU/GravityGPUAccelerator.cpp:348-352 | the survival bound for the bytes data_ptr finds at the returned offset after any later writes |
| DataRegion.PtrInsideMapping | protocol/include/gravity_ring.h:472-484 | inside the mapping data_ptr accepts exactly the region; the 32-bit cut makes offsets 2^32 apart alike |
| Layout.DoublingTerminatesExactly | protocol/include/gravity_ring.h:160-168 | the doubling loop ends exactly for requests up to 2^31 |
| Layout.SharedMemory.RoundUp | protocol/include/gravity_ring.h:160-163 | the loop's result is the least power of two not below the request |
| Layout.SharedMemory.InitHost | protocol/include/gravity_ring.h:154-197 | fails exactly when no data byte would remain, or, for two requests above 2^30, exactly when the total is no more than the header; every header field at its offset; the areas tile the memory if and only if not both requests exceed 2^30; everything behind the header zeroed, everything behind the total untouched |
| Layout.SharedMemory.Attach | protocol/include/gravity_ring.h:207-238 | succeeds exactly on magic, ready bit and a command ring size that is zero or a power of two |
| Layout.InitThenAttach | host-daemon/src/main.c:456-469 | for requests up to 2^30, attach after init recovers a tiling of the whole memory with matching masks |
| Layout.SizeTest | protocol/include/gravity_ring.h:222 | on 32-bit words the test passes exactly zero and powers of two |
| Hash.MixIsAPermutation | host-daemon/src/resource_tracker.c:18-26 | the mix before the mask is a permutation of all 32-bit words, with its inverse |
| Hash.MixInArithmetic | host-daemon/src/resource_tracker.c:18-26 | the mix, computed by shifting and adding, is two rounds of folding and multiplying by 0x45d9f3b modulo 2^32, then a fold |
| Hash.HomeSlots | host-daemon/src/resource_tracker.c:18-26 | the home slot is the mix modulo 4096, and every slot is home to exactly the handles whose mix lies in its class |
| Hash.ProbesCoverTable | host-daemon/src/resource_tracker.c:105-106 | the 4096 probes from any hash reach every slot, each by exactly one probe |
| Tracker.AddKeepsPool | host-daemon/src/resource_tracker.c:85-113 | an add is refused exactly for handle 0, an exhausted pool or a handle already found; an accepted one fills the entry at the head of the free list with the handle, its type and one reference; free list, count and slots stay consistent |
| Tracker.RemoveKeepsPool | host-daemon/src/resource_tracker.c:147-172 | remove clears the entry found and returns it to the head of the free list, and keeps everything consistent |
| TrackerRuns.EveryRunKeepsThePool | host-daemon/src/resource_tracker.c:32-50 | in every run the free list is a list of distinct entries, exactly the unused ones, its length plus the count is 65536; of the 4096 slots the occupied ones name distinct entries in use |
| TrackerRuns.GetIsLookup | host-daemon/src/resource_tracker.c:117-139 | on a table with full paths, get answers exactly as the map of live handles |
| TrackerRuns.RemoveHidesExactlyCrossedHandles | host-daemon/src/resource_tracker.c:156-171 | after a remove, another handle is still found if and only if the vacated slot is not on its probe path, in every table a run can reach |
| TrackerRuns.RemoveStaysGoodExactly | host-daemon/src/resource_tracker.c:156-171 | the table stays a faithful map if and only if the vacated slot crosses nobody's path |
| TrackerRuns.AddIsFoundExactly | host-daemon/src/resource_tracker.c:103-114 | an added handle can be looked up if and only if the table had an empty slot, in every table a run can reach |
| TrackerRuns.SmoothRunsAreAMap | host-daemon/src/resource_tracker.c:70-175 | in runs whose adds find a slot and whose removes cross nobody, every lookup and the count are those of a finite map |
| TrackerRuns.MapExactlyWhenSmooth | host-daemon/src/resource_tracker.c:70-175 | after every operation of a run from init every lookup answers as the map, if and only if every accepted add found an empty slot and every remove that found its handle crossed nobody |
| TrackerRuns.AgreesExactlyWhenSmooth | host-daemon/src/resource_tracker.c:70-175 | the same from any table that abstracts to a map |
| TrackerLosses.CollisionLosesAHandle | host-daemon/src/resource_tracker.c:156-171 | for any two handles with one home slot, adding both and removing the first loses the second |
| TrackerLosses.ARemoveCanLoseAnotherHandle | host-daemon/src/resource_tracker.c:18-26 | such handles exist, so a lookup fails after three operations from init |
| TrackerLosses.FullTableLosesTheNext | host-daemon/src/resource_tracker.c:103-114 | after any 4096 distinct adds one more is accepted and cannot be found |
| TrackerLosses.AnAcceptedAddCanBeLost | host-daemon/src/resource_tracker.c:103-114 | such a run exists |
| TrackerScopes.RemoveUndoesAdd | host-daemon/src/resource_tracker.c:85-113 | add then remove restores slots, free-list order, count and live entries, even with broken chains |
| TrackerScopes.ScopesRestore | host-daemon/src/resource_tracker.c:147-172 | any well-nested sequence of such pairs restores the tracker |
| TrackerScopes.SameGet | host-daemon/src/resource_tracker.c:117-139 | tables equal up to dead fields answer every lookup alike |
| TrackerStacks.StackRunsAreSmooth | host-daemon/src/resource_tracker.c:141-175 | last-in-first-out removal never crosses a probe path |
| TrackerStacks.StackRunsAreAMap | host-daemon/src/resource_tracker.c:117-175 | in a last-in-first-out run from init every lookup answers as the map after every operation |
| TrackerStacks.AddOnlyRunsAreAMap | host-daemon/src/resource_tracker.c:70-115 | up to 4096 adds and no remove: the tracker is a finite map |
| TrackedHandles.HandlesAgreeExactly | host-daemon/src/main.c:167-242 | after every command of a run the host knows exactly the handles and kinds of the map of the guest's creations and DESTROY commands, if and only if the run's tracker operations are smooth |
| ResourceTrackers.ResourceTracker.constructor | host-daemon/src/resource_tracker.c:32-50 | init's loops build the empty table and the full free list |
| ResourceTrackers.ResourceTracker.GetEntry | host-daemon/src/resource_tracker.c:117-139 | the probing loop computes Tracker.Get |
| ResourceTrackers.ResourceTracker.AddEntry | host-daemon/src/resource_tracker.c:70-115 | the code computes Tracker.Add: entry, slots, count, free list and result |
| ResourceTrackers.ResourceTracker.RemoveEntry | host-daemon/src/resource_tracker.c:141-175 | the code computes Tracker.Remove |
| Ownership.EveryObjectIsAccountedFor | host-daemon/src/cmd_processor.c:39-90 | in every run, under every failure pattern, the live objects are the disjoint union of the objects of entries in use and of those untracked by DESTROY; no two entries share |
| Ownership.NoFailurePathLeaks | host-daemon/src/cmd_processor.c:156-240 | without DESTROY commands the live objects are exactly those owned by entries in use |
| Creations.CreatedAsAsked | host-daemon/src/cmd_processor.c:21-427 | in any reachable state and for any call outcomes a create command leaves, in the entry at the head of the free list, new objects of the right kinds that only it owns, with the mapping, layout, view and recording flag asked for; if a call fails or the tracker refuses, tracker and live objects are as before |
| Ownership.CreationsNeverLeak | host-daemon/src/cmd_processor.c:21-471 | any run of creations and commits, with any handles and failures, keeps the live objects exactly those owned by entries in use |
| Ownership.DestroyLeaksExactly | host-daemon/src/main.c:174-207 | a DESTROY leaves ownerless objects exactly when the entry it finds owns any |
| Shortfalls.DestroyOrphansASampler | host-daemon/src/main.c:203-207 | creating and destroying a sampler leaves one live object and no owner |
| Ownership.StepKeepsOwned | host-daemon/src/main.c:136-310 | each command keeps the accounts, whatever fails; object destruction is only ever applied to live objects |
| RenderPasses.PassesFollowTheGuest | host-daemon/src/cmd_processor.c:484-681 | in every run, whatever is committed when: per buffer the passes with their colour and depth attachments, viewports, scissors, vertex buffers and draws of the trace, indexed draws with the index buffer then bound, are those the commands' own fields ask for, in order, less unmatched ends; alternating requests pass through unchanged; the flag says whether the requests leave a pass open |
| RenderPasses.BalancedExactly | host-daemon/src/cmd_processor.c:575-585 | over a run every vkCmdEndRendering falls inside an open pass if and only if no RENDER_END reaches a buffer committed inside a pass that has begun none since |
| Shortfalls.AnEndCanFallOutsideItsPass | host-daemon/src/cmd_processor.c:575-585 | create, begin, commit, end reaches such an end |
| RenderPasses.MirrorExactly | host-daemon/src/cmd_processor.c:429-585 | the flags mirror the trace after every command of a run if and only if no commit meets an open pass; at the end of any run, if and only if no buffer in use is stale |
| RenderPasses.CommitKeepsMirrorExactly | host-daemon/src/cmd_processor.c:443-470 | a commit keeps flags and trace in agreement if and only if no pass is open on its buffer |
| Shortfalls.CommitBreaksTheMirror | host-daemon/src/cmd_processor.c:443-470 | three commands from the start reach a commit with an open pass, and the flag stays up on a reset buffer |
| RenderPasses.StepPasses | host-daemon/src/cmd_processor.c:484-681 | one command of any kind, in any phase of a buffer: it emits exactly what its own fields ask, attachment and buffer handles resolved in the tracker, less ends of passes that are not open; the next phase; and the end call falls outside a pass exactly in the stale phase |
| Recordings.RecordedInTurnExactly | host-daemon/src/cmd_processor.c:401-470 | over any run every vkCmd call lies between its buffer's begin and end, and every submission finds its buffer ended, if and only if no command records on or commits a buffer committed before; the recording flag is down exactly on ended buffers |
| Recordings.StepRecords | host-daemon/src/cmd_processor.c:429-681 | the same for one command of any kind, with the flag as the condition |
| Fences.FencesAlwaysInTurn | host-daemon/src/cmd_processor.c:443-470 | over any run every submission finds its fence unused, every wait finds it pending, every fence reset finds it signalled, every command buffer reset follows the wait for that buffer's latest submission, and nothing is in flight between commands |
| Shortfalls.RecordingGoesOnAfterCommit | host-daemon/src/cmd_processor.c:587-608 | three commands from the start record on a buffer nothing has begun again |
| ImageLayouts.OneBarrierPerTexture | host-daemon/src/cmd_processor.c:497-571 | no image gets two barriers, each goes from UNDEFINED to the colour layout, and precedes every pass that uses the image |
| ImageLayouts.PassShowsItsTextures | host-daemon/src/cmd_processor.c:497-571 | in every reachable state a RENDER_BEGIN begins a pass with one colour slot for each handle listed, in order, and the depth slot: a known handle's slot is the view of its image, an unknown one's, or depth handle 0, is the null view |
| ImageLayouts.AttachKeepsLayouts | host-daemon/src/cmd_processor.c:497-542 | after the attachment loop each named texture has exactly one barrier, even when listed several times |
| CommandProcessors.CommandProcessor.CreateBuffer | host-daemon/src/cmd_processor.c:21-104 | the handler with its cleanup branches computes the step on values; only live objects are released |
| CommandProcessors.CommandProcessor.CreateTexture | host-daemon/src/cmd_processor.c:110-243 | likewise, four failure branches |
| CommandProcessors.CommandProcessor.CreateSampler | host-daemon/src/cmd_processor.c:249-288 | likewise |
| CommandProcessors.CommandProcessor.CreatePlaceholder | host-daemon/src/cmd_processor.c:312-369 | an entry that owns nothing |
| CommandProcessors.CommandProcessor.CmdbufCreate | host-daemon/src/cmd_processor.c:378-427 | likewise, with the begin call recorded |
| CommandProcessors.CommandProcessor.CmdbufCommit | host-daemon/src/cmd_processor.c:429-471 | for a command buffer entry only: its buffer is ended, submitted with its fence, the fence waited for, then reset, then the buffer reset, call by call; reports whether a completion is due |
| CommandProcessors.CommandProcessor.Destroy | host-daemon/src/main.c:174-207 | untracks the handle and nothing else |
| CommandProcessors.CommandProcessor.RenderBegin | host-daemon/src/cmd_processor.c:485-573 | the attachment loop, the textures' views and the begin call, as the step on values that PassShowsItsTextures is about |
| CommandProcessors.CommandProcessor.RenderEnd | host-daemon/src/cmd_processor.c:575-585 | ends only an open pass |
| CommandProcessors.CommandProcessor.RecordOnly | host-daemon/src/cmd_processor.c:587-681 | the calls recorded by viewport, scissor, vertex buffer and draw commands |
| CommandProcessors.CommandProcessor.Process | host-daemon/src/main.c:126-311 | the dispatch computes the step on values |
| CommandProcessors.CommandProcessor.ProcessAll | host-daemon/src/main.c:323-354 | a run of commands keeps every live object accounted for |

## Left out

- Vulkan set-up, device and memory-type selection, and the parameters of Vulkan create calls: calls into a library outside the repository, modelled as oracles.
- Pixel-format, enum and command-name tables: finite lookups; of the formats only which ones the table lists is kept (`FormatsAreTheEnumerators`).
- Copying initial data into a mapped buffer: only whether the buffer is mapped is kept.
- Command fields that reach only Vulkan parameters or the log: sizes, usage, formats other than whether one is supported, load and store actions, clear values, the index type.
- Render commands on handles of another resource type, and more than eight colour attachments: the handlers do not check either, and the model does not say what happens then.
- Compute, blit, present, resize and the unhandled render commands: stubs without effect, one `Other` command.
- Depth attachments' layouts, per-mip and per-slice layouts, and layouts in submission order: the code tracks one layout per texture at recording time.
- Floating-point viewport values: a viewport call is recorded without its numbers.
- Weak memory below acquire/release, and re-initialisation of the ring by QEMU while a side is attached.
- Shared-memory opening, PCI and IOKit life cycle, MMIO registers, doorbells, signals, sleeping, polling delays and logging: plumbing around the modelled calls; the HELLO wait loop is a bounded repetition of comp_read.
- A buffer of fewer than 8 bytes passed to peek or read: the C code reads the size field outside it.
- A repaired remove: the code blanks the slot, and the exact condition for that is proved instead.
- DataRegion.ValidRegion: regions above 2^31 bytes are outside the model, because there the 32-bit additions of data_write can wrap.
- Exchange.CompletionsAnswerCommands: the guest polls with one buffer size throughout, of at least 56 bytes; CompRead takes any size per call.
- Exchange.CompletionsFollowTheProcessor: a command whose handler reads a resource of another type than it assumes is undefined in C; runs with one are outside the statement.
- Ring.SharedRing.CmdConsume: for a size above the unread bytes only the new head is stated, because head then passes tail and the ring no longer describes its contents.
