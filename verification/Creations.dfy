/** What a create command leaves behind, call outcomes and full trackers included. */
module Creations {
  import opened Words
  import opened Vulkan
  import opened Tracker
  import opened TrackerRuns
  import opened Processor
  import opened Ownership
  import opened TrackedHandles

  /** The payload has the objects the command asks for, each in its place; shared and managed
      buffers are mapped if that call succeeds, a texture is untransitioned and its view
      shows its image, a command buffer is recording outside any pass. */
  ghost predicate Stores(c: Command, o: Outcomes, p: Payload, imageOf: map<Object, Object>)
    requires Creates(c)
  {
    match c
    case CreateBuffer(_, mode) =>
      && p.BufferPayload? && p.buffer.kind == VkBuffer && p.memory.kind == VkMemory
      && p.mapped == ((mode == 0 || mode == 1) && (|o| > 2 ==> o[2]))
    case CreateTexture(_, _) =>
      && p.TexturePayload? && p.image.kind == VkImage && p.view.kind == VkImageView && p.imageMemory.kind == VkMemory
      && p.layout == Undefined && p.view in imageOf && imageOf[p.view] == p.image
    case CreateSampler(_) => p.SamplerPayload? && p.sampler.kind == VkSampler
    case CreatePlaceholder(_, _) => p == NoPayload
    case CmdbufCreate(_) =>
      && p.CmdBufPayload? && p.cmdBuf.kind == VkCommandBuffer && p.fence.kind == VkFence
      && p.recording && !p.inRenderPass
  }

  lemma TrackStores(w: World, h: u32, kind: Kind, p: Payload)
    requires PoolOk(w.tracker) && Sized(w.tracker) && Owned(p) <= w.live
    ensures var w' := Track(w, h, kind, p);
            && w'.trace == w.trace && w'.imageOf == w.imageOf
            && (CanAdd(w.tracker, h) ==>
                  && w'.live == w.live && w.tracker.freeHead < |w'.tracker.entries|
                  && w'.tracker.entries[w.tracker.freeHead] == Entry(h, kind, 1, true, p))
            && (!CanAdd(w.tracker, h) ==> w'.tracker == w.tracker && w'.live == w.live - Owned(p))
  {
    hide Add, CanAdd, Track, PoolOk, Owned;
    TrackCases(w, h, kind, p);
    if CanAdd(w.tracker, h) { AddedShape(w.tracker, h, kind); }
  }

  /** With all calls successful and the handle accepted, the head of the free list holds new
      objects that only it owns; otherwise tracker and live objects are as before. A command
      buffer is begun as soon as it and its fence exist. */
  ghost predicate Leaves(w: World, job: Job, w': World)
    requires Creates(job.command) && Sized(w.tracker)
  {
    var c, made := job.command, OpsOf(job) != [];
    && (made && CanAdd(w.tracker, c.handle) ==>
          && w.tracker.freeHead < |w'.tracker.entries|
          && var e := w'.tracker.entries[w.tracker.freeHead];
          && e.inUse && e.handle == c.handle && OpsOf(job) == [AddOp(c.handle, e.kind)]
          && Stores(c, job.outcomes, e.payload, w'.imageOf)
          && (forall x :: x in Owned(e.payload) ==> x.id >= w.next)
          && w'.live == w.live + Owned(e.payload))
    && (!made || !CanAdd(w.tracker, c.handle) ==> w'.tracker == w.tracker && w'.live == w.live)
    && w'.trace == w.trace + (if c.CmdbufCreate? && made
                              then [BeginCommandBuffer(Object(VkCommandBuffer, w.next))] else [])
  }

  lemma BufferLeaves(w: World, job: Job)
    requires OwnInv(w) && Sized(w.tracker) && job.command.CreateBuffer?
    ensures Leaves(w, job, CreateBufferStep(w, job.command.handle, job.command.storageMode, job.outcomes))
  {
    hide OwnInv, PoolOk, Sized, Track, CanAdd;
    Unfold(w);
    NoneHoldsFresh(w);
    assert w.trace + [] == w.trace;
    if Succeeds(job.outcomes, 0) && Succeeds(job.outcomes, 1) {
      TrackStores(CreateObject(CreateObject(w, VkBuffer), VkMemory), job.command.handle, Buffer,
                  NewPayload(w, job.command, job.outcomes));
    }
  }

  lemma TextureLeaves(w: World, job: Job)
    requires OwnInv(w) && Sized(w.tracker) && job.command.CreateTexture?
    ensures Leaves(w, job, CreateTextureStep(w, job.command.handle, job.command.formatSupported, job.outcomes))
  {
    hide OwnInv, PoolOk, Sized, Track, CanAdd;
    Unfold(w);
    NoneHoldsFresh(w);
    assert w.trace + [] == w.trace;
    var o, p := job.outcomes, NewPayload(w, job.command, job.outcomes);
    if job.command.formatSupported && Succeeds(o, 0) && Succeeds(o, 1) && Succeeds(o, 2) {
      var w2 := CreateObject(CreateObject(w, VkImage), VkMemory);
      TrackStores(CreateObject(w2, VkImageView).(imageOf := w2.imageOf[p.view := p.image]), job.command.handle,
                  Texture, p);
    }
  }

  lemma CmdbufLeaves(w: World, job: Job)
    requires OwnInv(w) && Sized(w.tracker) && job.command.CmdbufCreate?
    ensures Leaves(w, job, CmdbufCreateStep(w, job.command.handle, job.outcomes))
  {
    hide OwnInv, PoolOk, Sized, Track, CanAdd;
    Unfold(w);
    NoneHoldsFresh(w);
    assert w.trace + [] == w.trace;
    if Succeeds(job.outcomes, 0) && Succeeds(job.outcomes, 1) {
      var w2, p := CreateObject(CreateObject(w, VkCommandBuffer), VkFence), NewPayload(w, job.command, job.outcomes);
      TrackStores(Emit(w2, BeginCommandBuffer(p.cmdBuf)), job.command.handle, CmdBuf, p);
    }
  }

  lemma OthersLeave(w: World, job: Job)
    requires OwnInv(w) && Sized(w.tracker) && KindsMatch(w.tracker) && Typed(w.tracker, job.command)
    requires job.command.CreateSampler? || job.command.CreatePlaceholder?
    ensures Leaves(w, job, Step(w, job.command, job.outcomes))
  {
    hide OwnInv, PoolOk, Sized, KindsMatch, Track, CanAdd;
    Unfold(w);
    NoneHoldsFresh(w);
    assert w.trace + [] == w.trace;
    var p := NewPayload(w, job.command, job.outcomes);
    if job.command.CreatePlaceholder? { TrackStores(w, job.command.handle, job.command.kind, p); }
    else if Succeeds(job.outcomes, 0) { TrackStores(CreateObject(w, VkSampler), job.command.handle, Sampler, p); }
  }

  /** In any state a run can reach, each create command leaves what it was asked for. */
  lemma CreatedAsAsked(w: World, job: Job)
    requires OwnInv(w) && Typed(w.tracker, job.command) && Creates(job.command)
    ensures Sized(w.tracker) && KindsMatch(w.tracker)
    ensures Leaves(w, job, Step(w, job.command, job.outcomes))
  {
    hide OwnInv, KindsMatch, Leaves, CreateBufferStep, CreateTextureStep, CmdbufCreateStep, Track;
    Unfold(w);
    if job.command.CreateBuffer? { BufferLeaves(w, job); }
    else if job.command.CreateTexture? { TextureLeaves(w, job); }
    else if job.command.CmdbufCreate? { CmdbufLeaves(w, job); }
    else { OthersLeave(w, job); }
  }
}
