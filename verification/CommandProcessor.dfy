/** cmd_processor.c and the dispatch of main.c as code: handlers that call Vulkan and edit
    tracker entries in place, each proved to be its step on values in Processor. */
module CommandProcessors {
  import opened Words
  import opened Options
  import opened Vulkan
  import opened Tracker
  import opened TrackerRuns
  import opened ResourceTrackers
  import opened Processor
  import opened Ownership

  /** The Vulkan device: which objects exist, which image a view shows, what was recorded. */
  class Device {
    var live: set<Object>
    var next: nat
    var imageOf: map<Object, Object>
    var trace: seq<Call>

    constructor ()
      ensures live == {} && next == 0 && imageOf == map[] && trace == []
    {
      live, next, imageOf, trace := {}, 0, map[], [];
    }

    /** A vkCreate or vkAllocate call; `ok` is what it returns. */
    method Create(kind: ObjectKind, ok: bool) returns (o: Object)
      modifies `live, `next
      ensures o == Object(kind, old(next))
      ensures ok ==> live == old(live) + {o} && next == old(next) + 1
      ensures !ok ==> live == old(live) && next == old(next)
    {
      o := Object(kind, next);
      if ok {
        live, next := live + {o}, next + 1;
      }
    }

    /** A vkDestroy or vkFree call: never on an object that does not exist. */
    method Release(o: Object)
      requires o in live
      modifies `live
      ensures live == old(live) - {o}
    {
      live := live - {o};
    }

    method Record(call: Call)
      modifies `trace
      ensures trace == old(trace) + [call]
    {
      trace := trace + [call];
    }
  }

  class CommandProcessor {
    const vk: Device
    const tracker: ResourceTracker
    ghost var orphans: set<Object>

    ghost function State(): World
      reads this, vk, tracker, tracker.entries, tracker.slots
    {
      World(tracker.State(), vk.live, vk.next, vk.imageOf, vk.trace, orphans)
    }

    ghost predicate Valid()
      reads this, vk, tracker, tracker.entries, tracker.slots
    {
      tracker.Valid() && OwnInv(State())
    }

    constructor ()
      ensures Valid() && State() == Start()
      ensures fresh(vk) && fresh(tracker) && fresh(tracker.entries) && fresh(tracker.slots)
    {
      hide OwnInv, PoolOk;
      vk := new Device();
      tracker := new ResourceTracker();
      orphans := {};
      new;
      StartOwned();
    }

    /** Filling in the entry that add returned. */
    method Fill(i: nat, p: Payload)
      requires i < tracker.entries.Length
      modifies tracker.entries
      ensures tracker.State() == SetPayload(old(tracker.State()), i, p)
    {
      tracker.entries[i] := tracker.entries[i].(payload := p);
    }

    method CreateBuffer(handle: u32, storageMode: nat, o: Outcomes)
      requires Valid()
      modifies vk, tracker, tracker.entries, tracker.slots
      ensures Valid() && Sized(old(State()).tracker)
      ensures State() == CreateBufferStep(old(State()), handle, storageMode, o)
    {
      hide OwnInv, PoolOk, KindsMatch, Add, Sized, Track;
      ghost var w := State();
      Unfold(w);
      CreateBufferKeepsOwned(w, handle, storageMode, o);
      var buffer := vk.Create(VkBuffer, Succeeds(o, 0));
      if !Succeeds(o, 0) {
        return;
      }
      ghost var w1 := CreateObject(w, VkBuffer);
      assert State() == w1;
      var memory := vk.Create(VkMemory, Succeeds(o, 1));
      if !Succeeds(o, 1) {
        vk.Release(buffer);
        assert State() == DestroyObjects(w1, {buffer});
        return;
      }
      ghost var w2 := CreateObject(w1, VkMemory);
      assert State() == w2;
      var mapped := (storageMode == STORAGE_SHARED || storageMode == STORAGE_MANAGED) && Succeeds(o, 2);
      ghost var p := BufferPayload(buffer, memory, mapped);
      TrackCases(w2, handle, Buffer, p);
      var entry := tracker.AddEntry(handle, Buffer);
      if entry == None {
        vk.Release(memory);
        vk.Release(buffer);
        assert State() == DestroyObjects(w2, Owned(p));
        return;
      }
      Fill(entry.value, BufferPayload(buffer, memory, mapped));
      assert State() == Track(w2, handle, Buffer, p);
      Unfold(State());
    }

    method CreateTexture(handle: u32, formatSupported: bool, o: Outcomes)
      requires Valid()
      modifies vk, tracker, tracker.entries, tracker.slots
      ensures Valid() && Sized(old(State()).tracker)
      ensures State() == CreateTextureStep(old(State()), handle, formatSupported, o)
    {
      hide OwnInv, PoolOk, KindsMatch, Add, Sized, Track;
      ghost var w := State();
      Unfold(w);
      CreateTextureKeepsOwned(w, handle, formatSupported, o);
      if !formatSupported {
        return;
      }
      var image := vk.Create(VkImage, Succeeds(o, 0));
      if !Succeeds(o, 0) {
        return;
      }
      ghost var w1 := CreateObject(w, VkImage);
      assert State() == w1;
      var memory := vk.Create(VkMemory, Succeeds(o, 1));
      if !Succeeds(o, 1) {
        vk.Release(image);
        assert State() == DestroyObjects(w1, {image});
        return;
      }
      ghost var w2 := CreateObject(w1, VkMemory);
      assert State() == w2;
      var view := vk.Create(VkImageView, Succeeds(o, 2));
      if !Succeeds(o, 2) {
        vk.Release(memory);
        vk.Release(image);
        assert State() == DestroyObjects(w2, {image, memory});
        return;
      }
      vk.imageOf := vk.imageOf[view := image];
      ghost var w3 := CreateObject(w2, VkImageView).(imageOf := w2.imageOf[view := image]);
      assert State() == w3;
      ghost var p := TexturePayload(image, view, memory, Undefined);
      TrackCases(w3, handle, Texture, p);
      var entry := tracker.AddEntry(handle, Texture);
      if entry == None {
        vk.Release(view);
        vk.Release(memory);
        vk.Release(image);
        assert State() == DestroyObjects(w3, Owned(p));
        return;
      }
      Fill(entry.value, TexturePayload(image, view, memory, Undefined));
      assert State() == Track(w3, handle, Texture, p);
      Unfold(State());
    }

    method CreateSampler(handle: u32, o: Outcomes)
      requires Valid()
      modifies vk, tracker, tracker.entries, tracker.slots
      ensures Valid() && Sized(old(State()).tracker)
      ensures State() == CreateSamplerStep(old(State()), handle, o)
    {
      hide OwnInv, PoolOk, KindsMatch, Add, Sized, Track;
      ghost var w := State();
      Unfold(w);
      CreateSamplerKeepsOwned(w, handle, o);
      var sampler := vk.Create(VkSampler, Succeeds(o, 0));
      if !Succeeds(o, 0) {
        return;
      }
      ghost var w1 := CreateObject(w, VkSampler);
      assert State() == w1;
      TrackCases(w1, handle, Sampler, SamplerPayload(sampler));
      var entry := tracker.AddEntry(handle, Sampler);
      if entry == None {
        vk.Release(sampler);
        assert State() == DestroyObjects(w1, Owned(SamplerPayload(sampler)));
        return;
      }
      Fill(entry.value, SamplerPayload(sampler));
      Unfold(State());
    }

    /** Shaders, render pipelines and depth/stencil states: an entry with no Vulkan object. */
    method CreatePlaceholder(handle: u32, kind: Kind)
      requires Valid() && kind in {Shader, RenderPipeline, DepthStencil}
      modifies tracker, tracker.entries, tracker.slots
      ensures Valid() && Sized(old(State()).tracker)
      ensures State() == Track(old(State()), handle, kind, NoPayload)
    {
      hide OwnInv, PoolOk, KindsMatch, Add, Sized, Track;
      ghost var w := State();
      Unfold(w);
      PlaceholderKeepsOwned(w, handle, kind);
      TrackCases(w, handle, kind, NoPayload);
      var entry := tracker.AddEntry(handle, kind);
      if entry == None {
        return;
      }
      Fill(entry.value, NoPayload);
      Unfold(State());
    }

    method CmdbufCreate(handle: u32, o: Outcomes)
      requires Valid()
      modifies vk, tracker, tracker.entries, tracker.slots
      ensures Valid() && Sized(old(State()).tracker)
      ensures State() == CmdbufCreateStep(old(State()), handle, o)
    {
      hide OwnInv, PoolOk, KindsMatch, Add, Sized, Track;
      ghost var w := State();
      Unfold(w);
      CmdbufCreateKeepsOwned(w, handle, o);
      var cb := vk.Create(VkCommandBuffer, Succeeds(o, 0));
      if !Succeeds(o, 0) {
        return;
      }
      ghost var w1 := CreateObject(w, VkCommandBuffer);
      assert State() == w1;
      var fence := vk.Create(VkFence, Succeeds(o, 1));
      if !Succeeds(o, 1) {
        vk.Release(cb);
        assert State() == DestroyObjects(w1, {cb});
        return;
      }
      vk.Record(BeginCommandBuffer(cb));
      ghost var w2 := Emit(CreateObject(w1, VkFence), BeginCommandBuffer(cb));
      assert State() == w2;
      ghost var p := CmdBufPayload(cb, fence, true, false);
      TrackCases(w2, handle, CmdBuf, p);
      var entry := tracker.AddEntry(handle, CmdBuf);
      if entry == None {
        vk.Release(fence);
        vk.Release(cb);
        assert State() == DestroyObjects(w2, Owned(p));
        return;
      }
      Fill(entry.value, CmdBufPayload(cb, fence, true, false));
      assert State() == Track(w2, handle, CmdBuf, p);
      Unfold(State());
    }

    /** The result says whether a CMDBUF_COMPLETED is written: exactly when the commit finds
        a command buffer. */
    method CmdbufCommit(handle: u32) returns (completed: bool)
      requires Valid()
      modifies vk, tracker.entries
      ensures Valid() && Sized(old(State()).tracker) && KindsMatch(old(State()).tracker)
      ensures State() == CommitStep(old(State()), handle)
      ensures completed == CommitFinds(old(State()).tracker, handle)
      ensures completed ==>
                var p := PayloadOf(old(State()).tracker, handle);
                && p.CmdBufPayload?
                && vk.trace == old(vk.trace) + [EndCommandBuffer(p.cmdBuf), QueueSubmit(p.cmdBuf, p.fence),
                                                WaitForFences(p.cmdBuf, p.fence), ResetFences(p.cmdBuf, p.fence),
                                                ResetCommandBuffer(p.cmdBuf)]
    {
      hide OwnInv, PoolOk, Sized, KindsMatch, CommitStep, CommitFinds, Get;
      ghost var w := State();
      Unfold(w);
      CommitEdits(w, handle);
      EditKeepsOwned(w, CommitStep(w, handle));
      CommitCases(w, handle);
      var found := tracker.GetEntry(handle);
      if found == None || tracker.entries[found.value].kind != CmdBuf {
        return false;
      }
      var i := found.value;
      var p := tracker.entries[i].payload;
      vk.Record(EndCommandBuffer(p.cmdBuf));
      Fill(i, p.(recording := false));
      vk.Record(QueueSubmit(p.cmdBuf, p.fence));
      vk.Record(WaitForFences(p.cmdBuf, p.fence));
      vk.Record(ResetFences(p.cmdBuf, p.fence));
      vk.Record(ResetCommandBuffer(p.cmdBuf));
      assert vk.trace == w.trace + CommitCalls(p);
      assert State() == CommitStep(w, handle);
      Unfold(State());
      return true;
    }

    /** DESTROY_BUFFER, DESTROY_TEXTURE and DESTROY_SAMPLER. */
    method Destroy(handle: u32)
      requires Valid()
      modifies `orphans, tracker, tracker.entries, tracker.slots
      ensures Valid() && Sized(old(State()).tracker)
      ensures State() == DestroyStep(old(State()), handle)
    {
      hide OwnInv, PoolOk, Remove, Sized;
      Unfold(State());
      DestroyKeepsOwned(State(), handle);
      orphans := orphans + Owned(PayloadOf(tracker.State(), handle));
      tracker.RemoveEntry(handle);
    }

    /** One turn of the attachment loop of RENDER_BEGIN. */
    method AttachColor(cb: Object, texture: u32) returns (view: Attachment)
      requires tracker.Valid() && Sized(State().tracker) && IsTexture(State().tracker, texture)
      modifies vk`trace, tracker.entries
      ensures State() == AttachOne(old(State()), cb, texture)
      ensures view == ViewOf(old(State()).tracker, texture)
    {
      hide PoolOk, Sized, Get;
      var tex := tracker.GetEntry(texture);
      if tex == None {
        return NoView;
      }
      var p := tracker.entries[tex.value].payload;
      if p.layout != ColorAttachmentOptimal {
        vk.Record(PipelineBarrier(cb, p.image, p.layout, ColorAttachmentOptimal));
        Fill(tex.value, p.(layout := ColorAttachmentOptimal));
      }
      view := View(p.view);
    }

    method RenderBegin(cmdbuf: u32, colors: seq<u32>, depth: u32)
      requires Valid() && Sized(State().tracker)
      requires Typed(State().tracker, Command.RenderBegin(cmdbuf, colors, depth))
      modifies vk`trace, tracker.entries
      ensures Valid()
      ensures State() == RenderBeginStep(old(State()), cmdbuf, colors, depth)
    {
      hide OwnInv, PoolOk, Get, Attach, AttachOne, Sized;
      ghost var w := State();
      var found := tracker.GetEntry(cmdbuf);
      if found == None {
        UnknownBuffer(w, cmdbuf, colors, depth);
        return;
      }
      var i := found.value;
      var cb := tracker.entries[i].payload.cmdBuf;
      var views: seq<Attachment> := [];
      var k := 0;
      NoAttachments(w, cb);
      while k < |colors|
        invariant k <= |colors|
        invariant AllTextures(w.tracker, colors[..k]) && State() == Attach(w, cb, colors[..k])
        invariant tracker.Valid() && views == Views(w.tracker, colors[..k])
      {
        AttachMore(w, cb, colors, k);
        var view := AttachColor(cb, colors[k]);
        views := views + [view];
        k := k + 1;
        AttachKeepsPool(w, cb, colors[..k]);
      }
      assert colors[..k] == colors;
      ghost var r := Attach(w, cb, colors);
      var depthView := NoView;
      if depth != INVALID_HANDLE {
        SameIndexGet(w.tracker, r.tracker, depth);
        var tex := tracker.GetEntry(depth);
        if tex != None {
          depthView := View(tracker.entries[tex.value].payload.view);
        }
      }
      BeginCases(w, cmdbuf, colors, depth);
      vk.Record(BeginRendering(cb, views, depthView));
      Fill(i, tracker.entries[i].payload.(inRenderPass := true));
      assert State() == RenderBeginStep(w, cmdbuf, colors, depth);
      RenderBeginEdits(w, cmdbuf, colors, depth);
      EditKeepsOwned(w, State());
      Unfold(State());
    }

    method RenderEnd(cmdbuf: u32)
      requires Valid() && Sized(State().tracker)
      requires Typed(State().tracker, Command.RenderEnd(cmdbuf))
      modifies vk`trace, tracker.entries
      ensures Valid()
      ensures State() == RenderEndStep(old(State()), cmdbuf)
    {
      hide PoolOk, Sized, Get, Accounted, KindsMatch;
      ghost var w := State();
      Unfold(w);
      var found := tracker.GetEntry(cmdbuf);
      if found == None {
        return;
      }
      var i := found.value;
      var p := tracker.entries[i].payload;
      if p.inRenderPass {
        vk.Record(EndRendering(p.cmdBuf));
        Fill(i, p.(inRenderPass := false));
        EditKeepsOwned(w, State());
        Unfold(State());
      }
    }

    /** The render commands that only record. */
    method RecordOnly(c: Command)
      requires Valid() && Sized(State().tracker) && Typed(State().tracker, c)
      requires c.RenderSetViewport? || c.RenderSetScissor? || c.RenderSetVertexBuffer? || c.RenderDraw?
               || c.RenderDrawIndexed? || c.RenderDrawInstanced?
      modifies vk`trace
      ensures Valid()
      ensures State() == old(State()).(trace := old(State()).trace + Recorded(old(State()).tracker, c))
    {
      hide OwnInv, PoolOk, Sized, Get;
      ghost var w := State();
      var found := tracker.GetEntry(c.cmdbuf);
      if c.RenderSetVertexBuffer? || c.RenderDrawIndexed? {
        var buffer := tracker.GetEntry(if c.RenderSetVertexBuffer? then c.buffer else c.indexBuffer);
        if found != None && buffer != None {
          var cb := tracker.entries[found.value].payload.cmdBuf;
          var b := tracker.entries[buffer.value].payload.buffer;
          if c.RenderSetVertexBuffer? {
            vk.Record(BindVertexBuffer(cb, c.index, b, c.offset));
          } else {
            vk.Record(BindIndexBuffer(cb, b, c.indexOffset));
            vk.Record(Call.DrawIndexed(cb, c.indexCount));
          }
        }
      } else if found != None {
        var cb := tracker.entries[found.value].payload.cmdBuf;
        if c.RenderSetViewport? {
          vk.Record(Call.SetViewport(cb));
        } else if c.RenderSetScissor? {
          vk.Record(Call.SetScissor(cb));
        } else if c.RenderDraw? {
          vk.Record(Call.Draw(cb, c.vertexCount, 1, c.vertexStart, 0));
        } else {
          vk.Record(Call.Draw(cb, c.vertexCount, c.instanceCount, c.vertexStart, c.baseInstance));
        }
      }
      assert vk.trace == w.trace + Recorded(w.tracker, c);
      EditKeepsOwned(w, State());
    }

    /** The dispatch of process_command, responses left to the transport. */
    method Process(c: Command, o: Outcomes)
      requires Valid() && Sized(State().tracker) && Typed(State().tracker, c)
      modifies this, vk, tracker, tracker.entries, tracker.slots
      ensures Valid()
      ensures KindsMatch(old(State()).tracker) && State() == Step(old(State()), c, o)
    {
      hide OwnInv, PoolOk, Sized, KindsMatch, CreateBufferStep, CreateTextureStep, CreateSamplerStep,
           CmdbufCreateStep, CommitStep, DestroyStep, RenderBeginStep, RenderEndStep, Recorded, Get, Track;
      Unfold(State());
      match c {
        case CreateBuffer(h, mode) => CreateBuffer(h, mode, o);
        case CreateTexture(h, supported) => CreateTexture(h, supported, o);
        case CreateSampler(h) => CreateSampler(h, o);
        case CreatePlaceholder(h, kind) => CreatePlaceholder(h, kind);
        case CmdbufCreate(h) => CmdbufCreate(h, o);
        case CmdbufCommit(h) => var completed := CmdbufCommit(h);
        case Destroy(h) => Destroy(h);
        case RenderBegin(h, colors, depth) => RenderBegin(h, colors, depth);
        case RenderEnd(h) => RenderEnd(h);
        case Other => NothingRecorded(State().tracker);
        case _ => RecordOnly(c);
      }
    }

    /** command_loop's effect on tracker and device: one command after another. */
    method ProcessAll(jobs: seq<Job>)
      requires Valid() && AllTyped(State(), jobs)
      modifies this, vk, tracker, tracker.entries, tracker.slots
      ensures Valid() && OwnInv(old(State())) && State() == Ownership.Run(old(State()), jobs)
      ensures State().live == OwnedSet(State().tracker) + State().orphans
    {
      hide OwnInv, PoolOk, KindsMatch, Step;
      ghost var w := State();
      var k := 0;
      while k < |jobs|
        invariant k <= |jobs| && Valid()
        invariant AllTyped(State(), jobs[k..])
        invariant Ownership.Run(State(), jobs[k..]) == Ownership.Run(w, jobs)
      {
        ghost var rest := jobs[k..];
        Unfold(State());
        StepKeepsOwned(State(), rest[0].command, rest[0].outcomes);
        Process(jobs[k].command, jobs[k].outcomes);
        assert rest[1..] == jobs[k + 1..];
        k := k + 1;
      }
      OwnedOrOrphaned(State());
    }
  }

  lemma OwnedOrOrphaned(w: World)
    requires OwnInv(w)
    ensures w.live == OwnedSet(w.tracker) + w.orphans
  {
    hide PoolOk, KindsMatch, OwnedAt;
    forall o | o in OwnedSet(w.tracker) ensures o in w.live {
      var i :| 0 <= i < |w.tracker.entries| && o in OwnedAt(w.tracker, i);
    }
  }

  lemma NothingRecorded(t: Table)
    requires Sized(t)
    ensures Recorded(t, Other) == []
  {
  }

  lemma NoAttachments(w: World, cb: Object)
    requires Sized(w.tracker)
    ensures Attach(w, cb, []) == w && Views(w.tracker, []) == []
  {
  }

  /** The loop's next turn. */
  lemma AttachMore(w: World, cb: Object, hs: seq<u32>, k: nat)
    requires Sized(w.tracker) && k < |hs| && AllTextures(w.tracker, hs)
    ensures AllTextures(w.tracker, hs[..k]) && AllTextures(w.tracker, hs[..k + 1])
    ensures var r := Attach(w, cb, hs[..k]);
            && Sized(r.tracker) && IsTexture(r.tracker, hs[k])
            && Attach(w, cb, hs[..k + 1]) == AttachOne(r, cb, hs[k])
            && Views(w.tracker, hs[..k + 1]) == Views(w.tracker, hs[..k]) + [ViewOf(r.tracker, hs[k])]
  {
    hide Get, AttachOne, Sized;
    var r := Attach(w, cb, hs[..k]);
    SameIndexGet(w.tracker, r.tracker, hs[k]);
    assert hs[..k + 1][..k] == hs[..k] && hs[..k + 1][k] == hs[k];
  }

  lemma AttachKeepsPool(w: World, cb: Object, hs: seq<u32>)
    requires PoolOk(w.tracker) && Sized(w.tracker) && AllTextures(w.tracker, hs)
    ensures PoolOk(Attach(w, cb, hs).tracker) && |Attach(w, cb, hs).tracker.entries| == POOL
  {
    hide PoolOk, Attach;
    SameIndexKeepsPool(w.tracker, Attach(w, cb, hs).tracker);
  }

  /** RenderBeginStep on a known command buffer. */
  lemma BeginCases(w: World, h: u32, colors: seq<u32>, depth: u32)
    requires Sized(w.tracker) && Typed(w.tracker, Command.RenderBegin(h, colors, depth)) && Get(w.tracker, h).Some?
    ensures var i := Get(w.tracker, h).value;
            var cb := w.tracker.entries[i].payload.cmdBuf;
            var r := Attach(w, cb, colors);
            && i < |r.tracker.entries| && r.tracker.entries[i].payload.CmdBufPayload?
            && RenderBeginStep(w, h, colors, depth)
               == r.(trace := r.trace + [BeginRendering(cb, Views(w.tracker, colors), DepthOf(w.tracker, depth))],
                     tracker := SetPayload(r.tracker, i, r.tracker.entries[i].payload.(inRenderPass := true)))
  {
    hide Get, Attach;
  }
}
