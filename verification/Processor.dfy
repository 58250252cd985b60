/** cmd_processor.c on values: what each command does to the tracker, to the set of live
    Vulkan objects and to the trace of Vulkan calls. */
module Processor {
  import opened Words
  import opened Options
  import opened Vulkan
  import opened Tracker
  import opened TrackerRuns

  const MAX_COLOR_ATTACHMENTS: nat := 8
  const STORAGE_SHARED: nat := 0
  const STORAGE_MANAGED: nat := 1

  /** `imageOf` is what vkCreateImageView was told; `orphans` is history: the objects of
      entries that a DESTROY command has untracked. */
  datatype World = World(
    tracker: Table,
    live: set<Object>, next: nat, imageOf: map<Object, Object>,
    trace: seq<Call>,
    orphans: set<Object>)

  function Start(): World {
    World(Tracker.Initial(), {}, 0, map[], [], {})
  }

  /** Success of the calls one command makes that can fail, in order; a missing outcome is
      a success. */
  type Outcomes = seq<bool>

  predicate Succeeds(o: Outcomes, i: nat) { i < |o| ==> o[i] }

  datatype Command =
    | CreateBuffer(handle: u32, storageMode: nat)
    | CreateTexture(handle: u32, formatSupported: bool)
    | CreateSampler(handle: u32)
    | CreatePlaceholder(handle: u32, kind: Kind)       // shader, render pipeline, depth/stencil
    | CmdbufCreate(handle: u32)
    | CmdbufCommit(handle: u32)
    | Destroy(handle: u32)                             // DESTROY_BUFFER, _TEXTURE, _SAMPLER
    | RenderBegin(cmdbuf: u32, colors: seq<u32>, depth: u32)
    | RenderEnd(cmdbuf: u32)
    | RenderSetViewport(cmdbuf: u32)
    | RenderSetScissor(cmdbuf: u32)
    | RenderSetVertexBuffer(cmdbuf: u32, buffer: u32, offset: nat, index: nat)
    | RenderDraw(cmdbuf: u32, vertexCount: nat, vertexStart: nat)
    | RenderDrawIndexed(cmdbuf: u32, indexCount: nat, indexBuffer: u32, indexOffset: nat)
    | RenderDrawInstanced(cmdbuf: u32, vertexCount: nat, instanceCount: nat, vertexStart: nat, baseInstance: nat)
    | Other                                            // no effect on tracker, objects or trace

  // ---- Vulkan objects ----

  function Fresh(w: World, kind: ObjectKind): Object { Object(kind, w.next) }

  function CreateObject(w: World, kind: ObjectKind): World {
    w.(live := w.live + {Fresh(w, kind)}, next := w.next + 1)
  }

  /** Destroying demands live objects: no handler frees one twice. */
  function DestroyObjects(w: World, os: set<Object>): World
    requires os <= w.live
  {
    w.(live := w.live - os)
  }

  function Emit(w: World, call: Call): World { w.(trace := w.trace + [call]) }

  function SetPayload(t: Table, i: nat, p: Payload): Table
    requires i < |t.entries|
  {
    t.(entries := t.entries[i := t.entries[i].(payload := p)])
  }

  // ---- create handlers ----

  /** The end of every create handler: an entry for what has been created, or its release
      when the tracker refuses the handle. */
  function Track(w: World, h: u32, kind: Kind, p: Payload): World
    requires Sized(w.tracker) && Owned(p) <= w.live
  {
    var (t, entry) := Add(w.tracker, h, kind);
    if entry.None? then DestroyObjects(w, Owned(p)) else w.(tracker := SetPayload(t, entry.value, p))
  }

  function CreateBufferStep(w: World, h: u32, storageMode: nat, o: Outcomes): World
    requires Sized(w.tracker)
  {
    if !Succeeds(o, 0) then w
    else
      var buffer, w1 := Fresh(w, VkBuffer), CreateObject(w, VkBuffer);
      if !Succeeds(o, 1) then DestroyObjects(w1, {buffer})
      else
        var memory, w2 := Fresh(w1, VkMemory), CreateObject(w1, VkMemory);
        var shared := storageMode == STORAGE_SHARED || storageMode == STORAGE_MANAGED;
        Track(w2, h, Buffer, BufferPayload(buffer, memory, shared && Succeeds(o, 2)))
  }

  function CreateTextureStep(w: World, h: u32, formatSupported: bool, o: Outcomes): World
    requires Sized(w.tracker)
  {
    if !formatSupported || !Succeeds(o, 0) then w
    else
      var image, w1 := Fresh(w, VkImage), CreateObject(w, VkImage);
      if !Succeeds(o, 1) then DestroyObjects(w1, {image})
      else
        var memory, w2 := Fresh(w1, VkMemory), CreateObject(w1, VkMemory);
        if !Succeeds(o, 2) then DestroyObjects(w2, {image, memory})
        else
          var view := Fresh(w2, VkImageView);
          var w3 := CreateObject(w2, VkImageView).(imageOf := w2.imageOf[view := image]);
          Track(w3, h, Texture, TexturePayload(image, view, memory, Undefined))
  }

  function CreateSamplerStep(w: World, h: u32, o: Outcomes): World
    requires Sized(w.tracker)
  {
    if !Succeeds(o, 0) then w
    else Track(CreateObject(w, VkSampler), h, Sampler, SamplerPayload(Fresh(w, VkSampler)))
  }

  /** The result of vkBeginCommandBuffer is not looked at. */
  function CmdbufCreateStep(w: World, h: u32, o: Outcomes): World
    requires Sized(w.tracker)
  {
    if !Succeeds(o, 0) then w
    else
      var cb, w1 := Fresh(w, VkCommandBuffer), CreateObject(w, VkCommandBuffer);
      if !Succeeds(o, 1) then DestroyObjects(w1, {cb})
      else
        var fence, w2 := Fresh(w1, VkFence), Emit(CreateObject(w1, VkFence), BeginCommandBuffer(cb));
        Track(w2, h, CmdBuf, CmdBufPayload(cb, fence, true, false))
  }

  /** Track, case by case. */
  lemma TrackCases(w: World, h: u32, kind: Kind, p: Payload)
    requires Sized(w.tracker) && Owned(p) <= w.live
    ensures var r := Add(w.tracker, h, kind);
            if CanAdd(w.tracker, h) then r.1 == Some(w.tracker.freeHead as nat) else r == (w.tracker, None)
    ensures CanAdd(w.tracker, h) ==>
              && w.tracker.freeHead < |Add(w.tracker, h, kind).0.entries|
              && Track(w, h, kind, p) == w.(tracker := SetPayload(Add(w.tracker, h, kind).0, w.tracker.freeHead, p))
    ensures !CanAdd(w.tracker, h) ==> Track(w, h, kind, p) == w.(live := w.live - Owned(p))
  {
    hide Get, FirstEmpty;
  }



  // ---- commit ----

  /** The entry a commit acts on; only here is the entry's type checked. */
  predicate CommitFinds(t: Table, h: u32)
    requires Sized(t)
  {
    Get(t, h).Some? && t.entries[Get(t, h).value].kind == CmdBuf
  }

  function CommitStep(w: World, h: u32): World
    requires Sized(w.tracker) && KindsMatch(w.tracker)
  {
    if !CommitFinds(w.tracker, h) then w
    else
      var i := Get(w.tracker, h).value;
      var p := w.tracker.entries[i].payload;
      w.(tracker := SetPayload(w.tracker, i, p.(recording := false)),
         trace := w.trace + CommitCalls(p))
  }

  function CommitCalls(p: Payload): seq<Call>
    requires p.CmdBufPayload?
  {
    [EndCommandBuffer(p.cmdBuf), QueueSubmit(p.cmdBuf, p.fence), WaitForFences(p.cmdBuf, p.fence),
     ResetFences(p.cmdBuf, p.fence), ResetCommandBuffer(p.cmdBuf)]
  }

  /** CommitStep, case by case. */
  lemma CommitCases(w: World, h: u32)
    requires Sized(w.tracker) && KindsMatch(w.tracker)
    ensures var found := Get(w.tracker, h);
            && (found.Some? ==> found.value < POOL == |w.tracker.entries|)
            && (CommitFinds(w.tracker, h) <==> found.Some? && w.tracker.entries[found.value].kind == CmdBuf)
            && (!CommitFinds(w.tracker, h) ==> CommitStep(w, h) == w)
            && (CommitFinds(w.tracker, h) ==>
                  var p := w.tracker.entries[found.value].payload;
                  && p.CmdBufPayload?
                  && CommitStep(w, h) == w.(tracker := SetPayload(w.tracker, found.value, p.(recording := false)),
                                            trace := w.trace + CommitCalls(p)))
  {
    hide Find;
  }

  // ---- destroy ----

  function PayloadOf(t: Table, h: u32): Payload
    requires Sized(t)
  {
    if Get(t, h).Some? then t.entries[Get(t, h).value].payload else NoPayload
  }

  /** Only the handle is untracked; the Vulkan objects stay alive. */
  function DestroyStep(w: World, h: u32): World
    requires Sized(w.tracker)
  {
    w.(tracker := Remove(w.tracker, h), orphans := w.orphans + Owned(PayloadOf(w.tracker, h)))
  }

  // ---- render encoder ----

  /** A handle is unknown or names a resource of the union member the handler reads. */
  predicate IsCmdBuf(t: Table, h: u32) requires Sized(t)
  {
    Get(t, h).Some? ==> PayloadOf(t, h).CmdBufPayload?
  }

  predicate IsTexture(t: Table, h: u32) requires Sized(t)
  {
    Get(t, h).Some? ==> PayloadOf(t, h).TexturePayload?
  }

  predicate IsBuffer(t: Table, h: u32) requires Sized(t)
  {
    Get(t, h).Some? ==> PayloadOf(t, h).BufferPayload?
  }

  /** One turn of the attachment loop: a barrier for a texture not yet in the colour layout. */
  function AttachOne(w: World, cb: Object, h: u32): World
    requires Sized(w.tracker) && IsTexture(w.tracker, h)
  {
    if Get(w.tracker, h).None? then w
    else
      var i := Get(w.tracker, h).value;
      var p := w.tracker.entries[i].payload;
      if p.layout == ColorAttachmentOptimal then w
      else
        Emit(w, PipelineBarrier(cb, p.image, p.layout, ColorAttachmentOptimal))
        .(tracker := SetPayload(w.tracker, i, p.(layout := ColorAttachmentOptimal)))
  }

  function ViewOf(t: Table, h: u32): Attachment
    requires Sized(t) && IsTexture(t, h)
  {
    if Get(t, h).None? then NoView else View(PayloadOf(t, h).view)
  }

  function DepthOf(t: Table, h: u32): Attachment
    requires Sized(t) && IsTexture(t, h)
  {
    if h == INVALID_HANDLE then NoView else ViewOf(t, h)
  }

  predicate AllTextures(t: Table, hs: seq<u32>)
    requires Sized(t)
  {
    forall k :: 0 <= k < |hs| ==> IsTexture(t, hs[k])
  }

  /** Tables that differ at most in the payload of textures and command buffers. */
  ghost predicate SameIndex(t: Table, u: Table) {
    && t.slots == u.slots && t.count == u.count && t.freeHead == u.freeHead
    && |t.entries| == |u.entries|
    && forall i :: 0 <= i < |t.entries| ==>
         && u.entries[i] == t.entries[i].(payload := u.entries[i].payload)
         && SameShape(t.entries[i].payload, u.entries[i].payload)
  }

  /** Same objects; only layout, recording and inRenderPass may differ. */
  predicate SameShape(p: Payload, q: Payload) {
    match p
    case TexturePayload(i, v, m, _) => q.TexturePayload? && q == p.(layout := q.layout)
    case CmdBufPayload(c, f, _, _) =>
      q.CmdBufPayload? && q == p.(recording := q.recording, inRenderPass := q.inRenderPass)
    case _ => q == p
  }

  lemma {:induction false} SameIndexFind(t: Table, u: Table, h: u32, p: nat)
    requires Sized(t) && Sized(u) && SameIndex(t, u)
    ensures Find(t, h, p) == Find(u, h, p)
    decreases Hash.TABLE - p
  {
    if p < Hash.TABLE { SameIndexFind(t, u, h, p + 1); }
  }

  lemma SameIndexGet(t: Table, u: Table, h: u32)
    requires Sized(t) && SameIndex(t, u)
    ensures Sized(u) && Get(t, h) == Get(u, h)
    ensures SameShape(PayloadOf(t, h), PayloadOf(u, h))
  {
    SameIndexFind(t, u, h, 0);
  }

  /** The attachment loop over `hs`. */
  function Attach(w: World, cb: Object, hs: seq<u32>): (r: World)
    requires Sized(w.tracker) && AllTextures(w.tracker, hs)
    ensures SameIndex(w.tracker, r.tracker) && Sized(r.tracker)
    ensures r == w.(tracker := r.tracker, trace := r.trace)
    decreases |hs|
  {
    if hs == [] then w
    else
      var n := |hs| - 1;
      var r := Attach(w, cb, hs[..n]);
      SameIndexGet(w.tracker, r.tracker, hs[n]);
      AttachOne(r, cb, hs[n])
  }

  function Views(t: Table, hs: seq<u32>): seq<Attachment>
    requires Sized(t) && AllTextures(t, hs)
  {
    seq(|hs|, k requires 0 <= k < |hs| => ViewOf(t, hs[k]))
  }

  /** RENDER_BEGIN looks at its attachments only once its command buffer is known. */
  predicate BeginTyped(t: Table, h: u32, colors: seq<u32>, depth: u32)
    requires Sized(t)
  {
    && IsCmdBuf(t, h)
    && (Get(t, h).Some? ==>
          AllTextures(t, colors) && IsTexture(t, depth) && |colors| <= MAX_COLOR_ATTACHMENTS)
  }

  function RenderBeginStep(w: World, h: u32, colors: seq<u32>, depth: u32): World
    requires Sized(w.tracker) && BeginTyped(w.tracker, h, colors, depth)
  {
    if Get(w.tracker, h).None? then w
    else
      var i := Get(w.tracker, h).value;
      var cb := w.tracker.entries[i].payload.cmdBuf;
      var r := Attach(w, cb, colors);
      var p := r.tracker.entries[i].payload;
      Emit(r, BeginRendering(cb, Views(w.tracker, colors), DepthOf(w.tracker, depth)))
      .(tracker := SetPayload(r.tracker, i, p.(inRenderPass := true)))
  }

  function RenderEndStep(w: World, h: u32): World
    requires Sized(w.tracker) && IsCmdBuf(w.tracker, h)
  {
    if Get(w.tracker, h).None? then w
    else
      var i := Get(w.tracker, h).value;
      var p := w.tracker.entries[i].payload;
      if !p.inRenderPass then w
      else Emit(w, EndRendering(p.cmdBuf)).(tracker := SetPayload(w.tracker, i, p.(inRenderPass := false)))
  }

  /** The command buffer a handle names. */
  function CmdBufOf(t: Table, h: u32): Option<Object>
    requires Sized(t)
  {
    var p := PayloadOf(t, h); if p.CmdBufPayload? then Some(p.cmdBuf) else None
  }

  function BufferOf(t: Table, h: u32): Option<Object>
    requires Sized(t)
  {
    var p := PayloadOf(t, h); if p.BufferPayload? then Some(p.buffer) else None
  }

  predicate IsRender(c: Command) {
    || c.RenderBegin? || c.RenderEnd? || c.RenderSetViewport? || c.RenderSetScissor? || c.RenderSetVertexBuffer?
    || c.RenderDraw? || c.RenderDrawIndexed? || c.RenderDrawInstanced?
  }

  /** Commands that only record calls on the command buffer they name. */
  function Recorded(t: Table, c: Command): seq<Call>
    requires Sized(t) && Typed(t, c)
  {
    if !IsRender(c) || CmdBufOf(t, c.cmdbuf).None? then [] else CallsOn(t, CmdBufOf(t, c.cmdbuf).value, c)
  }

  function CallsOn(t: Table, cb: Object, c: Command): seq<Call>
    requires Sized(t)
  {
    match c
    case RenderSetViewport(_) => [SetViewport(cb)]
    case RenderSetScissor(_) => [SetScissor(cb)]
    case RenderSetVertexBuffer(_, b, offset, index) =>
      var buffer := BufferOf(t, b);
      if buffer.None? then [] else [BindVertexBuffer(cb, index, buffer.value, offset)]
    case RenderDraw(_, count, start) => [Draw(cb, count, 1, start, 0)]
    case RenderDrawIndexed(_, count, b, offset) =>
      var buffer := BufferOf(t, b);
      if buffer.None? then [] else [BindIndexBuffer(cb, buffer.value, offset), DrawIndexed(cb, count)]
    case RenderDrawInstanced(_, count, instances, start, base) => [Draw(cb, count, instances, start, base)]
    case _ => []
  }

  /** Handlers that look up a command buffer and a buffer look into them once both are known. */
  predicate BothTyped(t: Table, h: u32, b: u32)
    requires Sized(t)
  {
    Get(t, h).Some? && Get(t, b).Some? ==> IsCmdBuf(t, h) && IsBuffer(t, b)
  }

  /** What the render handlers take for granted about the handles they are given. */
  predicate Typed(t: Table, c: Command)
    requires Sized(t)
  {
    match c
    case RenderBegin(h, colors, depth) => BeginTyped(t, h, colors, depth)
    case RenderEnd(h) => IsCmdBuf(t, h)
    case RenderSetViewport(h) => IsCmdBuf(t, h)
    case RenderSetScissor(h) => IsCmdBuf(t, h)
    case RenderSetVertexBuffer(h, b, _, _) => BothTyped(t, h, b)
    case RenderDraw(h, _, _) => IsCmdBuf(t, h)
    case RenderDrawIndexed(h, _, b, _) => BothTyped(t, h, b)
    case RenderDrawInstanced(h, _, _, _, _) => IsCmdBuf(t, h)
    case CreatePlaceholder(_, kind) => kind in {Shader, RenderPipeline, DepthStencil}
    case _ => true
  }

  // ---- dispatch ----

  /** An entry in use under a kind that owns Vulkan objects stores that kind's payload. */
  ghost predicate KindsMatch(t: Table) {
    forall i :: 0 <= i < |t.entries| && t.entries[i].inUse ==>
      match t.entries[i].kind
      case Buffer => t.entries[i].payload.BufferPayload?
      case Texture => t.entries[i].payload.TexturePayload?
      case Sampler => t.entries[i].payload.SamplerPayload?
      case CmdBuf => t.entries[i].payload.CmdBufPayload?
      case _ => t.entries[i].payload.NoPayload?
  }

  ghost function Step(w: World, c: Command, o: Outcomes): World
    requires Sized(w.tracker) && KindsMatch(w.tracker) && Typed(w.tracker, c)
  {
    match c
    case CreateBuffer(h, mode) => CreateBufferStep(w, h, mode, o)
    case CreateTexture(h, supported) => CreateTextureStep(w, h, supported, o)
    case CreateSampler(h) => CreateSamplerStep(w, h, o)
    case CreatePlaceholder(h, kind) => Track(w, h, kind, NoPayload)
    case CmdbufCreate(h) => CmdbufCreateStep(w, h, o)
    case CmdbufCommit(h) => CommitStep(w, h)
    case Destroy(h) => DestroyStep(w, h)
    case RenderBegin(h, colors, depth) => RenderBeginStep(w, h, colors, depth)
    case RenderEnd(h) => RenderEndStep(w, h)
    case _ => w.(trace := w.trace + Recorded(w.tracker, c))
  }

  // ---- create commands, in one shape ----

  predicate Creates(c: Command) {
    c.CreateBuffer? || c.CreateTexture? || c.CreateSampler? || c.CreatePlaceholder? || c.CmdbufCreate?
  }

  /** What a create command stores in the entry it is given. */
  function NewPayload(w: World, c: Command, o: Outcomes): Payload
    requires Creates(c)
  {
    var next := w.next;
    match c
    case CreateBuffer(_, mode) =>
      BufferPayload(Object(VkBuffer, next), Object(VkMemory, next + 1),
                    (mode == STORAGE_SHARED || mode == STORAGE_MANAGED) && Succeeds(o, 2))
    case CreateTexture(_, _) =>
      TexturePayload(Object(VkImage, next), Object(VkImageView, next + 2), Object(VkMemory, next + 1), Undefined)
    case CreateSampler(_) => SamplerPayload(Object(VkSampler, next))
    case CreatePlaceholder(_, _) => NoPayload
    case CmdbufCreate(_) => CmdBufPayload(Object(VkCommandBuffer, next), Object(VkFence, next + 1), true, false)
  }

  /** The calls a command other than RENDER_BEGIN, RENDER_END and a commit adds. */
  function Added(w: World, c: Command, o: Outcomes): seq<Call>
    requires Sized(w.tracker) && Typed(w.tracker, c)
  {
    if c.CmdbufCreate? then
      if Succeeds(o, 0) && Succeeds(o, 1) then [BeginCommandBuffer(Fresh(w, VkCommandBuffer))] else []
    else Recorded(w.tracker, c)
  }

  /** Each entry stays as it was, or has just been given payload `p`. */
  ghost predicate OneFilled(t: Table, u: Table, p: Payload) {
    && |t.entries| == |u.entries|
    && forall i :: 0 <= i < |u.entries| ==> u.entries[i] == t.entries[i] || u.entries[i].payload == p
  }

  lemma NoneFilled(t: Table, p: Payload)
    ensures OneFilled(t, t, p)
  {
  }

  lemma TrackFills(w: World, h: u32, kind: Kind, p: Payload)
    requires PoolOk(w.tracker) && Sized(w.tracker) && Owned(p) <= w.live
    ensures var w' := Track(w, h, kind, p);
            && w'.trace == w.trace && w'.next == w.next && w'.imageOf == w.imageOf
            && OneFilled(w.tracker, w'.tracker, p)
  {
    hide Get, FirstEmpty, PoolOk, Track, Owned;
    TrackCases(w, h, kind, p);
    if CanAdd(w.tracker, h) { AddedShape(w.tracker, h, kind); }
  }

  /** What every create command does, whatever fails on the way. */
  lemma CreateShape(w: World, c: Command, o: Outcomes)
    requires PoolOk(w.tracker) && Sized(w.tracker) && KindsMatch(w.tracker) && Typed(w.tracker, c) && Creates(c)
    ensures var w', p := Step(w, c, o), NewPayload(w, c, o);
            && OneFilled(w.tracker, w'.tracker, p)
            && w'.trace == w.trace + Added(w, c, o)
            && w.next <= w'.next
            && (w'.tracker != w.tracker && c.CmdbufCreate? ==> Succeeds(o, 0) && Succeeds(o, 1))
            && (w'.tracker != w.tracker && c.CreateTexture? ==> p.view in w'.imageOf && w'.imageOf[p.view] == p.image)
            && (w'.imageOf == w.imageOf
                || (p.TexturePayload? && w.next + 2 < w'.next && w'.imageOf == w.imageOf[p.view := p.image]))
  {
    hide KindsMatch, Track, OneFilled, PoolOk, Sized;
    var p := NewPayload(w, c, o);
    NoneFilled(w.tracker, p);
    match c
    case CreateBuffer(h, mode) =>
      if Succeeds(o, 0) && Succeeds(o, 1) {
        TrackFills(CreateObject(CreateObject(w, VkBuffer), VkMemory), h, Buffer, p);
      }
    case CreateTexture(h, supported) =>
      if supported && Succeeds(o, 0) && Succeeds(o, 1) && Succeeds(o, 2) {
        var w2 := CreateObject(CreateObject(w, VkImage), VkMemory);
        TrackFills(CreateObject(w2, VkImageView).(imageOf := w2.imageOf[p.view := p.image]), h, Texture, p);
      }
    case CreateSampler(h) =>
      if Succeeds(o, 0) { TrackFills(CreateObject(w, VkSampler), h, Sampler, p); }
    case CreatePlaceholder(h, kind) => TrackFills(w, h, kind, p);
    case CmdbufCreate(h) =>
      if Succeeds(o, 0) && Succeeds(o, 1) {
        var w2 := CreateObject(CreateObject(w, VkCommandBuffer), VkFence);
        TrackFills(Emit(w2, BeginCommandBuffer(p.cmdBuf)), h, CmdBuf, p);
      }
  }
}
