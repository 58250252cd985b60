/** The layout each texture entry tracks against the barriers actually recorded. */
module ImageLayouts {
  import opened Words
  import opened Options
  import opened Vulkan
  import opened Tracker
  import opened TrackerRuns
  import opened Processor
  import opened Ownership
  import opened RenderPasses

  /** How many barriers the trace holds for `image`. */
  function Barriers(trace: seq<Call>, image: Object): nat {
    if trace == [] then 0
    else
      var c := trace[|trace| - 1];
      Barriers(trace[..|trace| - 1], image) + (if c.PipelineBarrier? && c.image == image then 1 else 0)
  }

  lemma BarriersAppend(trace: seq<Call>, c: Call, image: Object)
    ensures Barriers(trace + [c], image)
            == Barriers(trace, image) + (if c.PipelineBarrier? && c.image == image then 1 else 0)
  {
    assert (trace + [c])[..|trace|] == trace;
  }

  lemma {:induction false} NoBarriers(trace: seq<Call>, calls: seq<Call>, image: Object)
    requires forall k :: 0 <= k < |calls| ==> !calls[k].PipelineBarrier?
    ensures Barriers(trace + calls, image) == Barriers(trace, image)
    decreases |calls|
  {
    if calls == [] {
      assert trace + calls == trace;
    } else {
      var n := |calls| - 1;
      NoBarriers(trace, calls[..n], image);
      assert trace + calls == (trace + calls[..n]) + [calls[n]];
      BarriersAppend(trace + calls[..n], calls[n], image);
    }
  }

  lemma {:induction false} UnseenHasNone(trace: seq<Call>, next: nat, image: Object)
    requires BarriersOld(trace, next) && image.id >= next
    ensures Barriers(trace, image) == 0
  {
    if trace != [] { UnseenHasNone(trace[..|trace| - 1], next, image); }
  }

  // ---- the invariant ----

  ghost predicate BarriersOld(trace: seq<Call>, next: nat) {
    forall k :: 0 <= k < |trace| && trace[k].PipelineBarrier? ==> trace[k].image.id < next
  }

  /** A texture's layout field says whether its one barrier has been recorded. */
  ghost predicate LayoutsTrue(t: Table, trace: seq<Call>) {
    forall i :: 0 <= i < |t.entries| && t.entries[i].inUse && t.entries[i].payload.TexturePayload? ==>
      Barriers(trace, t.entries[i].payload.image) == if t.entries[i].payload.layout.Undefined? then 0 else 1
  }

  /** No image has two barriers, and each takes it from UNDEFINED to the colour layout. */
  ghost predicate OneBarrierEach(trace: seq<Call>) {
    && (forall image :: Barriers(trace, image) <= 1)
    && (forall k :: 0 <= k < |trace| && trace[k].PipelineBarrier? ==>
          trace[k].oldLayout == Undefined && trace[k].newLayout == ColorAttachmentOptimal)
  }

  ghost predicate ViewsKnown(t: Table, imageOf: map<Object, Object>, next: nat) {
    && (forall v :: v in imageOf ==> v.id < next)
    && (forall i :: 0 <= i < |t.entries| && t.entries[i].inUse && t.entries[i].payload.TexturePayload? ==>
          && t.entries[i].payload.view in imageOf
          && imageOf[t.entries[i].payload.view] == t.entries[i].payload.image)
  }

  /** The image behind a colour view already has its barrier. */
  ghost predicate Ready(a: Attachment, before: seq<Call>, imageOf: map<Object, Object>) {
    a.View? ==> a.view in imageOf && Barriers(before, imageOf[a.view]) == 1
  }

  /** Each vkCmdBeginRendering finds the images of its colour views already transitioned. */
  ghost predicate BarriersFirst(trace: seq<Call>, imageOf: map<Object, Object>) {
    forall k, a {:trigger trace[k].colors[a]} ::
      0 <= k < |trace| && trace[k].BeginRendering? && 0 <= a < |trace[k].colors| ==>
        Ready(trace[k].colors[a], trace[..k], imageOf)
  }

  ghost predicate LayoutInv(w: World) {
    && OwnInv(w)
    && LayoutsTrue(w.tracker, w.trace)
    && OneBarrierEach(w.trace)
    && BarriersOld(w.trace, w.next)
    && ViewsKnown(w.tracker, w.imageOf, w.next)
    && BarriersFirst(w.trace, w.imageOf)
  }

  ghost predicate DistinctImages(t: Table) {
    forall i, j :: 0 <= i < j < |t.entries| && t.entries[i].inUse && t.entries[j].inUse
                   && t.entries[i].payload.TexturePayload? && t.entries[j].payload.TexturePayload?
      ==> t.entries[i].payload.image != t.entries[j].payload.image
  }

  ghost predicate ImagesOld(t: Table, next: nat) {
    forall i :: 0 <= i < |t.entries| && t.entries[i].inUse && t.entries[i].payload.TexturePayload?
      ==> t.entries[i].payload.image.id < next
  }

  lemma ImagesAreDistinct(w: World)
    requires OwnInv(w)
    ensures DistinctImages(w.tracker)
    ensures ImagesOld(w.tracker, w.next)
  {
    hide PoolOk, KindsMatch;
    forall i, j | 0 <= i < j < |w.tracker.entries| && w.tracker.entries[i].inUse && w.tracker.entries[j].inUse
                  && w.tracker.entries[i].payload.TexturePayload? && w.tracker.entries[j].payload.TexturePayload?
      ensures w.tracker.entries[i].payload.image != w.tracker.entries[j].payload.image
    {
      assert w.tracker.entries[i].payload.image in OwnedAt(w.tracker, i);
      assert w.tracker.entries[j].payload.image in OwnedAt(w.tracker, j);
    }
    forall i | 0 <= i < |w.tracker.entries| && w.tracker.entries[i].inUse
               && w.tracker.entries[i].payload.TexturePayload?
      ensures w.tracker.entries[i].payload.image.id < w.next
    {
      assert w.tracker.entries[i].payload.image in OwnedAt(w.tracker, i);
    }
  }

  // ---- steps without barriers ----

  /** Entries keep, lose or newly get a texture; a new one is untransitioned, its image and
      view are new, and the view is known to belong to the image. */
  ghost predicate OnlyNewTextures(w: World, w': World) {
    && |w.tracker.entries| == |w'.tracker.entries|
    && (forall i :: 0 <= i < |w'.tracker.entries| ==>
          || w'.tracker.entries[i] == w.tracker.entries[i]
          || !w'.tracker.entries[i].inUse
          || !w'.tracker.entries[i].payload.TexturePayload?
          || NewTexture(w, w', w'.tracker.entries[i].payload))
    && (forall v :: v in w.imageOf && v.id < w.next ==> v in w'.imageOf && w'.imageOf[v] == w.imageOf[v])
    && (forall v :: v in w'.imageOf ==> v in w.imageOf || w.next <= v.id < w'.next)
    && w.next <= w'.next
  }

  predicate NewTexture(w: World, w': World, p: Payload)
    requires p.TexturePayload?
  {
    && p.layout.Undefined? && p.image.id >= w.next
    && p.view in w'.imageOf && w'.imageOf[p.view] == p.image
  }

  lemma NoBarrierStep(w: World, w': World, calls: seq<Call>)
    requires LayoutInv(w) && OnlyNewTextures(w, w') && w'.trace == w.trace + calls
    requires forall k :: 0 <= k < |calls| ==> !calls[k].PipelineBarrier? && !calls[k].BeginRendering?
    ensures LayoutsTrue(w'.tracker, w'.trace) && OneBarrierEach(w'.trace) && BarriersOld(w'.trace, w'.next)
    ensures ViewsKnown(w'.tracker, w'.imageOf, w'.next) && BarriersFirst(w'.trace, w'.imageOf)
  {
    hide OwnInv;
    forall image ensures Barriers(w'.trace, image) == Barriers(w.trace, image) { NoBarriers(w.trace, calls, image); }
    forall i | 0 <= i < |w'.tracker.entries| && w'.tracker.entries[i].inUse
               && w'.tracker.entries[i].payload.TexturePayload?
      ensures Barriers(w'.trace, w'.tracker.entries[i].payload.image)
              == if w'.tracker.entries[i].payload.layout.Undefined? then 0 else 1
    {
      if w'.tracker.entries[i] != w.tracker.entries[i] {
        UnseenHasNone(w.trace, w.next, w'.tracker.entries[i].payload.image);
      }
    }
    forall k, a {:trigger w'.trace[k].colors[a]} |
      0 <= k < |w'.trace| && w'.trace[k].BeginRendering? && 0 <= a < |w'.trace[k].colors|
      ensures Ready(w'.trace[k].colors[a], w'.trace[..k], w'.imageOf)
    {
      assert k < |w.trace| && w'.trace[k] == w.trace[k] && w'.trace[..k] == w.trace[..k];
      assert Ready(w.trace[k].colors[a], w.trace[..k], w.imageOf);
    }
  }

  // ---- the attachment loop ----

  lemma BarrierKeepsLayouts(t: Table, u: Table, trace: seq<Call>, c: Call, i: nat)
    requires LayoutsTrue(t, trace) && DistinctImages(t) && OneBarrierEach(trace)
    requires i < |t.entries| == |u.entries| && t.entries[i].inUse && t.entries[i].payload.TexturePayload?
    requires t.entries[i].payload.layout.Undefined?
    requires var p := t.entries[i].payload;
             u.entries == t.entries[i := t.entries[i].(payload := p.(layout := ColorAttachmentOptimal))]
    requires c.PipelineBarrier? && c.image == t.entries[i].payload.image
    requires c.oldLayout == Undefined && c.newLayout == ColorAttachmentOptimal
    ensures LayoutsTrue(u, trace + [c]) && DistinctImages(u) && OneBarrierEach(trace + [c])
  {
    hide OneBarrierEach, Barriers;
    forall image ensures Barriers(trace + [c], image) == Barriers(trace, image) + (if c.image == image then 1 else 0) {
      BarriersAppend(trace, c, image);
    }
    forall j | 0 <= j < |u.entries| && u.entries[j].inUse && u.entries[j].payload.TexturePayload?
      ensures Barriers(trace + [c], u.entries[j].payload.image)
              == if u.entries[j].payload.layout.Undefined? then 0 else 1
    {
      if j < i { assert u.entries[j].payload.image != c.image; }
      if i < j { assert u.entries[j].payload.image != c.image; }
    }
    FirstBarrier(trace, c);
  }

  lemma FirstBarrier(trace: seq<Call>, c: Call)
    requires OneBarrierEach(trace) && c.PipelineBarrier? && Barriers(trace, c.image) == 0
    requires c.oldLayout == Undefined && c.newLayout == ColorAttachmentOptimal
    ensures OneBarrierEach(trace + [c])
  {
    forall image ensures Barriers(trace + [c], image) <= 1 { BarriersAppend(trace, c, image); }
  }

  /** One turn of the loop: the texture is in the colour layout afterwards, with exactly one
      barrier to its name, whether or not an earlier attachment already was the same one. */
  lemma AttachOneKeepsLayouts(w: World, cb: Object, h: u32)
    requires Sized(w.tracker) && IsTexture(w.tracker, h)
    requires LayoutsTrue(w.tracker, w.trace) && DistinctImages(w.tracker) && OneBarrierEach(w.trace)
    ensures var r := AttachOne(w, cb, h);
            && LayoutsTrue(r.tracker, r.trace) && DistinctImages(r.tracker) && OneBarrierEach(r.trace)
            && (forall image :: Barriers(w.trace, image) <= Barriers(r.trace, image))
            && (Get(w.tracker, h).Some? ==> Barriers(r.trace, PayloadOf(w.tracker, h).image) == 1)
  {
    hide Get, LayoutsTrue, DistinctImages, OneBarrierEach;
    if Get(w.tracker, h).Some? {
      var i := Get(w.tracker, h).value;
      var p := w.tracker.entries[i].payload;
      LayoutOf(w.tracker, w.trace, i);
      if p.layout.Undefined? {
        var c := PipelineBarrier(cb, p.image, p.layout, ColorAttachmentOptimal);
        BarrierKeepsLayouts(w.tracker, AttachOne(w, cb, h).tracker, w.trace, c, i);
        forall image ensures Barriers(w.trace, image) <= Barriers(w.trace + [c], image) {
          BarriersAppend(w.trace, c, image);
        }
        BarriersAppend(w.trace, c, p.image);
      }
    }
  }

  lemma LayoutOf(t: Table, trace: seq<Call>, i: nat)
    requires LayoutsTrue(t, trace) && i < |t.entries| && t.entries[i].inUse && t.entries[i].payload.TexturePayload?
    ensures Barriers(trace, t.entries[i].payload.image) == if t.entries[i].payload.layout.Undefined? then 0 else 1
  {
  }

  lemma {:induction false} AttachKeepsLayouts(w: World, cb: Object, hs: seq<u32>)
    requires Sized(w.tracker) && AllTextures(w.tracker, hs)
    requires LayoutsTrue(w.tracker, w.trace) && DistinctImages(w.tracker) && OneBarrierEach(w.trace)
    ensures var r := Attach(w, cb, hs);
            && LayoutsTrue(r.tracker, r.trace) && OneBarrierEach(r.trace)
            && (forall k :: 0 <= k < |hs| && Get(w.tracker, hs[k]).Some? ==>
                  Barriers(r.trace, PayloadOf(w.tracker, hs[k]).image) == 1)
    ensures DistinctImages(Attach(w, cb, hs).tracker)
    decreases |hs|
  {
    hide Get, LayoutsTrue, DistinctImages, OneBarrierEach, AttachOne, PayloadOf;
    if hs != [] {
      var n := |hs| - 1;
      var r := Attach(w, cb, hs[..n]);
      AttachKeepsLayouts(w, cb, hs[..n]);
      SameIndexGet(w.tracker, r.tracker, hs[n]);
      AttachOneKeepsLayouts(r, cb, hs[n]);
      AtMostOne(Attach(w, cb, hs).trace);
      forall k | 0 <= k < |hs| && Get(w.tracker, hs[k]).Some?
        ensures Barriers(Attach(w, cb, hs).trace, PayloadOf(w.tracker, hs[k]).image) == 1
      {
        if k < n { assert hs[..n][k] == hs[k]; }
      }
    }
  }

  lemma AtMostOne(trace: seq<Call>)
    requires OneBarrierEach(trace)
    ensures forall image :: Barriers(trace, image) <= 1
  {
  }

  lemma {:induction false} AttachBarriersOld(w: World, cb: Object, hs: seq<u32>)
    requires Sized(w.tracker) && AllTextures(w.tracker, hs)
    requires ImagesOld(w.tracker, w.next) && BarriersOld(w.trace, w.next)
    ensures BarriersOld(Attach(w, cb, hs).trace, w.next)
    decreases |hs|
  {
    hide Get;
    if hs != [] {
      var r := Attach(w, cb, hs[..|hs| - 1]);
      AttachBarriersOld(w, cb, hs[..|hs| - 1]);
      SameIndexGet(w.tracker, r.tracker, hs[|hs| - 1]);
      if Get(r.tracker, hs[|hs| - 1]).Some? {
        var i := Get(r.tracker, hs[|hs| - 1]).value;
        assert r.tracker.entries[i] == w.tracker.entries[i].(payload := r.tracker.entries[i].payload);
      }
    }
  }

  // ---- steps ----

  lemma RenderBeginLayouts(w: World, h: u32, colors: seq<u32>, depth: u32)
    requires LayoutInv(w) && Typed(w.tracker, RenderBegin(h, colors, depth)) && Get(w.tracker, h).Some?
    ensures var w' := RenderBeginStep(w, h, colors, depth);
            && LayoutsTrue(w'.tracker, w'.trace) && OneBarrierEach(w'.trace) && BarriersOld(w'.trace, w'.next)
            && ViewsKnown(w'.tracker, w'.imageOf, w'.next) && BarriersFirst(w'.trace, w'.imageOf)
  {
    hide Get, Find, Attach, OwnInv, DepthOf;
    Unfold(w);
    ImagesAreDistinct(w);
    var i := Get(w.tracker, h).value;
    var cb := w.tracker.entries[i].payload.cmdBuf;
    var r, w' := Attach(w, cb, colors), RenderBeginStep(w, h, colors, depth);
    AttachKeepsLayouts(w, cb, colors);
    AttachBarriersOld(w, cb, colors);
    AttachEmitsBarriers(w, cb, colors);
    var begin := w'.trace[|r.trace|];
    assert w'.trace == r.trace + [begin];
    SameBarriers(r.trace, begin);
    FlagKeepsLayouts(r.tracker, w'.tracker, r.trace, w'.trace, i);
    FlagKeepsViews(w, w', r.tracker, i);
    BeginIsReady(w, colors, r.trace);
    BarriersFirstAppend(w.trace, r.trace, begin, w.imageOf);
  }

  lemma SameBarriers(trace: seq<Call>, c: Call)
    requires !c.PipelineBarrier?
    ensures forall image :: Barriers(trace + [c], image) == Barriers(trace, image)
    ensures OneBarrierEach(trace) ==> OneBarrierEach(trace + [c])
  {
    forall image ensures Barriers(trace + [c], image) == Barriers(trace, image) { BarriersAppend(trace, c, image); }
  }

  lemma FlagKeepsLayouts(t: Table, u: Table, trace: seq<Call>, trace': seq<Call>, i: nat)
    requires LayoutsTrue(t, trace) && |t.entries| == |u.entries| && i < |t.entries|
    requires !u.entries[i].payload.TexturePayload?
    requires forall j :: 0 <= j < |t.entries| && j != i ==> u.entries[j] == t.entries[j]
    requires forall image :: Barriers(trace', image) == Barriers(trace, image)
    ensures LayoutsTrue(u, trace')
  {
  }

  lemma FlagKeepsViews(w: World, w': World, t: Table, i: nat)
    requires ViewsKnown(w.tracker, w.imageOf, w.next) && SameIndex(w.tracker, t)
    requires w'.imageOf == w.imageOf && w'.next == w.next && i < |t.entries| == |w'.tracker.entries|
    requires !w'.tracker.entries[i].payload.TexturePayload?
    requires forall j :: 0 <= j < |t.entries| && j != i ==> w'.tracker.entries[j] == t.entries[j]
    ensures ViewsKnown(w'.tracker, w'.imageOf, w'.next)
  {
    forall j | 0 <= j < |t.entries| && t.entries[j].inUse && t.entries[j].payload.TexturePayload?
      ensures t.entries[j].payload.view in w.imageOf
              && w.imageOf[t.entries[j].payload.view] == t.entries[j].payload.image
    {
      assert t.entries[j] == w.tracker.entries[j].(payload := t.entries[j].payload);
      assert SameShape(w.tracker.entries[j].payload, t.entries[j].payload);
    }
  }

  /** The colour views a pass begins with belong to images that have their barrier. */
  lemma BeginIsReady(w: World, colors: seq<u32>, trace: seq<Call>)
    requires Sized(w.tracker) && AllTextures(w.tracker, colors) && ViewsKnown(w.tracker, w.imageOf, w.next)
    requires forall k :: 0 <= k < |colors| && Get(w.tracker, colors[k]).Some? ==>
               Barriers(trace, PayloadOf(w.tracker, colors[k]).image) == 1
    ensures forall a :: 0 <= a < |colors| ==> Ready(Views(w.tracker, colors)[a], trace, w.imageOf)
  {
    hide Get;
    forall a | 0 <= a < |colors| ensures Ready(Views(w.tracker, colors)[a], trace, w.imageOf) {
      assert Views(w.tracker, colors)[a] == ViewOf(w.tracker, colors[a]);
      if Get(w.tracker, colors[a]).Some? {
        var i := Get(w.tracker, colors[a]).value;
        assert w.tracker.entries[i].payload == PayloadOf(w.tracker, colors[a]);
      }
    }
  }

  lemma BarriersFirstAppend(trace: seq<Call>, longer: seq<Call>, begin: Call, imageOf: map<Object, Object>)
    requires BarriersFirst(trace, imageOf) && trace <= longer
    requires forall k :: |trace| <= k < |longer| ==> longer[k].PipelineBarrier?
    requires begin.BeginRendering? && forall a :: 0 <= a < |begin.colors| ==> Ready(begin.colors[a], longer, imageOf)
    ensures BarriersFirst(longer + [begin], imageOf)
  {
    var all := longer + [begin];
    forall k, a {:trigger all[k].colors[a]} | 0 <= k < |all| && all[k].BeginRendering? && 0 <= a < |all[k].colors|
      ensures Ready(all[k].colors[a], all[..k], imageOf)
    {
      if k < |longer| {
        assert all[k] == longer[k] == trace[k] && all[..k] == trace[..k];
        assert Ready(trace[k].colors[a], trace[..k], imageOf);
      } else {
        assert all[..k] == longer;
      }
    }
  }

  lemma NoNewTexture(w: World, w': World)
    requires |w.tracker.entries| == |w'.tracker.entries| && w.next <= w'.next && w'.imageOf == w.imageOf
    requires forall i :: 0 <= i < |w'.tracker.entries| ==>
               || w'.tracker.entries[i] == w.tracker.entries[i]
               || !w'.tracker.entries[i].inUse
               || !w'.tracker.entries[i].payload.TexturePayload?
    ensures OnlyNewTextures(w, w')
  {
  }

  lemma CreateLayouts(w: World, c: Command, o: Outcomes)
    requires OwnInv(w) && Typed(w.tracker, c) && Creates(c)
    ensures OnlyNewTextures(w, Step(w, c, o))
  {
    hide Accounted, KindsMatch, PoolOk, Step, Added;
    CreateShape(w, c, o);
  }

  /** The calls of a command other than RENDER_BEGIN. */
  lemma PlainCalls(w: World, c: Command, o: Outcomes) returns (calls: seq<Call>)
    requires OwnInv(w) && Typed(w.tracker, c) && !c.RenderBegin?
    ensures Step(w, c, o).trace == w.trace + calls
    ensures forall k :: 0 <= k < |calls| ==> !calls[k].PipelineBarrier? && !calls[k].BeginRendering?
  {
    hide Accounted, Get, PoolOk, KindsMatch, CreateBufferStep, CreateTextureStep, CreateSamplerStep,
         CmdbufCreateStep, Remove, Track;
    if !Marking(c) {
      UnmarkedStep(w, c, o);
      calls := Added(w, c, o);
    } else {
      Unfold(w);
      calls := Step(w, c, o).trace[|w.trace|..];
    }
  }

  lemma PlainLayouts(w: World, c: Command, o: Outcomes)
    requires OwnInv(w) && Typed(w.tracker, c) && !c.RenderBegin?
    ensures OnlyNewTextures(w, Step(w, c, o))
  {
    hide Accounted, Get, PoolOk, OnlyNewTextures, CreateBufferStep, CreateTextureStep, CreateSamplerStep,
         CmdbufCreateStep, Remove, Track, Owned;
    Unfold(w);
    var w' := Step(w, c, o);
    if Creates(c) {
      CreateLayouts(w, c, o);
    } else {
      if c.Destroy? {
        if Get(w.tracker, c.handle).Some? { RemovedEntry(w.tracker, c.handle); }
        else { RemoveAbsent(w.tracker, c.handle); }
      }
      NoNewTexture(w, w');
    }
  }

  lemma StepKeepsLayouts(w: World, c: Command, o: Outcomes)
    requires LayoutInv(w) && Typed(w.tracker, c)
    ensures LayoutInv(Step(w, c, o))
  {
    hide OwnInv, Get, LayoutsTrue, OneBarrierEach, BarriersOld, ViewsKnown, BarriersFirst, OnlyNewTextures, Typed;
    Unfold(w);
    StepKeepsOwned(w, c, o);
    if c.RenderBegin? {
      TypedBegin(w.tracker, c);
      if Get(w.tracker, c.cmdbuf).Some? { RenderBeginLayouts(w, c.cmdbuf, c.colors, c.depth); }
      else { UnknownBuffer(w, c.cmdbuf, c.colors, c.depth); }
    } else {
      var calls := PlainCalls(w, c, o);
      PlainLayouts(w, c, o);
      NoBarrierStep(w, Step(w, c, o), calls);
    }
  }

  lemma TypedBegin(t: Table, c: Command)
    requires Sized(t) && c.RenderBegin? && Typed(t, c)
    ensures BeginTyped(t, c.cmdbuf, c.colors, c.depth)
  {
  }

  // ---- runs ----

  lemma {:induction false} RunKeepsLayouts(w: World, jobs: seq<Job>)
    requires OwnInv(w) && LayoutInv(w) && AllTyped(w, jobs)
    ensures LayoutInv(Ownership.Run(w, jobs))
    decreases |jobs|
  {
    hide LayoutInv, OwnInv, Step, Typed, KindsMatch;
    if jobs != [] {
      Unfold(w);
      StepKeepsLayouts(w, jobs[0].command, jobs[0].outcomes);
      StepKeepsOwned(w, jobs[0].command, jobs[0].outcomes);
      RunKeepsLayouts(Step(w, jobs[0].command, jobs[0].outcomes), jobs[1..]);
    }
  }

  lemma StartLayouts()
    ensures LayoutInv(Start())
  {
    StartOwned();
  }

  /** In recording order, over any run: no image ever gets two layout barriers, each goes
      from UNDEFINED to the colour layout, every pass finds the images of its colour views
      already transitioned, and each texture's field says whether that has happened. */
  lemma OneBarrierPerTexture(jobs: seq<Job>)
    requires OwnInv(Start()) && AllTyped(Start(), jobs)
    ensures var w := Ownership.Run(Start(), jobs);
            && OneBarrierEach(w.trace)
            && BarriersFirst(w.trace, w.imageOf)
            && LayoutsTrue(w.tracker, w.trace)
  {
    hide Ownership.Run, OwnInv, AllTyped;
    StartLayouts();
    RunKeepsLayouts(Start(), jobs);
  }

  // ---- what a pass shows ----

  /** `a` is the view of handle `h`'s texture, of that texture's image, or none if `h` is
      unknown. */
  ghost predicate Shows(a: Attachment, t: Table, h: u32, imageOf: map<Object, Object>)
    requires Sized(t)
  {
    && (a.View? <==> Get(t, h).Some?)
    && (a.View? ==>
          && t.entries[Get(t, h).value].payload.TexturePayload?
          && a.view in imageOf
          && imageOf[a.view] == t.entries[Get(t, h).value].payload.image)
  }

  lemma NamedViewShows(t: Table, h: u32, imageOf: map<Object, Object>, next: nat)
    requires Sized(t) && IsTexture(t, h) && ViewsKnown(t, imageOf, next)
    ensures Shows(ViewNamed(t, h), t, h, imageOf)
  {
    hide Find;
  }

  /** In every reachable state a RENDER_BEGIN on a known command buffer begins a pass with one
      colour slot for each handle it lists, in order, and the depth slot; each shows the
      texture its handle names. */
  lemma PassShowsItsTextures(jobs: seq<Job>, h: u32, colors: seq<u32>, depth: u32, o: Outcomes)
    requires OwnInv(Start()) && AllTyped(Start(), jobs)
    requires Typed(Ownership.Run(Start(), jobs).tracker, RenderBegin(h, colors, depth))
    requires Get(Ownership.Run(Start(), jobs).tracker, h).Some?
    ensures KindsMatch(Ownership.Run(Start(), jobs).tracker)
    ensures var w := Ownership.Run(Start(), jobs);
            var w' := Step(w, RenderBegin(h, colors, depth), o);
            && |w'.trace| > 0
            && var pass := w'.trace[|w'.trace| - 1];
            && pass.BeginRendering? && Some(pass.cb) == CmdBufOf(w.tracker, h)
            && |pass.colors| == |colors|
            && (forall k :: 0 <= k < |colors| ==> Shows(pass.colors[k], w.tracker, colors[k], w'.imageOf))
            && Shows(pass.depth, w.tracker, depth, w'.imageOf)
  {
    hide Ownership.Run, OwnInv, AllTyped, Get, RenderBeginStep, KindsMatch, Typed, Shows, ViewsKnown;
    var w := Ownership.Run(Start(), jobs);
    StartLayouts();
    RunKeepsLayouts(Start(), jobs);
    Unfold(w);
    TypedBegin(w.tracker, RenderBegin(h, colors, depth));
    var barriers, begin := RenderBeginShape(w, h, colors, depth);
    AskedAttachments(w.tracker, h, colors, depth);
    RenderBeginEdits(w, h, colors, depth);
    forall k | 0 <= k < |colors| ensures Shows(begin.colors[k], w.tracker, colors[k], w.imageOf) {
      NamedViewShows(w.tracker, colors[k], w.imageOf, w.next);
    }
    NamedViewShows(w.tracker, depth, w.imageOf, w.next);
    NoHandleZero(w.tracker);
  }

  lemma NoHandleZero(t: Table)
    requires Sized(t)
    ensures Get(t, 0).None? && ViewNamed(t, 0) == NoView
  {
  }
}
