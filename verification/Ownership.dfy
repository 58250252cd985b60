/** Every Vulkan object has exactly one owner, in every run and under every failure. */
module Ownership {
  import opened Words
  import opened Vulkan
  import opened Tracker
  import opened TrackerRuns
  import opened Processor

  /** The objects entry `i` owns while it is in use. */
  function OwnedAt(t: Table, i: nat): set<Object>
    requires i < |t.entries|
  {
    if t.entries[i].inUse then Owned(t.entries[i].payload) else {}
  }

  /** The objects owned by entries in use. */
  ghost function OwnedSet(t: Table): set<Object> {
    set i, o | 0 <= i < |t.entries| && o in OwnedAt(t, i) :: o
  }

  ghost predicate Accounted(t: Table, live: set<Object>, orphans: set<Object>, next: nat) {
    && (forall i :: 0 <= i < |t.entries| ==> OwnedAt(t, i) <= live && OwnedAt(t, i) !! orphans)
    && (forall i, j :: 0 <= i < j < |t.entries| ==> OwnedAt(t, i) !! OwnedAt(t, j))
    && orphans <= live
    && (forall o :: o in live ==> o in orphans || o in OwnedSet(t))
    && (forall o :: o in live ==> o.id < next)
  }

  ghost predicate OwnInv(w: World) {
    && PoolOk(w.tracker) && Sized(w.tracker) && KindsMatch(w.tracker)
    && Accounted(w.tracker, w.live, w.orphans, w.next)
  }

  lemma SetPayloadKeepsPool(t: Table, i: nat, p: Payload)
    requires PoolOk(t) && Sized(t) && i < POOL
    ensures PoolOk(SetPayload(t, i, p))
  {
    var free :| PoolInv(t, free);
    assert PoolInv(SetPayload(t, i, p), free);
  }

  lemma SameIndexKeepsPool(t: Table, u: Table)
    requires PoolOk(t) && Sized(t) && SameIndex(t, u)
    ensures PoolOk(u)
  {
    var free :| PoolInv(t, free);
    assert PoolInv(u, free);
  }

  // ---- the accounts, entry by entry ----

  /** One unused entry gains fresh objects. */
  lemma Gains(t: Table, u: Table, idx: nat, live: set<Object>, orphans: set<Object>, next: nat, next': nat)
    requires Accounted(t, live, orphans, next) && next <= next'
    requires |u.entries| == |t.entries| && idx < |t.entries| && OwnedAt(t, idx) == {}
    requires forall i :: 0 <= i < |t.entries| && i != idx ==> OwnedAt(u, i) == OwnedAt(t, i)
    requires forall o :: o in OwnedAt(u, idx) ==> next <= o.id < next'
    ensures Accounted(u, live + OwnedAt(u, idx), orphans, next')
  {
    forall o | o in live + OwnedAt(u, idx) ensures o in orphans || o in OwnedSet(u) {
      if o in OwnedSet(t) {
        var i :| 0 <= i < |t.entries| && o in OwnedAt(t, i);
        assert o in OwnedAt(u, i);
      }
    }
    assert forall o :: o in OwnedAt(u, idx) ==> o !in live;
  }

  /** One entry's objects pass to the orphans. */
  lemma Orphans(t: Table, u: Table, idx: nat, live: set<Object>, orphans: set<Object>, next: nat)
    requires Accounted(t, live, orphans, next)
    requires |u.entries| == |t.entries| && idx < |t.entries| && OwnedAt(u, idx) == {}
    requires forall i :: 0 <= i < |t.entries| && i != idx ==> OwnedAt(u, i) == OwnedAt(t, i)
    ensures Accounted(u, live, orphans + OwnedAt(t, idx), next)
  {
    forall o | o in live ensures o in orphans + OwnedAt(t, idx) || o in OwnedSet(u) {
      if o in OwnedSet(t) {
        var i :| 0 <= i < |t.entries| && o in OwnedAt(t, i);
        if i != idx { assert o in OwnedAt(u, i); }
      }
    }
    forall i | 0 <= i < |u.entries|
      ensures OwnedAt(u, i) <= live && OwnedAt(u, i) !! orphans + OwnedAt(t, idx)
    {
      if i < idx { assert OwnedAt(t, i) !! OwnedAt(t, idx); }
      if idx < i { assert OwnedAt(t, idx) !! OwnedAt(t, i); }
    }
  }

  /** Nothing changes hands. */
  lemma Unchanged(t: Table, u: Table, live: set<Object>, orphans: set<Object>, next: nat, next': nat)
    requires Accounted(t, live, orphans, next) && |u.entries| == |t.entries| && next <= next'
    requires forall i :: 0 <= i < |t.entries| ==> OwnedAt(u, i) == OwnedAt(t, i)
    ensures Accounted(u, live, orphans, next')
  {
    forall o | o in live ensures o in orphans || o in OwnedSet(u) {
      if o in OwnedSet(t) {
        var i :| 0 <= i < |t.entries| && o in OwnedAt(t, i);
        assert o in OwnedAt(u, i);
      }
    }
  }

  lemma NoneHoldsFresh(w: World)
    requires OwnInv(w)
    ensures forall o: Object :: o.id >= w.next ==> o !in w.live
  {
  }

  // ---- handlers ----

  predicate PayloadFits(kind: Kind, p: Payload) {
    match kind
    case Buffer => p.BufferPayload?
    case Texture => p.TexturePayload?
    case Sampler => p.SamplerPayload?
    case CmdBuf => p.CmdBufPayload?
    case _ => p.NoPayload?
  }

  /** What has just been created gets an owner, or is released. */
  lemma TrackKeepsOwned(w: World, w2: World, h: u32, kind: Kind, p: Payload)
    requires OwnInv(w) && Sized(w2.tracker) && PayloadFits(kind, p)
    requires w2.tracker == w.tracker && w2.live == w.live + Owned(p) && w2.orphans == w.orphans
    requires w.next <= w2.next && forall o :: o in Owned(p) ==> w.next <= o.id < w2.next
    ensures OwnInv(Track(w2, h, kind, p))
  {
    hide Add, PoolOk, CanAdd, Owned, Track, Accounted;
    var w' := Track(w2, h, kind, p);
    TrackCases(w2, h, kind, p);
    if CanAdd(w.tracker, h) {
      AddedShape(w.tracker, h, kind);
      SetPayloadKeepsPool(Add(w.tracker, h, kind).0, w.tracker.freeHead, p);
      PoolFacts(w'.tracker);
      Gains(w.tracker, w'.tracker, w.tracker.freeHead, w.live, w.orphans, w.next, w2.next);
    } else {
      NoneHoldsFresh(w);
      assert w'.live == w.live;
      NothingKeepsOwned(w, w');
    }
  }

  /** A handler that ends where it began, but for identifiers used up. */
  lemma NothingKeepsOwned(w: World, w': World)
    requires OwnInv(w) && w'.tracker == w.tracker && w'.live == w.live && w'.orphans == w.orphans
    requires w.next <= w'.next
    ensures OwnInv(w')
  {
  }

  lemma CreateBufferKeepsOwned(w: World, h: u32, mode: nat, o: Outcomes)
    requires OwnInv(w) && Sized(w.tracker)
    ensures OwnInv(CreateBufferStep(w, h, mode, o))
  {
    hide OwnInv, Sized, Track;
    NoneHoldsFresh(w);
    var w' := CreateBufferStep(w, h, mode, o);
    if Succeeds(o, 0) && Succeeds(o, 1) {
      var w1 := CreateObject(w, VkBuffer);
      var p := BufferPayload(Fresh(w, VkBuffer), Fresh(w1, VkMemory),
                             (mode == STORAGE_SHARED || mode == STORAGE_MANAGED) && Succeeds(o, 2));
      TrackKeepsOwned(w, CreateObject(w1, VkMemory), h, Buffer, p);
    } else {
      assert w'.live == w.live;
      NothingKeepsOwned(w, w');
    }
  }

  lemma CreateTextureKeepsOwned(w: World, h: u32, supported: bool, o: Outcomes)
    requires OwnInv(w) && Sized(w.tracker)
    ensures OwnInv(CreateTextureStep(w, h, supported, o))
  {
    hide OwnInv, Sized, Track;
    NoneHoldsFresh(w);
    var w' := CreateTextureStep(w, h, supported, o);
    if supported && Succeeds(o, 0) && Succeeds(o, 1) && Succeeds(o, 2) {
      var w1 := CreateObject(w, VkImage);
      var w2 := CreateObject(w1, VkMemory);
      var image, view := Fresh(w, VkImage), Fresh(w2, VkImageView);
      var w3 := CreateObject(w2, VkImageView).(imageOf := w2.imageOf[view := image]);
      TrackKeepsOwned(w, w3, h, Texture, TexturePayload(image, view, Fresh(w1, VkMemory), Undefined));
    } else {
      assert w'.live == w.live;
      NothingKeepsOwned(w, w');
    }
  }

  lemma CreateSamplerKeepsOwned(w: World, h: u32, o: Outcomes)
    requires OwnInv(w) && Sized(w.tracker)
    ensures OwnInv(CreateSamplerStep(w, h, o))
  {
    hide OwnInv, Sized, Track;
    if Succeeds(o, 0) {
      TrackKeepsOwned(w, CreateObject(w, VkSampler), h, Sampler, SamplerPayload(Fresh(w, VkSampler)));
    }
  }

  lemma CmdbufCreateKeepsOwned(w: World, h: u32, o: Outcomes)
    requires OwnInv(w) && Sized(w.tracker)
    ensures OwnInv(CmdbufCreateStep(w, h, o))
  {
    hide OwnInv, Sized, Track;
    NoneHoldsFresh(w);
    var w' := CmdbufCreateStep(w, h, o);
    if Succeeds(o, 0) && Succeeds(o, 1) {
      var w1 := CreateObject(w, VkCommandBuffer);
      var cb, fence := Fresh(w, VkCommandBuffer), Fresh(w1, VkFence);
      var w2 := Emit(CreateObject(w1, VkFence), BeginCommandBuffer(cb));
      TrackKeepsOwned(w, w2, h, CmdBuf, CmdBufPayload(cb, fence, true, false));
    } else {
      assert w'.live == w.live;
      NothingKeepsOwned(w, w');
    }
  }

  lemma PlaceholderKeepsOwned(w: World, h: u32, kind: Kind)
    requires OwnInv(w) && Sized(w.tracker) && kind in {Shader, RenderPipeline, DepthStencil}
    ensures OwnInv(Track(w, h, kind, NoPayload))
  {
    hide OwnInv, Sized, Track;
    TrackKeepsOwned(w, w, h, kind, NoPayload);
  }

  lemma RemovedEntry(t: Table, h: u32)
    requires PoolOk(t) && Sized(t) && Get(t, h).Some?
    ensures var u, i := Remove(t, h), Get(t, h).value;
            && PoolOk(u) && Sized(u) && !u.entries[i].inUse
            && forall j :: 0 <= j < POOL && j != i ==> u.entries[j] == t.entries[j]
  {
    ApplyKeepsPoolOk(t, RemoveOp(h));
    PoolFacts(Remove(t, h));
  }

  lemma DestroyKeepsOwned(w: World, h: u32)
    requires OwnInv(w)
    ensures OwnInv(DestroyStep(w, h))
  {
    hide Owned, Accounted, PoolOk, Remove, Get;
    var t := w.tracker;
    if Get(t, h).Some? {
      RemovedEntry(t, h);
      Orphans(t, Remove(t, h), Get(t, h).value, w.live, w.orphans, w.next);
    } else {
      RemoveAbsent(t, h);
      assert w.orphans + Owned(NoPayload) == w.orphans by { NoneOwned(); }
    }
  }

  lemma NoneOwned()
    ensures Owned(NoPayload) == {}
  {
  }

  /** Steps that only edit layout, recording or inRenderPass. */
  lemma EditKeepsOwned(w: World, w': World)
    requires OwnInv(w) && SameIndex(w.tracker, w'.tracker)
    requires w' == w.(tracker := w'.tracker, trace := w'.trace)
    ensures OwnInv(w')
  {
    hide Accounted, PoolOk;
    SameIndexKeepsPool(w.tracker, w'.tracker);
    PoolFacts(w'.tracker);
    Unchanged(w.tracker, w'.tracker, w.live, w.orphans, w.next, w.next);
  }

  lemma CommitEdits(w: World, h: u32)
    requires Sized(w.tracker) && KindsMatch(w.tracker)
    ensures var w' := CommitStep(w, h);
            && SameIndex(w.tracker, w'.tracker)
            && w' == w.(tracker := w'.tracker, trace := w'.trace)
  {
    hide Find;
  }

  lemma RenderBeginEdits(w: World, h: u32, colors: seq<u32>, depth: u32)
    requires Sized(w.tracker) && BeginTyped(w.tracker, h, colors, depth)
    ensures var w' := RenderBeginStep(w, h, colors, depth);
            && SameIndex(w.tracker, w'.tracker)
            && w' == w.(tracker := w'.tracker, trace := w'.trace)
  {
    hide Find, Get, Attach;
    if Get(w.tracker, h).Some? {
      var i := Get(w.tracker, h).value;
      var r := Attach(w, w.tracker.entries[i].payload.cmdBuf, colors);
      assert SameShape(w.tracker.entries[i].payload, r.tracker.entries[i].payload);
    }
  }

  /** RENDER_BEGIN on an unknown command buffer does nothing. */
  lemma UnknownBuffer(w: World, h: u32, colors: seq<u32>, depth: u32)
    requires Sized(w.tracker) && Typed(w.tracker, RenderBegin(h, colors, depth)) && Get(w.tracker, h).None?
    ensures RenderBeginStep(w, h, colors, depth) == w
  {
  }

  lemma StepKeepsOwned(w: World, c: Command, o: Outcomes)
    requires OwnInv(w) && Typed(w.tracker, c)
    ensures OwnInv(Step(w, c, o))
  {
    hide OwnInv, Accounted, PoolOk, Get, Find, Attach, RenderBeginStep, CommitStep, Add, Owned, CanAdd;
    assert Sized(w.tracker) && KindsMatch(w.tracker) by { Unfold(w); }
    match c
    case CreateBuffer(h, mode) => CreateBufferKeepsOwned(w, h, mode, o);
    case CreateTexture(h, supported) => CreateTextureKeepsOwned(w, h, supported, o);
    case CreateSampler(h) => CreateSamplerKeepsOwned(w, h, o);
    case CreatePlaceholder(h, kind) => PlaceholderKeepsOwned(w, h, kind);
    case CmdbufCreate(h) => CmdbufCreateKeepsOwned(w, h, o);
    case CmdbufCommit(h) => CommitEdits(w, h); EditKeepsOwned(w, Step(w, c, o));
    case Destroy(h) => DestroyKeepsOwned(w, h);
    case RenderBegin(h, colors, depth) =>
      RenderBeginEdits(w, h, colors, depth);
      EditKeepsOwned(w, Step(w, c, o));
    case _ => EditKeepsOwned(w, Step(w, c, o));
  }

  lemma Unfold(w: World)
    requires OwnInv(w)
    ensures Sized(w.tracker) && KindsMatch(w.tracker) && PoolOk(w.tracker)
  {
  }

  // ---- runs ----

  datatype Job = Job(command: Command, outcomes: Outcomes)

  ghost predicate AllTyped(w: World, jobs: seq<Job>)
    requires OwnInv(w)
    decreases |jobs|
  {
    jobs == [] || (&& Typed(w.tracker, jobs[0].command)
                   && (StepKeepsOwned(w, jobs[0].command, jobs[0].outcomes);
                       AllTyped(Step(w, jobs[0].command, jobs[0].outcomes), jobs[1..])))
  }

  ghost function Run(w: World, jobs: seq<Job>): (r: World)
    requires OwnInv(w) && AllTyped(w, jobs)
    ensures OwnInv(r)
    decreases |jobs|
  {
    if jobs == [] then w
    else
      StepKeepsOwned(w, jobs[0].command, jobs[0].outcomes);
      Run(Step(w, jobs[0].command, jobs[0].outcomes), jobs[1..])
  }

  lemma StartOwned()
    ensures OwnInv(Start())
  {
    hide PoolInv;
    InitialPool();
    assert PoolOk(Tracker.Initial());
  }

  /** In every run, whatever Vulkan calls fail, whatever handles repeat and however full the
      pool, each live object is owned by exactly one entry in use, or was owned by one entry
      that a DESTROY command untracked; owners never share. */
  lemma EveryObjectIsAccountedFor(jobs: seq<Job>)
    ensures OwnInv(Start())
    ensures AllTyped(Start(), jobs) ==>
              var w := Run(Start(), jobs);
              && w.live == OwnedSet(w.tracker) + w.orphans
              && OwnedSet(w.tracker) !! w.orphans
              && (forall i, j :: 0 <= i < j < |w.tracker.entries| ==>
                    OwnedAt(w.tracker, i) !! OwnedAt(w.tracker, j))
  {
    StartOwned();
  }

  lemma {:induction false} NoDestroyNoOrphan(w: World, jobs: seq<Job>)
    requires OwnInv(w) && AllTyped(w, jobs)
    requires forall k :: 0 <= k < |jobs| ==> !jobs[k].command.Destroy?
    ensures Run(w, jobs).orphans == w.orphans
    decreases |jobs|
  {
    if jobs != [] {
      StepKeepsOwned(w, jobs[0].command, jobs[0].outcomes);
      NoDestroyStep(w, jobs[0].command, jobs[0].outcomes);
      NoDestroyNoOrphan(Step(w, jobs[0].command, jobs[0].outcomes), jobs[1..]);
    }
  }

  lemma NoDestroyStep(w: World, c: Command, o: Outcomes)
    requires OwnInv(w) && Typed(w.tracker, c) && !c.Destroy?
    ensures Step(w, c, o).orphans == w.orphans
  {
    hide Accounted, Get, Find, Add, PoolOk;
    if c.RenderBegin? { RenderBeginEdits(w, c.cmdbuf, c.colors, c.depth); }
  }

  /** Create, commit and render commands never leak: the live objects are exactly those of
      the entries in use. */
  lemma {:induction false} NoFailurePathLeaks(jobs: seq<Job>)
    requires OwnInv(Start()) && AllTyped(Start(), jobs)
    requires forall k :: 0 <= k < |jobs| ==> !jobs[k].command.Destroy?
    ensures Run(Start(), jobs).live == OwnedSet(Run(Start(), jobs).tracker)
  {
    hide OwnInv, AllTyped, Run, OwnedSet;
    NoDestroyNoOrphan(Start(), jobs);
    EveryObjectIsAccountedFor(jobs);
    var w := Run(Start(), jobs);
    assert w.orphans == {};
    assert OwnedSet(w.tracker) + {} == OwnedSet(w.tracker);
  }

  /** Render commands aside, nothing in a command depends on what its handles name. */
  lemma {:induction false} PlainRunsAreTyped(w: World, jobs: seq<Job>)
    requires OwnInv(w)
    requires forall k :: 0 <= k < |jobs| ==> !IsRender(jobs[k].command)
    requires forall k :: 0 <= k < |jobs| && jobs[k].command.CreatePlaceholder? ==>
               jobs[k].command.kind in {Shader, RenderPipeline, DepthStencil}
    ensures AllTyped(w, jobs)
    decreases |jobs|
  {
    hide OwnInv, Step;
    if jobs != [] {
      Unfold(w);
      StepKeepsOwned(w, jobs[0].command, jobs[0].outcomes);
      PlainRunsAreTyped(Step(w, jobs[0].command, jobs[0].outcomes), jobs[1..]);
    }
  }

  /** Creations and commits alone, with any handles and any failures: every live object is
      owned by an entry in use. */
  lemma CreationsNeverLeak(jobs: seq<Job>)
    requires forall k :: 0 <= k < |jobs| ==> !IsRender(jobs[k].command) && !jobs[k].command.Destroy?
    requires forall k :: 0 <= k < |jobs| && jobs[k].command.CreatePlaceholder? ==>
               jobs[k].command.kind in {Shader, RenderPipeline, DepthStencil}
    ensures OwnInv(Start()) && AllTyped(Start(), jobs)
    ensures Run(Start(), jobs).live == OwnedSet(Run(Start(), jobs).tracker)
  {
    hide OwnInv, AllTyped, Run, OwnedSet;
    StartOwned();
    PlainRunsAreTyped(Start(), jobs);
    NoFailurePathLeaks(jobs);
  }

  /** A DESTROY command leaves objects without an owner exactly when the entry it untracks
      owns any: the handler frees nothing. */
  lemma DestroyLeaksExactly(w: World, h: u32)
    requires OwnInv(w)
    ensures Sized(w.tracker)
    ensures var w' := DestroyStep(w, h);
            && w'.live == w.live
            && (w'.live == OwnedSet(w'.tracker) + w.orphans <==> Owned(PayloadOf(w.tracker, h)) == {})
  {
    hide Accounted, Remove, Get, Owned, PayloadOf;
    DestroyKeepsOwned(w, h);
    GoneWereNotOrphans(w, h);
    var w' := DestroyStep(w, h);
    DestroyAccounts(w'.tracker, w.live, w.orphans, Owned(PayloadOf(w.tracker, h)), w.next);
  }

  lemma GoneWereNotOrphans(w: World, h: u32)
    requires OwnInv(w)
    ensures Sized(w.tracker) && Owned(PayloadOf(w.tracker, h)) !! w.orphans
  {
    hide PoolOk, Owned;
    if Get(w.tracker, h).Some? {
      assert OwnedAt(w.tracker, Get(w.tracker, h).value) !! w.orphans;
    } else {
      NoneOwned();
    }
  }

  lemma DestroyAccounts(u: Table, live: set<Object>, orphans: set<Object>, gone: set<Object>, next: nat)
    requires Accounted(u, live, orphans + gone, next) && gone !! orphans
    ensures live == OwnedSet(u) + orphans <==> gone == {}
  {
    if o :| o in gone {
      assert o in live && o !in OwnedSet(u);
    }
  }
}
