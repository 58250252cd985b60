/** Which handles the command processor knows, in terms of the commands it was sent. */
module TrackedHandles {
  import opened Words
  import opened Hash
  import opened Vulkan
  import opened Tracker
  import opened TrackerRuns
  import opened TrackerScopes
  import opened Processor
  import opened Ownership

  // ---- tables that differ in payloads ----

  ghost predicate PayloadsApart(t: Table, u: Table) {
    && t.slots == u.slots && t.count == u.count && t.freeHead == u.freeHead
    && |t.entries| == |u.entries|
    && forall i :: 0 <= i < |t.entries| ==> u.entries[i] == t.entries[i].(payload := u.entries[i].payload)
  }

  lemma {:induction false} ApartFind(t: Table, u: Table, h: u32, p: nat)
    requires Sized(t) && Sized(u) && PayloadsApart(t, u)
    ensures Find(t, h, p) == Find(u, h, p)
    decreases TABLE - p
  {
    if p < TABLE { ApartFind(t, u, h, p + 1); }
  }

  lemma ApartGet(t: Table, u: Table, h: u32)
    requires Sized(t) && PayloadsApart(t, u)
    ensures Sized(u) && Get(t, h) == Get(u, h) && KindOf(t, h) == KindOf(u, h)
  {
    ApartFind(t, u, h, 0);
  }

  lemma ApartAgrees(t: Table, u: Table, m: map<u32, Kind>)
    requires Sized(t) && PayloadsApart(t, u)
    ensures Agrees(t, m) <==> Agrees(u, m)
  {
    hide Get, KindOf;
    forall h ensures Sized(u) && KindOf(t, h) == KindOf(u, h) { ApartGet(t, u, h); }
  }

  lemma {:induction false} ApartFirstEmpty(t: Table, u: Table, hash: nat, p: nat)
    requires Sized(t) && Sized(u) && t.slots == u.slots
    ensures FirstEmpty(t, hash, p) == FirstEmpty(u, hash, p)
    decreases TABLE - p
  {
    if p < TABLE { ApartFirstEmpty(t, u, hash, p + 1); }
  }

  lemma ApartAdd(t: Table, u: Table, h: u32, kind: Kind)
    requires PoolOk(t) && Sized(t) && PayloadsApart(t, u)
    ensures Sized(u) && CanAdd(t, h) == CanAdd(u, h)
    ensures PayloadsApart(Add(t, h, kind).0, Add(u, h, kind).0)
    ensures CanAdd(t, h) ==> t.freeHead < |Add(u, h, kind).0.entries|
  {
    hide Get, FirstEmpty, Probe, HashHandle, PoolInv;
    ApartGet(t, u, h);
    ApartFirstEmpty(t, u, HashHandle(h), 0);
    if CanAdd(t, h) { AddedShape(t, h, kind); }
  }

  lemma ApartRemove(t: Table, u: Table, h: u32)
    requires Sized(t) && PayloadsApart(t, u)
    ensures Sized(u) && PayloadsApart(Remove(t, h), Remove(u, h))
  {
    hide Find, Probe, HashHandle;
    assert Sized(u);
    ApartFind(t, u, h, 0);
    if h != INVALID_HANDLE && Find(t, h, 0).Some? { assert FoundSlot(t, h) == FoundSlot(u, h); }
  }

  lemma ApartTrack(t: Table, w: World, h: u32, kind: Kind, p: Payload)
    requires PoolOk(t) && Sized(t) && PayloadsApart(t, w.tracker) && Sized(w.tracker) && Owned(p) <= w.live
    ensures PayloadsApart(Add(t, h, kind).0, Track(w, h, kind, p).tracker)
  {
    hide Add, CanAdd, Track, Sized, PoolOk, Owned;
    ApartAdd(t, w.tracker, h, kind);
    TrackCases(w, h, kind, p);
    AddedOrNot(t, h, kind);
  }

  lemma AddedOrNot(t: Table, h: u32, kind: Kind)
    requires Sized(t)
    ensures !CanAdd(t, h) ==> Add(t, h, kind).0 == t
  {
    hide Get, FirstEmpty;
  }

  // ---- the tracker operations of a command ----

  /** Creations whose Vulkan calls succeed add their handle, DESTROY commands remove theirs. */
  function OpsOf(job: Job): seq<Op> {
    var o := job.outcomes;
    match job.command
    case CreateBuffer(h, _) => if Succeeds(o, 0) && Succeeds(o, 1) then [AddOp(h, Buffer)] else []
    case CreateTexture(h, supported) =>
      if supported && Succeeds(o, 0) && Succeeds(o, 1) && Succeeds(o, 2) then [AddOp(h, Texture)] else []
    case CreateSampler(h) => if Succeeds(o, 0) then [AddOp(h, Sampler)] else []
    case CreatePlaceholder(h, kind) => [AddOp(h, kind)]
    case CmdbufCreate(h) => if Succeeds(o, 0) && Succeeds(o, 1) then [AddOp(h, CmdBuf)] else []
    case Destroy(h) => [RemoveOp(h)]
    case _ => []
  }

  function AllOps(jobs: seq<Job>): seq<Op> {
    if jobs == [] then [] else OpsOf(jobs[0]) + AllOps(jobs[1..])
  }

  /** The operation, if there is one, applied to a table. */
  ghost function Shadow(t: Table, ops: seq<Op>): Table
    requires Sized(t)
  {
    if ops == [] then t else Apply(t, ops[0])
  }

  lemma CreateShadow(w: World, job: Job, t: Table)
    requires OwnInv(w) && Typed(w.tracker, job.command) && Creates(job.command)
    requires PoolOk(t) && Sized(t) && PayloadsApart(t, w.tracker)
    ensures PayloadsApart(Shadow(t, OpsOf(job)), Step(w, job.command, job.outcomes).tracker)
  {
    hide Accounted, KindsMatch, PoolOk, Add, Track, PayloadsApart, Remove;
    var o, p := job.outcomes, NewPayload(w, job.command, job.outcomes);
    match job.command
    case CreateBuffer(h, _) =>
      if Succeeds(o, 0) && Succeeds(o, 1) {
        ApartTrack(t, CreateObject(CreateObject(w, VkBuffer), VkMemory), h, Buffer, p);
      }
    case CreateTexture(h, supported) =>
      if supported && Succeeds(o, 0) && Succeeds(o, 1) && Succeeds(o, 2) {
        var w2 := CreateObject(CreateObject(w, VkImage), VkMemory);
        ApartTrack(t, CreateObject(w2, VkImageView).(imageOf := w2.imageOf[p.view := p.image]), h, Texture, p);
      }
    case CreateSampler(h) =>
      if Succeeds(o, 0) { ApartTrack(t, CreateObject(w, VkSampler), h, Sampler, p); }
    case CreatePlaceholder(h, kind) => ApartTrack(t, w, h, kind, p);
    case CmdbufCreate(h) =>
      if Succeeds(o, 0) && Succeeds(o, 1) {
        var w2 := CreateObject(CreateObject(w, VkCommandBuffer), VkFence);
        ApartTrack(t, Emit(w2, BeginCommandBuffer(p.cmdBuf)), h, CmdBuf, p);
      }
  }

  lemma EditShadow(t: Table, u: Table, v: Table)
    requires PayloadsApart(t, u) && SameIndex(u, v)
    ensures PayloadsApart(t, v)
  {
  }

  /** One command moves the tracker as its operation moves a table without payloads. */
  lemma StepShadow(w: World, job: Job, t: Table)
    requires OwnInv(w) && Typed(w.tracker, job.command)
    requires PoolOk(t) && Sized(t) && PayloadsApart(t, w.tracker)
    ensures PayloadsApart(Shadow(t, OpsOf(job)), Step(w, job.command, job.outcomes).tracker)
  {
    hide OwnInv, KindsMatch, PoolOk, PayloadsApart, CreateBufferStep, CreateTextureStep, CreateSamplerStep, Track,
         CmdbufCreateStep, CommitStep, RenderBeginStep, Add, Remove, Get;
    Unfold(w);
    var c := job.command;
    if Creates(c) { CreateShadow(w, job, t); }
    else if c.Destroy? { ApartRemove(t, w.tracker, c.handle); }
    else {
      Edits(w, c, job.outcomes);
      EditShadow(t, w.tracker, Step(w, c, job.outcomes).tracker);
    }
  }

  lemma Edits(w: World, c: Command, o: Outcomes)
    requires OwnInv(w) && Typed(w.tracker, c) && !Creates(c) && !c.Destroy?
    ensures SameIndex(w.tracker, Step(w, c, o).tracker)
  {
    hide Accounted, PoolOk, Find, CommitStep, RenderBeginStep;
    if c.CmdbufCommit? { CommitEdits(w, c.handle); }
    else if c.RenderBegin? { RenderBeginEdits(w, c.cmdbuf, c.colors, c.depth); }
  }

  // ---- runs ----

  /** After each command every handle is known, or not, under the kind the map gives it. */
  ghost predicate HandlesAgree(w: World, m: map<u32, Kind>, jobs: seq<Job>)
    requires OwnInv(w) && AllTyped(w, jobs)
    decreases |jobs|
  {
    && Agrees(w.tracker, m)
    && (jobs == [] || (StepKeepsOwned(w, jobs[0].command, jobs[0].outcomes);
                       HandlesAgree(Step(w, jobs[0].command, jobs[0].outcomes), MapRun(m, OpsOf(jobs[0])), jobs[1..])))
  }

  lemma OneOp(job: Job)
    ensures |OpsOf(job)| <= 1
    ensures OpsOf(job) != [] ==> OpsOf(job)[1..] == []
  {
  }

  /** The first command's operation, if any, and the rest of a smooth run. */
  lemma SmoothFirst(t: Table, ops: seq<Op>, rest: seq<Op>)
    requires PoolOk(t) && Sized(t) && |ops| <= 1 && PoolOk(Shadow(t, ops))
    ensures SmoothRun(t, ops + rest)
            <==> (ops == [] || Smooth(t, ops[0])) && SmoothRun(Shadow(t, ops), rest)
  {
    hide PoolOk, Smooth, Add, Remove;
    if ops == [] {
      assert ops + rest == rest;
    } else {
      assert (ops + rest)[0] == ops[0] && (ops + rest)[1..] == rest;
    }
  }

  lemma MapFirst(m: map<u32, Kind>, ops: seq<Op>)
    requires |ops| <= 1
    ensures MapRun(m, ops) == if ops == [] then m else MapApply(m, ops[0])
  {
    hide MapApply;
    if ops != [] { assert ops[1..] == []; }
  }

  lemma {:induction false} HandlesExactly(w: World, t: Table, m: map<u32, Kind>, jobs: seq<Job>)
    requires OwnInv(w) && AllTyped(w, jobs)
    requires PoolOk(t) && Abstracts(t, m) && PayloadsApart(t, w.tracker)
    ensures HandlesAgree(w, m, jobs) <==> SmoothRun(t, AllOps(jobs))
    decreases |jobs|
  {
    hide OwnInv, KindsMatch, PoolOk, PayloadsApart, Abstracts, Agrees, Step, Smooth, OpsOf, MapRun, Typed, Apply,
         MapApply;
    AbstractsAgrees(t, m);
    ApartAgrees(t, w.tracker, m);
    if jobs != [] {
      Unfold(w);
      var job := jobs[0];
      var ops, w' := OpsOf(job), Step(w, job.command, job.outcomes);
      OneOp(job);
      StepKeepsOwned(w, job.command, job.outcomes);
      StepShadow(w, job, t);
      if ops != [] { ApplyKeepsPoolOk(t, ops[0]); }
      var t' := Shadow(t, ops);
      SmoothFirst(t, ops, AllOps(jobs[1..]));
      MapFirst(m, ops);
      if ops == [] || Smooth(t, ops[0]) {
        if ops != [] { SmoothStepAbstracts(t, m, ops[0]); }
        HandlesExactly(w', t', MapRun(m, ops), jobs[1..]);
      } else {
        UnsmoothDisagrees(t, m, ops[0]);
        PoolFacts(t');
        ApartAgrees(t', w'.tracker, MapRun(m, ops));
      }
    }
  }

  lemma StartApart()
    ensures OwnInv(Start()) && PoolOk(Tracker.Initial()) && PayloadsApart(Tracker.Initial(), Start().tracker)
  {
    hide PoolInv;
    StartOwned();
    InitialAbstracts();
  }

  /** After every command of a run the host knows exactly the handles, and kinds, of the
      finite map of the guest's creations and DESTROY commands, if and only if the tracker
      operations of the run are smooth. */
  lemma HandlesAgreeExactly(jobs: seq<Job>)
    requires OwnInv(Start()) && AllTyped(Start(), jobs)
    ensures PoolOk(Tracker.Initial())
    ensures HandlesAgree(Start(), map[], jobs) <==> SmoothRun(Tracker.Initial(), AllOps(jobs))
  {
    hide OwnInv, PoolOk, PayloadsApart, Abstracts, HandlesAgree, SmoothRun;
    StartApart();
    InitialAbstracts();
    HandlesExactly(Start(), Tracker.Initial(), map[], jobs);
  }

  /** Where lookups agree, a commit finds its buffer exactly when the map says so. */
  lemma CommitFindsByMap(t: Table, m: map<u32, Kind>, h: u32)
    requires Sized(t) && Agrees(t, m)
    ensures CommitFinds(t, h) <==> h in m && m[h] == CmdBuf
  {
    hide Get;
    assert KindOf(t, h) == Lookup(m, h);
  }
}
