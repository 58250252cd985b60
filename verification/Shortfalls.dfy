/** Short runs of the command processor from its start in which the host falls short: the
    exceptions of Ownership, RenderPasses and Recordings, reached. */
module Shortfalls {
  import opened Words
  import opened Options
  import opened Vulkan
  import opened Tracker
  import opened TrackerRuns
  import opened TrackerLosses
  import opened Processor
  import opened Ownership
  import opened RenderPasses
  import opened Recordings

  // ---- the first command ----

  lemma {:induction false} SetPayloadFind(t: Table, i: nat, p: Payload, h: u32, q: nat)
    requires Sized(t) && i < POOL
    ensures Find(SetPayload(t, i, p), h, q) == Find(t, h, q)
    decreases Hash.TABLE - q
  {
    if q < Hash.TABLE { SetPayloadFind(t, i, p, h, q + 1); }
  }

  /** An entry just created under a new handle is the one the handle finds. */
  lemma TrackedIsFound(w: World, h: u32, kind: Kind, p: Payload)
    requires PoolOk(w.tracker) && Sized(w.tracker) && CanAdd(w.tracker, h) && HasEmptySlot(w.tracker)
    requires Owned(p) <= w.live
    ensures var w' := Track(w, h, kind, p);
            && w' == w.(tracker := w'.tracker) && Sized(w'.tracker)
            && Get(w'.tracker, h) == Some(w.tracker.freeHead as nat)
            && w'.tracker.entries[w.tracker.freeHead] == Entry(h, kind, 1, true, p)
  {
    hide PoolOk, Add, Track, Find, HasEmptySlot, CanAdd, Owned;
    TrackCases(w, h, kind, p);
    AddedShape(w.tracker, h, kind);
    AddIsFoundExactly(w.tracker, h, kind);
    SetPayloadFind(Add(w.tracker, h, kind).0, w.tracker.freeHead, p, h, 0);
  }

  lemma StartAccepts(h: u32)
    requires h != INVALID_HANDLE
    ensures OwnInv(Start()) && Sized(Start().tracker) && PoolOk(Start().tracker)
    ensures KindsMatch(Start().tracker) && CanAdd(Start().tracker, h) && HasEmptySlot(Start().tracker)
  {
    hide PoolInv;
    StartOwned();
    InitialIsGood(h);
  }

  /** The rest of a run. */
  lemma RunRest(w: World, jobs: seq<Job>)
    requires OwnInv(w) && jobs != [] && Typed(w.tracker, jobs[0].command)
    ensures OwnInv(Step(w, jobs[0].command, jobs[0].outcomes))
    ensures AllTyped(Step(w, jobs[0].command, jobs[0].outcomes), jobs[1..]) ==>
              && AllTyped(w, jobs)
              && Ownership.Run(w, jobs) == Ownership.Run(Step(w, jobs[0].command, jobs[0].outcomes), jobs[1..])
  {
    hide OwnInv, Step, Typed, KindsMatch;
    Unfold(w);
    StepKeepsOwned(w, jobs[0].command, jobs[0].outcomes);
  }

  // ---- an object without an owner ----

  /** Create a sampler and destroy it: the Vulkan sampler is alive and nobody's. */
  lemma DestroyOrphansASampler()
    ensures OwnInv(Start())
    ensures var jobs, sampler := [Job(CreateSampler(1), []), Job(Destroy(1), [])], Object(VkSampler, 0);
            && AllTyped(Start(), jobs)
            && Ownership.Run(Start(), jobs).live == {sampler}
            && OwnedSet(Ownership.Run(Start(), jobs).tracker) == {}
  {
    hide OwnInv, PoolOk, Get, Track, Remove, OwnedSet, AllTyped, Ownership.Run;
    var jobs, sampler := [Job(CreateSampler(1), []), Job(Destroy(1), [])], Object(VkSampler, 0);
    StartAccepts(1);
    TrackedIsFound(CreateObject(Start(), VkSampler), 1, Sampler, SamplerPayload(sampler));
    var w1 := Step(Start(), jobs[0].command, []);
    RunRest(Start(), jobs);
    Unfold(w1);
    RunRest(w1, jobs[1..]);
    var w2 := Step(w1, Destroy(1), []);
    assert jobs[1..][1..] == [];
    NothingLeft(w2);
    assert w2.live == {sampler} && w2.orphans == {sampler};
    EveryObjectIsAccountedFor(jobs);
  }

  lemma NothingLeft(w: World)
    requires OwnInv(w)
    ensures AllTyped(w, []) && Ownership.Run(w, []) == w
  {
  }

  // ---- a flag that no longer mirrors the trace ----

  /** A pass begun and committed without an end leaves the flag up on a reset buffer. */
  lemma CommitInsidePass(w: World, h: u32, colors: seq<u32>, depth: u32)
    requires PassInv(w) && Typed(w.tracker, RenderBegin(h, colors, depth)) && CommitFinds(w.tracker, h)
    ensures var w1 := RenderBeginStep(w, h, colors, depth);
            && Sized(w1.tracker) && KindsMatch(w1.tracker)
            && !Mirrors(CommitStep(w1, h).tracker, CommitStep(w1, h).trace)
  {
    hide OwnInv, Get, RenderBeginStep, Mirrors, Balanced, TraceOld, CommitStep, KindsMatch, PassOpen, Project;
    Unfold(w);
    var w1 := RenderBeginStep(w, h, colors, depth);
    StepMirrors(w, RenderBegin(h, colors, depth), []);
    Unfold(w1);
    RenderBeginEdits(w, h, colors, depth);
    SameIndexGet(w.tracker, w1.tracker, h);
    var barriers, begin := RenderBeginShape(w, h, colors, depth);
    CommitKeepsMirrorExactly(w1, h);
  }

  lemma FirstCommandBuffer()
    ensures OwnInv(Start()) && Sized(Start().tracker) && KindsMatch(Start().tracker)
    ensures var w := Step(Start(), CmdbufCreate(1), []);
            && OwnInv(w) && PassInv(w) && RecordInv(w) && Sized(w.tracker)
            && Get(w.tracker, 1).Some? && CommitFinds(w.tracker, 1) && PayloadOf(w.tracker, 1).CmdBufPayload?
  {
    hide OwnInv, PoolOk, KindsMatch, Get, Track, PassInv, RecordInv;
    StartAccepts(1);
    StartPasses();
    StartRecords();
    var w1 := CreateObject(CreateObject(Start(), VkCommandBuffer), VkFence);
    var w2 := Emit(w1, BeginCommandBuffer(Object(VkCommandBuffer, 0)));
    TrackedIsFound(w2, 1, CmdBuf, CmdBufPayload(Object(VkCommandBuffer, 0), Object(VkFence, 1), true, false));
    StepMirrors(Start(), CmdbufCreate(1), []);
    StepRecords(Start(), CmdbufCreate(1), []);
    StepKeepsOwned(Start(), CmdbufCreate(1), []);
  }

  /** No colour attachments and no depth buffer: handle 0 is never found. */
  lemma PlainBegin(t: Table, h: u32)
    requires Sized(t) && Get(t, h).Some? && PayloadOf(t, h).CmdBufPayload?
    ensures Typed(t, RenderBegin(h, [], 0))
  {
    hide Find;
  }

  /** Create a command buffer, begin a pass, commit: the flag says a pass is open on a
      command buffer that has just been reset. */
  lemma CommitBreaksTheMirror()
    ensures OwnInv(Start())
    ensures var jobs := [Job(CmdbufCreate(1), []), Job(RenderBegin(1, [], 0), []), Job(CmdbufCommit(1), [])];
            && AllTyped(Start(), jobs)
            && !Mirrors(Ownership.Run(Start(), jobs).tracker, Ownership.Run(Start(), jobs).trace)
  {
    hide OwnInv, PoolOk, Get, CommitFinds, CmdbufCreateStep, RenderBeginStep, CommitStep, AllTyped, Ownership.Run,
         Mirrors, PassInv, KindsMatch, RecordInv;
    var jobs := [Job(CmdbufCreate(1), []), Job(RenderBegin(1, [], 0), []), Job(CmdbufCommit(1), [])];
    FirstCommandBuffer();
    RunRest(Start(), jobs);
    var w1 := Step(Start(), CmdbufCreate(1), []);
    Unfold(w1);
    PlainBegin(w1.tracker, 1);
    CommitInsidePass(w1, 1, [], 0);
    RunRest(w1, jobs[1..]);
    var w2 := Step(w1, RenderBegin(1, [], 0), []);
    Unfold(w2);
    RunRest(w2, jobs[1..][1..]);
    assert jobs[1..][1..][1..] == [];
    NothingLeft(Step(w2, CmdbufCommit(1), []));
  }

  // ---- an end without a pass ----

  lemma BufferStays(w: World, w': World, h: u32)
    requires Sized(w.tracker) && SameIndex(w.tracker, w'.tracker)
    ensures Sized(w'.tracker) && CommitFinds(w'.tracker, h) == CommitFinds(w.tracker, h)
    ensures CmdBufOf(w'.tracker, h) == CmdBufOf(w.tracker, h)
  {
    hide Get;
    SameIndexGet(w.tracker, w'.tracker, h);
  }

  /** A pass begun, committed and only then ended: the end call falls outside any pass. */
  lemma EndAfterOpenCommit(w: World, h: u32, x: Object, phase: Phase)
    requires OwnInv(w) && InPhase(w, x, phase) && Typed(w.tracker, RenderBegin(h, [], 0))
    requires CommitFinds(w.tracker, h) && CmdBufOf(w.tracker, h) == Some(x)
    ensures var w1 := Step(w, RenderBegin(h, [], 0), []);
            && OwnInv(w1)
            && var w2 := Step(w1, CmdbufCommit(h), []);
            && OwnInv(w2) && Typed(w2.tracker, RenderEnd(h))
            && !BalancedOn(Step(w2, RenderEnd(h), []).trace, x)
  {
    hide OwnInv, Get, KindsMatch, RenderBeginStep, CommitStep, RenderEndStep, BalancedOn, InPhase, Project, Filtered,
         OpenAfter, CommitFinds, CmdBufOf;
    Unfold(w);
    var w1 := Step(w, RenderBegin(h, [], 0), []);
    StepKeepsOwned(w, RenderBegin(h, [], 0), []);
    StepPasses(w, RenderBegin(h, [], 0), [], x, phase);
    RenderBeginEdits(w, h, [], 0);
    BufferStays(w, w1, h);
    Unfold(w1);
    var w2 := Step(w1, CmdbufCommit(h), []);
    StepKeepsOwned(w1, CmdbufCommit(h), []);
    StepPasses(w1, CmdbufCommit(h), [], x, Open);
    CommitEdits(w1, h);
    BufferStays(w1, w2, h);
    Unfold(w2);
    KnownBuffer(w2.tracker, h);
    StepPasses(w2, RenderEnd(h), [], x, Stale);
  }

  lemma KnownBuffer(t: Table, h: u32)
    requires Sized(t) && CmdBufOf(t, h).Some?
    ensures Get(t, h).Some? && Typed(t, RenderEnd(h))
  {
    hide Find;
  }

  /** Create a command buffer, begin a pass, commit, end the pass. */
  lemma AnEndCanFallOutsideItsPass()
    ensures OwnInv(Start())
    ensures var jobs := [Job(CmdbufCreate(1), []), Job(RenderBegin(1, [], 0), []), Job(CmdbufCommit(1), []),
                         Job(RenderEnd(1), [])];
            && AllTyped(Start(), jobs)
            && !Balanced(Ownership.Run(Start(), jobs).trace)
            && !NoStaleEnds(Start(), jobs)
  {
    hide OwnInv, PoolOk, Get, CommitFinds, CmdbufCreateStep, RenderBeginStep, CommitStep, RenderEndStep, AllTyped,
         Ownership.Run, PassInv, KindsMatch, RecordInv, BalancedOn, InPhase, NoStaleEnds, CmdBufOf;
    var jobs := [Job(CmdbufCreate(1), []), Job(RenderBegin(1, [], 0), []), Job(CmdbufCommit(1), []),
                 Job(RenderEnd(1), [])];
    FirstCommandBuffer();
    RunRest(Start(), jobs);
    var w1 := Step(Start(), CmdbufCreate(1), []);
    Unfold(w1);
    PlainBegin(w1.tracker, 1);
    var x := NamedBuffer(w1.tracker, 1);
    StartPhase(x);
    StepPasses(Start(), CmdbufCreate(1), [], x, Shut);
    EndAfterOpenCommit(w1, 1, x, PhaseNext(Start().tracker, CmdbufCreate(1), x, Shut));
    RunRest(w1, jobs[1..]);
    var w2 := Step(w1, RenderBegin(1, [], 0), []);
    Unfold(w2);
    RunRest(w2, jobs[1..][1..]);
    var w3 := Step(w2, CmdbufCommit(1), []);
    Unfold(w3);
    RunRest(w3, jobs[1..][1..][1..]);
    assert jobs[1..][1..][1..][1..] == [];
    NothingLeft(Step(w3, RenderEnd(1), []));
    BalancedExactly(jobs);
  }

  lemma NamedBuffer(t: Table, h: u32) returns (x: Object)
    requires Sized(t) && Get(t, h).Some? && PayloadOf(t, h).CmdBufPayload?
    ensures CmdBufOf(t, h) == Some(x)
  {
    x := PayloadOf(t, h).cmdBuf;
  }

  // ---- a call on a buffer that is not recording ----

  lemma StartRecords()
    ensures RecordInv(Start())
  {
    StartOwned();
  }

  /** Create a command buffer, commit it, set a viewport on it: the vkCmd call reaches a
      buffer that nothing has begun again. */
  lemma RecordingGoesOnAfterCommit()
    ensures OwnInv(Start())
    ensures var jobs := [Job(CmdbufCreate(1), []), Job(CmdbufCommit(1), []), Job(RenderSetViewport(1), [])];
            && AllTyped(Start(), jobs)
            && !InOrder(Ownership.Run(Start(), jobs).trace)
  {
    hide OwnInv, PoolOk, Get, CommitFinds, CmdbufCreateStep, AllTyped, Ownership.Run, InOrder, PassInv, KindsMatch,
         RecordInv, CommitStep;
    var jobs := [Job(CmdbufCreate(1), []), Job(CmdbufCommit(1), []), Job(RenderSetViewport(1), [])];
    FirstCommandBuffer();
    RunRest(Start(), jobs);
    var w1 := Step(Start(), CmdbufCreate(1), []);
    Unfold(w1);
    RunRest(w1, jobs[1..]);
    var w2 := Step(w1, CmdbufCommit(1), []);
    Unfold(w2);
    CommitEdits(w1, 1);
    CommitCases(w1, 1);
    SameIndexGet(w1.tracker, w2.tracker, 1);
    StepRecords(w1, CmdbufCommit(1), []);
    StepRecords(w2, RenderSetViewport(1), []);
    RunRest(w2, jobs[1..][1..]);
    assert jobs[1..][1..][1..] == [];
    NothingLeft(Step(w2, RenderSetViewport(1), []));
  }
}
