/** The in_render_pass flag against the Vulkan calls actually emitted, over runs of any
    commands on any number of interleaved command buffers. */
module RenderPasses {
  import opened Words
  import opened Options
  import opened Vulkan
  import opened Tracker
  import opened TrackerRuns
  import opened Processor
  import opened Ownership

  // ---- the trace, seen from one command buffer ----

  /** A call that opens or closes a render pass instance of its command buffer. */
  predicate Marks(c: Call) { c.BeginRendering? || c.EndRendering? || c.ResetCommandBuffer? }

  /** The last pass mark of `cb` is a vkCmdBeginRendering. */
  function PassOpen(trace: seq<Call>, cb: Object): bool {
    if trace == [] then false
    else
      var c := trace[|trace| - 1];
      if c.cb == cb && Marks(c) then c.BeginRendering? else PassOpen(trace[..|trace| - 1], cb)
  }

  /** Every vkCmdEndRendering is emitted inside an open pass of its own command buffer. */
  ghost predicate Balanced(trace: seq<Call>) {
    forall x :: BalancedOn(trace, x)
  }

  ghost predicate BalancedOn(trace: seq<Call>, x: Object) {
    forall k :: 0 <= k < |trace| && trace[k] == EndRendering(x) ==> PassOpen(trace[..k], x)
  }

  // ---- what the calls do, seen from one command buffer ----

  datatype Indices = Unbound | Bound(buffer: Object, offset: nat)

  datatype Drawing =
    | Vertices(count: nat, instances: nat, first: nat, base: nat)
    | Indexed(count: nat, indices: Indices)

  datatype Event =
    | PassBegin(colors: seq<Attachment>, depth: Attachment)
    | PassEnd
    | PassViewport
    | PassScissor
    | PassVertices(index: nat, buffer: Object, offset: nat)
    | PassDraw(drawing: Drawing)

  /** Where an indexed draw on `cb` would read its indices: the last index buffer bound. */
  function IndexBound(trace: seq<Call>, cb: Object): Indices {
    if trace == [] then Unbound
    else
      var before, c := trace[..|trace| - 1], trace[|trace| - 1];
      if c.cb != cb then IndexBound(before, cb)
      else match c
        case BindIndexBuffer(_, buffer, offset) => Bound(buffer, offset)
        case ResetCommandBuffer(_) => Unbound
        case _ => IndexBound(before, cb)
  }

  /** What call `c`, coming after `before`, does on `cb`. */
  function EventOf(before: seq<Call>, c: Call, cb: Object): seq<Event> {
    if c.cb != cb then []
    else match c
      case BeginRendering(_, colors, depth) => [PassBegin(colors, depth)]
      case EndRendering(_) => [PassEnd]
      case SetViewport(_) => [PassViewport]
      case SetScissor(_) => [PassScissor]
      case BindVertexBuffer(_, index, buffer, offset) => [PassVertices(index, buffer, offset)]
      case Draw(_, count, instances, first, base) => [PassDraw(Vertices(count, instances, first, base))]
      case DrawIndexed(_, count) => [PassDraw(Indexed(count, IndexBound(before, cb)))]
      case _ => []
  }

  /** The passes, settings and draws of one command buffer, in order of emission. */
  function Project(trace: seq<Call>, cb: Object): seq<Event> {
    if trace == [] then []
    else
      var n := |trace| - 1;
      Project(trace[..n], cb) + EventOf(trace[..n], trace[n], cb)
  }

  lemma TraceAppend(trace: seq<Call>, c: Call, cb: Object)
    ensures PassOpen(trace + [c], cb) == if c.cb == cb && Marks(c) then c.BeginRendering? else PassOpen(trace, cb)
    ensures Project(trace + [c], cb) == Project(trace, cb) + EventOf(trace, c, cb)
  {
    assert (trace + [c])[..|trace|] == trace;
  }

  lemma BalancedAppend(trace: seq<Call>, c: Call, x: Object)
    ensures BalancedOn(trace + [c], x) <==> BalancedOn(trace, x) && (c == EndRendering(x) ==> PassOpen(trace, x))
  {
    var all := trace + [c];
    assert all[..|trace|] == trace;
    assert forall k :: 0 <= k < |trace| ==> all[..k] == trace[..k] && all[k] == trace[k];
    if BalancedOn(all, x) {
      forall k | 0 <= k < |trace| && trace[k] == EndRendering(x) ensures PassOpen(trace[..k], x) {
        assert all[k] == EndRendering(x);
      }
      if c == EndRendering(x) { assert all[|trace|] == EndRendering(x); }
    }
  }

  /** Calls that are no event of any command buffer. */
  predicate Silent(c: Call) {
    !Marks(c) && !c.Draw? && !c.DrawIndexed? && !c.BindVertexBuffer? && !c.SetViewport? && !c.SetScissor?
  }

  lemma {:induction false} SilentAppend(trace: seq<Call>, calls: seq<Call>, x: Object)
    requires forall k :: 0 <= k < |calls| ==> !Marks(calls[k])
    ensures PassOpen(trace + calls, x) == PassOpen(trace, x)
    ensures (forall k :: 0 <= k < |calls| ==> Silent(calls[k])) ==> Project(trace + calls, x) == Project(trace, x)
    ensures BalancedOn(trace + calls, x) <==> BalancedOn(trace, x)
    decreases |calls|
  {
    hide BalancedOn, PassOpen, Project;
    if calls == [] {
      assert trace + calls == trace;
    } else {
      var n := |calls| - 1;
      SilentAppend(trace, calls[..n], x);
      assert trace + calls == (trace + calls[..n]) + [calls[n]];
      TraceAppend(trace + calls[..n], calls[n], x);
      BalancedAppend(trace + calls[..n], calls[n], x);
    }
  }

  // ---- what the guest asks for ----

  /** `c` is a render command on the known command buffer `cb`. */
  predicate Addresses(t: Table, c: Command, cb: Object)
    requires Sized(t) && Typed(t, c)
  {
    IsRender(c) && CmdBufOf(t, c.cmdbuf) == Some(cb)
  }

  /** The image view stored in the entry that `h` finds, if it finds a texture. */
  function ViewNamed(t: Table, h: u32): Attachment
    requires Sized(t)
  {
    var g := Get(t, h);
    if g.Some? && t.entries[g.value].payload.TexturePayload? then View(t.entries[g.value].payload.view) else NoView
  }

  /** What command `c` asks of command buffer `cb`, read off the command's own fields, with
      handles resolved as they stand when the command is processed. Vertices or indices in
      an unknown buffer ask for nothing; a plain draw is one instance from base 0. */
  function Asks(t: Table, c: Command, cb: Object): seq<Event>
    requires Sized(t) && Typed(t, c)
  {
    if !Addresses(t, c, cb) then []
    else match c
      case RenderBegin(_, colors, depth) =>
        [PassBegin(seq(|colors|, k requires 0 <= k < |colors| => ViewNamed(t, colors[k])),
                   if depth == 0 then NoView else ViewNamed(t, depth))]
      case RenderEnd(_) => [PassEnd]
      case RenderSetViewport(_) => [PassViewport]
      case RenderSetScissor(_) => [PassScissor]
      case RenderSetVertexBuffer(_, b, offset, index) =>
        if BufferOf(t, b).None? then [] else [PassVertices(index, BufferOf(t, b).value, offset)]
      case RenderDraw(_, count, start) => [PassDraw(Vertices(count, 1, start, 0))]
      case RenderDrawIndexed(_, count, b, offset) =>
        if BufferOf(t, b).None? then [] else [PassDraw(Indexed(count, Bound(BufferOf(t, b).value, offset)))]
      case RenderDrawInstanced(_, count, instances, start, base) =>
        [PassDraw(Vertices(count, instances, start, base))]
      case _ => []
  }

  /** An end without an open pass is dropped; everything else goes through in order. */
  function Filtered(open: bool, events: seq<Event>): seq<Event>
    decreases |events|
  {
    if events == [] then []
    else Kept(open, events[0]) + Filtered(OpenNext(open, events[0]), events[1..])
  }

  function Kept(open: bool, e: Event): seq<Event> { if e.PassEnd? && !open then [] else [e] }

  function OpenNext(open: bool, e: Event): bool {
    match e
    case PassBegin(_, _) => true
    case PassEnd => false
    case _ => open
  }

  function OpenAfter(open: bool, events: seq<Event>): bool
    decreases |events|
  {
    if events == [] then open else OpenAfter(OpenNext(open, events[0]), events[1..])
  }

  lemma {:induction false} FilteredAppend(open: bool, a: seq<Event>, b: seq<Event>)
    ensures Filtered(open, a + b) == Filtered(open, a) + Filtered(OpenAfter(open, a), b)
    ensures OpenAfter(open, a + b) == OpenAfter(OpenAfter(open, a), b)
    decreases |a|
  {
    hide Kept, OpenNext;
    if a == [] {
      assert a + b == b;
    } else {
      assert (a + b)[1..] == a[1..] + b;
      FilteredAppend(OpenNext(open, a[0]), a[1..], b);
    }
  }

  /** Begins and ends alternate, a begin first unless a pass is open. */
  predicate Alternates(open: bool, events: seq<Event>)
    decreases |events|
  {
    events == [] || (&& (events[0].PassBegin? ==> !open)
                     && (events[0].PassEnd? ==> open)
                     && Alternates(OpenNext(open, events[0]), events[1..]))
  }

  lemma {:induction false} AlternatingPassesThrough(open: bool, events: seq<Event>)
    requires Alternates(open, events)
    ensures Filtered(open, events) == events
    decreases |events|
  {
    if events != [] {
      AlternatingPassesThrough(OpenNext(open, events[0]), events[1..]);
    }
  }

  // ---- flags and phases ----

  /** The flag of every command buffer in use is the state of its pass in the trace. */
  ghost predicate Mirrors(t: Table, trace: seq<Call>) {
    forall i :: 0 <= i < |t.entries| && t.entries[i].inUse && t.entries[i].payload.CmdBufPayload?
      ==> t.entries[i].payload.inRenderPass == PassOpen(trace, t.entries[i].payload.cmdBuf)
  }

  /** Where a run has brought a command buffer: outside a pass, inside one, or committed
      inside one. A commit resets the buffer, which closes the pass, and leaves the flag. */
  datatype Phase = Shut | Open | Stale

  function PhaseNext(t: Table, c: Command, x: Object, phase: Phase): Phase
    requires Sized(t) && Typed(t, c)
  {
    if c.CmdbufCommit? then
      if phase.Open? && CommitFinds(t, c.handle) && CmdBufOf(t, c.handle) == Some(x) then Stale else phase
    else if !Addresses(t, c, x) then phase
    else if c.RenderBegin? then Open
    else if c.RenderEnd? then Shut
    else phase
  }

  /** A RENDER_END that finds the flag up and no pass open. */
  predicate EndsStale(t: Table, c: Command, x: Object, phase: Phase)
    requires Sized(t) && Typed(t, c)
  {
    c.RenderEnd? && Addresses(t, c, x) && phase.Stale?
  }

  /** The flag of the entry for `x`, if one is in use, is `up`. */
  ghost predicate FlagIs(t: Table, x: Object, up: bool) {
    forall i :: 0 <= i < |t.entries| && t.entries[i].inUse && t.entries[i].payload.CmdBufPayload?
                && t.entries[i].payload.cmdBuf == x
      ==> t.entries[i].payload.inRenderPass == up
  }

  /** In every phase but one the flag is right; a buffer not created yet is shut. */
  ghost predicate InPhase(w: World, x: Object, phase: Phase) {
    && FlagIs(w.tracker, x, !phase.Shut?)
    && PassOpen(w.trace, x) == phase.Open?
    && (x.id >= w.next ==> phase.Shut?)
  }

  /** A commit whose command buffer has no pass open. vkResetCommandBuffer closes a pass;
      the handler leaves the flag alone. */
  predicate CommitsClosed(t: Table, c: Command)
    requires Sized(t) && Typed(t, c)
  {
    c.CmdbufCommit? ==> PayloadOf(t, c.handle).CmdBufPayload? ==> !PayloadOf(t, c.handle).inRenderPass
  }

  /** Command buffers of different entries differ. */
  lemma OwnBuffers(w: World, i: nat, j: nat)
    requires OwnInv(w) && i < POOL && j < POOL && i != j
    requires w.tracker.entries[i].inUse && w.tracker.entries[j].inUse
    requires w.tracker.entries[i].payload.CmdBufPayload? && w.tracker.entries[j].payload.CmdBufPayload?
    ensures w.tracker.entries[i].payload.cmdBuf != w.tracker.entries[j].payload.cmdBuf
    ensures w.tracker.entries[i].payload.cmdBuf.id < w.next
  {
    hide PoolOk;
    var a, b := if i < j then i else j, if i < j then j else i;
    assert OwnedAt(w.tracker, a) !! OwnedAt(w.tracker, b);
    assert w.tracker.entries[i].payload.cmdBuf in OwnedAt(w.tracker, i);
    assert OwnedAt(w.tracker, i) <= w.live;
  }

  lemma BufferIsOld(w: World, h: u32)
    requires OwnInv(w) && Get(w.tracker, h).Some? && PayloadOf(w.tracker, h).CmdBufPayload?
    ensures PayloadOf(w.tracker, h).cmdBuf.id < w.next
  {
    hide PoolOk, Get;
    var i := Get(w.tracker, h).value;
    assert PayloadOf(w.tracker, h).cmdBuf in OwnedAt(w.tracker, i);
    assert OwnedAt(w.tracker, i) <= w.live;
  }

  // ---- steps that mark nothing ----

  /** Entries keep, lose or newly get a command buffer, a new one with its flag down. */
  ghost predicate OnlyFresh(t: Table, u: Table, next: nat) {
    && |t.entries| == |u.entries|
    && forall i :: 0 <= i < |u.entries| ==>
         || u.entries[i] == t.entries[i]
         || !u.entries[i].inUse
         || !u.entries[i].payload.CmdBufPayload?
         || (!u.entries[i].payload.inRenderPass && u.entries[i].payload.cmdBuf.id >= next)
  }

  predicate Marking(c: Command) { c.RenderBegin? || c.RenderEnd? || c.CmdbufCommit? }

  lemma CreateSteps(w: World, c: Command, o: Outcomes)
    requires OwnInv(w) && Typed(w.tracker, c) && Creates(c)
    ensures var w' := Step(w, c, o);
            && w'.trace == w.trace + Added(w, c, o) && w.next <= w'.next
            && OnlyFresh(w.tracker, w'.tracker, w.next)
  {
    hide Accounted, KindsMatch, PoolOk, Step, Added;
    CreateShape(w, c, o);
  }

  lemma NoOp(t: Table, next: nat)
    ensures OnlyFresh(t, t, next)
  {
  }

  lemma DestroySteps(w: World, h: u32)
    requires OwnInv(w) && Sized(w.tracker)
    ensures OnlyFresh(w.tracker, DestroyStep(w, h).tracker, w.next)
  {
    hide Accounted, Owned, PoolOk, Remove, Get;
    if Get(w.tracker, h).Some? { RemovedEntry(w.tracker, h); } else { RemoveAbsent(w.tracker, h); }
  }

  lemma UnmarkedStep(w: World, c: Command, o: Outcomes)
    requires OwnInv(w) && Typed(w.tracker, c) && !Marking(c)
    ensures var w' := Step(w, c, o);
            && w'.trace == w.trace + Added(w, c, o)
            && w.next <= w'.next
            && (forall call :: call in Added(w, c, o) ==> !Marks(call))
            && OnlyFresh(w.tracker, w'.tracker, w.next)
  {
    hide Accounted, Owned, Get, PoolOk, KindsMatch, OnlyFresh,
         CreateBufferStep, CreateTextureStep, CreateSamplerStep, CmdbufCreateStep, Track, Remove;
    NoOp(w.tracker, w.next);
    if c.Destroy? { DestroySteps(w, c.handle); }
    else if Creates(c) { CreateSteps(w, c, o); }
  }

  // ---- steps that mark a pass ----

  /** The attachment loop emits barriers on the pass's command buffer and edits textures. */
  lemma {:induction false} AttachEmitsBarriers(w: World, cb: Object, hs: seq<u32>)
    requires Sized(w.tracker) && AllTextures(w.tracker, hs)
    ensures var r := Attach(w, cb, hs);
            && w.trace <= r.trace
            && (forall k :: |w.trace| <= k < |r.trace| ==> r.trace[k].PipelineBarrier? && r.trace[k].cb == cb)
            && (forall i :: 0 <= i < POOL && !w.tracker.entries[i].payload.TexturePayload?
                  ==> r.tracker.entries[i] == w.tracker.entries[i])
    decreases |hs|
  {
    hide Get, Find;
    if hs != [] {
      var r := Attach(w, cb, hs[..|hs| - 1]);
      AttachEmitsBarriers(w, cb, hs[..|hs| - 1]);
      SameIndexGet(w.tracker, r.tracker, hs[|hs| - 1]);
    }
  }

  /** RENDER_BEGIN on a known command buffer: barriers, then one vkCmdBeginRendering. */
  lemma RenderBeginShape(w: World, h: u32, colors: seq<u32>, depth: u32)
    returns (barriers: seq<Call>, begin: Call)
    requires Sized(w.tracker) && Typed(w.tracker, RenderBegin(h, colors, depth)) && Get(w.tracker, h).Some?
    ensures var w', i := RenderBeginStep(w, h, colors, depth), Get(w.tracker, h).value;
            var p := w.tracker.entries[i].payload;
            && p.CmdBufPayload? && w'.next == w.next && |w'.tracker.entries| == POOL
            && w'.trace == (w.trace + barriers) + [begin]
            && begin == BeginRendering(p.cmdBuf, Views(w.tracker, colors), DepthOf(w.tracker, depth))
            && (forall k :: 0 <= k < |barriers| ==> barriers[k].PipelineBarrier? && barriers[k].cb == p.cmdBuf)
            && w'.tracker.entries[i].payload == p.(inRenderPass := true)
            && (forall j :: 0 <= j < POOL && j != i && w.tracker.entries[j].payload.CmdBufPayload?
                  ==> w'.tracker.entries[j] == w.tracker.entries[j])
            && (forall j :: 0 <= j < POOL && w'.tracker.entries[j].payload.CmdBufPayload?
                  ==> w.tracker.entries[j].payload.CmdBufPayload?)
  {
    hide Get, Find, Attach, Views, DepthOf;
    var i := Get(w.tracker, h).value;
    var cb := w.tracker.entries[i].payload.cmdBuf;
    var r := Attach(w, cb, colors);
    AttachEmitsBarriers(w, cb, colors);
    barriers := r.trace[|w.trace|..];
    begin := BeginRendering(cb, Views(w.tracker, colors), DepthOf(w.tracker, depth));
    assert w.trace + barriers == r.trace;
  }

  lemma OthersDiffer(w: World, i: nat)
    requires OwnInv(w) && Sized(w.tracker)
    requires i < POOL && w.tracker.entries[i].inUse && w.tracker.entries[i].payload.CmdBufPayload?
    ensures forall j :: 0 <= j < POOL && j != i && w.tracker.entries[j].inUse
              && w.tracker.entries[j].payload.CmdBufPayload?
              ==> w.tracker.entries[j].payload.cmdBuf != w.tracker.entries[i].payload.cmdBuf
  {
    hide OwnInv;
    forall j | 0 <= j < POOL && j != i && w.tracker.entries[j].inUse && w.tracker.entries[j].payload.CmdBufPayload?
      ensures w.tracker.entries[j].payload.cmdBuf != w.tracker.entries[i].payload.cmdBuf
    {
      OwnBuffers(w, i, j);
    }
  }

  lemma OneEvent(open: bool, e: Event)
    ensures Filtered(open, [e]) == Kept(open, e) && OpenAfter(open, [e]) == OpenNext(open, e)
    ensures Filtered(open, []) == [] && OpenAfter(open, []) == open
  {
    assert [e][1..] == [];
  }

  lemma OneCall(trace: seq<Call>, call: Call, x: Object)
    ensures Project(trace + [call], x) == Project(trace, x) + EventOf(trace, call, x)
  {
    hide Project;
    TraceAppend(trace, call, x);
  }

  /** An indexed draw reads the index buffer bound by the call before it. */
  lemma BindThenDraw(trace: seq<Call>, cb: Object, buffer: Object, offset: nat, count: nat, x: Object)
    ensures Project(trace + [BindIndexBuffer(cb, buffer, offset), DrawIndexed(cb, count)], x)
            == Project(trace, x) + (if cb == x then [PassDraw(Indexed(count, Bound(buffer, offset)))] else [])
  {
    hide Project;
    var bound := trace + [BindIndexBuffer(cb, buffer, offset)];
    assert trace + [BindIndexBuffer(cb, buffer, offset), DrawIndexed(cb, count)] == bound + [DrawIndexed(cb, count)];
    OneCall(trace, BindIndexBuffer(cb, buffer, offset), x);
    OneCall(bound, DrawIndexed(cb, count), x);
    assert bound[..|trace|] == trace;
  }

  /** What a command without pass marks emits for `x` is what it asks of `x`. */
  lemma AddedEvents(w: World, c: Command, o: Outcomes, x: Object)
    requires Sized(w.tracker) && Typed(w.tracker, c) && !Marking(c)
    ensures Project(w.trace + Added(w, c, o), x) == Project(w.trace, x) + Asks(w.tracker, c, x)
  {
    hide Get, Project, Typed, IndexBound;
    assert w.trace + [] == w.trace;
    var calls := Added(w, c, o);
    if |calls| == 1 {
      assert calls == [calls[0]];
      OneCall(w.trace, calls[0], x);
    } else if |calls| == 2 {
      BindThenDraw(w.trace, calls[0].cb, calls[0].buffer, calls[0].offset, calls[1].indices, x);
    }
  }

  /** Requests between passes go through unfiltered. */
  lemma PlainAsks(t: Table, c: Command, x: Object, open: bool)
    requires Sized(t) && Typed(t, c) && !Marking(c)
    ensures Filtered(open, Asks(t, c, x)) == Asks(t, c, x) && OpenAfter(open, Asks(t, c, x)) == open
  {
    hide Get, Filtered, OpenAfter;
    var asks := Asks(t, c, x);
    OneEvent(open, if asks == [] then PassEnd else asks[0]);
    assert asks == [] || asks == [asks[0]];
  }

  // ---- one command, one buffer ----

  /** What command `c` does for `x`: it emits what it asks for, less ends of passes that are
      not open, moves the phase, and is balanced unless it ends a stale pass. */
  ghost predicate Follows(w: World, w': World, c: Command, x: Object, phase: Phase)
    requires Sized(w.tracker) && Typed(w.tracker, c)
  {
    var asks, next := Asks(w.tracker, c, x), PhaseNext(w.tracker, c, x, phase);
    && InPhase(w', x, next)
    && Project(w'.trace, x) == Project(w.trace, x) + Filtered(!phase.Shut?, asks)
    && !next.Shut? == OpenAfter(!phase.Shut?, asks)
    && (BalancedOn(w'.trace, x) <==> BalancedOn(w.trace, x) && !EndsStale(w.tracker, c, x, phase))
  }

  lemma UnmarkedPasses(w: World, c: Command, o: Outcomes, x: Object, phase: Phase)
    requires OwnInv(w) && Typed(w.tracker, c) && !Marking(c) && InPhase(w, x, phase)
    ensures Follows(w, Step(w, c, o), c, x, phase)
  {
    hide OwnInv, Step, OnlyFresh, FlagIs, Added, Asks, BalancedOn, Project, PassOpen, Filtered, OpenAfter, Typed,
         Addresses;
    Unfold(w);
    var w', calls := Step(w, c, o), Added(w, c, o);
    UnmarkedStep(w, c, o);
    SilentAppend(w.trace, calls, x);
    AddedEvents(w, c, o, x);
    PlainAsks(w.tracker, c, x, !phase.Shut?);
    FreshKeepsFlag(w.tracker, w'.tracker, w.next, x, !phase.Shut?);
  }

  lemma FreshKeepsFlag(t: Table, u: Table, next: nat, x: Object, up: bool)
    requires OnlyFresh(t, u, next) && FlagIs(t, x, up) && (x.id >= next ==> !up)
    ensures FlagIs(u, x, up)
  {
  }

  /** Entry `i` gets flag `up`, the other command buffers keep theirs. */
  ghost predicate FlagSet(t: Table, u: Table, i: nat, up: bool) {
    && i < |t.entries| == |u.entries|
    && u.entries[i].payload.CmdBufPayload? && u.entries[i].payload.inRenderPass == up
    && t.entries[i].payload.CmdBufPayload? && u.entries[i].payload.cmdBuf == t.entries[i].payload.cmdBuf
    && forall j :: 0 <= j < |t.entries| && j != i && u.entries[j].inUse && u.entries[j].payload.CmdBufPayload?
         ==> u.entries[j] == t.entries[j]
  }

  lemma FlagMoves(w: World, u: Table, i: nat, up: bool, x: Object, was: bool)
    requires OwnInv(w) && FlagSet(w.tracker, u, i, up) && w.tracker.entries[i].inUse && FlagIs(w.tracker, x, was)
    ensures FlagIs(u, x, if x == w.tracker.entries[i].payload.cmdBuf then up else was)
  {
    hide OwnInv;
    Unfold(w);
    OthersDiffer(w, i);
  }

  lemma RenderBeginMarks(w: World, h: u32, colors: seq<u32>, depth: u32, x: Object, phase: Phase)
    requires OwnInv(w) && Sized(w.tracker) && Typed(w.tracker, RenderBegin(h, colors, depth)) && InPhase(w, x, phase)
    ensures Follows(w, RenderBeginStep(w, h, colors, depth), RenderBegin(h, colors, depth), x, phase)
  {
    hide Get, OwnInv, RenderBeginStep, FlagIs, BalancedOn, Project, PassOpen, Filtered, OpenAfter, FlagSet, Typed;
    OneEvent(!phase.Shut?, PassEnd);
    assert Project(w.trace, x) + [] == Project(w.trace, x);
    if Get(w.tracker, h).None? {
      UnknownBuffer(w, h, colors, depth);
      return;
    }
    var i := Get(w.tracker, h).value;
    BeginSetsFlag(w, h, colors, depth);
    var w' := RenderBeginStep(w, h, colors, depth);
    var barriers, begin := RenderBeginShape(w, h, colors, depth);
    BufferIsOld(w, h);
    SilentAppend(w.trace, barriers, x);
    BalancedAppend(w.trace + barriers, begin, x);
    TraceAppend(w.trace + barriers, begin, x);
    AskedAttachments(w.tracker, h, colors, depth);
    OneEvent(!phase.Shut?, PassBegin(begin.colors, begin.depth));
    FlagMoves(w, w'.tracker, i, true, x, !phase.Shut?);
  }

  /** The attachments of the call are those the command's handles name. */
  lemma AskedAttachments(t: Table, h: u32, colors: seq<u32>, depth: u32)
    requires Sized(t) && Typed(t, RenderBegin(h, colors, depth)) && Get(t, h).Some?
    ensures BeginTyped(t, h, colors, depth)
    ensures Views(t, colors) == seq(|colors|, k requires 0 <= k < |colors| => ViewNamed(t, colors[k]))
    ensures DepthOf(t, depth) == if depth == 0 then NoView else ViewNamed(t, depth)
  {
    hide Find;
  }

  lemma BeginSetsFlag(w: World, h: u32, colors: seq<u32>, depth: u32)
    requires Sized(w.tracker) && Typed(w.tracker, RenderBegin(h, colors, depth)) && Get(w.tracker, h).Some?
    ensures BeginTyped(w.tracker, h, colors, depth)
    ensures FlagSet(w.tracker, RenderBeginStep(w, h, colors, depth).tracker, Get(w.tracker, h).value, true)
  {
    hide Get, RenderBeginStep;
    var barriers, begin := RenderBeginShape(w, h, colors, depth);
  }

  lemma RenderEndMarks(w: World, h: u32, x: Object, phase: Phase)
    requires OwnInv(w) && Sized(w.tracker) && Typed(w.tracker, RenderEnd(h)) && InPhase(w, x, phase)
    ensures Follows(w, RenderEndStep(w, h), RenderEnd(h), x, phase)
  {
    hide Get, OwnInv, BalancedOn, Project, PassOpen, Filtered, OpenAfter;
    OneEvent(!phase.Shut?, PassEnd);
    assert Project(w.trace, x) + [] == Project(w.trace, x);
    if Get(w.tracker, h).None? { return; }
    var i := Get(w.tracker, h).value;
    var p := w.tracker.entries[i].payload;
    if p.inRenderPass {
      BufferIsOld(w, h);
      BalancedAppend(w.trace, EndRendering(p.cmdBuf), x);
      TraceAppend(w.trace, EndRendering(p.cmdBuf), x);
      FlagMoves(w, RenderEndStep(w, h).tracker, i, false, x, !phase.Shut?);
    }
  }

  /** The calls of a commit before its reset. */
  function BeforeReset(p: Payload): (calls: seq<Call>)
    requires p.CmdBufPayload?
    ensures calls + [ResetCommandBuffer(p.cmdBuf)] == CommitCalls(p)
    ensures forall k :: 0 <= k < |calls| ==> Silent(calls[k])
  {
    CommitCalls(p)[..4]
  }

  lemma CommitMarks(w: World, h: u32, x: Object, phase: Phase)
    requires OwnInv(w) && Sized(w.tracker) && KindsMatch(w.tracker) && InPhase(w, x, phase)
    ensures Follows(w, CommitStep(w, h), CmdbufCommit(h), x, phase)
  {
    hide Get, OwnInv, KindsMatch, BalancedOn, Project, PassOpen, Filtered, OpenAfter, CommitFinds, CommitStep,
         BeforeReset;
    OneEvent(!phase.Shut?, PassEnd);
    assert Project(w.trace, x) + [] == Project(w.trace, x);
    CommitCases(w, h);
    if CommitFinds(w.tracker, h) {
      var i := Get(w.tracker, h).value;
      var p, w' := w.tracker.entries[i].payload, CommitStep(w, h);
      BufferIsOld(w, h);
      var calls, reset := BeforeReset(p), ResetCommandBuffer(p.cmdBuf);
      assert w.trace + CommitCalls(p) == (w.trace + calls) + [reset];
      SilentAppend(w.trace, calls, x);
      TraceAppend(w.trace + calls, reset, x);
      BalancedAppend(w.trace + calls, reset, x);
      FlagMoves(w, w'.tracker, i, p.inRenderPass, x, !phase.Shut?);
    }
  }

  /** One command of any kind, on any command buffer in any phase. */
  lemma StepPasses(w: World, c: Command, o: Outcomes, x: Object, phase: Phase)
    requires OwnInv(w) && Typed(w.tracker, c) && InPhase(w, x, phase)
    ensures var w' := Step(w, c, o);
            var asks, next := Asks(w.tracker, c, x), PhaseNext(w.tracker, c, x, phase);
            && InPhase(w', x, next)
            && Project(w'.trace, x) == Project(w.trace, x) + Filtered(!phase.Shut?, asks)
            && !next.Shut? == OpenAfter(!phase.Shut?, asks)
            && (BalancedOn(w'.trace, x) <==> BalancedOn(w.trace, x) && !EndsStale(w.tracker, c, x, phase))
  {
    hide OwnInv, KindsMatch, InPhase, BalancedOn, RenderBeginStep, RenderEndStep, CommitStep, Get, Asks, PhaseNext,
         CreateBufferStep, CreateTextureStep, CreateSamplerStep, CmdbufCreateStep, DestroyStep, Recorded, EndsStale;
    Unfold(w);
    if !Marking(c) { UnmarkedPasses(w, c, o, x, phase); }
    else if c.RenderBegin? { RenderBeginMarks(w, c.cmdbuf, c.colors, c.depth, x, phase); }
    else if c.RenderEnd? { RenderEndMarks(w, c.cmdbuf, x, phase); }
    else { CommitMarks(w, c.handle, x, phase); }
  }

  // ---- runs ----

  /** The events a run asks of `x`, in the guest's order. */
  ghost function Requested(w: World, jobs: seq<Job>, x: Object): seq<Event>
    requires OwnInv(w) && AllTyped(w, jobs)
    decreases |jobs|
  {
    if jobs == [] then []
    else
      StepKeepsOwned(w, jobs[0].command, jobs[0].outcomes);
      Asks(w.tracker, jobs[0].command, x)
        + Requested(Step(w, jobs[0].command, jobs[0].outcomes), jobs[1..], x)
  }

  /** The phase a run leaves `x` in. */
  ghost function PhaseAfter(w: World, jobs: seq<Job>, x: Object, phase: Phase): Phase
    requires OwnInv(w) && AllTyped(w, jobs)
    decreases |jobs|
  {
    if jobs == [] then phase
    else
      StepKeepsOwned(w, jobs[0].command, jobs[0].outcomes);
      PhaseAfter(Step(w, jobs[0].command, jobs[0].outcomes), jobs[1..], x,
                 PhaseNext(w.tracker, jobs[0].command, x, phase))
  }

  /** No RENDER_END of the run reaches `x` in its stale phase. */
  ghost predicate NoStaleEnd(w: World, jobs: seq<Job>, x: Object, phase: Phase)
    requires OwnInv(w) && AllTyped(w, jobs)
    decreases |jobs|
  {
    jobs == [] || (&& !EndsStale(w.tracker, jobs[0].command, x, phase)
                   && (StepKeepsOwned(w, jobs[0].command, jobs[0].outcomes);
                       NoStaleEnd(Step(w, jobs[0].command, jobs[0].outcomes), jobs[1..], x,
                                  PhaseNext(w.tracker, jobs[0].command, x, phase))))
  }

  /** No RENDER_END of the run reaches any buffer in its stale phase, all shut at first. */
  ghost predicate NoStaleEnds(w: World, jobs: seq<Job>)
    requires OwnInv(w) && AllTyped(w, jobs)
  {
    forall x :: NoStaleEnd(w, jobs, x, Shut)
  }

  lemma {:induction false} RunPasses(w: World, jobs: seq<Job>, x: Object, phase: Phase)
    requires OwnInv(w) && AllTyped(w, jobs) && InPhase(w, x, phase)
    ensures var r, asked, after := Ownership.Run(w, jobs), Requested(w, jobs, x), PhaseAfter(w, jobs, x, phase);
            && InPhase(r, x, after)
            && Project(r.trace, x) == Project(w.trace, x) + Filtered(!phase.Shut?, asked)
            && !after.Shut? == OpenAfter(!phase.Shut?, asked)
            && (BalancedOn(r.trace, x) <==> BalancedOn(w.trace, x) && NoStaleEnd(w, jobs, x, phase))
    decreases |jobs|
  {
    hide Step, Asks, InPhase, OwnInv, Project, Typed, Filtered, OpenAfter, KindsMatch, BalancedOn, PhaseNext, EndsStale;
    if jobs == [] {
      OneEvent(!phase.Shut?, PassEnd);
      assert Project(w.trace, x) + [] == Project(w.trace, x);
      return;
    }
    Unfold(w);
    var c, o := jobs[0].command, jobs[0].outcomes;
    StepPasses(w, c, o, x, phase);
    StepKeepsOwned(w, c, o);
    var w' := Step(w, c, o);
    RunPasses(w', jobs[1..], x, PhaseNext(w.tracker, c, x, phase));
    FilteredAppend(!phase.Shut?, Asks(w.tracker, c, x), Requested(w', jobs[1..], x));
  }

  lemma StartPhase(x: Object)
    ensures OwnInv(Start()) && InPhase(Start(), x, Shut)
    ensures Project(Start().trace, x) == [] && BalancedOn(Start().trace, x)
  {
    hide OwnInv;
    StartOwned();
  }

  /** From the start, over any number of interleaved command buffers and whatever the guest
      commits when: the passes, vertex buffers and draws of each buffer are its requests in
      order without the unmatched ends, requests that alternate come through untouched, and
      the flag says whether the requests so far leave a pass open. */
  lemma PassesFollowTheGuest(jobs: seq<Job>, x: Object)
    requires OwnInv(Start()) && AllTyped(Start(), jobs)
    ensures var w, asked := Ownership.Run(Start(), jobs), Requested(Start(), jobs, x);
            && Project(w.trace, x) == Filtered(false, asked)
            && (Alternates(false, asked) ==> Project(w.trace, x) == asked)
            && FlagIs(w.tracker, x, OpenAfter(false, asked))
  {
    hide Ownership.Run, OwnInv, AllTyped, Filtered, OpenAfter, Requested, Alternates, PhaseAfter, NoStaleEnd;
    StartPhase(x);
    RunPasses(Start(), jobs, x, Shut);
    var asked := Requested(Start(), jobs, x);
    assert [] + Filtered(false, asked) == Filtered(false, asked);
    if Alternates(false, asked) { AlternatingPassesThrough(false, asked); }
  }

  lemma BalancedOnExactly(jobs: seq<Job>, x: Object)
    requires OwnInv(Start()) && AllTyped(Start(), jobs)
    ensures BalancedOn(Ownership.Run(Start(), jobs).trace, x) <==> NoStaleEnd(Start(), jobs, x, Shut)
  {
    hide Ownership.Run, OwnInv, AllTyped, Requested, PhaseAfter, NoStaleEnd, BalancedOn;
    StartPhase(x);
    RunPasses(Start(), jobs, x, Shut);
  }

  /** Every vkCmdEndRendering of a run falls inside an open pass if and only if no RENDER_END
      reaches a command buffer that was committed inside a pass and has begun none since. */
  lemma BalancedExactly(jobs: seq<Job>)
    requires OwnInv(Start()) && AllTyped(Start(), jobs)
    ensures Balanced(Ownership.Run(Start(), jobs).trace) <==> NoStaleEnds(Start(), jobs)
  {
    hide Ownership.Run, OwnInv, AllTyped, NoStaleEnd, BalancedOn;
    var trace := Ownership.Run(Start(), jobs).trace;
    forall x ensures BalancedOn(trace, x) <==> NoStaleEnd(Start(), jobs, x, Shut) { BalancedOnExactly(jobs, x); }
    if !Balanced(trace) {
      var x :| !BalancedOn(trace, x);
      assert !NoStaleEnd(Start(), jobs, x, Shut);
    } else {
      forall x ensures NoStaleEnd(Start(), jobs, x, Shut) { assert BalancedOn(trace, x); }
    }
  }

  // ---- when the flags mirror the trace ----

  ghost predicate PassInv(w: World) {
    && OwnInv(w)
    && (forall x: Object :: x.id >= w.next ==> !PassOpen(w.trace, x))
    && Mirrors(w.tracker, w.trace)
  }

  function MirrorPhase(trace: seq<Call>, x: Object): Phase { if PassOpen(trace, x) then Open else Shut }

  lemma MirrorsInPhase(w: World, x: Object)
    requires PassInv(w)
    ensures InPhase(w, x, MirrorPhase(w.trace, x))
  {
    hide OwnInv, PassOpen;
  }

  lemma PhasesMirror(w: World)
    requires OwnInv(w) && forall x :: InPhase(w, x, MirrorPhase(w.trace, x))
    ensures PassInv(w)
  {
    hide OwnInv, PassOpen;
    forall x: Object | x.id >= w.next ensures !PassOpen(w.trace, x) {
      assert InPhase(w, x, MirrorPhase(w.trace, x));
    }
    forall i | 0 <= i < |w.tracker.entries| && w.tracker.entries[i].inUse && w.tracker.entries[i].payload.CmdBufPayload?
      ensures w.tracker.entries[i].payload.inRenderPass == PassOpen(w.trace, w.tracker.entries[i].payload.cmdBuf)
    {
      var x := w.tracker.entries[i].payload.cmdBuf;
      assert InPhase(w, x, MirrorPhase(w.trace, x));
    }
  }

  /** A commit that finds its flag down leaves nothing stale. */
  lemma ClosedMeansNoneStale(w: World, c: Command, x: Object)
    requires PassInv(w) && Typed(w.tracker, c) && CommitsClosed(w.tracker, c)
    ensures !PhaseNext(w.tracker, c, x, MirrorPhase(w.trace, x)).Stale?
  {
    hide Find, PassOpen, Accounted, PoolOk;
    if c.CmdbufCommit? && CommitFinds(w.tracker, c.handle) {
      assert w.tracker.entries[Get(w.tracker, c.handle).value].payload == PayloadOf(w.tracker, c.handle);
    }
  }

  /** One command keeps the flags faithful if and only if it commits no open pass. */
  lemma StepMirrors(w: World, c: Command, o: Outcomes)
    requires PassInv(w) && Typed(w.tracker, c)
    ensures OwnInv(Step(w, c, o))
    ensures CommitsClosed(w.tracker, c) ==> PassInv(Step(w, c, o))
    ensures Mirrors(Step(w, c, o).tracker, Step(w, c, o).trace) ==> CommitsClosed(w.tracker, c)
  {
    hide OwnInv, PassOpen, Step, KindsMatch, PhaseNext, Asks, BalancedOn, Project, Filtered, OpenAfter, Typed,
         CommitsClosed;
    Unfold(w);
    StepKeepsOwned(w, c, o);
    var w' := Step(w, c, o);
    if CommitsClosed(w.tracker, c) {
      forall x ensures InPhase(w', x, MirrorPhase(w'.trace, x)) {
        MirrorsInPhase(w, x);
        StepPasses(w, c, o, x, MirrorPhase(w.trace, x));
        ClosedMeansNoneStale(w, c, x);
      }
      PhasesMirror(w');
    } else {
      OpenCommitGoesStale(w, c);
      var x := CmdBufOf(w.tracker, c.handle).value;
      MirrorsInPhase(w, x);
      StepPasses(w, c, o, x, MirrorPhase(w.trace, x));
      CommitKeepsBuffer(w, c, o, x);
    }
  }

  lemma OpenCommitGoesStale(w: World, c: Command)
    requires PassInv(w) && Typed(w.tracker, c) && !CommitsClosed(w.tracker, c)
    ensures c.CmdbufCommit? && CommitFinds(w.tracker, c.handle) && CmdBufOf(w.tracker, c.handle).Some?
    ensures var x := CmdBufOf(w.tracker, c.handle).value;
            PhaseNext(w.tracker, c, x, MirrorPhase(w.trace, x)).Stale?
  {
    hide Find, PassOpen, Accounted, PoolOk;
    assert w.tracker.entries[Get(w.tracker, c.handle).value].payload == PayloadOf(w.tracker, c.handle);
  }

  lemma CommitKeepsBuffer(w: World, c: Command, o: Outcomes, x: Object)
    requires OwnInv(w) && c.CmdbufCommit? && Typed(w.tracker, c) && CommitFinds(w.tracker, c.handle)
    requires CmdBufOf(w.tracker, c.handle) == Some(x)
    ensures exists i :: 0 <= i < |Step(w, c, o).tracker.entries| && Step(w, c, o).tracker.entries[i].inUse
              && Step(w, c, o).tracker.entries[i].payload.CmdBufPayload?
              && Step(w, c, o).tracker.entries[i].payload.cmdBuf == x
  {
    hide Find, PoolOk, Accounted;
    Unfold(w);
    CommitCases(w, c.handle);
    var i := Get(w.tracker, c.handle).value;
    assert Step(w, c, o).tracker.entries[i].payload.cmdBuf == x;
  }

  /** A commit keeps the flags faithful if and only if its command buffer has no open pass:
      resetting the buffer closes the pass, the flag stays. */
  lemma CommitKeepsMirrorExactly(w: World, h: u32)
    requires PassInv(w) && CommitFinds(w.tracker, h)
    ensures Mirrors(CommitStep(w, h).tracker, CommitStep(w, h).trace)
            <==> CommitsClosed(w.tracker, CmdbufCommit(h))
  {
    hide OwnInv, PassOpen, KindsMatch, CommitStep, CommitsClosed, CommitFinds;
    Unfold(w);
    StepMirrors(w, CmdbufCommit(h), []);
  }

  /** Every commit of the run finds no pass open on its command buffer. */
  ghost predicate AllClosed(w: World, jobs: seq<Job>)
    requires OwnInv(w) && AllTyped(w, jobs)
    decreases |jobs|
  {
    jobs == [] || (&& CommitsClosed(w.tracker, jobs[0].command)
                   && (StepKeepsOwned(w, jobs[0].command, jobs[0].outcomes);
                       AllClosed(Step(w, jobs[0].command, jobs[0].outcomes), jobs[1..])))
  }

  /** The flags mirror the trace now and after every command of the run. */
  ghost predicate MirrorsThroughout(w: World, jobs: seq<Job>)
    requires OwnInv(w) && AllTyped(w, jobs)
    decreases |jobs|
  {
    && Mirrors(w.tracker, w.trace)
    && (jobs == [] || (StepKeepsOwned(w, jobs[0].command, jobs[0].outcomes);
                       MirrorsThroughout(Step(w, jobs[0].command, jobs[0].outcomes), jobs[1..])))
  }

  lemma {:induction false} RunMirrors(w: World, jobs: seq<Job>)
    requires OwnInv(w) && PassInv(w) && AllTyped(w, jobs)
    ensures MirrorsThroughout(w, jobs) <==> AllClosed(w, jobs)
    decreases |jobs|
  {
    hide Step, OwnInv, Typed, CommitsClosed, KindsMatch, PassOpen, Mirrors;
    if jobs != [] {
      Unfold(w);
      StepMirrors(w, jobs[0].command, jobs[0].outcomes);
      if CommitsClosed(w.tracker, jobs[0].command) {
        RunMirrors(Step(w, jobs[0].command, jobs[0].outcomes), jobs[1..]);
      }
    }
  }

  lemma StartPasses()
    ensures PassInv(Start())
  {
    StartOwned();
  }

  /** Over a run from the start: the flags of all command buffers in use mirror the trace
      after every command if and only if no commit meets an open pass; and at the end of
      any run they do if and only if no buffer in use is stale. */
  lemma MirrorExactly(jobs: seq<Job>)
    requires OwnInv(Start()) && AllTyped(Start(), jobs)
    ensures MirrorsThroughout(Start(), jobs) <==> AllClosed(Start(), jobs)
    ensures var w := Ownership.Run(Start(), jobs);
            Mirrors(w.tracker, w.trace)
            <==> forall i :: 0 <= i < |w.tracker.entries| && w.tracker.entries[i].inUse
                             && w.tracker.entries[i].payload.CmdBufPayload? ==>
                   !PhaseAfter(Start(), jobs, w.tracker.entries[i].payload.cmdBuf, Shut).Stale?
  {
    hide Ownership.Run, OwnInv, AllTyped, AllClosed, MirrorsThroughout, PassInv, PhaseAfter, Requested, NoStaleEnd,
         PassOpen;
    StartPasses();
    RunMirrors(Start(), jobs);
    forall x ensures InPhase(Ownership.Run(Start(), jobs), x, PhaseAfter(Start(), jobs, x, Shut)) {
      StartPhase(x);
      RunPasses(Start(), jobs, x, Shut);
    }
  }
}
