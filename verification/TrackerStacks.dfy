/** Last-in-first-out use of the tracker never breaks a probe chain. */
module TrackerStacks {
  import opened Words
  import opened Options
  import opened Hash
  import opened Vulkan
  import opened Tracker
  import opened TrackerRuns

  function Occupied(slots: seq<u32>): (n: nat)
    ensures n <= |slots|
    ensures n == |slots| ==> forall s :: 0 <= s < |slots| ==> slots[s] != EMPTY
    ensures n < |slots| ==> exists s :: 0 <= s < |slots| && slots[s] == EMPTY
  {
    if slots == [] then 0
    else
      var last := |slots| - 1;
      Occupied(slots[..last]) + (if slots[last] == EMPTY then 0 else 1)
  }

  lemma {:induction false} OccupiedUpdate(slots: seq<u32>, s: nat, v: u32)
    requires s < |slots|
    ensures Occupied(slots[s := v])
            == Occupied(slots) - (if slots[s] == EMPTY then 0 else 1) + (if v == EMPTY then 0 else 1)
    decreases |slots|
  {
    var last := |slots| - 1;
    if s < last {
      OccupiedUpdate(slots[..last], s, v);
      assert slots[s := v][..last] == slots[..last][s := v];
    } else {
      assert slots[s := v][..last] == slots[..last];
    }
  }

  lemma {:induction false} NoneOccupied(slots: seq<u32>)
    requires forall s :: 0 <= s < |slots| ==> slots[s] == EMPTY
    ensures Occupied(slots) == 0
  {
    if slots != [] { NoneOccupied(slots[..|slots| - 1]); }
  }

  /** The slot where `h` is found. */
  function SlotOf(t: Table, h: u32): nat
    requires Sized(t)
  {
    if Find(t, h, 0).Some? then FoundSlot(t, h) else TABLE
  }

  /** `stack` lists the live handles, oldest first; no slot lies on the path of a handle
      older than its own. */
  ghost predicate Stacked(t: Table, stack: seq<u32>) {
    && Good(t)
    && Occupied(t.slots) == t.count
    && (forall j :: 0 <= j < |stack| ==> Get(t, stack[j]).Some?)
    && (forall i :: 0 <= i < POOL && t.entries[i].inUse ==> t.entries[i].handle in stack)
    && (forall i, j :: 0 <= i < j < |stack| ==>
          stack[i] != stack[j] && !OnPath(SlotOf(t, stack[j]), stack[i], SlotOf(t, stack[i])))
  }

  lemma StackedStart()
    ensures Stacked(Initial(), [])
  {
    hide PoolInv, Occupied, OnPath;
    InitialPool();
    var t, free := Initial(), seq(POOL, i => i);
    NoneOccupied(t.slots);
    assert PoolInv(t, free);
  }

  lemma TopCrossesNobody(t: Table, stack: seq<u32>)
    requires Stacked(t, stack) && stack != []
    ensures Find(t, stack[|stack| - 1], 0).Some?
    ensures !Crosses(t, FoundSlot(t, stack[|stack| - 1]))
  {
    hide PathsFull, Indexed, PoolOk, OnPath, Find, Get, FoundSlot;
    var h := stack[|stack| - 1];
    RemoveShape(t, h);
    forall e | 0 <= e < TABLE && e != FoundSlot(t, h) && t.slots[e] != EMPTY
      ensures !OnPath(FoundSlot(t, h), HandleIn(t, e), e)
    {
      OlderIsNotCrossed(t, stack, e);
    }
  }

  /** Any other occupied slot belongs to an older handle, whose path the top one is off. */
  lemma OlderIsNotCrossed(t: Table, stack: seq<u32>, e: nat)
    requires Stacked(t, stack) && stack != [] && e < TABLE && t.slots[e] != EMPTY
    requires Find(t, stack[|stack| - 1], 0).Some? && e != FoundSlot(t, stack[|stack| - 1])
    ensures !OnPath(FoundSlot(t, stack[|stack| - 1]), HandleIn(t, e), e)
  {
    hide PathsFull, Indexed, PoolOk, OnPath, Find, Get, FoundSlot;
    GoodFinds(t, e);
    assert t.entries[t.slots[e]].handle in stack;
    var i :| 0 <= i < |stack| && stack[i] == HandleIn(t, e);
    assert i < |stack| - 1;
  }

  lemma SlotStays(t: Table, t': Table, s: nat)
    requires Good(t) && Good(t') && s < TABLE && t.slots[s] != EMPTY && t'.slots[s] == t.slots[s]
    requires t'.entries[t.slots[s]] == t.entries[t.slots[s]]
    ensures SlotOf(t', HandleIn(t, s)) == SlotOf(t, HandleIn(t, s)) == s
    ensures Get(t', HandleIn(t, s)).Some?
  {
    hide PathsFull, Indexed, PoolOk;
    GoodFinds(t, s);
    GoodFinds(t', s);
  }

  lemma PopKeepsStack(t: Table, stack: seq<u32>)
    requires Stacked(t, stack) && stack != []
    ensures Sized(t) && Stacked(Remove(t, stack[|stack| - 1]), stack[..|stack| - 1])
  {
    hide PathsFull, Indexed, PoolOk, Get, Find, OnPath, Crosses, Remove, SlotsInv;
    var h, rest := stack[|stack| - 1], stack[..|stack| - 1];
    TopCrossesNobody(t, stack);
    RemoveShape(t, h);
    RemoveStaysGoodExactly(t, h);
    var s, t' := FoundSlot(t, h), Remove(t, h);
    OccupiedUpdate(t.slots, s, EMPTY);
    forall j | 0 <= j < |rest| ensures Get(t', rest[j]).Some? && SlotOf(t', rest[j]) == SlotOf(t, rest[j]) {
      RemoveShape(t, rest[j]);
      SlotStays(t, t', FoundSlot(t, rest[j]));
    }
    forall i | 0 <= i < POOL && t'.entries[i].inUse ensures t'.entries[i].handle in rest {
      LeftIsOlder(t, stack, i);
    }
  }

  lemma LeftIsOlder(t: Table, stack: seq<u32>, i: nat)
    requires Stacked(t, stack) && stack != [] && i < POOL && t.entries[i].inUse
    requires Get(t, stack[|stack| - 1]) != Some(i)
    ensures t.entries[i].handle in stack[..|stack| - 1]
  {
    hide PathsFull, Indexed, PoolOk, Get, Find, OnPath, Occupied;
    GetIsLookup(t, stack[|stack| - 1], i);
    var j :| 0 <= j < |stack| && stack[j] == t.entries[i].handle;
    assert stack[..|stack| - 1][j] == stack[j];
  }

  /** The slot a new handle gets, and that it is where it will be found. */
  lemma NewSlot(t: Table, h: u32, kind: Kind) returns (s: nat)
    requires Good(t) && CanAdd(t, h) && HasEmptySlot(t)
    ensures s < TABLE && t.slots[s] == EMPTY && t.freeHead < POOL && !t.entries[t.freeHead].inUse
    ensures var t' := Add(t, h, kind).0;
            && Good(t') && t'.slots == t.slots[s := t.freeHead] && t'.count == t.count + 1
            && t'.entries == t.entries[t.freeHead := Entry(h, kind, 1, true, NoPayload)]
            && Get(t', h).Some? && SlotOf(t', h) == s
  {
    hide PathsFull, Indexed, PoolOk, Get, Find, OnPath;
    AddedShape(t, h, kind);
    AddToEmptySlot(t, h, kind);
    FirstEmptyExactly(t, HashHandle(h));
    s := Probe(HashHandle(h), FirstEmpty(t, HashHandle(h), 0).value);
    GoodFinds(Add(t, h, kind).0, s);
  }

  lemma PushKeepsStack(t: Table, stack: seq<u32>, h: u32, kind: Kind)
    requires Stacked(t, stack) && CanAdd(t, h) && t.count < TABLE
    ensures HasEmptySlot(t) && Stacked(Add(t, h, kind).0, stack + [h])
  {
    hide PathsFull, Indexed, PoolOk, Get, Find, OnPath, Add, SlotOf;
    var s := NewSlot(t, h, kind);
    var t' := Add(t, h, kind).0;
    OccupiedUpdate(t.slots, s, t.freeHead);
    forall j | 0 <= j < |stack|
      ensures stack[j] != h && Get(t', stack[j]).Some? && SlotOf(t', stack[j]) == SlotOf(t, stack[j])
      ensures !OnPath(s, stack[j], SlotOf(t, stack[j]))
    {
      OldSlotKept(t, t', s, stack[j]);
    }
  }

  lemma OldSlotKept(t: Table, t': Table, s: nat, k: u32)
    requires Good(t) && Good(t') && Get(t, k).Some? && s < TABLE && t.slots[s] == EMPTY
    requires t.freeHead < POOL && !t.entries[t.freeHead].inUse
    requires t'.slots == t.slots[s := t.freeHead]
    requires forall i :: 0 <= i < POOL && i != t.freeHead ==> t'.entries[i] == t.entries[i]
    ensures Get(t', k).Some? && SlotOf(t', k) == SlotOf(t, k) && !OnPath(s, k, SlotOf(t, k))
  {
    hide PathsFull, Indexed, PoolOk, Get, Find, OnPath;
    RemoveShape(t, k);
    SlotStays(t, t', FoundSlot(t, k));
    EmptyIsOffPath(t, s, FoundSlot(t, k));
  }

  lemma EmptyIsOffPath(t: Table, s: nat, e: nat)
    requires Good(t) && s < TABLE && e < TABLE && t.slots[s] == EMPTY && t.slots[e] != EMPTY
    ensures !OnPath(s, HandleIn(t, e), e)
  {
  }

  /** Each accepted add finds fewer live handles than slots, and each remove that finds its
      handle takes the youngest live one. */
  ghost predicate LastInFirstOut(t: Table, stack: seq<u32>, ops: seq<Op>)
    requires PoolOk(t)
    decreases |ops|
  {
    ops == [] || (PoolFacts(t); ApplyKeepsPoolOk(t, ops[0]);
      match ops[0]
      case AddOp(h, _) =>
        && (CanAdd(t, h) ==> t.count < TABLE)
        && LastInFirstOut(Apply(t, ops[0]), if CanAdd(t, h) then stack + [h] else stack, ops[1..])
      case RemoveOp(h) =>
        && (Get(t, h).Some? ==> stack != [] && stack[|stack| - 1] == h)
        && LastInFirstOut(Apply(t, ops[0]),
                          if Get(t, h).Some? && stack != [] then stack[..|stack| - 1] else stack, ops[1..]))
  }

  /** Last-in-first-out runs are smooth, so in them the tracker is a finite map. */
  lemma {:induction false} StackRunsAreSmooth(t: Table, stack: seq<u32>, ops: seq<Op>)
    requires PoolOk(t) && Stacked(t, stack) && LastInFirstOut(t, stack, ops)
    ensures SmoothRun(t, ops)
    decreases |ops|
  {
    if ops != [] {
      ApplyKeepsPoolOk(t, ops[0]);
      match ops[0] {
        case AddOp(h, kind) =>
          if CanAdd(t, h) { PushKeepsStack(t, stack, h, kind); }
          StackRunsAreSmooth(Apply(t, ops[0]), if CanAdd(t, h) then stack + [h] else stack, ops[1..]);
        case RemoveOp(h) =>
          if Get(t, h).Some? {
            TopCrossesNobody(t, stack);
            PopKeepsStack(t, stack);
            StackRunsAreSmooth(Apply(t, ops[0]), stack[..|stack| - 1], ops[1..]);
          } else {
            RemoveAbsent(t, h);
            StackRunsAreSmooth(Apply(t, ops[0]), stack, ops[1..]);
          }
      }
    }
  }

  lemma {:induction false} AddsAreAStack(t: Table, stack: seq<u32>, ops: seq<Op>)
    requires PoolOk(t) && Sized(t) && t.count + |ops| <= TABLE
    requires forall k :: 0 <= k < |ops| ==> ops[k].AddOp?
    ensures LastInFirstOut(t, stack, ops)
    decreases |ops|
  {
    if ops != [] {
      var h, kind := ops[0].handle, ops[0].kind;
      ApplyKeepsPoolOk(t, ops[0]);
      if CanAdd(t, h) { AddedShape(t, h, kind); }
      AddsAreAStack(Apply(t, ops[0]), if CanAdd(t, h) then stack + [h] else stack, ops[1..]);
    }
  }

  /** From init, each lookup of a last-in-first-out run answers as the map, at every point. */
  lemma StackRunsAreAMap(ops: seq<Op>)
    requires PoolOk(Initial()) && LastInFirstOut(Initial(), [], ops)
    ensures AgreesThroughout(Initial(), map[], ops)
  {
    StackedStart();
    StackRunsAreSmooth(Initial(), [], ops);
    MapExactlyWhenSmooth(ops);
  }

  /** Up to 4096 adds and nothing else: every lookup answers as the map. */
  lemma AddOnlyRunsAreAMap(ops: seq<Op>, h: u32)
    requires |ops| <= TABLE && forall k :: 0 <= k < |ops| ==> ops[k].AddOp?
    ensures PoolOk(Initial())
    ensures KindOf(Run(Initial(), ops), h) == Lookup(MapRun(map[], ops), h)
  {
    StackedStart();
    AddsAreAStack(Initial(), [], ops);
    StackRunsAreSmooth(Initial(), [], ops);
    SmoothRunsAreAMap(ops, h);
  }
}
