/** Runs in which the tracker loses a handle: the two exceptions of TrackerRuns, reached. */
module TrackerLosses {
  import opened Words
  import opened Options
  import opened Hash
  import opened Tracker
  import opened TrackerRuns
  import opened TrackerScopes
  import opened TrackerStacks

  // ---- a broken chain ----

  lemma InitialIsGood(h: u32)
    ensures PoolOk(Initial()) && Good(Initial()) && Get(Initial(), h).None?
    ensures HasEmptySlot(Initial())
  {
    hide PoolInv, Probe, HashHandle;
    InitialAbstracts();
    FindMisses(Initial(), h, 0);
    assert Initial().slots[0] == EMPTY;
  }

  /** The first add of a run sits in the handle's home slot. */
  lemma FirstAdd(a: u32, ka: Kind)
    requires a != INVALID_HANDLE
    ensures PoolOk(Initial()) && CanAdd(Initial(), a)
    ensures var t := Add(Initial(), a, ka).0;
            && PoolOk(t) && Good(t) && t.count == 1 && HasEmptySlot(t)
            && Find(t, a, 0) == Some(0)
            && (forall b :: b != a && b != INVALID_HANDLE ==> CanAdd(t, b))
  {
    hide PoolInv, Probe, ProbeOf, HashHandle, Get, Find, PathsFull, Indexed;
    var t0, t := Initial(), Add(Initial(), a, ka).0;
    InitialIsGood(a);
    var free :| PoolInv(t0, free);
    assert FirstEmpty(t0, HashHandle(a), 0) == Some(0);
    AddedIsFoundInItsSlot(t0, free, a, ka);
    AddToEmptySlot(t0, a, ka);
    AddedShape(t0, a, ka);
    PoolExhausted(t);
    var s: nat := if Probe(HashHandle(a), 0) == 0 then 1 else 0;
    assert t.slots[s] == EMPTY;
    forall b | b != a && b != INVALID_HANDLE ensures CanAdd(t, b) {
      if Get(t, b).Some? { GetIsLookup(t, b, Get(t, b).value); }
    }
  }

  /** Any two handles that share a home slot: adding both and removing the first loses the
      second, although it was never removed. */
  lemma CollisionLosesAHandle(a: u32, ka: Kind, b: u32, kb: Kind)
    requires a != b && a != INVALID_HANDLE && b != INVALID_HANDLE && HashHandle(a) == HashHandle(b)
    ensures PoolOk(Initial())
    ensures var adds := [AddOp(a, ka), AddOp(b, kb)];
            && Get(Run(Initial(), adds), a).Some? && Get(Run(Initial(), adds), b).Some?
            && Get(Run(Initial(), adds + [RemoveOp(a)]), b) == None
            && !SmoothRun(Initial(), adds + [RemoveOp(a)])
  {
    hide PoolInv, Probe, ProbeOf, HashHandle, Good, Find, FirstEmpty, Get, CanAdd, Run, SmoothRun;
    var adds := [AddOp(a, ka), AddOp(b, kb)];
    FirstAdd(a, ka);
    var t1 := Add(Initial(), a, ka).0;
    var t2 := Add(t1, b, kb).0;
    TwoAdds(t1, a, b, kb);
    ApplyKeepsPoolOk(Initial(), adds[0]);
    ApplyKeepsPoolOk(t1, adds[1]);
    RunOne(Initial(), adds[0]);
    RunOne(t1, adds[1]);
    RunAppend(Initial(), [adds[0]], [adds[1]]);
    assert [adds[0]] + [adds[1]] == adds;
    RunAppend(Initial(), adds, [RemoveOp(a)]);
    RunOne(t2, RemoveOp(a));
    RemoveHidesExactlyCrossedHandles(t2, a, b);
    MapDisagrees(adds + [RemoveOp(a)], b, kb);
  }

  /** Behind `a` in its home slot, `b` goes further along the same probe sequence. */
  lemma TwoAdds(t: Table, a: u32, b: u32, kb: Kind)
    requires PoolOk(t) && Good(t) && HasEmptySlot(t) && a != b && HashHandle(a) == HashHandle(b)
    requires a != INVALID_HANDLE && Find(t, a, 0) == Some(0) && CanAdd(t, b)
    ensures var u := Add(t, b, kb).0;
            && PoolOk(u) && Sized(u) && Get(u, a).Some? && Get(u, b).Some?
            && OnPath(FoundSlot(u, a), b, FoundSlot(u, b))
  {
    hide PoolInv, ProbeOf, Probe, HashHandle, PathsFull, Indexed;
    var free :| PoolInv(t, free);
    FirstEmptyExactly(t, HashHandle(b));
    AddedIsFoundInItsSlot(t, free, b, kb);
    AddedShape(t, b, kb);
    var u, e := Add(t, b, kb).0, FirstEmpty(t, HashHandle(b), 0).value;
    FindHits(t, a, 0);
    assert SlotHolds(u, Probe(HashHandle(a), 0), a);
    FindReaches(u, a, 0, 0);
    ProbesCoverTable(HashHandle(b), Probe(HashHandle(b), e), e);
    ProbesCoverTable(HashHandle(b), Probe(HashHandle(b), 0), 0);
  }

  lemma MapDisagrees(ops: seq<Op>, b: u32, kb: Kind)
    requires PoolOk(Initial()) && |ops| == 3 && ops[0].AddOp? && ops[2].RemoveOp? && ops[1] == AddOp(b, kb)
    requires ops[0].handle != b && ops[2].handle != b && b != INVALID_HANDLE
    requires Sized(Run(Initial(), ops)) && Get(Run(Initial(), ops), b) == None
    ensures !SmoothRun(Initial(), ops)
  {
    hide Run, SmoothRun, Get;
    MapExactlyWhenSmooth(ops);
    assert ops[..|ops|] == ops;
    MapOfThree(map[], ops, b, kb);
    assert KindOf(Run(Initial(), ops), b) != Lookup(MapRun(map[], ops), b);
    assert !Agrees(Run(Initial(), ops[..|ops|]), MapRun(map[], ops[..|ops|]));
  }

  lemma MapOfThree(m: map<u32, Kind>, ops: seq<Op>, b: u32, kb: Kind)
    requires |ops| == 3 && m == map[] && ops[0].AddOp? && ops[2].RemoveOp? && ops[1] == AddOp(b, kb)
    requires ops[0].handle != b && ops[2].handle != b && b != INVALID_HANDLE
    ensures b in MapRun(m, ops)
  {
    var m1 := MapApply(m, ops[0]);
    assert |m1| <= 1;
    var m2 := MapApply(m1, ops[1]);
    var m3 := MapApply(m2, ops[2]);
    assert b in m3;
    assert ops[1..][1..] == [ops[2]] && [ops[2]][1..] == [];
    assert MapRun(m, ops) == MapRun(m1, ops[1..]) == MapRun(m2, [ops[2]]) == MapRun(m3, []);
  }

  /** Two such handles exist: the mix is a permutation, so any hash can be asked for. */
  lemma SomeHandlesCollide()
    ensures var a, b := Unmix(4096), Unmix(8192);
            a != b && a != INVALID_HANDLE && b != INVALID_HANDLE && HashHandle(a) == HashHandle(b) == 0
  {
    hide Mix, Unmix;
    MixIsAPermutation(4096);
    MixIsAPermutation(8192);
    MixOfZero();
    Pow2At32();
    AndLowBits(4096, 12);
    AndLowBits(8192, 12);
  }

  lemma MixOfZero()
    ensures Mix(0) == 0
  {
  }

  /** A lookup fails after three operations from init. */
  lemma ARemoveCanLoseAnotherHandle()
    ensures PoolOk(Initial())
    ensures exists a, b :: a != b && Get(Run(Initial(), [AddOp(a, Buffer), AddOp(b, Buffer)]), b).Some?
              && Get(Run(Initial(), [AddOp(a, Buffer), AddOp(b, Buffer), RemoveOp(a)]), b) == None
  {
    hide Unmix, Run, Get, HashHandle;
    SomeHandlesCollide();
    var a, b := Unmix(4096), Unmix(8192);
    CollisionLosesAHandle(a, Buffer, b, Buffer);
    assert [AddOp(a, Buffer), AddOp(b, Buffer)] + [RemoveOp(a)] == [AddOp(a, Buffer), AddOp(b, Buffer), RemoveOp(a)];
  }

  // ---- a full table ----

  function Adds(hs: seq<u32>, kind: Kind): (ops: seq<Op>)
    ensures |ops| == |hs|
  {
    seq(|hs|, k requires 0 <= k < |hs| => AddOp(hs[k], kind))
  }

  predicate Distinct(hs: seq<u32>) {
    forall j, k :: 0 <= j < k < |hs| ==> hs[j] != hs[k]
  }

  /** New handles are all accepted, each in a slot of its own, until the table is full. */
  lemma {:induction false} AddsFill(t: Table, stack: seq<u32>, hs: seq<u32>, kind: Kind)
    requires PoolOk(t) && Stacked(t, stack) && t.count + |hs| <= TABLE
    requires Distinct(stack + hs) && INVALID_HANDLE !in hs
    ensures var u := Run(t, Adds(hs, kind));
            PoolOk(u) && Stacked(u, stack + hs) && u.count == t.count + |hs|
    decreases |hs|
  {
    hide Stacked, PoolOk, Run, CanAdd, Add, Distinct, Adds;
    if hs == [] {
      assert stack + hs == stack;
      NoAdds(t, hs, kind);
    } else {
      var op, rest := AddOp(hs[0], kind), hs[1..];
      FirstIsNew(stack, hs);
      NewCanAdd(t, stack, hs[0]);
      PushKeepsStack(t, stack, hs[0], kind);
      AddedShape(t, hs[0], kind);
      ApplyKeepsPoolOk(t, op);
      AddsFill(Apply(t, op), stack + [hs[0]], rest, kind);
      RunOne(t, op);
      RunAppend(t, [op], Adds(rest, kind));
      OneAddFirst(hs, kind);
    }
  }

  lemma NoAdds(t: Table, hs: seq<u32>, kind: Kind)
    requires PoolOk(t) && hs == []
    ensures Run(t, Adds(hs, kind)) == t
  {
  }

  lemma OneAddFirst(hs: seq<u32>, kind: Kind)
    requires hs != []
    ensures Adds(hs, kind) == [AddOp(hs[0], kind)] + Adds(hs[1..], kind)
  {
  }

  lemma FirstIsNew(stack: seq<u32>, hs: seq<u32>)
    requires Distinct(stack + hs) && hs != []
    ensures forall j :: 0 <= j < |stack| ==> stack[j] != hs[0]
    ensures (stack + [hs[0]]) + hs[1..] == stack + hs
  {
    forall j | 0 <= j < |stack| ensures stack[j] != hs[0] {
      assert (stack + hs)[j] != (stack + hs)[|stack|];
    }
  }

  lemma NewCanAdd(t: Table, stack: seq<u32>, h: u32)
    requires PoolOk(t) && Stacked(t, stack) && t.count <= TABLE
    requires h != INVALID_HANDLE && forall j :: 0 <= j < |stack| ==> stack[j] != h
    ensures Sized(t) && CanAdd(t, h)
  {
    hide PoolInv, PathsFull, Indexed, Occupied, OnPath;
    PoolExhausted(t);
  }

  /** After 4096 adds of distinct handles one more is accepted and cannot be found. */
  lemma FullTableLosesTheNext(hs: seq<u32>, kind: Kind)
    requires |hs| == TABLE + 1 && Distinct(hs) && INVALID_HANDLE !in hs
    ensures PoolOk(Initial())
    ensures var t := Run(Initial(), Adds(hs[..TABLE], kind));
            && Sized(t) && CanAdd(t, hs[TABLE])
            && Add(t, hs[TABLE], kind).1.Some?
            && Sized(Add(t, hs[TABLE], kind).0) && Get(Add(t, hs[TABLE], kind).0, hs[TABLE]) == None
  {
    hide Stacked, PoolInv, Run, CanAdd, Get, Find;
    InitialAbstracts();
    StackedStart();
    var front := hs[..TABLE];
    assert [] + front == front;
    AddsFill(Initial(), [], front, kind);
    var t := Run(Initial(), Adds(front, kind));
    NewCanAdd(t, front, hs[TABLE]);
    NoSlotLeft(t, front);
    AddedShape(t, hs[TABLE], kind);
    AddIsFoundExactly(t, hs[TABLE], kind);
  }

  lemma NoSlotLeft(t: Table, stack: seq<u32>)
    requires Stacked(t, stack) && t.count == TABLE
    ensures Sized(t) && !HasEmptySlot(t)
  {
    hide PoolInv, PathsFull, Indexed, OnPath;
  }

  /** An add from the 4097th on is accepted and lost: handles 1, 2, .., 4097 do it. */
  lemma AnAcceptedAddCanBeLost()
    ensures PoolOk(Initial())
    ensures exists ops, h :: Sized(Run(Initial(), ops)) && Add(Run(Initial(), ops), h, Buffer).1.Some?
              && Sized(Add(Run(Initial(), ops), h, Buffer).0)
              && Get(Add(Run(Initial(), ops), h, Buffer).0, h) == None
  {
    hide Run, Add, Get, PoolInv;
    var hs: seq<u32> := seq(TABLE + 1, k requires 0 <= k < TABLE + 1 => k + 1);
    FullTableLosesTheNext(hs, Buffer);
    assert Add(Run(Initial(), Adds(hs[..TABLE], Buffer)), hs[TABLE], Buffer).1.Some?;
  }
}
