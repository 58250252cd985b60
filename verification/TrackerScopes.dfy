/** Undoing an add, and the runs that are smooth by their shape. */
module TrackerScopes {
  import opened Words
  import opened Hash
  import opened Tracker
  import opened TrackerRuns

  /** Equal but for the dead fields of unused entries. */
  ghost predicate Same(t: Table, u: Table) {
    && Sized(t) && Sized(u)
    && t.slots == u.slots && t.count == u.count && t.freeHead == u.freeHead
    && (forall i :: 0 <= i < POOL ==>
          && t.entries[i].inUse == u.entries[i].inUse
          && t.entries[i].refCount == u.entries[i].refCount
          && (t.entries[i].inUse ==> t.entries[i] == u.entries[i]))
  }

  lemma SamePool(t: Table, u: Table, free: seq<nat>)
    requires Same(t, u) && PoolInv(t, free)
    ensures PoolInv(u, free)
  {
  }

  lemma {:induction false} SameFind(t: Table, u: Table, h: u32, p: nat)
    requires Same(t, u)
    ensures Find(t, h, p) == Find(u, h, p)
    decreases TABLE - p
  {
    if p < TABLE { SameFind(t, u, h, p + 1); }
  }

  /** Tables that are the same answer every lookup alike. */
  lemma SameGet(t: Table, u: Table, h: u32)
    requires Same(t, u)
    ensures Get(t, h) == Get(u, h)
  {
    SameFind(t, u, h, 0);
  }

  lemma SameRemove(t: Table, u: Table, h: u32)
    requires Same(t, u)
    ensures Sized(Remove(t, h)) ==> Same(Remove(t, h), Remove(u, h)) && Same(Remove(u, h), Remove(t, h))
  {
    SameFind(t, u, h, 0);
    if h != INVALID_HANDLE && Find(t, h, 0).Some? {
      assert FoundSlot(t, h) == FoundSlot(u, h);
    }
  }

  /** An accepted add with an empty slot, undone at once, restores hash table, free-list
      order, count and every lookup, whatever the state of the other probe chains. */
  lemma RemoveUndoesAdd(t: Table, free: seq<nat>, h: u32, kind: Kind)
    requires PoolInv(t, free) && CanAdd(t, h) && FirstEmpty(t, HashHandle(h), 0).Some?
    ensures Sized(Add(t, h, kind).0)
    ensures Same(Remove(Add(t, h, kind).0, h), t)
    ensures PoolInv(Remove(Add(t, h, kind).0, h), free)
  {
    hide FreeList, Probe, HashHandle, Find, FirstEmpty, Get, SlotsInv;
    AddedIsFoundInItsSlot(t, free, h, kind);
    FreeBounds(t, free);
    var t1 := Add(t, h, kind).0;
    var s := Probe(HashHandle(h), FirstEmpty(t, HashHandle(h), 0).value);
    RemoveKeepsPool(t1, free[1..], h);
    assert [free[0]] + free[1..] == free;
    Unlinked(t, t1, Remove(t1, h), s, free[0]);
  }

  /** The table after the pair, field by field. */
  lemma Unlinked(t: Table, t1: Table, t2: Table, s: nat, idx: nat)
    requires Sized(t) && Sized(t1) && Sized(t2) && s < TABLE && idx < POOL
    requires !t.entries[idx].inUse && t.freeHead == idx && t.slots[s] == EMPTY
    requires t1.slots == t.slots[s := idx] && t2.slots == t1.slots[s := EMPTY]
    requires t1.freeHead == t.entries[idx].refCount && t2.freeHead == idx
    requires t1.count == t.count + 1 && t2.count == t1.count - 1
    requires t1.entries == t.entries[idx := t1.entries[idx]]
    requires t2.entries == t1.entries[idx := t2.entries[idx]]
    requires !t2.entries[idx].inUse && t2.entries[idx].refCount == t1.freeHead
    ensures Same(t2, t)
  {
  }

  // ---- well-nested scopes ----

  /** add(handle); inner; remove(handle); next. */
  datatype Scope = Nothing | Around(handle: u32, kind: Kind, inner: Scope, next: Scope)

  function Ops(sc: Scope): seq<Op> {
    match sc
    case Nothing => []
    case Around(h, kind, inner, next) => [AddOp(h, kind)] + Ops(inner) + [RemoveOp(h)] + Ops(next)
  }

  /** Every add of the scope is accepted and finds an empty slot. */
  ghost predicate Clean(t: Table, sc: Scope)
    requires PoolOk(t)
    decreases sc
  {
    match sc
    case Nothing => true
    case Around(h, kind, inner, next) =>
      var t1 := Run(t, [AddOp(h, kind)]);
      && AcceptsAdd(t, h)
      && Clean(t1, inner)
      && Clean(Run(Run(t1, Ops(inner)), [RemoveOp(h)]), next)
  }

  ghost predicate AcceptsAdd(t: Table, h: u32) {
    Sized(t) && CanAdd(t, h) && HasEmptySlot(t)
  }

  lemma RunOne(t: Table, op: Op)
    requires PoolOk(t)
    ensures Sized(t) && Run(t, [op]) == Apply(t, op)
  {
    ApplyKeepsPoolOk(t, op);
    assert [op][1..] == [];
    assert Run(Apply(t, op), []) == Apply(t, op);
  }

  lemma {:induction false} RunAppend(t: Table, p: seq<Op>, q: seq<Op>)
    requires PoolOk(t)
    ensures Run(t, p + q) == Run(Run(t, p), q)
    decreases |p|
  {
    if p == [] {
      assert p + q == q;
    } else {
      ApplyKeepsPoolOk(t, p[0]);
      assert (p + q)[1..] == p[1..] + q;
      RunAppend(Apply(t, p[0]), p[1..], q);
    }
  }

  /** Any well-nested sequence of add/remove pairs returns the tracker to where it began:
      same slots, free list, count and live entries. */
  lemma {:induction false} ScopesRestore(t: Table, free: seq<nat>, sc: Scope)
    requires PoolOk(t) && PoolInv(t, free) && Clean(t, sc)
    ensures Same(Run(t, Ops(sc)), t) && PoolInv(Run(t, Ops(sc)), free)
    decreases sc
  {
    hide PoolInv, PoolOk, Same, Run, CanAdd, HasEmptySlot;
    match sc
    case Nothing =>
      SameAsItself(t, free);
    case Around(h, kind, inner, next) =>
      var t1 := Run(t, [AddOp(h, kind)]);
      PairInner(t, free, h, kind);
      ScopesRestore(t1, free[1..], inner);
      var t2 := Run(t1, Ops(inner));
      var t3 := Run(t2, [RemoveOp(h)]);
      PairOuter(t, free, h, kind, t1, t2);
      ScopesRestore(t3, free, next);
      ScopeSteps(t, h, kind, Ops(inner), Ops(next));
      SameTransitive(Run(t3, Ops(next)), t3, t);
  }

  lemma SameAsItself(t: Table, free: seq<nat>)
    requires PoolOk(t) && PoolInv(t, free)
    ensures Same(Run(t, []), t) && PoolInv(Run(t, []), free)
  {
  }

  lemma SameTransitive(t: Table, u: Table, v: Table)
    requires Same(t, u) && Same(u, v)
    ensures Same(t, v)
  {
  }

  lemma PairInner(t: Table, free: seq<nat>, h: u32, kind: Kind)
    requires PoolOk(t) && PoolInv(t, free) && AcceptsAdd(t, h)
    ensures |free| > 0 && PoolInv(Run(t, [AddOp(h, kind)]), free[1..])
  {
    hide FreeList;
    RunOne(t, AddOp(h, kind));
    AddKeepsPool(t, free, h, kind);
  }

  lemma PairOuter(t: Table, free: seq<nat>, h: u32, kind: Kind, t1: Table, t2: Table)
    requires PoolOk(t) && PoolInv(t, free) && AcceptsAdd(t, h)
    requires t1 == Run(t, [AddOp(h, kind)]) && PoolOk(t2) && Same(t2, t1)
    ensures Same(Run(t2, [RemoveOp(h)]), t) && PoolInv(Run(t2, [RemoveOp(h)]), free)
  {
    hide FreeList, Run;
    RunOne(t, AddOp(h, kind));
    RunOne(t2, RemoveOp(h));
    FirstEmptyExactly(t, HashHandle(h));
    RemoveUndoesAdd(t, free, h, kind);
    SameRemove(t1, t2, h);
    SameTransitive(Remove(t2, h), Remove(t1, h), t);
    SamePool(Remove(t1, h), Remove(t2, h), free);
  }

  lemma ScopeSteps(t: Table, h: u32, kind: Kind, inner: seq<Op>, next: seq<Op>)
    requires PoolOk(t)
    ensures Run(t, [AddOp(h, kind)] + inner + [RemoveOp(h)] + next)
            == Run(Run(Run(Run(t, [AddOp(h, kind)]), inner), [RemoveOp(h)]), next)
  {
    hide Run, PoolOk;
    RunAppend(t, [AddOp(h, kind)] + inner + [RemoveOp(h)], next);
    RunAppend(t, [AddOp(h, kind)] + inner, [RemoveOp(h)]);
    RunAppend(t, [AddOp(h, kind)], inner);
  }
}
