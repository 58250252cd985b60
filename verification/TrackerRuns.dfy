/** Properties of whole runs of the resource tracker. */
module TrackerRuns {
  import opened Words
  import opened Options
  import opened Hash
  import opened Vulkan
  import opened Tracker

  datatype Op = AddOp(handle: u32, kind: Kind) | RemoveOp(handle: u32)

  function Apply(t: Table, op: Op): Table
    requires Sized(t)
  {
    match op
    case AddOp(h, kind) => Add(t, h, kind).0
    case RemoveOp(h) => Remove(t, h)
  }

  // ---- the pool, in every run ----

  lemma ApplyKeepsPool(t: Table, free: seq<nat>, op: Op) returns (free': seq<nat>)
    requires PoolInv(t, free)
    ensures PoolInv(Apply(t, op), free')
  {
    match op
    case AddOp(h, kind) =>
      AddKeepsPool(t, free, h, kind);
      free' := if CanAdd(t, h) then free[1..] else free;
    case RemoveOp(h) =>
      RemoveKeepsPool(t, free, h);
      free' := if h != INVALID_HANDLE && Find(t, h, 0).Some?
               then [t.slots[FoundSlot(t, h)] as nat] + free else free;
  }

  ghost predicate PoolOk(t: Table) { exists free :: PoolInv(t, free) }

  lemma ApplyKeepsPoolOk(t: Table, op: Op)
    requires PoolOk(t)
    ensures Sized(t) && PoolOk(Apply(t, op))
  {
    var free :| PoolInv(t, free);
    var free' := ApplyKeepsPool(t, free, op);
  }

  ghost function Run(t: Table, ops: seq<Op>): (r: Table)
    requires PoolOk(t)
    ensures PoolOk(r)
    decreases |ops|
  {
    if ops == [] then t
    else ApplyKeepsPoolOk(t, ops[0]); Run(Apply(t, ops[0]), ops[1..])
  }

  /** In every run, even one that breaks probe chains, some list of distinct indices is at
      once the free list and the set of unused entries; with the live count it accounts for
      the whole pool, and every occupied slot names its own entry in use. */
  lemma EveryRunKeepsThePool(ops: seq<Op>)
    ensures PoolOk(Initial())
    ensures exists free :: PoolInv(Run(Initial(), ops), free) && |free| + Run(Initial(), ops).count == 65536
    ensures |Run(Initial(), ops).entries| == 65536 && |Run(Initial(), ops).slots| == 4096
  {
    hide FreeList, SlotsInv, Run, Initial;
    InitialPool();
    var t := Run(Initial(), ops);
    assert PoolOk(t);
  }

  // ---- the table as a finite map ----

  predicate Live(t: Table, i: nat, h: u32)
    requires Sized(t)
  {
    i < POOL && t.entries[i].inUse && t.entries[i].handle == h
  }

  /** Slot `s` lies on the probe path of handle `h` strictly before `end`. */
  predicate OnPath(s: nat, h: u32, end: nat) {
    ProbeOf(HashHandle(h), s) < ProbeOf(HashHandle(h), end)
  }

  function HandleIn(t: Table, s: nat): u32
    requires Sized(t) && s < TABLE && t.slots[s] != EMPTY
  {
    t.entries[t.slots[s]].handle
  }

  /** Every slot on the probe path to an occupied slot is occupied. */
  ghost predicate PathsFull(t: Table)
    requires Sized(t)
  {
    forall r, s :: 0 <= r < TABLE && 0 <= s < TABLE && t.slots[s] != EMPTY && OnPath(r, HandleIn(t, s), s)
                   ==> t.slots[r] != EMPTY
  }

  /** No handle is live twice, and every live entry has a slot. */
  ghost predicate Indexed(t: Table)
    requires Sized(t)
  {
    && (forall i, j :: 0 <= i < j < POOL && t.entries[i].inUse && t.entries[j].inUse
                       ==> t.entries[i].handle != t.entries[j].handle)
    && (forall i :: 0 <= i < POOL && t.entries[i].inUse ==> i in t.slots)
  }

  ghost predicate Good(t: Table) { PoolOk(t) && Sized(t) && PathsFull(t) && Indexed(t) }

  lemma PoolFacts(t: Table)
    requires PoolOk(t)
    ensures Sized(t) && SlotsInv(t)
  {
  }

  lemma PathProbes(h: u32, s: nat, q: nat)
    requires s < TABLE && q < ProbeOf(HashHandle(h), s)
    ensures Probe(HashHandle(h), q) < TABLE && OnPath(Probe(HashHandle(h), q), h, s)
    ensures Probe(HashHandle(h), q) != s
    ensures Probe(HashHandle(h), ProbeOf(HashHandle(h), s)) == s
  {
    ProbesCoverTable(HashHandle(h), Probe(HashHandle(h), q), q);
    ProbesCoverTable(HashHandle(h), s, q);
    ProbesCoverTable(HashHandle(h), s, ProbeOf(HashHandle(h), s));
  }

  /** A handle sitting in slot `s` behind a full path is found there, when no other slot
      holds the same handle. */
  lemma FoundWhereItSits(t: Table, s: nat)
    requires Sized(t) && SlotsInv(t) && s < TABLE && t.slots[s] != EMPTY
    requires forall r :: 0 <= r < TABLE && r != s ==> !SlotHolds(t, r, HandleIn(t, s))
    requires forall r :: 0 <= r < TABLE && OnPath(r, HandleIn(t, s), s) ==> t.slots[r] != EMPTY
    ensures Find(t, HandleIn(t, s), 0) == Some(ProbeOf(HashHandle(HandleIn(t, s)), s))
    ensures Get(t, HandleIn(t, s)) == Some(t.slots[s] as nat)
    ensures FoundSlot(t, HandleIn(t, s)) == s
  {
    var h := HandleIn(t, s);
    var p := ProbeOf(HashHandle(h), s);
    ProbesCoverTable(HashHandle(h), s, p);
    forall q | 0 <= q < p
      ensures t.slots[Probe(HashHandle(h), q)] != EMPTY && !SlotHolds(t, Probe(HashHandle(h), q), h)
    {
      PathProbes(h, s, q);
    }
    FindReaches(t, h, 0, p);
  }

  lemma GoodFinds(t: Table, s: nat)
    requires Good(t) && s < TABLE && t.slots[s] != EMPTY
    ensures SlotsInv(t)
    ensures Get(t, HandleIn(t, s)) == Some(t.slots[s] as nat)
    ensures Find(t, HandleIn(t, s), 0).Some? && FoundSlot(t, HandleIn(t, s)) == s
  {
    PoolFacts(t);
    FoundWhereItSits(t, s);
  }

  /** On a good table, get answers exactly as the finite map of live handles. */
  lemma GetIsLookup(t: Table, h: u32, i: nat)
    requires Good(t)
    ensures Get(t, h) == Some(i) <==> Live(t, i, h)
  {
    PoolFacts(t);
    if Live(t, i, h) {
      var s :| 0 <= s < TABLE && t.slots[s] == i;
      GoodFinds(t, s);
    }
  }

  // ---- remove, exactly ----

  /** Vacating slot `s` crosses the probe path of another live handle. */
  ghost predicate Crosses(t: Table, s: nat)
    requires Sized(t)
  {
    exists e :: 0 <= e < TABLE && e != s && t.slots[e] != EMPTY && OnPath(s, HandleIn(t, e), e)
  }

  lemma RemoveShape(t: Table, h: u32)
    requires PoolOk(t) && Sized(t) && Get(t, h).Some?
    ensures Find(t, h, 0).Some? && Sized(Remove(t, h)) && PoolOk(Remove(t, h)) && SlotsInv(Remove(t, h))
    ensures var s := FoundSlot(t, h);
            && t.slots[s] != EMPTY && HandleIn(t, s) == h
            && Get(t, h) == Some(t.slots[s] as nat)
            && Remove(t, h).slots == t.slots[s := EMPTY]
            && (forall i :: 0 <= i < POOL && i != t.slots[s] ==> Remove(t, h).entries[i] == t.entries[i])
            && !Remove(t, h).entries[t.slots[s]].inUse
            && Remove(t, h).count == t.count - 1
  {
    ApplyKeepsPoolOk(t, RemoveOp(h));
    PoolFacts(Remove(t, h));
    var free :| PoolInv(t, free);
    UseMeansCounted(t, free, t.slots[FoundSlot(t, h)]);
  }

  /** After remove(h) empties slot s, another handle k keeps its entry if and only if s is
      not on the probe path from hash(k) to k's slot; otherwise get(k) returns NULL. Chains
      already broken, and handles live twice because of it, make no difference. */
  lemma RemoveHidesExactlyCrossedHandles(t: Table, h: u32, k: u32)
    requires PoolOk(t) && Sized(t) && Get(t, h).Some? && Get(t, k).Some? && k != h
    ensures Sized(Remove(t, h)) && Find(t, h, 0).Some? && Find(t, k, 0).Some?
    ensures var s, e := FoundSlot(t, h), FoundSlot(t, k);
            && (Get(Remove(t, h), k) == Get(t, k) <==> !OnPath(s, k, e))
            && (Get(Remove(t, h), k) == None <==> OnPath(s, k, e))
  {
    hide Probe, ProbeOf, HashHandle, PoolOk, Remove;
    RemoveShape(t, h);
    RemoveShape(t, k);
    PoolFacts(t);
    SlotGone(t, Remove(t, h), k, FoundSlot(t, h));
  }

  /** Emptying slot `s`, which does not hold `k`. */
  lemma SlotGone(t: Table, t': Table, k: u32, s: nat)
    requires Sized(t) && SlotsInv(t) && Sized(t') && Find(t, k, 0).Some?
    requires s < TABLE && t.slots[s] != EMPTY && !SlotHolds(t, s, k) && t'.slots == t.slots[s := EMPTY]
    requires forall i :: 0 <= i < POOL && i != t.slots[s] ==> t'.entries[i] == t.entries[i]
    ensures Find(t', k, 0) == if OnPath(s, k, FoundSlot(t, k)) then None else Find(t, k, 0)
    ensures t'.slots[FoundSlot(t, k)] == t.slots[FoundSlot(t, k)]
  {
    hide Probe, ProbeOf, HashHandle;
    var hash, f := HashHandle(k), Find(t, k, 0).value;
    FindHits(t, k, 0);
    ProbesCoverTable(hash, FoundSlot(t, k), f);
    forall r | 0 <= r < TABLE ensures SlotHolds(t', r, k) <==> SlotHolds(t, r, k) { }
    if OnPath(s, k, FoundSlot(t, k)) {
      ProbesCoverTable(hash, s, ProbeOf(hash, s));
      FindStops(t', k, 0, ProbeOf(hash, s));
      FindHits(t', k, 0);
    } else {
      forall q | 0 <= q < f
        ensures t'.slots[Probe(hash, q)] != EMPTY && !SlotHolds(t', Probe(hash, q), k)
      {
        ProbesCoverTable(hash, s, q);
      }
      FindReaches(t', k, 0, f);
    }
  }

  /** Removing keeps the table a faithful map exactly when the vacated slot crosses no
      other live handle's path. */
  lemma RemoveStaysGoodExactly(t: Table, h: u32)
    requires Good(t) && Get(t, h).Some?
    ensures Find(t, h, 0).Some?
    ensures Good(Remove(t, h)) <==> !Crosses(t, FoundSlot(t, h))
  {
    RemoveShape(t, h);
    PoolFacts(t);
    var s, t' := FoundSlot(t, h), Remove(t, h);
    if Crosses(t, s) {
      var e :| 0 <= e < TABLE && e != s && t.slots[e] != EMPTY && OnPath(s, HandleIn(t, e), e);
      assert t'.slots[s] == EMPTY && t'.slots[e] != EMPTY && HandleIn(t', e) == HandleIn(t, e);
      assert !PathsFull(t');
    } else {
      RemoveKeepsPaths(t, t', s);
      RemoveKeepsIndex(t, t', s);
    }
  }

  lemma RemoveKeepsPaths(t: Table, t': Table, s: nat)
    requires Sized(t) && Sized(t') && SlotsInv(t) && PathsFull(t) && s < TABLE && t.slots[s] != EMPTY
    requires t'.slots == t.slots[s := EMPTY] && !Crosses(t, s)
    requires forall i :: 0 <= i < POOL && i != t.slots[s] ==> t'.entries[i] == t.entries[i]
    ensures PathsFull(t')
  {
    forall r, e | 0 <= r < TABLE && 0 <= e < TABLE && t'.slots[e] != EMPTY && OnPath(r, HandleIn(t', e), e)
      ensures t'.slots[r] != EMPTY
    {
      assert HandleIn(t', e) == HandleIn(t, e);
    }
  }

  lemma RemoveKeepsIndex(t: Table, t': Table, s: nat)
    requires Sized(t) && Sized(t') && SlotsInv(t) && Indexed(t) && s < TABLE && t.slots[s] != EMPTY
    requires t'.slots == t.slots[s := EMPTY] && !t'.entries[t.slots[s]].inUse
    requires forall i :: 0 <= i < POOL && i != t.slots[s] ==> t'.entries[i] == t.entries[i]
    ensures Indexed(t')
  {
    forall i | 0 <= i < POOL && t'.entries[i].inUse
      ensures i in t'.slots
    {
      var e :| 0 <= e < TABLE && t.slots[e] == i;
      assert t'.slots[e] == i;
    }
  }

  // ---- add, exactly ----

  ghost predicate HasEmptySlot(t: Table)
    requires Sized(t)
  {
    exists s :: 0 <= s < TABLE && t.slots[s] == EMPTY
  }

  lemma FirstEmptyExactly(t: Table, hash: nat)
    requires Sized(t)
    ensures FirstEmpty(t, hash, 0).Some? <==> HasEmptySlot(t)
    ensures FirstEmpty(t, hash, 0).Some? ==>
              var s := Probe(hash, FirstEmpty(t, hash, 0).value);
              && ProbeOf(hash, s) == FirstEmpty(t, hash, 0).value
              && forall r :: 0 <= r < TABLE && ProbeOf(hash, r) < ProbeOf(hash, s) ==> t.slots[r] != EMPTY
  {
    hide Probe, ProbeOf;
    var f := FirstEmpty(t, hash, 0);
    forall r | 0 <= r < TABLE
      ensures Probe(hash, ProbeOf(hash, r)) == r && (f.None? ==> t.slots[r] != EMPTY)
    {
      ProbesCoverTable(hash, r, ProbeOf(hash, r));
    }
    if f.Some? { ProbesCoverTable(hash, Probe(hash, f.value), f.value); }
  }

  lemma AddedShape(t: Table, h: u32, kind: Kind)
    requires PoolOk(t) && Sized(t) && CanAdd(t, h)
    ensures t.freeHead < POOL && !t.entries[t.freeHead].inUse
    ensures Add(t, h, kind).1 == Some(t.freeHead as nat)
    ensures var t' := Add(t, h, kind).0;
            && Sized(t') && PoolOk(t') && SlotsInv(t')
            && t'.count == t.count + 1
            && t'.entries == t.entries[t.freeHead := Entry(h, kind, 1, true, NoPayload)]
  {
    var free :| PoolInv(t, free);
    FreeBounds(t, free);
    ApplyKeepsPoolOk(t, AddOp(h, kind));
    PoolFacts(Add(t, h, kind).0);
  }

  lemma AddToEmptySlot(t: Table, h: u32, kind: Kind)
    requires Good(t) && CanAdd(t, h) && HasEmptySlot(t)
    ensures Good(Add(t, h, kind).0)
  {
    hide Probe, ProbeOf, HashHandle, PoolOk, Get, FirstEmpty, PathsFull, Indexed, SlotsInv;
    PoolFacts(t);
    AddedShape(t, h, kind);
    FirstEmptyExactly(t, HashHandle(h));
    var t' := Add(t, h, kind).0;
    var s := Probe(HashHandle(h), FirstEmpty(t, HashHandle(h), 0).value);
    var idx: nat := t.freeHead;
    forall i | 0 <= i < POOL && t.entries[i].inUse ensures t.entries[i].handle != h { GetIsLookup(t, h, i); }
    AddKeepsIndex(t, t', s, idx);
    AddKeepsPaths(t, t', s, idx);
  }

  lemma AddKeepsPaths(t: Table, t': Table, s: nat, idx: nat)
    requires Sized(t) && Sized(t') && SlotsInv(t) && PathsFull(t) && s < TABLE && t.slots[s] == EMPTY
    requires idx < POOL && !t.entries[idx].inUse && t'.slots == t.slots[s := idx]
    requires forall i :: 0 <= i < POOL && i != idx ==> t'.entries[i] == t.entries[i]
    requires forall r :: 0 <= r < TABLE && OnPath(r, t'.entries[idx].handle, s) ==> t.slots[r] != EMPTY
    ensures PathsFull(t')
  {
    hide OnPath;
    forall r, e | 0 <= r < TABLE && 0 <= e < TABLE && t'.slots[e] != EMPTY && OnPath(r, HandleIn(t', e), e)
      ensures t'.slots[r] != EMPTY
    {
      if e != s { assert HandleIn(t', e) == HandleIn(t, e); }
    }
  }

  lemma AddKeepsIndex(t: Table, t': Table, s: nat, idx: nat)
    requires Sized(t) && Sized(t') && Indexed(t) && s < TABLE && t.slots[s] == EMPTY
    requires idx < POOL && !t.entries[idx].inUse && t'.entries[idx].inUse
    requires t'.slots == t.slots[s := idx]
    requires forall i :: 0 <= i < POOL && i != idx ==> t'.entries[i] == t.entries[i]
    requires forall i :: 0 <= i < POOL && t.entries[i].inUse ==> t.entries[i].handle != t'.entries[idx].handle
    ensures Indexed(t')
  {
    forall i | 0 <= i < POOL && t'.entries[i].inUse
      ensures i in t'.slots
    {
      if i == idx { assert t'.slots[s] == i; }
      else { var e :| 0 <= e < TABLE && t.slots[e] == i; assert t'.slots[e] == i; }
    }
  }

  /** A handle just added can be looked up if and only if the table had an empty slot,
      whatever the state of the probe chains. */
  lemma AddIsFoundExactly(t: Table, h: u32, kind: Kind)
    requires PoolOk(t) && Sized(t) && CanAdd(t, h)
    ensures Sized(Add(t, h, kind).0)
    ensures Get(Add(t, h, kind).0, h) == Add(t, h, kind).1 <==> HasEmptySlot(t)
    ensures Get(Add(t, h, kind).0, h) == None <==> !HasEmptySlot(t)
  {
    hide Probe, ProbeOf, HashHandle, PoolInv, FirstEmpty, Find;
    AddedShape(t, h, kind);
    FirstEmptyExactly(t, HashHandle(h));
    if HasEmptySlot(t) {
      var free :| PoolInv(t, free);
      AddedIsFoundInItsSlot(t, free, h, kind);
    } else {
      PoolFacts(t);
      NotFoundUnindexed(t, Add(t, h, kind).0, h);
    }
  }

  lemma NotFoundUnindexed(t: Table, t': Table, h: u32)
    requires Sized(t) && SlotsInv(t) && Get(t, h).None? && h != INVALID_HANDLE
    requires forall s :: 0 <= s < TABLE ==> t.slots[s] != EMPTY
    requires Sized(t') && t'.slots == t.slots && t.freeHead < POOL && !t.entries[t.freeHead].inUse
    requires forall i :: 0 <= i < POOL && i != t.freeHead ==> t'.entries[i] == t.entries[i]
    ensures Get(t', h).None?
  {
    hide Probe, ProbeOf, HashHandle;
    forall s | 0 <= s < TABLE ensures !SlotHolds(t', s, h) {
      ProbesCoverTable(HashHandle(h), s, ProbeOf(HashHandle(h), s));
      FindNothingBefore(t, h, 0, ProbeOf(HashHandle(h), s));
    }
    FindMisses(t', h, 0);
  }

  // ---- runs that refine a finite map ----

  /** An add that is accepted finds an empty slot; a remove that finds its handle crosses
      nobody's path. */
  ghost predicate Smooth(t: Table, op: Op)
    requires Sized(t)
  {
    match op
    case AddOp(h, _) => CanAdd(t, h) ==> HasEmptySlot(t)
    case RemoveOp(h) => Get(t, h).Some? ==> Find(t, h, 0).Some? && !Crosses(t, FoundSlot(t, h))
  }

  ghost predicate SmoothRun(t: Table, ops: seq<Op>)
    requires PoolOk(t)
    decreases |ops|
  {
    ops == [] || (PoolFacts(t); ApplyKeepsPoolOk(t, ops[0]);
                  Smooth(t, ops[0]) && SmoothRun(Apply(t, ops[0]), ops[1..]))
  }

  /** The specification: a finite map from live handles to kinds, bounded by the pool. */
  function MapApply(m: map<u32, Kind>, op: Op): map<u32, Kind> {
    match op
    case AddOp(h, kind) =>
      if h != INVALID_HANDLE && h !in m && |m| < POOL then m[h := kind] else m
    case RemoveOp(h) => m - {h}
  }

  function MapRun(m: map<u32, Kind>, ops: seq<Op>): map<u32, Kind>
    decreases |ops|
  {
    if ops == [] then m else MapRun(MapApply(m, ops[0]), ops[1..])
  }

  function KindOf(t: Table, h: u32): Option<Kind>
    requires Sized(t)
  {
    var g := Get(t, h);
    if g.Some? then Some(t.entries[g.value].kind) else None
  }

  function Lookup(m: map<u32, Kind>, h: u32): Option<Kind> {
    if h in m then Some(m[h]) else None
  }

  ghost predicate Abstracts(t: Table, m: map<u32, Kind>) {
    && Good(t)
    && |m| == t.count
    && (forall i :: 0 <= i < POOL && t.entries[i].inUse ==>
          t.entries[i].handle in m && m[t.entries[i].handle] == t.entries[i].kind)
    && (forall h :: h in m ==> Get(t, h).Some?)
  }

  lemma AbstractLookup(t: Table, m: map<u32, Kind>, h: u32)
    requires Abstracts(t, m)
    ensures KindOf(t, h) == Lookup(m, h)
  {
  }

  /** The pool is exhausted exactly when the count says so. */
  lemma PoolExhausted(t: Table)
    requires PoolOk(t) && Sized(t)
    ensures t.freeHead == EMPTY <==> t.count == POOL
    ensures t.count <= POOL
  {
    var free :| PoolInv(t, free);
  }

  lemma AddRefines(t: Table, m: map<u32, Kind>, h: u32, kind: Kind)
    requires Abstracts(t, m) && Smooth(t, AddOp(h, kind))
    ensures Abstracts(Add(t, h, kind).0, MapApply(m, AddOp(h, kind)))
  {
    hide PathsFull, Indexed, PoolOk, Get;
    AbstractLookup(t, m, h);
    PoolExhausted(t);
    if CanAdd(t, h) {
      AddToEmptySlot(t, h, kind);
      AddedLookups(t, m, h, kind);
    }
  }

  lemma AddedLookups(t: Table, m: map<u32, Kind>, h: u32, kind: Kind)
    requires Abstracts(t, m) && CanAdd(t, h) && h !in m && Good(Add(t, h, kind).0)
    ensures Abstracts(Add(t, h, kind).0, m[h := kind])
  {
    hide PathsFull, Indexed, PoolOk, Get, Add;
    var t', m' := Add(t, h, kind).0, m[h := kind];
    AddedShape(t, h, kind);
    assert |m'| == |m| + 1;
    forall k | k in m' ensures Get(t', k).Some? {
      if k == h { GetIsLookup(t', h, t.freeHead); }
      else { GetIsLookup(t, k, Get(t, k).value); GetIsLookup(t', k, Get(t, k).value); }
    }
  }

  lemma RemoveRefines(t: Table, m: map<u32, Kind>, h: u32)
    requires Abstracts(t, m) && Smooth(t, RemoveOp(h))
    ensures Abstracts(Remove(t, h), MapApply(m, RemoveOp(h)))
  {
    hide PathsFull, Indexed, PoolOk, Crosses, FoundSlot, Get, Find, Remove;
    AbstractLookup(t, m, h);
    if Get(t, h).Some? {
      RemoveShape(t, h);
      RemoveStaysGoodExactly(t, h);
      RemovedAbstracts(t, m, h);
    } else {
      RemoveAbsent(t, h);
      assert m - {h} == m;
    }
  }

  lemma RemovedAbstracts(t: Table, m: map<u32, Kind>, h: u32)
    requires Abstracts(t, m) && Get(t, h).Some? && h in m && Good(Remove(t, h))
    ensures Abstracts(Remove(t, h), m - {h})
  {
    hide Good, PathsFull, Indexed, PoolInv, FoundSlot, Get, Find, Remove, SlotsInv;
    GoodFacts(t);
    GoodFacts(Remove(t, h));
    RemoveShape(t, h);
    RemovedLookups(t, m, h);
    assert (m - {h}) + map[h := m[h]] == m;
    assert |m - {h}| == |m| - 1;
  }

  lemma GoodFacts(t: Table)
    requires Good(t)
    ensures PoolOk(t) && Sized(t)
  {
  }

  lemma RemoveAbsent(t: Table, h: u32)
    requires Sized(t) && Get(t, h).None?
    ensures Remove(t, h) == t
  {
  }

  lemma RemovedLookups(t: Table, m: map<u32, Kind>, h: u32)
    requires Abstracts(t, m) && Get(t, h).Some? && Good(Remove(t, h))
    ensures forall k :: k in m && k != h ==> Get(Remove(t, h), k).Some?
    ensures forall i :: 0 <= i < POOL && Remove(t, h).entries[i].inUse ==>
              Remove(t, h).entries[i] == t.entries[i] && t.entries[i].handle != h
  {
    hide PathsFull, PoolOk, FoundSlot, Get;
    RemoveShape(t, h);
    var t' := Remove(t, h);
    forall k | k in m && k != h ensures Get(t', k).Some? {
      GetIsLookup(t, k, Get(t, k).value);
      GetIsLookup(t', k, Get(t, k).value);
    }
    GetIsLookup(t, h, Get(t, h).value);
  }

  lemma SmoothStepAbstracts(t: Table, m: map<u32, Kind>, op: Op)
    requires PoolOk(t) && Abstracts(t, m) && Smooth(t, op)
    ensures Abstracts(Apply(t, op), MapApply(m, op))
  {
    hide Abstracts, Smooth, Add, Remove, MapApply;
    match op
    case AddOp(h, kind) => AddRefines(t, m, h, kind);
    case RemoveOp(h) => RemoveRefines(t, m, h);
  }

  lemma {:induction false} RunRefines(t: Table, m: map<u32, Kind>, ops: seq<Op>)
    requires PoolOk(t) && Abstracts(t, m) && SmoothRun(t, ops)
    ensures Abstracts(Run(t, ops), MapRun(m, ops))
    decreases |ops|
  {
    if ops != [] {
      SmoothStepAbstracts(t, m, ops[0]);
      RunRefines(Apply(t, ops[0]), MapApply(m, ops[0]), ops[1..]);
    }
  }

  /** The tracker is a finite map in every smooth run: each lookup answers as the map, and
      the live count is the map's size. */
  lemma SmoothRunsAreAMap(ops: seq<Op>, h: u32)
    requires PoolOk(Initial()) && SmoothRun(Initial(), ops)
    ensures KindOf(Run(Initial(), ops), h) == Lookup(MapRun(map[], ops), h)
    ensures Run(Initial(), ops).count == |MapRun(map[], ops)|
  {
    RunRefines(Initial(), map[], ops);
    AbstractLookup(Run(Initial(), ops), MapRun(map[], ops), h);
  }

  // ---- the map, exactly ----

  /** Every lookup answers as the map. */
  ghost predicate Agrees(t: Table, m: map<u32, Kind>) {
    Sized(t) && forall h :: KindOf(t, h) == Lookup(m, h)
  }

  /** Every lookup answers as the map, before the first operation and after each one. */
  ghost predicate AgreesThroughout(t: Table, m: map<u32, Kind>, ops: seq<Op>)
    requires PoolOk(t)
  {
    forall n :: 0 <= n <= |ops| ==> Agrees(Run(t, ops[..n]), MapRun(m, ops[..n]))
  }

  lemma AgreesUnroll(t: Table, m: map<u32, Kind>, ops: seq<Op>)
    requires PoolOk(t) && Sized(t) && ops != [] && PoolOk(Apply(t, ops[0]))
    ensures AgreesThroughout(t, m, ops)
            <==> Agrees(t, m) && AgreesThroughout(Apply(t, ops[0]), MapApply(m, ops[0]), ops[1..])
  {
    hide Agrees, Apply, MapApply, PoolOk;
    var t', m', rest := Apply(t, ops[0]), MapApply(m, ops[0]), ops[1..];
    assert ops[..0] == [];
    assert Run(t, []) == t && MapRun(m, []) == m;
    forall n | 1 <= n <= |ops|
      ensures Run(t, ops[..n]) == Run(t', rest[..n - 1]) && MapRun(m, ops[..n]) == MapRun(m', rest[..n - 1])
    {
      assert ops[..n][1..] == rest[..n - 1] && ops[..n][0] == ops[0];
    }
    if AgreesThroughout(t, m, ops) {
      assert Agrees(Run(t, ops[..0]), MapRun(m, ops[..0]));
      forall n | 0 <= n <= |rest| ensures Agrees(Run(t', rest[..n]), MapRun(m', rest[..n])) {
        assert Agrees(Run(t, ops[..n + 1]), MapRun(m, ops[..n + 1]));
      }
    }
  }

  /** An add with no slot left: the map holds the handle, the lookup answers NULL. */
  lemma LostAddDisagrees(t: Table, m: map<u32, Kind>, h: u32, kind: Kind)
    requires PoolOk(t) && Sized(t) && Abstracts(t, m) && CanAdd(t, h) && !HasEmptySlot(t)
    ensures !Agrees(Add(t, h, kind).0, MapApply(m, AddOp(h, kind)))
  {
    hide Good, PoolInv, Get, Add, HasEmptySlot, SlotsInv;
    AbstractLookup(t, m, h);
    PoolExhausted(t);
    AddIsFoundExactly(t, h, kind);
    assert KindOf(Add(t, h, kind).0, h) != Lookup(MapApply(m, AddOp(h, kind)), h);
  }

  lemma MapKeeps(m: map<u32, Kind>, h: u32)
    ensures forall k :: k in m && k != h ==> Lookup(MapApply(m, RemoveOp(h)), k) == Lookup(m, k)
  {
  }

  /** A remove that crosses a path: the handle on it is still in the map, and not found. */
  lemma CrossingRemoveDisagrees(t: Table, m: map<u32, Kind>, h: u32)
    requires PoolOk(t) && Sized(t) && Abstracts(t, m) && Get(t, h).Some?
    requires Find(t, h, 0).Some? && Crosses(t, FoundSlot(t, h))
    ensures !Agrees(Remove(t, h), MapApply(m, RemoveOp(h)))
  {
    hide PathsFull, Indexed, PoolInv, Get, Remove, OnPath, Find, FoundSlot, SlotsInv, MapApply;
    MapKeeps(m, h);
    RemoveShape(t, h);
    var s := FoundSlot(t, h);
    var e :| 0 <= e < TABLE && e != s && t.slots[e] != EMPTY && OnPath(s, HandleIn(t, e), e);
    var k := HandleIn(t, e);
    GoodFinds(t, e);
    AbstractLookup(t, m, k);
    RemoveHidesExactlyCrossedHandles(t, h, k);
    assert KindOf(Remove(t, h), k) != Lookup(MapApply(m, RemoveOp(h)), k);
  }

  /** One operation that is not smooth: some lookup now differs from the map's. */
  lemma UnsmoothDisagrees(t: Table, m: map<u32, Kind>, op: Op)
    requires PoolOk(t) && Sized(t) && Abstracts(t, m) && !Smooth(t, op)
    ensures !Agrees(Apply(t, op), MapApply(m, op))
  {
    hide Abstracts, PoolInv, Get, Find, Add, Remove, Crosses, CanAdd, HasEmptySlot, Agrees, MapApply;
    match op
    case AddOp(h, kind) => LostAddDisagrees(t, m, h, kind);
    case RemoveOp(h) =>
      RemoveShape(t, h);
      CrossingRemoveDisagrees(t, m, h);
  }

  lemma AbstractsAgrees(t: Table, m: map<u32, Kind>)
    requires Abstracts(t, m)
    ensures Sized(t) && Agrees(t, m)
  {
    hide Get, PathsFull, Indexed, PoolOk;
    forall h ensures KindOf(t, h) == Lookup(m, h) { AbstractLookup(t, m, h); }
  }

  lemma {:induction false} AgreesExactlyWhenSmooth(t: Table, m: map<u32, Kind>, ops: seq<Op>)
    requires PoolOk(t) && Abstracts(t, m)
    ensures AgreesThroughout(t, m, ops) <==> SmoothRun(t, ops)
    decreases |ops|
  {
    hide Abstracts, Apply, MapApply, PoolOk, Smooth, Agrees;
    AbstractsAgrees(t, m);
    if ops == [] {
      assert forall n :: 0 <= n <= |ops| ==> ops[..n] == [];
    } else {
      ApplyKeepsPoolOk(t, ops[0]);
      AgreesUnroll(t, m, ops);
      if Smooth(t, ops[0]) {
        SmoothStepAbstracts(t, m, ops[0]);
        AgreesExactlyWhenSmooth(Apply(t, ops[0]), MapApply(m, ops[0]), ops[1..]);
      } else {
        UnsmoothDisagrees(t, m, ops[0]);
        DisagreesAtOnce(Apply(t, ops[0]), MapApply(m, ops[0]), ops[1..]);
      }
    }
  }

  lemma DisagreesAtOnce(t: Table, m: map<u32, Kind>, ops: seq<Op>)
    requires PoolOk(t) && !Agrees(t, m)
    ensures !AgreesThroughout(t, m, ops)
  {
    hide Agrees;
    assert ops[..0] == [];
    assert Run(t, ops[..0]) == t && MapRun(m, ops[..0]) == m;
  }

  lemma InitialAbstracts()
    ensures PoolOk(Initial()) && Abstracts(Initial(), map[])
  {
    hide PoolInv, Get, OnPath;
    InitialPool();
    assert PoolInv(Initial(), seq(POOL, i => i));
  }

  /** The tracker is a finite map exactly in the smooth runs: all its lookups answer as the
      map after every operation of a run from init if and only if every accepted add found
      an empty slot and every remove that found its handle crossed nobody's path. */
  lemma MapExactlyWhenSmooth(ops: seq<Op>)
    ensures PoolOk(Initial())
    ensures AgreesThroughout(Initial(), map[], ops) <==> SmoothRun(Initial(), ops)
  {
    InitialAbstracts();
    AgreesExactlyWhenSmooth(Initial(), map[], ops);
  }
}
