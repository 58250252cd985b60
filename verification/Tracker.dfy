/** resource_tracker.c on values: an entry pool with a free list threaded through
    ref_count, indexed by an open-addressing hash table. */
module Tracker {
  import opened Words
  import opened Options
  import opened Hash
  import opened Vulkan

  const POOL: nat := 65536
  const EMPTY: u32 := 0xFFFF_FFFF          // UINT32_MAX: empty slot, end of the free list
  const INVALID_HANDLE: u32 := 0

  datatype Kind =
    | Buffer | Texture | Sampler | Shader | RenderPipeline
    | ComputePipeline | DepthStencil | Fence | Event | CmdBuf

  /** `refCount` of an entry not in use is the index of the next free one. */
  datatype Entry = Entry(handle: u32, kind: Kind, refCount: u32, inUse: bool, payload: Payload)

  datatype Table = Table(entries: seq<Entry>, slots: seq<u32>, count: nat, freeHead: u32)

  ghost predicate Sized(t: Table) {
    && |t.entries| == POOL
    && |t.slots| == TABLE
    && (forall s :: 0 <= s < TABLE ==> t.slots[s] == EMPTY || t.slots[s] < POOL)
    && (t.freeHead == EMPTY || t.freeHead < POOL)
  }

  function Initial(): (t: Table)
    ensures Sized(t)
  {
    Table(seq(POOL, i requires 0 <= i < POOL =>
                Entry(INVALID_HANDLE, Buffer, if i < POOL - 1 then i + 1 else EMPTY, false, NoPayload)),
          seq(TABLE, _ => EMPTY), 0, 0)
  }

  /** The entry in slot `s` is in use under handle `h`. */
  predicate SlotHolds(t: Table, s: nat, h: u32)
    requires Sized(t) && s < TABLE
  {
    && t.slots[s] != EMPTY
    && t.entries[t.slots[s]].inUse
    && t.entries[t.slots[s]].handle == h
  }

  /** The probing loop shared by get and remove, from probe number `p` on: the number of
      the first probe that finds `h`, giving up at an empty slot. */
  function Find(t: Table, h: u32, p: nat): (r: Option<nat>)
    requires Sized(t)
    ensures r.Some? ==> p <= r.value < TABLE
    decreases TABLE - p
  {
    if p >= TABLE then None
    else
      var s := Probe(HashHandle(h), p);
      if t.slots[s] == EMPTY then None
      else if SlotHolds(t, s, h) then Some(p)
      else Find(t, h, p + 1)
  }

  /** add's insertion loop: the first empty probe from number `p` on. */
  function FirstEmpty(t: Table, hash: nat, p: nat): (r: Option<nat>)
    requires Sized(t)
    ensures r.Some? ==> p <= r.value < TABLE && t.slots[Probe(hash, r.value)] == EMPTY
    ensures r.None? ==> forall q :: p <= q < TABLE ==> t.slots[Probe(hash, q)] != EMPTY
    ensures r.Some? ==> forall q :: p <= q < r.value ==> t.slots[Probe(hash, q)] != EMPTY
    decreases TABLE - p
  {
    if p >= TABLE then None
    else if t.slots[Probe(hash, p)] == EMPTY then Some(p)
    else FirstEmpty(t, hash, p + 1)
  }

  /** gravity_resource_tracker_get, as an entry index. */
  function Get(t: Table, h: u32): (r: Option<nat>)
    requires Sized(t)
    ensures r.Some? ==> r.value < POOL && t.entries[r.value].inUse && t.entries[r.value].handle == h != 0
  {
    if h == INVALID_HANDLE then None
    else
      var f := Find(t, h, 0);
      if f.None? then None else FindHits(t, h, 0); Some(t.slots[Probe(HashHandle(h), f.value)])
  }

  lemma {:induction false} FindHits(t: Table, h: u32, p: nat)
    requires Sized(t)
    ensures var r := Find(t, h, p);
            r.Some? ==>
              && SlotHolds(t, Probe(HashHandle(h), r.value), h)
              && (forall q :: p <= q < r.value ==>
                    t.slots[Probe(HashHandle(h), q)] != EMPTY && !SlotHolds(t, Probe(HashHandle(h), q), h))
    decreases TABLE - p
  {
    if p < TABLE { FindHits(t, h, p + 1); }
  }

  /** Find's converse: a hit behind occupied slots that hold other handles is found. */
  lemma {:induction false} FindReaches(t: Table, h: u32, p: nat, r: nat)
    requires Sized(t) && p <= r < TABLE && SlotHolds(t, Probe(HashHandle(h), r), h)
    requires forall q :: p <= q < r ==>
               t.slots[Probe(HashHandle(h), q)] != EMPTY && !SlotHolds(t, Probe(HashHandle(h), q), h)
    ensures Find(t, h, p) == Some(r)
    decreases r - p
  {
    if p < r { FindReaches(t, h, p + 1, r); }
  }

  /** An empty probe ends the search. */
  lemma {:induction false} FindStops(t: Table, h: u32, p: nat, e: nat)
    requires Sized(t) && p <= e < TABLE && t.slots[Probe(HashHandle(h), e)] == EMPTY
    ensures Find(t, h, p).Some? ==> Find(t, h, p).value < e
    decreases e - p
  {
    if p < e { FindStops(t, h, p + 1, e); }
  }

  lemma {:induction false} FindMisses(t: Table, h: u32, p: nat)
    requires Sized(t)
    requires forall s :: 0 <= s < TABLE ==> !SlotHolds(t, s, h)
    ensures Find(t, h, p) == None
    decreases TABLE - p
  {
    if p < TABLE { FindMisses(t, h, p + 1); }
  }

  lemma {:induction false} FindNothingBefore(t: Table, h: u32, p: nat, q: nat)
    requires Sized(t) && Find(t, h, p).None? && p <= q < TABLE
    requires forall r :: p <= r <= q ==> t.slots[Probe(HashHandle(h), r)] != EMPTY
    ensures !SlotHolds(t, Probe(HashHandle(h), q), h) && Find(t, h, q).None?
    decreases q - p
  {
    if p < q { FindNothingBefore(t, h, p + 1, q); }
  }

  // ---- add and remove ----

  predicate CanAdd(t: Table, h: u32)
    requires Sized(t)
  {
    h != INVALID_HANDLE && t.freeHead != EMPTY && Get(t, h).None?
  }

  /** gravity_resource_tracker_add: the new table, and the entry index or NULL. When every
      slot is taken the entry is handed out but stays unreachable. */
  function Add(t: Table, h: u32, kind: Kind): (r: (Table, Option<nat>))
    requires Sized(t)
    ensures r.1.Some? ==> r.1.value < POOL == |r.0.entries|
  {
    hide Get, Probe, HashHandle;
    if !CanAdd(t, h) then (t, None)
    else
      var idx := t.freeHead;
      var f := FirstEmpty(t, HashHandle(h), 0);
      (Table(t.entries[idx := Entry(h, kind, 1, true, NoPayload)],
             if f.Some? then t.slots[Probe(HashHandle(h), f.value) := idx] else t.slots,
             t.count + 1,
             t.entries[idx].refCount),
       Some(idx))
  }

  /** gravity_resource_tracker_remove. */
  function Remove(t: Table, h: u32): (r: Table)
    requires Sized(t)
  {
    if h == INVALID_HANDLE || Find(t, h, 0).None? then t
    else
      var s := FoundSlot(t, h);
      var idx := t.slots[s];
      Table(t.entries[idx := t.entries[idx].(inUse := false, handle := INVALID_HANDLE, refCount := t.freeHead)],
            t.slots[s := EMPTY],
            if t.count > 0 then t.count - 1 else UINT32_MAX,
            idx)
  }

  // ---- what every run keeps ----

  /** The index the free list stores for its `k`-th entry, or the end mark. */
  function Link(free: seq<nat>, k: nat): nat {
    if k < |free| then free[k] else EMPTY
  }

  /** `free` lists the unused entries in the order the free list visits them. */
  ghost predicate FreeList(t: Table, free: seq<nat>)
    requires Sized(t)
  {
    && (forall k :: 0 <= k < |free| ==> free[k] < POOL)
    && (forall j, k :: 0 <= j < k < |free| ==> free[j] != free[k])
    && t.freeHead == Link(free, 0)
    && (forall k :: 0 <= k < |free| ==> t.entries[free[k]].refCount == Link(free, k + 1))
    && (forall i :: 0 <= i < POOL ==> (!t.entries[i].inUse <==> i in free))
  }

  /** Slots name entries in use, no entry twice, and live handles are valid. */
  ghost predicate SlotsInv(t: Table)
    requires Sized(t)
  {
    && (forall s :: 0 <= s < TABLE && t.slots[s] != EMPTY ==> t.entries[t.slots[s]].inUse)
    && (forall r, s :: 0 <= r < s < TABLE && t.slots[r] != EMPTY ==> t.slots[r] != t.slots[s])
    && (forall i :: 0 <= i < POOL && t.entries[i].inUse ==> t.entries[i].handle != INVALID_HANDLE)
  }

  ghost predicate PoolInv(t: Table, free: seq<nat>) {
    && Sized(t)
    && FreeList(t, free)
    && |free| + t.count == POOL
    && SlotsInv(t)
  }

  lemma InitialPool()
    ensures PoolInv(Initial(), seq(POOL, i => i))
  {
    var t, free := Initial(), seq(POOL, i => i);
    assert forall i :: 0 <= i < POOL ==> free[i] == i;
    forall i | 0 <= i < POOL ensures i in free { assert free[i] == i; }
  }

  /** Taking the head of the free list. */
  lemma TakeFree(t: Table, free: seq<nat>, e: Entry, t': Table)
    requires Sized(t) && FreeList(t, free) && t.freeHead != EMPTY && e.inUse
    requires Sized(t') && t'.entries == t.entries[t.freeHead := e]
    requires t'.freeHead == t.entries[t.freeHead].refCount
    ensures free != [] && free[0] == t.freeHead && FreeList(t', free[1..])
  {
    var idx, rest := t.freeHead, free[1..];
    assert idx == free[0] && idx !in rest;
    forall k | 0 <= k < |rest|
      ensures t'.entries[rest[k]].refCount == Link(rest, k + 1)
    {
      assert rest[k] == free[k + 1] && rest[k] in rest;
    }
    forall i | 0 <= i < POOL ensures !t'.entries[i].inUse <==> i in rest {
      assert i in free <==> i == idx || i in rest;
    }
  }

  /** Returning an entry to the head of the free list. */
  lemma ReturnFree(t: Table, free: seq<nat>, idx: nat, e: Entry, t': Table)
    requires Sized(t) && FreeList(t, free) && idx < POOL && t.entries[idx].inUse
    requires !e.inUse && e.refCount == t.freeHead
    requires Sized(t') && t'.entries == t.entries[idx := e] && t'.freeHead == idx
    ensures FreeList(t', [idx] + free)
  {
    var free' := [idx] + free;
    assert idx !in free;
    forall i | 0 <= i < POOL ensures !t'.entries[i].inUse <==> i in free' {
      assert i in free' <==> i == idx || i in free;
    }
  }

  /** The slots after an add: at most one empty slot now names the new entry. */
  lemma AddShape(t: Table, h: u32, kind: Kind)
    requires Sized(t) && CanAdd(t, h) && !t.entries[t.freeHead].inUse
    requires t.entries[t.freeHead].refCount == EMPTY || t.entries[t.freeHead].refCount < POOL
    ensures var t' := Add(t, h, kind).0;
            && Sized(t')
            && (t'.slots == t.slots
                || exists s :: 0 <= s < TABLE && t.slots[s] == EMPTY && t'.slots == t.slots[s := t.freeHead])
  {
    hide Get, Probe, HashHandle;
  }

  lemma AddKeepsPool(t: Table, free: seq<nat>, h: u32, kind: Kind)
    requires PoolInv(t, free)
    ensures Sized(t)
    // refused exactly for handle 0, an exhausted pool and a handle that is found already
    ensures CanAdd(t, h) <==> h != 0 && free != [] && Get(t, h).None?
    ensures CanAdd(t, h) ==>
              free != [] && Add(t, h, kind).1 == Some(free[0]) && PoolInv(Add(t, h, kind).0, free[1..])
    ensures CanAdd(t, h) ==>
              && free[0] < |t.entries|
              && Add(t, h, kind).0.entries == t.entries[free[0] := Entry(h, kind, 1, true, NoPayload)]
    ensures !CanAdd(t, h) ==> Add(t, h, kind) == (t, None)
  {
    hide Get, FirstEmpty, Probe, HashHandle, FreeList, SlotsInv;
    assert free != [] <==> t.freeHead != EMPTY by { HeadOfFree(t, free); }
    if CanAdd(t, h) {
      var t' := Add(t, h, kind).0;
      FreeBounds(t, free);
      AddShape(t, h, kind);
      TakeFree(t, free, Entry(h, kind, 1, true, NoPayload), t');
      SlotsAfterAdd(t, t', Entry(h, kind, 1, true, NoPayload));
    }
  }

  lemma SlotsAfterAdd(t: Table, t': Table, e: Entry)
    requires Sized(t) && SlotsInv(t) && Sized(t') && t.freeHead != EMPTY && !t.entries[t.freeHead].inUse
    requires e.inUse && e.handle != INVALID_HANDLE && t'.entries == t.entries[t.freeHead := e]
    requires t'.slots == t.slots
             || exists s :: 0 <= s < TABLE && t.slots[s] == EMPTY && t'.slots == t.slots[s := t.freeHead]
    ensures SlotsInv(t')
  {
    assert forall s :: 0 <= s < TABLE && t.slots[s] != EMPTY ==> t.slots[s] != t.freeHead;
  }

  lemma HeadOfFree(t: Table, free: seq<nat>)
    requires Sized(t) && FreeList(t, free)
    ensures free != [] <==> t.freeHead != EMPTY
  {
  }

  lemma FreeBounds(t: Table, free: seq<nat>)
    requires Sized(t) && FreeList(t, free) && t.freeHead != EMPTY
    ensures free != [] && t.freeHead == free[0] && !t.entries[t.freeHead].inUse
    ensures t.entries[t.freeHead].refCount == EMPTY || t.entries[t.freeHead].refCount < POOL
  {
    assert free[0] in free;
    assert t.entries[free[0]].refCount == Link(free, 1);
  }

  /** An added handle is found in the very slot the add filled, whatever the other chains. */
  lemma AddedIsFoundInItsSlot(t: Table, free: seq<nat>, h: u32, kind: Kind)
    requires PoolInv(t, free) && CanAdd(t, h) && FirstEmpty(t, HashHandle(h), 0).Some?
    ensures var t', e := Add(t, h, kind).0, FirstEmpty(t, HashHandle(h), 0).value;
            && PoolInv(t', free[1..]) && t'.entries[free[0]] == Entry(h, kind, 1, true, NoPayload)
            && free != [] && t.freeHead == free[0]
            && Find(t', h, 0) == Some(e) && t'.slots == t.slots[Probe(HashHandle(h), e) := t.freeHead]
  {
    hide FreeList;
    AddKeepsPool(t, free, h, kind);
    FreeBounds(t, free);
    var t', e := Add(t, h, kind).0, FirstEmpty(t, HashHandle(h), 0).value;
    var hash := HashHandle(h);
    ProbesCoverTable(hash, Probe(hash, e), e);
    forall q | 0 <= q < e
      ensures t'.slots[Probe(hash, q)] != EMPTY && !SlotHolds(t', Probe(hash, q), h)
    {
      ProbesCoverTable(hash, Probe(hash, e), q);
      FindNothingBefore(t, h, 0, q);
    }
    FindReaches(t', h, 0, e);
  }

  /** The slot remove vacates. */
  function FoundSlot(t: Table, h: u32): (s: nat)
    requires Sized(t) && Find(t, h, 0).Some?
    ensures s < TABLE && SlotHolds(t, s, h)
  {
    FindHits(t, h, 0);
    Probe(HashHandle(h), Find(t, h, 0).value)
  }

  lemma RemoveKeepsPool(t: Table, free: seq<nat>, h: u32)
    requires PoolInv(t, free)
    ensures Sized(t)
    ensures h == INVALID_HANDLE || Find(t, h, 0).None? ==> Remove(t, h) == t
    ensures h != INVALID_HANDLE && Find(t, h, 0).Some? ==>
              PoolInv(Remove(t, h), [t.slots[FoundSlot(t, h)] as nat] + free)
    ensures h != INVALID_HANDLE && Find(t, h, 0).Some? ==>
              var i: nat, u := t.slots[FoundSlot(t, h)], Remove(t, h);
              && |u.entries| == |t.entries| && i < |t.entries|
              && !u.entries[i].inUse && u.entries[i].handle == 0
              && forall j :: 0 <= j < |t.entries| && j != i ==> u.entries[j] == t.entries[j]
  {
    hide Find, Probe, HashHandle, FreeList;
    if h != INVALID_HANDLE && Find(t, h, 0).Some? {
      var s := FoundSlot(t, h);
      var idx: nat := t.slots[s];
      var t' := Remove(t, h);
      ReturnFree(t, free, idx, t'.entries[idx], t');
      UseMeansCounted(t, free, idx);
    }
  }

  /** While an entry is in use the count is positive. */
  lemma UseMeansCounted(t: Table, free: seq<nat>, i: nat)
    requires Sized(t) && FreeList(t, free) && |free| + t.count == POOL
    requires i < POOL && t.entries[i].inUse
    ensures t.count > 0
  {
    SizeOfDistinct(free + [i], POOL);
  }

  function Below(n: nat): (s: set<nat>)
    ensures |s| == n && forall k: nat :: k in s <==> k < n
  {
    if n == 0 then {} else Below(n - 1) + {n - 1}
  }

  /** Distinct numbers below `n` are at most `n` many. */
  lemma SizeOfDistinct(q: seq<nat>, n: nat)
    requires forall k :: 0 <= k < |q| ==> q[k] < n
    requires forall j, k :: 0 <= j < k < |q| ==> q[j] != q[k]
    ensures |q| <= n
  {
    assert forall x :: x in q ==> x < n;
    SizeOfElements(q);
    SubsetSize(Elements(q), Below(n));
  }

  function Elements(q: seq<nat>): set<nat> { set x | x in q }

  lemma {:induction false} SizeOfElements(q: seq<nat>)
    requires forall j, k :: 0 <= j < k < |q| ==> q[j] != q[k]
    ensures |Elements(q)| == |q|
  {
    if q != [] {
      var p := q[..|q| - 1];
      var last := q[|q| - 1];
      SizeOfElements(p);
      assert last !in p;
      forall x ensures x in q <==> x in p || x == last {
        if x in q { var k :| 0 <= k < |q| && q[k] == x; assert k < |p| ==> p[k] == x; }
        if x in p { var k :| 0 <= k < |p| && p[k] == x; assert q[k] == x; }
      }
      assert Elements(q) == Elements(p) + {last};
    }
  }

  lemma {:induction false} SubsetSize<T>(a: set<T>, b: set<T>)
    requires a <= b
    ensures |a| <= |b|
    decreases a
  {
    if a != {} {
      var x :| x in a;
      SubsetSize(a - {x}, b - {x});
    }
  }
}
