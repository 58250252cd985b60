/** resource_tracker.c as code: the entry pool and the hash table are arrays updated in
    place. Each method is proved to be the operation of the same name in Tracker. */
module ResourceTrackers {
  import opened Words
  import opened Options
  import opened Hash
  import opened Vulkan
  import opened Tracker
  import opened TrackerRuns

  class ResourceTracker {
    const entries: array<Entry>
    const slots: array<u32>
    var entryCount: u32
    var freeHead: u32

    ghost function State(): Table
      reads this, entries, slots
    {
      Table(entries[..], slots[..], entryCount, freeHead)
    }

    ghost predicate Valid()
      reads this, entries, slots
    {
      entries.Length == POOL && slots.Length == TABLE && PoolOk(State())
    }

    /** gravity_resource_tracker_init. */
    constructor ()
      ensures Valid() && fresh(entries) && fresh(slots)
      ensures State() == Initial()
    {
      hide PoolInv;
      var es := new Entry[POOL](_ => Entry(INVALID_HANDLE, Buffer, 0, false, NoPayload));
      var ss := new u32[TABLE](_ => 0);
      EmptySlots(ss);
      LinkEntries(es);
      entries, slots, freeHead, entryCount := es, ss, 0, 0;
      new;
      InitialPool();
    }

    static method EmptySlots(ss: array<u32>)
      requires ss.Length == TABLE
      modifies ss
      ensures ss[..] == Initial().slots
    {
      var i := 0;
      while i < TABLE
        invariant i <= TABLE
        invariant forall k :: 0 <= k < i ==> ss[k] == EMPTY
      {
        ss[i] := EMPTY;
        i := i + 1;
      }
    }

    static method LinkEntries(es: array<Entry>)
      requires es.Length == POOL
      requires forall k :: 0 <= k < POOL ==> es[k] == Entry(INVALID_HANDLE, Buffer, 0, false, NoPayload)
      modifies es
      ensures es[..] == Initial().entries
    {
      var e := 0;
      while e < POOL - 1
        invariant e <= POOL - 1
        invariant forall k :: 0 <= k < e ==> es[k] == Entry(INVALID_HANDLE, Buffer, k + 1, false, NoPayload)
        invariant forall k :: e <= k < POOL ==> es[k] == Entry(INVALID_HANDLE, Buffer, 0, false, NoPayload)
      {
        es[e] := es[e].(refCount := e + 1, inUse := false);
        e := e + 1;
      }
      es[POOL - 1] := es[POOL - 1].(refCount := EMPTY, inUse := false);
    }

    /** gravity_resource_tracker_get, as an index into the pool. */
    method GetEntry(handle: u32) returns (r: Option<nat>)
      requires Valid()
      ensures Sized(State()) && r == Get(State(), handle)
    {
      hide Probe, HashHandle, PoolOk;
      PoolFacts(State());
      if handle == INVALID_HANDLE {
        return None;
      }
      var hash := HashHandle(handle);
      var probe := 0;
      while probe < TABLE
        invariant probe <= TABLE
        invariant Find(State(), handle, 0) == Find(State(), handle, probe)
      {
        var slot := Probe(hash, probe);
        var idx := slots[slot];
        if idx == EMPTY {
          return None;
        }
        assert State().slots[slot] == idx;
        if entries[idx].inUse && entries[idx].handle == handle {
          assert SlotHolds(State(), slot, handle);
          return Some(idx);
        }
        probe := probe + 1;
      }
      r := None;
    }

    /** gravity_resource_tracker_add; None stands for NULL. */
    method AddEntry(handle: u32, kind: Kind) returns (r: Option<nat>)
      requires Valid()
      modifies this, entries, slots
      ensures Valid()
      ensures Sized(old(State())) && (State(), r) == Add(old(State()), handle, kind)
    {
      hide Probe, HashHandle, Get, FirstEmpty, PoolOk, Find;
      ghost var t := State();
      PoolFacts(t);
      ApplyKeepsPoolOk(t, AddOp(handle, kind));
      if handle == INVALID_HANDLE {
        return None;
      }
      if freeHead == EMPTY {
        return None;
      }
      var dup := GetEntry(handle);
      if dup != None {
        return None;
      }
      PoolExhausted(t);
      var idx := freeHead;
      assert t.entries[idx] == entries[idx];
      freeHead := entries[idx].refCount;
      entries[idx] := Entry(handle, kind, 1, true, NoPayload);
      InsertSlot(t, HashHandle(handle), idx);
      entryCount := U32(entryCount + 1);
      r := Some(idx);
    }

    /** The insertion loop of add. */
    method InsertSlot(ghost t: Table, hash: nat, idx: u32)
      requires Sized(t) && slots.Length == TABLE && slots[..] == t.slots && hash < TABLE
      modifies slots
      ensures var f := FirstEmpty(t, hash, 0);
              slots[..] == if f.Some? then t.slots[Probe(hash, f.value) := idx] else t.slots
    {
      hide Probe;
      var probe := 0;
      while probe < TABLE
        invariant probe <= TABLE && slots[..] == t.slots
        invariant FirstEmpty(t, hash, 0) == FirstEmpty(t, hash, probe)
      {
        var slot := Probe(hash, probe);
        if slots[slot] == EMPTY {
          slots[slot] := idx;
          return;
        }
        probe := probe + 1;
      }
    }

    /** remove's bookkeeping once the handle is found. */
    method Release(slot: nat, idx: u32)
      requires slot < slots.Length && idx < entries.Length && entryCount > 0
      modifies this, entries, slots
      ensures State() == Table(
                old(entries[..])[idx := old(entries[idx]).(inUse := false, handle := INVALID_HANDLE,
                                                           refCount := old(freeHead))],
                old(slots[..])[slot := EMPTY], old(entryCount) - 1, idx)
    {
      entries[idx] := entries[idx].(inUse := false, handle := INVALID_HANDLE);
      entries[idx] := entries[idx].(refCount := freeHead);
      freeHead := idx;
      slots[slot] := EMPTY;
      entryCount := U32(entryCount - 1);
    }

    /** gravity_resource_tracker_remove. */
    method RemoveEntry(handle: u32)
      requires Valid()
      modifies this, entries, slots
      ensures Valid()
      ensures Sized(old(State())) && State() == Remove(old(State()), handle)
    {
      hide Probe, HashHandle, PoolOk, SlotsInv;
      ghost var t := State();
      PoolFacts(t);
      ApplyKeepsPoolOk(t, RemoveOp(handle));
      if handle == INVALID_HANDLE {
        return;
      }
      var hash := HashHandle(handle);
      var probe := 0;
      while probe < TABLE
        invariant probe <= TABLE && State() == t
        invariant Find(t, handle, 0) == Find(t, handle, probe)
      {
        var slot := Probe(hash, probe);
        var idx := slots[slot];
        if idx == EMPTY {
          return;
        }
        assert t.slots[slot] == idx;
        if entries[idx].inUse && entries[idx].handle == handle {
          assert SlotHolds(t, slot, handle);
          assert FoundSlot(t, handle) == slot;
          InUseCounted(t, idx);
          Release(slot, idx);
          return;
        }
        probe := probe + 1;
      }
    }
  }

  lemma InUseCounted(t: Table, i: nat)
    requires PoolOk(t) && Sized(t) && i < POOL && t.entries[i].inUse
    ensures 0 < t.count <= POOL
  {
    var free :| PoolInv(t, free);
    UseMeansCounted(t, free, i);
  }
}
