/**
 Runs of an LRU cache shard: any sequence of its operations.
 */
module LRURuns {
  import opened Options
  import opened LRULists
  import opened LRUEntries
  import opened LRUShard

  /** An operation; a caller refers to or releases only what it has a handle to. */
  datatype Op =
    | Insert(key: Key, value: nat, charge: nat, hold: bool, highPri: bool)
    | Lookup(key: Key)
    | Ref(e: Addr)
    | Release(e: Addr, forceErase: bool)
    | Erase(key: Key)
    | EraseUnRefEntries
    | SetCapacity(capacity: nat)
    | SetStrictCapacityLimit(limit: bool)
    | SetHighPriorityPoolRatio(ratio: real)

  predicate RatiosOk(ops: seq<Op>) {
    forall i :: 0 <= i < |ops| && ops[i].SetHighPriorityPoolRatio? ==> ops[i].ratio >= 0.0
  }

  predicate KeepsStrict(op: Op) {
    op.SetStrictCapacityLimit? ==> op.limit
  }

  predicate AlwaysStrict(ops: seq<Op>) {
    forall i :: 0 <= i < |ops| ==> KeepsStrict(ops[i])
  }

  function CapacityAfter(ops: seq<Op>, capacity: nat): nat {
    if ops == [] then capacity
    else if ops[|ops| - 1].SetCapacity? then ops[|ops| - 1].capacity
    else CapacityAfter(ops[..|ops| - 1], capacity)
  }

  // No operation lowers the capacity.
  predicate NeverLowers(ops: seq<Op>, capacity: nat) {
    forall i :: 0 <= i < |ops| && ops[i].SetCapacity? ==> ops[i].capacity >= CapacityAfter(ops[..i], capacity)
  }

  predicate NeverReleases(ops: seq<Op>, e: Addr) {
    forall i :: 0 <= i < |ops| && ops[i].Release? ==> ops[i].e != e
  }

  lemma HandleHasEntry(shard: LRUCacheShard, e: Addr)
    requires shard.Valid() && e in shard.handles
    ensures e in shard.entries
  {
    hide PoolsOk, ListCharge, TableOk, MemoryOk, Total, ListExact;
  }

  lemma ContentsKept(entries: map<Addr, Entry>, entries': map<Addr, Entry>)
    requires SameContents(entries, entries')
    ensures Kept(entries, entries')
  {
  }

  // What a shard shows its callers.
  datatype View = View(entries: map<Addr, Entry>, handles: multiset<Addr>, strict: bool, capacity: nat, usage: int)

  ghost function Shows(shard: LRUCacheShard): View
    reads shard
  {
    View(shard.entries, shard.handles, shard.strict, shard.capacity, shard.usage)
  }

  /** What every operation does: entries keep their contents, handles other than the one released stay,
      and under the strict limit usage stays within a capacity that is not lowered. */
  ghost predicate Performs(op: Op, was: View, now: View) {
    && Kept(was.entries, now.entries)
    && now.capacity == (if op.SetCapacity? then op.capacity else was.capacity)
    && now.strict == (if op.SetStrictCapacityLimit? then op.limit else was.strict)
    && (forall e :: e in was.handles && !(op.Release? && op.e == e) ==> e in now.handles)
    && (KeepsStrict(op) && was.strict && was.usage <= was.capacity <= now.capacity ==> now.usage <= now.capacity)
  }

  // Operations that give out or take back handles.
  method PerformByHandle(shard: LRUCacheShard, op: Op)
    requires shard.Valid() && (op.Insert? || op.Lookup? || op.Ref? || op.Release?)
    modifies shard
    ensures shard.Valid() && Performs(op, old(Shows(shard)), Shows(shard))
  {
    hide LRUCacheShard.Valid, SameContents, Kept, Evicts, TableWithout, AddrSet, Displaced, IsEntry;
    ContentsAreSame(shard.entries);
    ContentsKept(shard.entries, shard.entries);
    match op {
      case Insert(key, value, charge, hold, highPri) =>
        var ok, handle, accepted, evicted := shard.Insert(key, value, charge, hold, highPri);
      case Lookup(key) =>
        var e := shard.Lookup(key);
        ContentsKept(old(shard.entries), shard.entries);
      case Ref(e) =>
        if e in shard.handles {
          shard.Ref(e);
          ContentsKept(old(shard.entries), shard.entries);
        }
      case Release(e, forceErase) =>
        if e in shard.handles { var erased := shard.Release(Some(e), forceErase); }
    }
  }

  /** One operation. */
  method Perform(shard: LRUCacheShard, op: Op)
    requires shard.Valid() && (op.SetHighPriorityPoolRatio? ==> op.ratio >= 0.0)
    modifies shard
    ensures shard.Valid() && Performs(op, old(Shows(shard)), Shows(shard))
  {
    hide LRUCacheShard.Valid, SameContents, Kept, Evicts, TableWithout, AddrSet, Displaced, IsEntry;
    ContentsAreSame(shard.entries);
    ContentsKept(shard.entries, shard.entries);
    match op {
      case Erase(key) =>
        shard.Erase(key);
      case EraseUnRefEntries =>
        shard.EraseUnRefEntries();
      case SetCapacity(capacity) =>
        var evicted := shard.SetCapacity(capacity);
      case SetStrictCapacityLimit(limit) =>
        shard.SetStrictCapacityLimit(limit);
      case SetHighPriorityPoolRatio(ratio) =>
        shard.SetHighPriorityPoolRatio(ratio);
        ContentsKept(old(shard.entries), shard.entries);
      case _ =>
        PerformByHandle(shard, op);
    }
  }

  predicate HoldsSame(was: map<Addr, Entry>, entries: map<Addr, Entry>, handles: multiset<Addr>, e: Addr) {
    e in handles && e in was && e in entries && SameItem(was[e], entries[e])
  }

  lemma StillHolds(was: map<Addr, Entry>, mid: map<Addr, Entry>, held: multiset<Addr>, entries: map<Addr, Entry>, handles: multiset<Addr>, e: Addr)
    requires HoldsSame(was, mid, held, e) && Kept(mid, entries) && e in handles && e in entries
    ensures HoldsSame(was, entries, handles, e)
  {
  }

  /** In every run the invariant of the shard holds; a handle keeps its entry until it is released; and with
      the strict limit always on and the capacity never lowered, usage stays within the capacity. */
  method RunOperations(shard: LRUCacheShard, ops: seq<Op>)
    requires shard.Valid() && RatiosOk(ops)
    modifies shard
    ensures shard.Valid() && shard.capacity == CapacityAfter(ops, old(shard.capacity))
    ensures old(shard.strict && shard.usage <= shard.capacity) && AlwaysStrict(ops) && NeverLowers(ops, old(shard.capacity)) ==>
              shard.strict && shard.usage <= shard.capacity
    ensures forall e :: e in old(shard.handles) && NeverReleases(ops, e) ==> HoldsSame(old(shard.entries), shard.entries, shard.handles, e)
  {
    hide LRUCacheShard.Valid, Kept, HoldsSame;
    forall e | e in shard.handles ensures HoldsSame(shard.entries, shard.entries, shard.handles, e) { HeldNow(shard, e); }
    for i := 0 to |ops|
      invariant shard.Valid() && shard.capacity == CapacityAfter(ops[..i], old(shard.capacity))
      invariant old(shard.strict && shard.usage <= shard.capacity) && AlwaysStrict(ops) && NeverLowers(ops, old(shard.capacity)) ==>
                  shard.strict && shard.usage <= shard.capacity
      invariant forall e :: e in old(shard.handles) && NeverReleases(ops, e) ==> HoldsSame(old(shard.entries), shard.entries, shard.handles, e)
    {
      ghost var mid, held := shard.entries, shard.handles;
      assert ops[..i + 1][..i] == ops[..i];
      Perform(shard, ops[i]);
      forall e | e in old(shard.handles) && NeverReleases(ops, e) ensures HoldsSame(old(shard.entries), shard.entries, shard.handles, e) {
        HeldMeans(old(shard.entries), mid, held, e);
        HandleHasEntry(shard, e);
        StillHolds(old(shard.entries), mid, held, shard.entries, shard.handles, e);
      }
    }
    assert ops[..|ops|] == ops;
  }

  lemma HeldNow(shard: LRUCacheShard, e: Addr)
    requires shard.Valid() && e in shard.handles
    ensures HoldsSame(shard.entries, shard.entries, shard.handles, e)
  {
    hide LRUCacheShard.Valid;
    HandleHasEntry(shard, e);
  }

  lemma HeldMeans(was: map<Addr, Entry>, entries: map<Addr, Entry>, handles: multiset<Addr>, e: Addr)
    requires HoldsSame(was, entries, handles, e)
    ensures e in handles
  {
  }
}
