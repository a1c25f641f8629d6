/**
 One shard of the LRU cache (LRUCacheShard), on the map its hash table refines. Every operation holds
 the mutex throughout; what it frees, it frees after that.
 */
module LRUShard {
  import opened Options
  import opened LRULists
  import opened LRUEntries

  // ---- How changes of one entry act on the list ----

  lemma ListIgnores(entries: map<Addr, Entry>, lru: seq<Addr>, lowPri: Option<Addr>, low: nat, highUsage: int, entries': map<Addr, Entry>)
    requires PoolsOk(entries, lru, lowPri, low, highUsage)
    requires forall i :: 0 <= i < |lru| ==> lru[i] in entries' && entries'[lru[i]].charge == entries[lru[i]].charge
                                            && entries'[lru[i]].inHighPool == entries[lru[i]].inHighPool
    ensures PoolsOk(entries', lru, lowPri, low, highUsage) && ListCharge(entries', lru) == ListCharge(entries, lru)
  {
    hide ListCharge;
    SameListCharge(entries, entries', lru);
    SameListCharge(entries, entries', lru[low..]);
  }

  /** The list is right but for entry e, which is not on it. */
  ghost predicate ExactBut(entries: map<Addr, Entry>, lru: seq<Addr>, e: Addr) {
    && e !in lru
    && forall x :: x != e ==> (x in lru <==> x in entries && entries[x].inCache && entries[x].refs == 1)
  }

  lemma UnlistedIsExact(entries: map<Addr, Entry>, lru: seq<Addr>, i: nat)
    requires ListExact(entries, lru) && NoDuplicates(lru) && i < |lru|
    ensures ExactBut(entries, Without(lru, i), lru[i])
  {
    forall e ensures e in Without(lru, i) <==> e in lru && e != lru[i] { WithoutHas(lru, i, e); }
  }

  lemma NotListedIsExact(entries: map<Addr, Entry>, lru: seq<Addr>, e: Addr)
    requires ListExact(entries, lru) && e !in lru
    ensures ExactBut(entries, lru, e)
  {
  }

  lemma ExactAgain(entries: map<Addr, Entry>, lru: seq<Addr>, e: Addr, entry: Entry)
    requires ExactBut(entries, lru, e) && !(entry.inCache && entry.refs == 1)
    ensures ListExact(entries[e := entry], lru)
  {
  }

  lemma StillExactBut(entries: map<Addr, Entry>, lru: seq<Addr>, e: Addr, entry: Entry)
    requires ExactBut(entries, lru, e)
    ensures ExactBut(entries[e := entry], lru, e)
  {
  }

  // Putting e on the list completes it.
  lemma ListedIsExact(entries: map<Addr, Entry>, entries': map<Addr, Entry>, lru: seq<Addr>, p: nat, e: Addr)
    requires ExactBut(entries, lru, e) && SameCore(entries, entries') && e in entries && entries[e].inCache && entries[e].refs == 1
    requires p <= |lru|
    ensures ListExact(entries', lru[..p] + [e] + lru[p..])
  {
    var lru' := lru[..p] + [e] + lru[p..];
    assert lru == lru[..p] + lru[p..];
    forall x ensures x in lru' <==> x in lru || x == e {}
  }

  lemma ExactAfterFree(entries: map<Addr, Entry>, lru: seq<Addr>, e: Addr)
    requires ListExact(entries, lru) && e !in lru
    ensures ListExact(entries - {e}, lru)
  {
  }

  // The new table is the old one without the entries that are gone.
  predicate TableWithout(table: map<Key, Addr>, table': map<Key, Addr>, gone: set<Addr>) {
    && (forall k :: k in table' ==> k in table && table'[k] == table[k])
    && (forall k :: k in table ==> (k in table' <==> table[k] !in gone))
  }

  lemma OneEntryLess(entries: map<Addr, Entry>, table: map<Key, Addr>, e: Addr)
    requires TableOk(entries, table) && e in entries && entries[e].inCache
    ensures TableWithout(table, table - {entries[e].key}, {e})
  {
  }

  lemma TableWithoutChain(x: map<Key, Addr>, y: map<Key, Addr>, z: map<Key, Addr>, a: set<Addr>, b: set<Addr>)
    requires TableWithout(x, y, a) && TableWithout(y, z, b)
    ensures TableWithout(x, z, a + b)
  {
  }

  lemma TableIsSame(table: map<Key, Addr>)
    ensures TableWithout(table, table, AddrSet([]))
  {
  }

  lemma CoreParts(entries: map<Addr, Entry>, table: map<Key, Addr>, handles: multiset<Addr>, usage: int, next: Addr, freed: seq<Addr>, dying: set<Addr>)
    requires CoreOk(entries, table, handles, usage, next, freed, dying)
    ensures RefsOk(entries, handles, dying) && TableOk(entries, table)
  {
  }

  function AddrSet(list: seq<Addr>): set<Addr> {
    set e | e in list
  }

  lemma NoAddresses()
    ensures AddrSet([]) == {} && NoDuplicates([])
  {
  }

  lemma OneMoreAddress(list: seq<Addr>, e: Addr)
    ensures AddrSet(list + [e]) == AddrSet(list) + {e}
  {
  }

  lemma PrefixIsDistinct(x: seq<Addr>, y: seq<Addr>)
    requires NoDuplicates(x + y)
    ensures NoDuplicates(x)
  {
    assert forall i :: 0 <= i < |x| ==> x[i] == (x + y)[i];
  }

  lemma ChargeIs(entries: map<Addr, Entry>, e: Addr)
    requires e in entries
    ensures ChargeOf(entries, e) == entries[e].charge
  {
  }

  /** What EvictFromLRU takes off the list: the oldest entries, until the charge fits or none is left, and
      no more than that. */
  ghost predicate Evicts(entries: map<Addr, Entry>, lru: seq<Addr>, usage: int, charge: nat, capacity: nat, deleted: seq<Addr>) {
    && |deleted| <= |lru| && deleted == lru[..|deleted|]
    && (usage - ListCharge(entries, deleted) + charge <= capacity || deleted == lru)
    && (deleted != [] ==> usage - ListCharge(entries, deleted[..|deleted| - 1]) + charge > capacity)
  }

  lemma OneMoreCharge(was: map<Addr, Entry>, entries: map<Addr, Entry>, deleted: seq<Addr>, e: Addr)
    requires SameContents(was, entries) && e in entries
    ensures ListCharge(was, deleted + [e]) == ListCharge(was, deleted) + entries[e].charge && (deleted + [e])[..|deleted|] == deleted
  {
    hide ListCharge;
    ChargeOfConcat(was, deleted, [e]);
    ChargeOfOne(was, e);
    ChargeIs(was, e);
  }

  // What callers have handles to is not touched by evictions.
  lemma PinnedStays(was: map<Addr, Entry>, entries: map<Addr, Entry>, deleted: seq<Addr>, lru: seq<Addr>)
    requires SameContents(was, entries)
    ensures ListCharge(was, deleted + lru) - ListCharge(was, deleted) == ListCharge(entries, lru)
  {
    hide ListCharge;
    ChargeOfConcat(was, deleted, lru);
    forall i | 0 <= i < |lru| ensures ChargeOf(entries, lru[i]) == ChargeOf(was, lru[i]) { ContentsHas(was, entries, lru[i]); }
    SameListCharge(was, entries, lru);
  }

  class LRUCacheShard {
    var entries: map<Addr, Entry>
    var table: map<Key, Addr>
    var lru: seq<Addr>
    var lowPri: Option<Addr>
    var usage: int
    var lruUsage: int
    var highUsage: int
    var capacity: nat
    var strict: bool
    var ratio: real
    var highCapacity: real
    // Addresses handed out so far, entries freed, and handles in the hands of callers.
    var next: Addr
    var freed: seq<Addr>
    var handles: multiset<Addr>
    // The size of the low-priority pool, and the entries about to be freed.
    ghost var low: nat
    ghost var dying: set<Addr>

    ghost predicate Listed()
      reads this
    {
      PoolsOk(entries, lru, lowPri, low, highUsage) && lruUsage == ListCharge(entries, lru) && highCapacity >= 0.0 && ratio >= 0.0
    }

    ghost predicate Mid()
      reads this
    {
      CoreOk(entries, table, handles, usage, next, freed, dying) && Listed() && ListExact(entries, lru)
    }

    ghost predicate Valid()
      reads this
    {
      Mid() && dying == {} && (usage > capacity ==> lru == [])
    }

    constructor ()
      ensures Valid() && entries == map[] && table == map[] && capacity == 0 && !strict
    {
      entries, table, lru, lowPri := map[], map[], [], None;
      usage, lruUsage, highUsage, capacity, strict, ratio, highCapacity := 0, 0, 0, 0, false, 0.0, 0.0;
      next, freed, handles, low, dying := 0, [], multiset{}, 0, {};
    }

    method LRU_Remove(e: Addr)
      requires Listed() && e in lru
      modifies `lru, `lowPri, `lruUsage, `highUsage, `low
      ensures Listed() && lru == Without(old(lru), IndexOf(old(lru), e))
    {
      hide ListCharge, IndexOf;
      var i := IndexOf(lru, e);
      RemoveKeepsPools(entries, lru, lowPri, low, highUsage, i);
      WithoutCharge(entries, lru, i);
      if lowPri == Some(e) { lowPri := if i == 0 then None else Some(lru[i - 1]); }
      if i < low { low := low - 1; }
      lru := Without(lru, i);
      lruUsage := lruUsage - entries[e].charge;
      if entries[e].inHighPool { highUsage := highUsage - entries[e].charge; }
    }

    /** MaintainPoolSize: the oldest entries of the high-priority pool overflow to the low-priority pool. */
    method MaintainPoolSize()
      requires PoolsOk(entries, lru, lowPri, low, highUsage) && highCapacity >= 0.0
      modifies `entries, `lowPri, `highUsage, `low
      ensures PoolsOk(entries, lru, lowPri, low, highUsage) && SameCore(old(entries), entries) && highUsage as real <= highCapacity
      ensures low >= old(low)
    {
      hide PoolsOk, SameCore, IndexOf;
      PoolMarksAreSame(entries);
      while highUsage as real > highCapacity
        invariant PoolsOk(entries, lru, lowPri, low, highUsage) && SameCore(old(entries), entries) && low >= old(low)
        decreases |lru| - low
      {
        HighPoolIsNotEmpty(entries, lru, lowPri, low, highUsage);
        NextIsFirstHigh(entries, lru, lowPri, low, highUsage);
        var e := lru[if lowPri.None? then 0 else IndexOf(lru, lowPri.value) + 1];
        OverflowKeepsPools(entries, lru, lowPri, low, highUsage);
        PoolMarkChanges(old(entries), entries, e, false);
        highUsage := highUsage - entries[e].charge;
        entries := entries[e := entries[e].(inHighPool := false)];
        lowPri := Some(e);
        low := low + 1;
      }
    }

    /** LRU_Insert: at the end of the high-priority pool if there is one and the entry asks for it, which
        is then kept within its capacity; otherwise at the end of the low-priority pool. */
    method LRU_Insert(e: Addr)
      requires Listed() && e in entries && e !in lru
      modifies `entries, `lru, `lowPri, `lruUsage, `highUsage, `low
      ensures Listed() && SameCore(old(entries), entries)
      ensures ratio > 0.0 && old(entries[e].highPri) ==> lru == old(lru) + [e] && highUsage as real <= highCapacity
      ensures !(ratio > 0.0 && old(entries[e].highPri)) ==> lru == old(lru[..low] + [e] + lru[low..])
    {
      hide PoolsOk, SameCore, IndexOf, ListCharge;
      PoolMarksAreSame(entries);
      ghost var was := entries;
      if ratio > 0.0 && entries[e].highPri {
        AppendKeepsPools(entries, lru, lowPri, low, highUsage, e);
        PoolMarkChanges(was, entries, e, true);
        lru := lru + [e];
        highUsage := highUsage + entries[e].charge;
        entries := entries[e := entries[e].(inHighPool := true)];
        ghost var mid := entries;
        MaintainPoolSize();
        PoolMarksChain(was, mid, entries);
        InsertedCharge(was, entries, old(lru), |old(lru)|, e);
        assert old(lru)[..|old(lru)|] == old(lru) && old(lru)[|old(lru)|..] == [] && old(lru) + [e] + [] == old(lru) + [e];
      } else {
        NextIsFirstHigh(entries, lru, lowPri, low, highUsage);
        var p := if lowPri.None? then 0 else IndexOf(lru, lowPri.value) + 1;
        InsertKeepsPools(entries, lru, lowPri, low, highUsage, e);
        PoolMarkChanges(was, entries, e, false);
        LowIsWithin(entries, lru, lowPri, low, highUsage);
        lru := lru[..p] + [e] + lru[p..];
        entries := entries[e := entries[e].(inHighPool := false)];
        lowPri := Some(e);
        InsertedCharge(was, entries, old(lru), p, e);
        low := low + 1;
      }
      lruUsage := lruUsage + entries[e].charge by { SameCoreHas(was, entries, e); }
      SameCoreHas(was, entries, e);
    }

    // The shard but for entry e, which is not on the list.
    ghost predicate MidBut(e: Addr)
      reads this
    {
      CoreOk(entries, table, handles, usage, next, freed, dying) && Listed() && ExactBut(entries, lru, e) && e in entries
    }

    /** Takes an entry off the list, if it is on it. */
    method Unlist(e: Addr)
      requires Mid() && e in entries
      modifies `lru, `lowPri, `lruUsage, `highUsage, `low
      ensures MidBut(e)
      ensures if e in old(lru) then lru == Without(old(lru), IndexOf(old(lru), e)) else lru == old(lru)
    {
      hide PoolsOk, IndexOf, ListCharge, CoreOk, ListExact, ExactBut, NoDuplicates, Without;
      DistinctList(entries, lru, lowPri, low, highUsage);
      ListMeaning(entries, lru, e);
      if entries[e].inCache && entries[e].refs == 1 {
        LRU_Remove(e);
        IndexMeaning(old(lru), e);
        UnlistedIsExact(entries, old(lru), IndexOf(old(lru), e));
      } else {
        NotListedIsExact(entries, lru, e);
      }
    }

    /** The table lets go of an entry that is not on the list. */
    method Detach(e: Addr) returns (last: bool)
      requires MidBut(e) && entries[e].inCache
      modifies `entries, `table, `usage, `dying
      ensures Mid() && last == old(entries[e].refs == 1) && e in entries && !entries[e].inCache
      ensures dying == if last then old(dying) + {e} else old(dying)
      ensures usage == if last then old(usage - entries[e].charge) else old(usage)
      ensures TableWithout(old(table), table, {e}) && SameContents(old(entries), entries)
      ensures entries[e].refs == old(entries[e].refs) - 1 && table == old(table - {entries[e].key})
    {
      hide PoolsOk, ListCharge, CoreOk, ListExact, ExactBut, SameContents, TableWithout, RefsOk, TableOk;
      CoreParts(entries, table, handles, usage, next, freed, dying);
      OneEntryLess(entries, table, e);
      DetachKeeps(entries, table, handles, usage, next, freed, dying, e);
      var gone := entries[e].(refs := entries[e].refs - 1, inCache := false);
      ExactAgain(entries, lru, e, gone);
      ExactMeaning(entries, lru, e);
      UnlistedKeeps(entries, lru, lowPri, low, highUsage, e, gone);
      ContentsSame(entries, e, gone);
      last := entries[e].refs == 1;
      if last {
        usage := usage - entries[e].charge;
        dying := dying + {e};
      }
      table := table - {entries[e].key};
      entries := entries[e := gone];
    }

    /** The oldest entry of the list leaves the cache. */
    method EvictOldest()
      requires Mid() && lru != []
      modifies `entries, `table, `lru, `lowPri, `lruUsage, `highUsage, `low, `usage, `dying
      ensures Mid() && lru == old(lru[1..]) && dying == old(dying + {lru[0]}) && old(lru[0] in entries)
      ensures usage == old(usage - entries[lru[0]].charge)
      ensures TableWithout(old(table), table, {old(lru[0])}) && SameContents(old(entries), entries)
    {
      hide PoolsOk, IndexOf, ListCharge, CoreOk, ListExact, ExactBut, SameContents, TableWithout, NoDuplicates, Without;
      var e := lru[0];
      FirstOfList(entries, lru, lowPri, low, highUsage);
      ListedIsIdle(entries, lru, e);
      Unlist(e);
      var last := Detach(e);
    }

    /** EvictFromLRU: the oldest entries go, until the charge fits or the list is empty; no more than
        necessary. */
    method EvictFromLRU(charge: nat) returns (deleted: seq<Addr>)
      requires Mid() && dying == {}
      modifies `entries, `table, `lru, `lowPri, `lruUsage, `highUsage, `low, `usage, `dying
      ensures Mid() && Evicts(old(entries), old(lru), old(usage), charge, capacity, deleted)
      ensures old(lru) == deleted + lru && dying == AddrSet(deleted) && NoDuplicates(deleted)
      ensures usage == old(usage) - ListCharge(old(entries), deleted) && usage - lruUsage == old(usage - lruUsage)
      ensures usage <= old(usage) && (usage + charge <= capacity || lru == [])
      ensures SameContents(old(entries), entries) && TableWithout(old(table), table, AddrSet(deleted))
    {
      hide PoolsOk, IndexOf, ListCharge, CoreOk, ListExact, SameContents, TableWithout, AddrSet, NoDuplicates, ChargeOf;
      deleted := [];
      NoAddresses();
      EmptyListCharge(entries);
      TableIsSame(table);
      ContentsAreSame(entries);
      DistinctList(entries, lru, lowPri, low, highUsage);
      while usage + charge > capacity && lru != []
        invariant Mid() && old(lru) == deleted + lru && dying == AddrSet(deleted) && NoDuplicates(old(lru))
        invariant usage == old(usage) - ListCharge(old(entries), deleted) <= old(usage)
        invariant SameContents(old(entries), entries) && TableWithout(old(table), table, AddrSet(deleted))
        invariant deleted != [] ==> old(usage) - ListCharge(old(entries), deleted[..|deleted| - 1]) + charge > capacity
        decreases |lru|
      {
        ghost var was, wasTable := entries, table;
        var e := lru[0];
        EvictOldest();
        OneMoreCharge(old(entries), was, deleted, e);
        TableWithoutChain(old(table), wasTable, table, AddrSet(deleted), {e});
        ContentsChain(old(entries), was, entries);
        OneMoreAddress(deleted, e);
        deleted := deleted + [e];
      }
      PrefixIsDistinct(deleted, lru);
      PinnedStays(old(entries), entries, deleted, lru);
    }

    /** Free, for entries without references. */
    method FreeAll(deleted: seq<Addr>)
      requires Mid() && NoDuplicates(deleted) && dying == AddrSet(deleted)
      modifies `entries, `freed, `dying
      ensures Mid() && dying == {} && freed == old(freed) + deleted && entries == old(entries) - AddrSet(deleted)
    {
      hide PoolsOk, ListCharge, RefsOk, TableOk, MemoryOk, Total, ListExact;
      assert deleted[..0] == [] && AddrSet(deleted[..0]) == {};
      for i := 0 to |deleted|
        invariant Mid() && dying == AddrSet(deleted) - AddrSet(deleted[..i])
        invariant freed == old(freed) + deleted[..i] && entries == old(entries) - AddrSet(deleted[..i])
      {
        var e := deleted[i];
        assert deleted[..i + 1] == deleted[..i] + [e] && e !in deleted[..i];
        assert AddrSet(deleted[..i + 1]) == AddrSet(deleted[..i]) + {e};
        DyingIsNotListed(entries, handles, dying, lru, e);
        FreeKeeps(entries, table, handles, usage, next, freed, dying, e);
        FreedKeeps(entries, lru, lowPri, low, highUsage, e);
        ExactAfterFree(entries, lru, e);
        entries := entries - {e};
        freed := freed + [e];
        dying := dying - {e};
      }
      assert deleted[..|deleted|] == deleted;
    }

    /** Free, for one entry or none. */
    method FreeIf(last: bool, e: Addr)
      requires Mid() && dying == if last then {e} else {}
      modifies `entries, `freed, `dying
      ensures Mid() && dying == {} && freed == old(freed) + (if last then [e] else []) && entries == old(entries) - old(dying)
    {
      hide PoolsOk, ListCharge, CoreOk, ListExact;
      if last {
        assert AddrSet([e]) == {e};
        FreeAll([e]);
      } else {
        assert entries - {} == entries;
      }
    }

    // ---- The operations ----

    /** A caller gets a handle to entry e. */
    method TakeHandle(e: Addr)
      requires Valid() && e in entries
      modifies `entries, `handles, `lru, `lowPri, `lruUsage, `highUsage, `low
      ensures Valid() && handles == old(handles) + multiset{e} && SameContents(old(entries), entries)
    {
      hide PoolsOk, IndexOf, ListCharge, CoreOk, ListExact, ExactBut, SameContents, RefsOk, TableOk, NoDuplicates, Without;
      CoreParts(entries, table, handles, usage, next, freed, dying);
      RefsMeaning(entries, handles, dying, e);
      Unlist(e);
      ShorterIsEmpty(old(lru), lru, e);
      var taken := entries[e].(refs := entries[e].refs + 1);
      ExactAgain(entries, lru, e, taken);
      ExactMeaning(entries, lru, e);
      UnlistedKeeps(entries, lru, lowPri, low, highUsage, e, taken);
      TakeKeeps(entries, table, handles, usage, next, freed, dying, e);
      ContentsSame(entries, e, taken);
      entries := entries[e := taken];
      handles := handles + multiset{e};
    }

    /** Lookup. */
    method Lookup(key: Key) returns (e: Option<Addr>)
      requires Valid()
      modifies `entries, `handles, `lru, `lowPri, `lruUsage, `highUsage, `low
      ensures Valid() && SameContents(old(entries), entries)
      ensures e == if key in table then Some(table[key]) else None
      ensures handles == if e.Some? then old(handles) + multiset{e.value} else old(handles)
    {
      if key in table {
        TakeHandle(table[key]);
        e := Some(table[key]);
      } else {
        e := None;
      }
    }

    /** Ref: another reference, for a caller that has one. */
    method Ref(e: Addr)
      requires Valid() && e in handles
      modifies `entries, `handles, `lru, `lowPri, `lruUsage, `highUsage, `low
      ensures Valid() && SameContents(old(entries), entries) && handles == old(handles) + multiset{e}
    {
      CoreParts(entries, table, handles, usage, next, freed, dying);
      TakeHandle(e);
    }

    /** A handle comes back; the entry is not on the list. */
    method GiveBack(e: Addr) returns (last: bool)
      requires Valid() && e in handles
      modifies `entries, `handles, `usage, `dying
      ensures MidBut(e) && handles == old(handles) - multiset{e} && SameContents(old(entries), entries)
      ensures old(e in entries && entries[e].refs > 0) && entries[e] == old(entries[e]).(refs := old(entries[e].refs) - 1)
      ensures last == old(entries[e].refs == 1) && dying == (if last then {e} else {}) && !(last && entries[e].inCache)
      ensures usage == if last then old(usage - entries[e].charge) else old(usage)
    {
      hide PoolsOk, IndexOf, ListCharge, CoreOk, ListExact, ExactBut, SameContents, RefsOk, TableOk;
      HeldEntry(entries, table, handles, usage, next, freed, dying, lru, e);
      GiveBackKeeps(entries, table, handles, usage, next, freed, dying, e);
      var less := entries[e].(refs := entries[e].refs - 1);
      StillExactBut(entries, lru, e, less);
      UnlistedKeeps(entries, lru, lowPri, low, highUsage, e, less);
      ContentsSame(entries, e, less);
      last := entries[e].refs == 1;
      if last {
        usage := usage - entries[e].charge;
        dying := dying + {e};
      }
      entries := entries[e := less];
      handles := handles - multiset{e};
    }

    /** An entry that only the table refers to goes on the list. */
    method Relist(e: Addr)
      requires MidBut(e) && entries[e].inCache && entries[e].refs == 1
      modifies `entries, `lru, `lowPri, `lruUsage, `highUsage, `low
      ensures Mid() && SameCore(old(entries), entries)
    {
      hide PoolsOk, ListCharge, CoreOk, ListExact, ExactBut, SameCore;
      LowIsWithin(entries, lru, lowPri, low, highUsage);
      ExactMeaning(entries, lru, e);
      ghost var high := ratio > 0.0 && entries[e].highPri;
      LRU_Insert(e);
      ghost var p := if high then |old(lru)| else old(low);
      ListedIsExact(old(entries), entries, old(lru), p, e);
      assert lru == old(lru)[..p] + [e] + old(lru)[p..];
      PoolMarksDoNotMatter(old(entries), entries, table, handles, usage, next, freed, dying);
    }

    /** Release: the entry is freed with its last reference; if only the table still refers to it, it goes
        on the list, unless the cache is over capacity or the caller wants it erased. */
    method Release(handle: Option<Addr>, forceErase: bool) returns (erased: bool)
      requires Valid() && (handle.Some? ==> handle.value in handles)
      modifies this
      ensures Valid() && capacity == old(capacity) && strict == old(strict) && usage <= old(usage)
      ensures handle.None? ==> !erased && handles == old(handles) && entries == old(entries) && table == old(table)
      ensures handle.Some? ==> && handles == old(handles) - multiset{handle.value} && old(handle.value in entries)
                               && freed == old(freed) + (if erased then [handle.value] else []) && Kept(old(entries), entries)
      ensures handle.Some? ==>
                var e := old(entries[handle.value]);
                && (erased <==> e.refs == 1 || (e.refs == 2 && e.inCache && (old(usage > capacity) || forceErase)))
                && table == if erased && e.inCache then old(table) - {e.key} else old(table)
    {
      hide PoolsOk, ListCharge, CoreOk, ListExact, ExactBut, SameContents, TableWithout, AddrSet, NoDuplicates, Kept;
      if handle.None? { return false; }
      var last := GiveBack(handle.value);
      ghost var was := entries;
      erased := Settle(handle.value, last, forceErase);
      KeptStill(old(entries), was, entries);
    }

    // What happens to an entry after a handle has come back.
    method Settle(e: Addr, last: bool, forceErase: bool) returns (erased: bool)
      requires MidBut(e) && dying == (if last then {e} else {}) && (last <==> entries[e].refs == 0)
      requires usage > capacity ==> lru == []
      modifies `entries, `table, `lru, `lowPri, `lruUsage, `highUsage, `low, `usage, `dying, `freed
      ensures Valid() && usage <= old(usage) && freed == old(freed) + (if erased then [e] else [])
      ensures erased <==> last || old(entries[e].refs == 1 && entries[e].inCache && (usage > capacity || forceErase))
      ensures table == (if erased && old(entries[e].inCache && entries[e].refs == 1) then old(table - {entries[e].key}) else old(table))
      ensures Kept(old(entries), entries)
    {
      hide PoolsOk, ListCharge, CoreOk, ListExact, ExactBut, SameContents, TableWithout, AddrSet, NoDuplicates, SameCore, Kept;
      erased := last;
      if entries[e].refs == 1 && entries[e].inCache {
        if usage > capacity || forceErase {
          // The assertion of the source: over capacity, the list is empty.
          assert usage > capacity ==> lru == [];
          erased := Detach(e);
        } else {
          Relist(e);
          SameCoreContents(old(entries), entries);
        }
      } else {
        ExactAsIs(entries, lru, e);
        ContentsAreSame(entries);
      }
      KeptAfterFree(old(entries), entries, dying);
      FreeIf(erased, e);
    }

    /** The entry with this key, if there is one, makes room for another. */
    method Displace(key: Key) returns (gone: seq<Addr>)
      requires Mid()
      modifies `entries, `table, `lru, `lowPri, `lruUsage, `highUsage, `low, `usage, `dying
      ensures Mid() && key !in table && usage <= old(usage) && (old(lru) == [] ==> lru == [])
      ensures table == old(table) - {key} && SameContents(old(entries), entries)
      ensures gone == Displaced(old(table), old(lru), key)
      ensures dying == old(dying) + AddrSet(gone) && NoDuplicates(gone) && forall e :: e in gone ==> e !in old(dying)
    {
      hide PoolsOk, IndexOf, ListCharge, CoreOk, ListExact, ExactBut, SameContents, TableWithout, RefsOk, TableOk, Without;
      gone := [];
      assert AddrSet([]) == {};
      if key in table {
        CoreParts(entries, table, handles, usage, next, freed, dying);
        InTableMeans(entries, table, key);
        var e := table[key];
        RefsMeaning(entries, handles, dying, e);
        ListMeaning(entries, lru, e);
        Unlist(e);
        ShorterIsEmpty(old(lru), lru, e);
        var last := Detach(e);
        assert AddrSet([e]) == {e};
        if last { gone := [e]; }
      } else {
        ContentsAreSame(entries);
        assert table - {key} == table;
      }
    }

    /** Erase: the table lets go of the entry with this key, which is freed if nobody has a handle. */
    method Erase(key: Key)
      requires Valid()
      modifies this
      ensures Valid() && capacity == old(capacity) && strict == old(strict) && usage <= old(usage) && handles == old(handles)
      ensures table == old(table) - {key} && Kept(old(entries), entries)
      ensures freed == old(freed) + Displaced(old(table), old(lru), key)
    {
      hide PoolsOk, ListCharge, CoreOk, ListExact, SameContents, NoDuplicates, Kept;
      var gone := Displace(key);
      KeptAfterFree(old(entries), entries, AddrSet(gone));
      FreeAll(gone);
    }

    /** EraseUnRefEntries: all entries only the table refers to go. */
    method EraseUnRefEntries()
      requires Valid()
      modifies this
      ensures Valid() && capacity == old(capacity) && strict == old(strict) && usage <= old(usage) && handles == old(handles)
      ensures lru == [] && freed == old(freed + lru) && TableWithout(old(table), table, AddrSet(old(lru))) && Kept(old(entries), entries)
    {
      hide PoolsOk, ListCharge, CoreOk, ListExact, SameContents, TableWithout, AddrSet, NoDuplicates, Kept;
      var gone: seq<Addr> := [];
      NoAddresses();
      TableIsSame(table);
      ContentsAreSame(entries);
      DistinctList(entries, lru, lowPri, low, highUsage);
      while lru != []
        invariant Mid() && old(lru) == gone + lru && dying == AddrSet(gone) && usage <= old(usage)
        invariant TableWithout(old(table), table, AddrSet(gone)) && NoDuplicates(old(lru)) && handles == old(handles) && freed == old(freed)
        invariant capacity == old(capacity) && strict == old(strict) && SameContents(old(entries), entries)
        decreases |lru|
      {
        ghost var was, wasTable := entries, table;
        var e := lru[0];
        EvictOldest();
        ContentsChain(old(entries), was, entries);
        TableWithoutChain(old(table), wasTable, table, AddrSet(gone), {e});
        OneMoreAddress(gone, e);
        gone := gone + [e];
      }
      assert gone == old(lru);
      KeptAfterFree(old(entries), entries, AddrSet(gone));
      FreeAll(gone);
    }

    /** SetCapacity: what does not fit any more goes, oldest first. */
    method SetCapacity(newCapacity: nat) returns (ghost evicted: seq<Addr>)
      requires Valid()
      modifies this
      ensures Valid() && capacity == newCapacity && strict == old(strict) && usage <= old(usage) && handles == old(handles)
      ensures highCapacity == newCapacity as real * ratio && ratio == old(ratio)
      ensures Evicts(old(entries), old(lru), old(usage), 0, newCapacity, evicted) && freed == old(freed) + evicted
      ensures TableWithout(old(table), table, AddrSet(evicted)) && Kept(old(entries), entries) && (usage <= capacity || lru == [])
    {
      hide PoolsOk, ListCharge, CoreOk, ListExact, SameContents, TableWithout, Evicts, AddrSet, NoDuplicates, Kept;
      capacity := newCapacity;
      highCapacity := capacity as real * ratio;
      var deleted := EvictFromLRU(0);
      KeptAfterFree(old(entries), entries, AddrSet(deleted));
      FreeAll(deleted);
      evicted := deleted;
    }

    /** GetPinnedUsage: the charge of the entries callers have handles to, which is not negative. */
    method GetPinnedUsage() returns (pinned: nat)
      requires Valid()
      ensures pinned == usage - lruUsage
    {
      ListWithinTotal(entries, table, handles, usage, next, freed, lru, lowPri, low, highUsage);
      pinned := usage - lruUsage;
    }

    method SetStrictCapacityLimit(limit: bool)
      requires Valid()
      modifies `strict
      ensures Valid() && strict == limit
    {
      strict := limit;
    }

    /** SetHighPriorityPoolRatio: the pool is kept within its new capacity. */
    method SetHighPriorityPoolRatio(newRatio: real)
      requires Valid() && newRatio >= 0.0
      modifies `ratio, `highCapacity, `entries, `lowPri, `highUsage, `low
      ensures Valid() && ratio == newRatio && highCapacity == capacity as real * ratio && highUsage as real <= highCapacity
      ensures SameContents(old(entries), entries)
    {
      hide PoolsOk, ListCharge, CoreOk, ListExact, SameContents, SameCore;
      ratio := newRatio;
      highCapacity := capacity as real * ratio;
      MaintainPoolSize();
      PoolMarksDoNotMatter(old(entries), entries, table, handles, usage, next, freed, dying);
      SameCoreContents(old(entries), entries);
      SameCoreList(old(entries), entries, lru);
    }

    /** A new entry, with a handle for the caller or on the list. */
    method AddEntry(key: Key, value: nat, charge: nat, hold: bool, highPri: bool) returns (e: Addr)
      requires Mid() && key !in table
      modifies `entries, `table, `lru, `lowPri, `lruUsage, `highUsage, `low, `usage, `next, `handles
      ensures Mid() && e == old(next) && next == e + 1 && usage == old(usage) + charge
      ensures table == old(table)[key := e] && (hold ==> lru == old(lru))
      ensures handles == if hold then old(handles) + multiset{e} else old(handles)
      ensures IsEntry(entries, e, old(next), key, value, charge) && entries[e].inCache && dying == old(dying) && Kept(old(entries), entries)
    {
      hide PoolsOk, ListCharge, CoreOk, ListExact, ExactBut, SameContents, SameCore, Kept;
      e := next;
      var entry := Entry(key, value, charge, if hold then 2 else 1, true, highPri, false);
      NextIsNew(entries, table, handles, usage, next, freed, dying, entry);
      AddKeeps(entries, table, handles, usage, next, freed, dying, entry, hold);
      NewIsNotListed(entries, lru, lowPri, low, highUsage, e);
      UnlistedKeeps(entries, lru, lowPri, low, highUsage, e, entry);
      NotListedIsExact(entries, lru, e);
      StillExactBut(entries, lru, e, entry);
      entries := entries[e := entry];
      table := table[key := e];
      usage := usage + charge;
      next := next + 1;
      if hold {
        handles := handles + multiset{e};
        ExactAsIs(entries, lru, e);
      } else {
        Relist(e);
        SameCoreEntry(old(entries)[e := entry], entries, e);
        SameCoreKept(old(entries), old(entries)[e := entry], entries);
      }
    }

    /** Insert: makes room by evicting from the list. If the entry still does not fit beside what callers
        have handles to, it is refused when the limit is strict, and dropped at once when the caller
        wants no handle; otherwise it replaces the entry of its key. */
    method Insert(key: Key, value: nat, charge: nat, hold: bool, highPri: bool)
      returns (ok: bool, handle: Option<Addr>, ghost accepted: bool, ghost evicted: seq<Addr>)
      requires Valid()
      modifies this
      ensures Valid() && capacity == old(capacity) && strict == old(strict) && Kept(old(entries), entries)
      ensures accepted <==> old(usage - lruUsage) + charge <= capacity || (hold && !strict)
      ensures ok == (accepted || !hold) && handle == (if accepted && hold then Some(old(next)) else None)
      ensures handles == if handle.Some? then old(handles) + multiset{handle.value} else old(handles)
      ensures Evicts(old(entries), old(lru), old(usage), charge, capacity, evicted)
      ensures accepted ==> key in table && IsEntry(entries, table[key], old(next), key, value, charge)
      ensures accepted ==> TableWithout(old(table) - {key}, table - {key}, AddrSet(evicted))
      ensures !accepted ==> TableWithout(old(table), table, AddrSet(evicted))
      ensures freed == old(freed) + evicted +
                       (if accepted then Displaced(old(table), old(lru)[|evicted|..], key) else if hold then [] else [old(next)])
      ensures strict && old(usage) <= capacity ==> usage <= capacity
      ensures usage <= old(usage) + charge
    {
      hide PoolsOk, ListCharge, CoreOk, ListExact, SameContents, TableWithout, AddrSet, NoDuplicates, Kept, Evicts, Displaced;
      DistinctList(entries, lru, lowPri, low, highUsage);
      var deleted := EvictFromLRU(charge);
      ghost var was, mid := entries, table;
      evicted := deleted;
      EmptyListCharge(entries);
      DisplacedAfter(old(table), table, deleted, lru, key);
      if usage - lruUsage + charge > capacity && (strict || !hold) {
        KeptAfterFree(old(entries), entries, AddrSet(deleted));
        FreeAll(deleted);
        if !hold { DropNew(); }
        return !hold, None, false, evicted;
      }
      var e := Accept(deleted, key, value, charge, hold, highPri);
      KeptStill(old(entries), was, entries);
      TableAfterInsert(old(table), mid, key, e, AddrSet(deleted));
      return true, if hold then Some(e) else None, true, evicted;
    }

    /** The entry replaces the one of its key; what is gone is freed. */
    method Accept(deleted: seq<Addr>, key: Key, value: nat, charge: nat, hold: bool, highPri: bool) returns (e: Addr)
      requires Mid() && dying == AddrSet(deleted) && NoDuplicates(deleted)
      requires (usage + charge <= capacity || lru == []) && (!hold ==> usage + charge <= capacity)
      modifies this
      ensures Valid() && capacity == old(capacity) && strict == old(strict) && e == old(next)
      ensures handles == if hold then old(handles) + multiset{e} else old(handles)
      ensures table == old(table)[key := e] && IsEntry(entries, e, old(next), key, value, charge) && Kept(old(entries), entries)
      ensures freed == old(freed) + deleted + Displaced(old(table), old(lru), key)
      ensures usage <= old(usage) + charge
    {
      hide PoolsOk, ListCharge, CoreOk, ListExact, SameContents, AddrSet, NoDuplicates, Kept;
      var gone := Displace(key);
      ghost var was := entries;
      e := AddEntry(key, value, charge, hold, highPri);
      BothDistinct(deleted, gone);
      NewIsNotDying(e, deleted, gone);
      KeptWithNew(old(entries), was, entries, AddrSet(deleted + gone));
      assert old(table)[key := e] == (old(table) - {key})[key := e];
      FreeAll(deleted + gone);
    }

    // A refused entry without a handle takes an address and is freed: its own reference is the one counted
    // for the table it never reached.
    method DropNew()
      requires Mid()
      modifies `next, `freed
      ensures Mid() && next == old(next) + 1 && freed == old(freed) + [old(next)]
    {
      hide PoolsOk, ListCharge, RefsOk, TableOk, ListExact;
      DroppedKeeps(entries, dying, next, freed);
      freed := freed + [next];
      next := next + 1;
    }

    lemma NewIsNotDying(e: Addr, deleted: seq<Addr>, gone: seq<Addr>)
      requires Mid() && dying == AddrSet(deleted + gone) && e in entries && entries[e].inCache
      ensures e !in AddrSet(deleted + gone)
    {
      hide PoolsOk, ListCharge, TableOk, ListExact, AddrSet, MemoryOk, Total;
    }
  }

  predicate IsEntry(entries: map<Addr, Entry>, e: Addr, next: Addr, key: Key, value: nat, charge: nat) {
    e == next && e in entries && entries[e].key == key && entries[e].value == value && entries[e].charge == charge
  }

  lemma NextIsNew(entries: map<Addr, Entry>, table: map<Key, Addr>, handles: multiset<Addr>, usage: int, next: Addr, freed: seq<Addr>,
                  dying: set<Addr>, entry: Entry)
    requires CoreOk(entries, table, handles, usage, next, freed, dying)
    ensures next !in entries && Kept(entries, entries[next := entry])
  {
  }

  lemma SameCoreKept(was: map<Addr, Entry>, mid: map<Addr, Entry>, entries: map<Addr, Entry>)
    requires Kept(was, mid) && SameCore(mid, entries)
    ensures Kept(was, entries)
  {
  }

  lemma KeptStill(was: map<Addr, Entry>, mid: map<Addr, Entry>, entries: map<Addr, Entry>)
    requires SameContents(was, mid) && Kept(mid, entries)
    ensures Kept(was, entries)
  {
  }

  lemma KeptWithNew(was: map<Addr, Entry>, mid: map<Addr, Entry>, entries: map<Addr, Entry>, gone: set<Addr>)
    requires SameContents(was, mid) && Kept(mid, entries)
    ensures Kept(was, entries - gone)
  {
  }

  // Evictions and then a new entry for the key.
  lemma TableAfterInsert(table: map<Key, Addr>, mid: map<Key, Addr>, key: Key, e: Addr, gone: set<Addr>)
    requires TableWithout(table, mid, gone)
    ensures TableWithout(table - {key}, mid[key := e] - {key}, gone)
  {
  }

  // The entry a new one of the same key replaces, if nobody has a handle to it.
  function Displaced(table: map<Key, Addr>, lru: seq<Addr>, key: Key): seq<Addr> {
    if key in table && table[key] in lru then [table[key]] else []
  }

  // Evictions before that do not matter.
  lemma DisplacedAfter(table: map<Key, Addr>, mid: map<Key, Addr>, deleted: seq<Addr>, rest: seq<Addr>, key: Key)
    requires NoDuplicates(deleted + rest) && TableWithout(table, mid, AddrSet(deleted))
    ensures Displaced(mid, rest, key) == Displaced(table, rest, key) && (deleted + rest)[|deleted|..] == rest
  {
    if key in table && table[key] in rest {
      var i :| 0 <= i < |rest| && rest[i] == table[key];
      assert (deleted + rest)[|deleted| + i] == rest[i];
      forall k | 0 <= k < |deleted| ensures deleted[k] != rest[i] { assert (deleted + rest)[k] == deleted[k]; }
    }
  }

  lemma DroppedKeeps(entries: map<Addr, Entry>, dying: set<Addr>, next: Addr, freed: seq<Addr>)
    requires MemoryOk(entries, next, freed)
    ensures MemoryOk(entries, next + 1, freed + [next]) && Total(entries, dying, next + 1) == Total(entries, dying, next)
  {
    var freed' := freed + [next];
    forall i, j | 0 <= i < j < |freed'| ensures freed'[i] != freed'[j] { assert freed'[i] in freed; }
  }

  lemma EmptyListCharge(entries: map<Addr, Entry>)
    ensures ListCharge(entries, []) == 0
  {
  }

  lemma BothDistinct(x: seq<Addr>, y: seq<Addr>)
    requires NoDuplicates(x) && NoDuplicates(y) && forall e :: e in y ==> e !in AddrSet(x)
    ensures NoDuplicates(x + y) && AddrSet(x + y) == AddrSet(x) + AddrSet(y)
  {
    var both := x + y;
    forall i, j | 0 <= i < j < |both| ensures both[i] != both[j] {
      if i < |x| <= j { assert both[j] in y && both[i] in AddrSet(x); }
    }
  }

  /** The list without entry e, whose references or marks change so that it does not belong there. */
  lemma UnlistedKeeps(entries: map<Addr, Entry>, lru: seq<Addr>, lowPri: Option<Addr>, low: nat, highUsage: int, e: Addr, entry: Entry)
    requires PoolsOk(entries, lru, lowPri, low, highUsage) && e !in lru
    ensures PoolsOk(entries[e := entry], lru, lowPri, low, highUsage) && ListCharge(entries[e := entry], lru) == ListCharge(entries, lru)
  {
    ListIgnores(entries, lru, lowPri, low, highUsage, entries[e := entry]);
  }

  lemma FreedKeeps(entries: map<Addr, Entry>, lru: seq<Addr>, lowPri: Option<Addr>, low: nat, highUsage: int, e: Addr)
    requires PoolsOk(entries, lru, lowPri, low, highUsage) && e !in lru
    ensures PoolsOk(entries - {e}, lru, lowPri, low, highUsage) && ListCharge(entries - {e}, lru) == ListCharge(entries, lru)
  {
    ListIgnores(entries, lru, lowPri, low, highUsage, entries - {e});
  }

  lemma FirstOfList(entries: map<Addr, Entry>, lru: seq<Addr>, lowPri: Option<Addr>, low: nat, highUsage: int)
    requires PoolsOk(entries, lru, lowPri, low, highUsage) && lru != []
    ensures NoDuplicates(lru) && IndexOf(lru, lru[0]) == 0 && Without(lru, 0) == lru[1..] && lru[0] !in lru[1..] && lru[0] in entries
  {
  }

  // An entry a caller has a handle to.
  lemma HeldEntry(entries: map<Addr, Entry>, table: map<Key, Addr>, handles: multiset<Addr>, usage: int, next: Addr, freed: seq<Addr>,
                  dying: set<Addr>, lru: seq<Addr>, e: Addr)
    requires CoreOk(entries, table, handles, usage, next, freed, dying) && ListExact(entries, lru) && e in handles
    ensures e in entries && entries[e].refs > 0 && !(entries[e].refs == 1 && entries[e].inCache)
    ensures e !in lru && ExactBut(entries, lru, e)
  {
    hide CoreOk, ListExact, ExactBut, RefsOk, TableOk;
    CoreParts(entries, table, handles, usage, next, freed, dying);
    RefsMeaning(entries, handles, dying, e);
    ListMeaning(entries, lru, e);
    NotListedIsExact(entries, lru, e);
  }

  lemma ListedIsIdle(entries: map<Addr, Entry>, lru: seq<Addr>, e: Addr)
    requires ListExact(entries, lru) && e in lru
    ensures e in entries && entries[e].inCache && entries[e].refs == 1
  {
  }

  lemma DyingIsNotListed(entries: map<Addr, Entry>, handles: multiset<Addr>, dying: set<Addr>, lru: seq<Addr>, e: Addr)
    requires RefsOk(entries, handles, dying) && ListExact(entries, lru) && e in dying
    ensures e !in lru && e in entries
  {
  }

  lemma ListWithinTotal(entries: map<Addr, Entry>, table: map<Key, Addr>, handles: multiset<Addr>, usage: int, next: Addr, freed: seq<Addr>,
                        lru: seq<Addr>, lowPri: Option<Addr>, low: nat, highUsage: int)
    requires CoreOk(entries, table, handles, usage, next, freed, {}) && PoolsOk(entries, lru, lowPri, low, highUsage)
    ensures ListCharge(entries, lru) <= usage
  {
    hide ListCharge, Total;
    TotalCovers(entries, {}, next, lru);
  }

  /** The three states of an entry: in the table and on the list, in the table and held by callers, or
      held by callers only. */
  lemma ThreeStates(entries: map<Addr, Entry>, table: map<Key, Addr>, handles: multiset<Addr>, usage: int, next: Addr, freed: seq<Addr>,
                    lru: seq<Addr>, e: Addr)
    requires CoreOk(entries, table, handles, usage, next, freed, {}) && ListExact(entries, lru) && e in entries
    ensures e in lru <==> entries[e].inCache && e !in handles
    ensures !entries[e].inCache ==> e in handles
    ensures entries[e].inCache <==> entries[e].key in table && table[entries[e].key] == e
    ensures e < next && e !in freed
  {
    RefsMeaning(entries, handles, {}, e);
  }

  lemma ExactMeaning(entries: map<Addr, Entry>, lru: seq<Addr>, e: Addr)
    requires ExactBut(entries, lru, e)
    ensures e !in lru
  {
  }

  lemma ShorterIsEmpty(lru: seq<Addr>, lru': seq<Addr>, e: Addr)
    requires if e in lru then lru' == Without(lru, IndexOf(lru, e)) else lru' == lru
    ensures lru == [] ==> lru' == []
  {
    hide IndexOf;
  }

  lemma ExactAsIs(entries: map<Addr, Entry>, lru: seq<Addr>, e: Addr)
    requires ExactBut(entries, lru, e) && (e in entries ==> !(entries[e].inCache && entries[e].refs == 1))
    ensures ListExact(entries, lru)
  {
  }

  lemma InTableMeans(entries: map<Addr, Entry>, table: map<Key, Addr>, key: Key)
    requires TableOk(entries, table) && key in table
    ensures table[key] in entries && entries[table[key]].key == key && entries[table[key]].inCache
  {
  }

  lemma NewIsNotListed(entries: map<Addr, Entry>, lru: seq<Addr>, lowPri: Option<Addr>, low: nat, highUsage: int, e: Addr)
    requires PoolsOk(entries, lru, lowPri, low, highUsage) && e !in entries
    ensures e !in lru
  {
  }

  lemma ListMeaning(entries: map<Addr, Entry>, lru: seq<Addr>, e: Addr)
    requires ListExact(entries, lru)
    ensures e in lru <==> e in entries && entries[e].inCache && entries[e].refs == 1
  {
  }

  lemma RefsMeaning(entries: map<Addr, Entry>, handles: multiset<Addr>, dying: set<Addr>, e: Addr)
    requires RefsOk(entries, handles, dying)
    ensures e in handles ==> e in entries
    ensures e in entries ==> entries[e].refs == (if entries[e].inCache then 1 else 0) + handles[e]
    ensures e in entries ==> (entries[e].refs == 0 <==> e in dying)
  {
  }

  lemma IndexMeaning(list: seq<Addr>, e: Addr)
    requires e in list
    ensures IndexOf(list, e) < |list| && list[IndexOf(list, e)] == e
  {
  }

  lemma SameCoreEntry(was: map<Addr, Entry>, entries: map<Addr, Entry>, e: Addr)
    requires SameCore(was, entries) && e in was
    ensures e in entries && entries[e] == was[e].(inHighPool := entries[e].inHighPool)
  {
  }

  lemma SameCoreContents(was: map<Addr, Entry>, entries: map<Addr, Entry>)
    requires SameCore(was, entries)
    ensures SameContents(was, entries)
  {
  }

  lemma SameCoreList(was: map<Addr, Entry>, entries: map<Addr, Entry>, lru: seq<Addr>)
    requires SameCore(was, entries)
    ensures ListCharge(entries, lru) == ListCharge(was, lru) && (ListExact(was, lru) ==> ListExact(entries, lru))
  {
    SameListCharge(was, entries, lru);
  }

  lemma ContentsSame(entries: map<Addr, Entry>, e: Addr, entry: Entry)
    requires e in entries && SameItem(entries[e], entry)
    ensures SameContents(entries, entries[e := entry])
  {
  }

  lemma ContentsAreSame(entries: map<Addr, Entry>)
    ensures SameContents(entries, entries)
  {
  }

  lemma ContentsChain(x: map<Addr, Entry>, y: map<Addr, Entry>, z: map<Addr, Entry>)
    requires SameContents(x, y) && SameContents(y, z)
    ensures SameContents(x, z)
  {
  }

  lemma ContentsHas(x: map<Addr, Entry>, y: map<Addr, Entry>, e: Addr)
    requires SameContents(x, y)
    ensures ChargeOf(y, e) == ChargeOf(x, e)
  {
  }

  lemma DistinctList(entries: map<Addr, Entry>, lru: seq<Addr>, lowPri: Option<Addr>, low: nat, highUsage: int)
    requires PoolsOk(entries, lru, lowPri, low, highUsage)
    ensures NoDuplicates(lru)
  {
  }

  lemma PoolMarksAreSame(entries: map<Addr, Entry>)
    ensures SameCore(entries, entries)
  {
  }

  lemma PoolMarkChanges(was: map<Addr, Entry>, entries: map<Addr, Entry>, e: Addr, mark: bool)
    requires SameCore(was, entries) && e in entries
    ensures SameCore(was, entries[e := entries[e].(inHighPool := mark)])
  {
  }

  lemma PoolMarksChain(x: map<Addr, Entry>, y: map<Addr, Entry>, z: map<Addr, Entry>)
    requires SameCore(x, y) && SameCore(y, z)
    ensures SameCore(x, z)
  {
  }

  lemma SameCoreHas(was: map<Addr, Entry>, entries: map<Addr, Entry>, e: Addr)
    requires SameCore(was, entries) && e in was
    ensures e in entries && entries[e].charge == was[e].charge && entries[e].highPri == was[e].highPri
  {
  }

  lemma LowIsWithin(entries: map<Addr, Entry>, lru: seq<Addr>, lowPri: Option<Addr>, low: nat, highUsage: int)
    requires PoolsOk(entries, lru, lowPri, low, highUsage)
    ensures low <= |lru|
  {
  }

  lemma InsertedCharge(was: map<Addr, Entry>, entries: map<Addr, Entry>, lru: seq<Addr>, p: nat, e: Addr)
    requires SameCore(was, entries) && p <= |lru| && e in was
    ensures ListCharge(entries, lru[..p] + [e] + lru[p..]) == ListCharge(was, lru) + was[e].charge
  {
    hide ListCharge;
    var lru' := lru[..p] + [e] + lru[p..];
    SameListCharge(was, entries, lru');
    ChargeOfConcat(was, lru[..p] + [e], lru[p..]);
    ChargeOfConcat(was, lru[..p], [e]);
    ChargeOfOne(was, e);
    ChargeOfConcat(was, lru[..p], lru[p..]);
    assert lru == lru[..p] + lru[p..];
  }

  // The entry after lru_low_pri_ is the oldest of the high-priority pool.
  lemma NextIsFirstHigh(entries: map<Addr, Entry>, lru: seq<Addr>, lowPri: Option<Addr>, low: nat, highUsage: int)
    requires PoolsOk(entries, lru, lowPri, low, highUsage)
    ensures lowPri.Some? ==> lowPri.value in lru
    ensures (if lowPri.None? then 0 else IndexOf(lru, lowPri.value) + 1) == low <= |lru|
    ensures low < |lru| ==> lru[low] in entries
  {
    hide ListCharge, IndexOf;
    if low > 0 { IndexIsUnique(lru, low - 1); }
  }
}
