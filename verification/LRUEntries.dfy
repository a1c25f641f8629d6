/**
 References, table membership, usage and memory of the entries of an LRU cache shard, and what each
 elementary change does to them.
 */
module LRUEntries {
  import opened LRULists

  /** refs is one for the table plus one for each handle a caller holds. An entry in `dying` has none
      left and is about to be freed. */
  ghost predicate RefsOk(entries: map<Addr, Entry>, handles: multiset<Addr>, dying: set<Addr>) {
    && (forall e :: e in entries ==> entries[e].refs == (if entries[e].inCache then 1 else 0) + handles[e])
    && (forall e :: e in entries ==> (entries[e].refs == 0 <==> e in dying))
    && (forall e :: e in handles ==> e in entries)
    && (forall e :: e in dying ==> e in entries)
  }

  /** An entry is marked in cache exactly if the table maps its key to it. */
  ghost predicate TableOk(entries: map<Addr, Entry>, table: map<Key, Addr>) {
    && (forall k :: k in table ==> table[k] in entries && entries[table[k]].key == k && entries[table[k]].inCache)
    && (forall e :: e in entries && entries[e].inCache ==> entries[e].key in table && table[entries[e].key] == e)
  }

  // Charges of the entries with addresses below n that are not dying.
  function Total(entries: map<Addr, Entry>, dying: set<Addr>, n: nat): nat {
    if n == 0 then 0 else Total(entries, dying, n - 1) + if n - 1 in dying then 0 else ChargeOf(entries, n - 1)
  }

  /** Every address handed out is an entry's or was freed, once. */
  ghost predicate MemoryOk(entries: map<Addr, Entry>, next: Addr, freed: seq<Addr>) {
    && NoDuplicates(freed)
    && (forall e :: e in entries ==> e < next && e !in freed)
    && (forall e :: e in freed ==> e < next)
    && (forall e: nat :: e < next ==> e in entries || e in freed)
  }

  ghost predicate CoreOk(entries: map<Addr, Entry>, table: map<Key, Addr>, handles: multiset<Addr>, usage: int, next: Addr,
                         freed: seq<Addr>, dying: set<Addr>) {
    && RefsOk(entries, handles, dying) && TableOk(entries, table)
    && usage == Total(entries, dying, next) && MemoryOk(entries, next, freed)
  }

  /** The list has exactly the entries that only the table refers to. */
  ghost predicate ListExact(entries: map<Addr, Entry>, lru: seq<Addr>) {
    forall e :: e in lru <==> e in entries && entries[e].inCache && entries[e].refs == 1
  }

  // ---- Sums ----

  lemma {:induction false} SameTotal(entries: map<Addr, Entry>, entries': map<Addr, Entry>, dying: set<Addr>, n: nat)
    requires forall e: nat :: e < n ==> ChargeOf(entries', e) == ChargeOf(entries, e)
    ensures Total(entries', dying, n) == Total(entries, dying, n)
  {
    if n > 0 { SameTotal(entries, entries', dying, n - 1); }
  }

  lemma {:induction false} DyingTotal(entries: map<Addr, Entry>, dying: set<Addr>, e: Addr, n: nat)
    requires e !in dying
    ensures Total(entries, dying + {e}, n) == Total(entries, dying, n) - (if e < n then ChargeOf(entries, e) else 0)
  {
    if n > 0 { DyingTotal(entries, dying, e, n - 1); }
  }

  lemma {:induction false} FreedTotal(entries: map<Addr, Entry>, dying: set<Addr>, e: Addr, n: nat)
    requires e in dying
    ensures Total(entries - {e}, dying - {e}, n) == Total(entries, dying, n)
  {
    if n > 0 { FreedTotal(entries, dying, e, n - 1); }
  }

  lemma {:induction false} TotalCovers(entries: map<Addr, Entry>, dying: set<Addr>, n: nat, list: seq<Addr>)
    requires NoDuplicates(list) && forall i :: 0 <= i < |list| ==> list[i] < n && list[i] !in dying
    ensures ListCharge(entries, list) <= Total(entries, dying, n)
    decreases n
  {
    if n > 0 {
      var e := n - 1;
      if e in list {
        var i := IndexOf(list, e);
        WithoutHas(list, i, e);
        WithoutCharge(entries, list, i);
        var rest := Without(list, i);
        forall k | 0 <= k < |rest| ensures rest[k] < n - 1 && rest[k] !in dying {
          WithoutHas(list, i, rest[k]);
          assert rest[k] in list;
        }
        TotalCovers(entries, dying, n - 1, rest);
      } else {
        forall k | 0 <= k < |list| ensures list[k] < n - 1 { assert list[k] in list; }
        TotalCovers(entries, dying, n - 1, list);
      }
    }
  }

  // ---- Elementary changes ----

  // The same entries but for references and marks of e.
  ghost predicate SameContents(entries: map<Addr, Entry>, entries': map<Addr, Entry>) {
    && entries'.Keys == entries.Keys
    && forall e :: e in entries ==> SameItem(entries[e], entries'[e])
  }

  predicate SameItem(x: Entry, y: Entry) {
    y.key == x.key && y.value == x.value && y.charge == x.charge
  }

  /** Entries may go, and others come, but what an address refers to does not change. */
  ghost predicate Kept(entries: map<Addr, Entry>, entries': map<Addr, Entry>) {
    forall e :: e in entries && e in entries' ==> SameItem(entries[e], entries'[e])
  }

  lemma KeptAfterFree(entries: map<Addr, Entry>, entries': map<Addr, Entry>, gone: set<Addr>)
    requires SameContents(entries, entries')
    ensures Kept(entries, entries' - gone)
  {
  }

  lemma ContentsKeep(entries: map<Addr, Entry>, entries': map<Addr, Entry>, dying: set<Addr>, next: Addr, freed: seq<Addr>)
    requires SameContents(entries, entries') && MemoryOk(entries, next, freed)
    ensures MemoryOk(entries', next, freed) && Total(entries', dying, next) == Total(entries, dying, next)
  {
    SameTotal(entries, entries', dying, next);
  }

  // Only marks for the pools differ.
  ghost predicate SameCore(entries: map<Addr, Entry>, entries': map<Addr, Entry>) {
    entries'.Keys == entries.Keys && forall e :: e in entries ==> entries'[e] == entries[e].(inHighPool := entries'[e].inHighPool)
  }

  lemma PoolMarksDoNotMatter(entries: map<Addr, Entry>, entries': map<Addr, Entry>, table: map<Key, Addr>, handles: multiset<Addr>,
                             usage: int, next: Addr, freed: seq<Addr>, dying: set<Addr>)
    requires CoreOk(entries, table, handles, usage, next, freed, dying) && SameCore(entries, entries')
    ensures CoreOk(entries', table, handles, usage, next, freed, dying)
  {
    ContentsKeep(entries, entries', dying, next, freed);
  }

  // A change of the references of e leaves the table as it is.
  lemma TableIgnoresRefs(entries: map<Addr, Entry>, table: map<Key, Addr>, e: Addr, refs: nat)
    requires TableOk(entries, table) && e in entries
    ensures TableOk(entries[e := entries[e].(refs := refs)], table)
  {
  }

  lemma TakeRefs(entries: map<Addr, Entry>, handles: multiset<Addr>, dying: set<Addr>, e: Addr)
    requires RefsOk(entries, handles, dying) && e in entries && e !in dying
    ensures RefsOk(entries[e := entries[e].(refs := entries[e].refs + 1)], handles + multiset{e}, dying)
  {
  }

  /** A caller takes a handle. */
  lemma TakeKeeps(entries: map<Addr, Entry>, table: map<Key, Addr>, handles: multiset<Addr>, usage: int, next: Addr, freed: seq<Addr>,
                  dying: set<Addr>, e: Addr)
    requires CoreOk(entries, table, handles, usage, next, freed, dying) && e in entries && e !in dying
    ensures CoreOk(entries[e := entries[e].(refs := entries[e].refs + 1)], table, handles + multiset{e}, usage, next, freed, dying)
  {
    hide RefsOk, TableOk, MemoryOk, Total;
    TakeRefs(entries, handles, dying, e);
    TableIgnoresRefs(entries, table, e, entries[e].refs + 1);
    ContentsKeep(entries, entries[e := entries[e].(refs := entries[e].refs + 1)], dying, next, freed);
  }

  lemma GiveBackRefs(entries: map<Addr, Entry>, handles: multiset<Addr>, dying: set<Addr>, e: Addr)
    requires RefsOk(entries, handles, dying) && e in handles
    ensures e in entries && entries[e].refs > 0 && e !in dying
    ensures RefsOk(entries[e := entries[e].(refs := entries[e].refs - 1)], handles - multiset{e},
                   if entries[e].refs == 1 then dying + {e} else dying)
  {
    assert entries[e].refs > 0;
    assert forall d :: d in handles - multiset{e} ==> d in handles;
  }

  /** A caller gives a handle back, and the entry dies if that was the last reference. */
  lemma GiveBackKeeps(entries: map<Addr, Entry>, table: map<Key, Addr>, handles: multiset<Addr>, usage: int, next: Addr, freed: seq<Addr>,
                      dying: set<Addr>, e: Addr)
    requires CoreOk(entries, table, handles, usage, next, freed, dying) && e in handles
    ensures e in entries && entries[e].refs > 0
    ensures var last := entries[e].refs == 1;
            CoreOk(entries[e := entries[e].(refs := entries[e].refs - 1)], table, handles - multiset{e},
                   if last then usage - entries[e].charge else usage, next, freed, if last then dying + {e} else dying)
  {
    hide RefsOk, TableOk, Total;
    GiveBackRefs(entries, handles, dying, e);
    var entries' := entries[e := entries[e].(refs := entries[e].refs - 1)];
    TableIgnoresRefs(entries, table, e, entries[e].refs - 1);
    ContentsKeep(entries, entries', dying, next, freed);
    if entries[e].refs == 1 { DyingTotal(entries', dying, e, next); }
  }

  /** The table lets go of an entry, which dies if nobody has a handle. */
  lemma DetachKeeps(entries: map<Addr, Entry>, table: map<Key, Addr>, handles: multiset<Addr>, usage: int, next: Addr, freed: seq<Addr>,
                    dying: set<Addr>, e: Addr)
    requires CoreOk(entries, table, handles, usage, next, freed, dying) && e in entries && entries[e].inCache
    ensures entries[e].refs > 0
    ensures var last := entries[e].refs == 1;
            CoreOk(entries[e := entries[e].(refs := entries[e].refs - 1, inCache := false)], table - {entries[e].key}, handles,
                   if last then usage - entries[e].charge else usage, next, freed, if last then dying + {e} else dying)
  {
    var entries' := entries[e := entries[e].(refs := entries[e].refs - 1, inCache := false)];
    ContentsKeep(entries, entries', dying, next, freed);
    if entries[e].refs == 1 { DyingTotal(entries', dying, e, next); }
  }

  /** A new entry whose key the table does not have. */
  lemma AddKeeps(entries: map<Addr, Entry>, table: map<Key, Addr>, handles: multiset<Addr>, usage: int, next: Addr, freed: seq<Addr>,
                 dying: set<Addr>, entry: Entry, hold: bool)
    requires CoreOk(entries, table, handles, usage, next, freed, dying) && entry.key !in table
    requires entry.inCache && entry.refs == if hold then 2 else 1
    ensures CoreOk(entries[next := entry], table[entry.key := next], if hold then handles + multiset{next} else handles,
                   usage + entry.charge, next + 1, freed, dying)
  {
    hide RefsOk, TableOk;
    assert next !in entries;
    AddRefs(entries, handles, dying, next, entry, hold);
    AddToTable(entries, table, next, entry);
    SameTotal(entries, entries[next := entry], dying, next);
  }

  lemma AddRefs(entries: map<Addr, Entry>, handles: multiset<Addr>, dying: set<Addr>, e: Addr, entry: Entry, hold: bool)
    requires RefsOk(entries, handles, dying) && e !in entries && entry.inCache && entry.refs == if hold then 2 else 1
    ensures e !in dying && RefsOk(entries[e := entry], if hold then handles + multiset{e} else handles, dying)
  {
    assert e !in handles && e !in dying;
  }

  lemma AddToTable(entries: map<Addr, Entry>, table: map<Key, Addr>, e: Addr, entry: Entry)
    requires TableOk(entries, table) && e !in entries && entry.key !in table && entry.inCache
    ensures TableOk(entries[e := entry], table[entry.key := e])
  {
  }

  /** Free: an entry without references, once. */
  lemma FreeKeeps(entries: map<Addr, Entry>, table: map<Key, Addr>, handles: multiset<Addr>, usage: int, next: Addr, freed: seq<Addr>,
                  dying: set<Addr>, e: Addr)
    requires CoreOk(entries, table, handles, usage, next, freed, dying) && e in dying
    ensures e in entries && entries[e].refs == 0 && !entries[e].inCache && e !in handles && e !in freed
    ensures CoreOk(entries - {e}, table, handles, usage, next, freed + [e], dying - {e})
  {
    assert entries[e].refs == 0;
    FreedTotal(entries, dying, e, next);
  }
}
