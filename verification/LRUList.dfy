/**
 The entries of an LRU cache shard and its LRU list with the two pools.

 Entries are known by their addresses. The list is the sequence of addresses from the oldest to the
 newest; the low-priority pool is the older part, up to the entry lru_low_pri_ points to.
 */
module LRULists {
  import opened Options

  type Key = nat
  type Addr = nat

  datatype Entry = Entry(key: Key, value: nat, charge: nat, refs: nat, inCache: bool, highPri: bool, inHighPool: bool)

  predicate NoDuplicates(s: seq<Addr>) {
    forall i, j :: 0 <= i < j < |s| ==> s[i] != s[j]
  }

  function ChargeOf(entries: map<Addr, Entry>, e: Addr): nat {
    if e in entries then entries[e].charge else 0
  }

  function ListCharge(entries: map<Addr, Entry>, list: seq<Addr>): nat {
    if list == [] then 0 else ListCharge(entries, list[..|list| - 1]) + ChargeOf(entries, list[|list| - 1])
  }

  lemma {:induction false} ChargeOfConcat(entries: map<Addr, Entry>, x: seq<Addr>, y: seq<Addr>)
    ensures ListCharge(entries, x + y) == ListCharge(entries, x) + ListCharge(entries, y)
  {
    if y == [] {
      assert x + y == x;
    } else {
      ChargeOfConcat(entries, x, y[..|y| - 1]);
      assert (x + y)[..|x + y| - 1] == x + y[..|y| - 1];
    }
  }

  lemma ChargeOfOne(entries: map<Addr, Entry>, e: Addr)
    ensures ListCharge(entries, [e]) == ChargeOf(entries, e)
  {
    assert [e][..0] == [];
  }

  // The entries have the same charges.
  ghost predicate SameCharges(entries: map<Addr, Entry>, entries': map<Addr, Entry>) {
    entries'.Keys == entries.Keys && forall e :: e in entries ==> entries'[e].charge == entries[e].charge
  }

  lemma {:induction false} SameListCharge(entries: map<Addr, Entry>, entries': map<Addr, Entry>, list: seq<Addr>)
    requires forall i :: 0 <= i < |list| ==> ChargeOf(entries', list[i]) == ChargeOf(entries, list[i])
    ensures ListCharge(entries', list) == ListCharge(entries, list)
  {
    if list != [] { SameListCharge(entries, entries', list[..|list| - 1]); }
  }

  /** The list has two parts: the first `low` entries are the low-priority pool, and lru_low_pri_ points
      to the last of them; the rest is the high-priority pool. */
  ghost predicate PoolsOk(entries: map<Addr, Entry>, lru: seq<Addr>, lowPri: Option<Addr>, low: nat, highUsage: int) {
    && NoDuplicates(lru) && low <= |lru|
    && lowPri == (if low == 0 then None else Some(lru[low - 1]))
    && (forall i :: 0 <= i < |lru| ==> lru[i] in entries && (entries[lru[i]].inHighPool <==> i >= low))
    && highUsage == ListCharge(entries, lru[low..])
  }

  function IndexOf(list: seq<Addr>, e: Addr): (i: nat)
    requires e in list
    ensures i < |list| && list[i] == e
  {
    if list[0] == e then 0 else 1 + IndexOf(list[1..], e)
  }

  lemma IndexIsUnique(list: seq<Addr>, i: nat)
    requires NoDuplicates(list) && i < |list|
    ensures IndexOf(list, list[i]) == i
  {
    hide IndexOf;
  }

  function Without(list: seq<Addr>, i: nat): seq<Addr>
    requires i < |list|
  {
    list[..i] + list[i + 1..]
  }

  lemma WithoutCharge(entries: map<Addr, Entry>, list: seq<Addr>, i: nat)
    requires i < |list|
    ensures ListCharge(entries, Without(list, i)) == ListCharge(entries, list) - ChargeOf(entries, list[i])
  {
    hide ListCharge;
    ChargeOfConcat(entries, list[..i], list[i + 1..]);
    ChargeOfConcat(entries, list[..i], [list[i]]);
    ChargeOfConcat(entries, list[..i] + [list[i]], list[i + 1..]);
    ChargeOfOne(entries, list[i]);
    assert list == list[..i] + [list[i]] + list[i + 1..];
  }

  lemma WithoutHas(list: seq<Addr>, i: nat, e: Addr)
    requires NoDuplicates(list) && i < |list|
    ensures NoDuplicates(Without(list, i)) && (e in Without(list, i) <==> e in list && e != list[i])
  {
    var rest := Without(list, i);
    assert forall k :: 0 <= k < |rest| ==> rest[k] == list[if k < i then k else k + 1];
    if e in list && e != list[i] {
      var k :| 0 <= k < |list| && list[k] == e;
      assert rest[if k < i then k else k - 1] == e;
    }
  }

  lemma HighChargeAfterRemove(entries: map<Addr, Entry>, lru: seq<Addr>, low: nat, i: nat)
    requires low <= |lru| && i < |lru|
    ensures var low' := if i < low then low - 1 else low;
            ListCharge(entries, Without(lru, i)[low'..])
            == ListCharge(entries, lru[low..]) - if i < low then 0 else ChargeOf(entries, lru[i])
  {
    hide ListCharge;
    if i < low {
      assert Without(lru, i)[low - 1..] == lru[low..];
    } else {
      WithoutCharge(entries, lru[low..], i - low);
      assert Without(lru, i)[low..] == Without(lru[low..], i - low);
    }
  }

  lemma WithoutAt(list: seq<Addr>, i: nat)
    requires i < |list|
    ensures |Without(list, i)| == |list| - 1
    ensures forall k :: 0 <= k < |list| - 1 ==> Without(list, i)[k] == list[if k < i then k else k + 1]
  {
  }

  /** Taking an entry out of the list keeps the two pools apart. */
  lemma RemoveKeepsPools(entries: map<Addr, Entry>, lru: seq<Addr>, lowPri: Option<Addr>, low: nat, highUsage: int, i: nat)
    requires PoolsOk(entries, lru, lowPri, low, highUsage) && i < |lru|
    ensures var lowPri' := if lowPri == Some(lru[i]) then (if i == 0 then None else Some(lru[i - 1])) else lowPri;
            PoolsOk(entries, Without(lru, i), lowPri', if i < low then low - 1 else low,
                    if entries[lru[i]].inHighPool then highUsage - entries[lru[i]].charge else highUsage)
  {
    hide ListCharge, Without;
    HighChargeAfterRemove(entries, lru, low, i);
    WithoutAt(lru, i);
    WithoutHas(lru, i, lru[i]);
  }

  /** An entry put at the end belongs to the high-priority pool. */
  lemma AppendKeepsPools(entries: map<Addr, Entry>, lru: seq<Addr>, lowPri: Option<Addr>, low: nat, highUsage: int, e: Addr)
    requires PoolsOk(entries, lru, lowPri, low, highUsage) && e in entries && e !in lru
    ensures PoolsOk(entries[e := entries[e].(inHighPool := true)], lru + [e], lowPri, low, highUsage + entries[e].charge)
  {
    hide ListCharge;
    var entries' := entries[e := entries[e].(inHighPool := true)];
    var lru' := lru + [e];
    assert forall i :: 0 <= i < |lru| ==> lru'[i] == lru[i];
    assert lru'[low..] == lru[low..] + [e];
    ChargeOfConcat(entries', lru[low..], [e]);
    ChargeOfOne(entries', e);
    SameListCharge(entries, entries', lru[low..]);
  }

  /** An entry put behind lru_low_pri_ is the newest of the low-priority pool. */
  lemma InsertKeepsPools(entries: map<Addr, Entry>, lru: seq<Addr>, lowPri: Option<Addr>, low: nat, highUsage: int, e: Addr)
    requires PoolsOk(entries, lru, lowPri, low, highUsage) && e in entries && e !in lru
    ensures PoolsOk(entries[e := entries[e].(inHighPool := false)], lru[..low] + [e] + lru[low..], Some(e), low + 1, highUsage)
  {
    hide ListCharge;
    var entries' := entries[e := entries[e].(inHighPool := false)];
    var lru' := lru[..low] + [e] + lru[low..];
    assert forall i :: 0 <= i < |lru'| ==> lru'[i] == if i < low then lru[i] else if i == low then e else lru[i - 1];
    assert lru'[low + 1..] == lru[low..];
    SameListCharge(entries, entries', lru[low..]);
  }

  /** The oldest entry of the high-priority pool moves to the low-priority pool. */
  lemma OverflowKeepsPools(entries: map<Addr, Entry>, lru: seq<Addr>, lowPri: Option<Addr>, low: nat, highUsage: int)
    requires PoolsOk(entries, lru, lowPri, low, highUsage) && low < |lru|
    ensures PoolsOk(entries[lru[low] := entries[lru[low]].(inHighPool := false)], lru, Some(lru[low]), low + 1,
                    highUsage - entries[lru[low]].charge)
  {
    hide ListCharge;
    var entries' := entries[lru[low] := entries[lru[low]].(inHighPool := false)];
    ChargeOfConcat(entries, [lru[low]], lru[low + 1..]);
    ChargeOfOne(entries, lru[low]);
    assert lru[low..] == [lru[low]] + lru[low + 1..];
    SameListCharge(entries, entries', lru[low + 1..]);
  }

  lemma HighPoolIsNotEmpty(entries: map<Addr, Entry>, lru: seq<Addr>, lowPri: Option<Addr>, low: nat, highUsage: int)
    requires PoolsOk(entries, lru, lowPri, low, highUsage) && highUsage > 0
    ensures low < |lru|
  {
  }
}
