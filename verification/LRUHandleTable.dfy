/**
 The chained hash table of the LRU cache (LRUHandleTable) refines a map.

 A bucket is the sequence of entries on its chain. A hash is a number; `hash & (length_ - 1)` is its
 remainder, the length being a power of two.
 */
module LRUHandleTables {
  import opened Options

  type Key = nat

  // An entry of the table; `id` stands for the address of the LRUHandle.
  datatype Item = Item(key: Key, hash: nat, id: nat)

  // What entries are found by: the key, and its hash.
  datatype Name = Name(key: Key, hash: nat)

  function NameOf(item: Item): Name {
    Name(item.key, item.hash)
  }

  // The bucket of a hash.
  function Bucket(hash: nat, length: nat): (b: nat)
    requires length > 0
    ensures b < length
  {
    hash % length
  }

  ghost predicate PowerOfTwo(n: nat) {
    n == 1 || (n % 2 == 0 && n > 0 && PowerOfTwo(n / 2))
  }

  predicate DistinctNames(chain: seq<Item>) {
    forall i, j :: 0 <= i < j < |chain| ==> NameOf(chain[i]) != NameOf(chain[j])
  }

  /** Every entry is in the bucket of its hash, and no two of a bucket have the same name. */
  ghost predicate BucketsOk(list: seq<seq<Item>>) {
    && |list| > 0
    && (forall b :: 0 <= b < |list| ==> DistinctNames(list[b]))
    && (forall b, i :: 0 <= b < |list| && 0 <= i < |list[b]| ==> Bucket(list[b][i].hash, |list|) == b)
  }

  /** The buckets hold exactly the entries of the map. */
  ghost predicate Represents(list: seq<seq<Item>>, contents: map<Name, Item>)
    requires |list| > 0
  {
    && (forall b, i :: 0 <= b < |list| && 0 <= i < |list[b]| ==>
          NameOf(list[b][i]) in contents && contents[NameOf(list[b][i])] == list[b][i])
    && (forall name :: name in contents ==> NameOf(contents[name]) == name && contents[name] in list[Bucket(name.hash, |list|)])
  }

  function Count(list: seq<seq<Item>>): nat {
    if list == [] then 0 else Count(list[..|list| - 1]) + |list[|list| - 1]|
  }

  lemma {:induction false} CountAfterChange(list: seq<seq<Item>>, b: nat, chain: seq<Item>)
    requires b < |list|
    ensures Count(list[b := chain]) == Count(list) - |list[b]| + |chain|
  {
    var last := |list| - 1;
    if b < last {
      CountAfterChange(list[..last], b, chain);
      assert list[b := chain][..last] == list[..last][b := chain];
    } else {
      assert list[b := chain][..last] == list[..last];
    }
  }

  // ---- Changing one bucket ----

  lemma AppendItem(list: seq<seq<Item>>, contents: map<Name, Item>, b: nat, item: Item)
    requires BucketsOk(list) && Represents(list, contents) && b == Bucket(item.hash, |list|) && NameOf(item) !in contents
    ensures BucketsOk(list[b := list[b] + [item]]) && Represents(list[b := list[b] + [item]], contents[NameOf(item) := item])
  {
    var list' := list[b := list[b] + [item]];
    forall name | name in contents[NameOf(item) := item]
      ensures contents[NameOf(item) := item][name] in list'[Bucket(name.hash, |list'|)]
    {
      if name != NameOf(item) { assert contents[name] in list[Bucket(name.hash, |list|)]; } else { assert list'[b][|list[b]|] == item; }
    }
  }

  lemma ReplaceItem(list: seq<seq<Item>>, contents: map<Name, Item>, b: nat, i: nat, item: Item)
    requires BucketsOk(list) && Represents(list, contents) && b < |list| && i < |list[b]| && NameOf(list[b][i]) == NameOf(item)
    ensures BucketsOk(list[b := list[b][i := item]]) && Represents(list[b := list[b][i := item]], contents[NameOf(item) := item])
  {
    var list' := list[b := list[b][i := item]];
    forall name | name in contents[NameOf(item) := item]
      ensures contents[NameOf(item) := item][name] in list'[Bucket(name.hash, |list'|)]
    {
      if name != NameOf(item) {
        var bucket := list[Bucket(name.hash, |list|)];
        var k :| 0 <= k < |bucket| && bucket[k] == contents[name];
        assert list'[Bucket(name.hash, |list|)][k] == contents[name];
      } else {
        assert list'[b][i] == item;
      }
    }
  }

  lemma ChainWithout(chain: seq<Item>, i: nat)
    requires DistinctNames(chain) && i < |chain|
    ensures var rest := chain[..i] + chain[i + 1..];
            && DistinctNames(rest)
            && forall item :: item in rest <==> item in chain && NameOf(item) != NameOf(chain[i])
  {
    var rest := chain[..i] + chain[i + 1..];
    forall k | 0 <= k < |rest| ensures rest[k] == chain[if k < i then k else k + 1] {}
    forall item | item in chain && NameOf(item) != NameOf(chain[i]) ensures item in rest {
      var k :| 0 <= k < |chain| && chain[k] == item;
      assert rest[if k < i then k else k - 1] == item;
    }
  }

  lemma RemoveItem(list: seq<seq<Item>>, contents: map<Name, Item>, b: nat, i: nat)
    requires BucketsOk(list) && Represents(list, contents) && b < |list| && i < |list[b]|
    ensures var list' := list[b := list[b][..i] + list[b][i + 1..]];
            BucketsOk(list') && Represents(list', contents - {NameOf(list[b][i])})
  {
    hide Bucket, DistinctNames;
    ChainWithout(list[b], i);
    var chain := list[b][..i] + list[b][i + 1..];
    var list' := list[b := chain];
    forall c, k | 0 <= c < |list'| && 0 <= k < |list'[c]| ensures list'[c][k] in list[c] && (c == b ==> list'[c][k] in chain) {}
    RemainingRepresented(list, list', contents, b, i);
  }

  lemma RemainingRepresented(list: seq<seq<Item>>, list': seq<seq<Item>>, contents: map<Name, Item>, b: nat, i: nat)
    requires BucketsOk(list) && Represents(list, contents) && b < |list| && i < |list[b]| && |list'| == |list|
    requires forall c :: 0 <= c < |list| && c != b ==> list'[c] == list[c]
    requires forall item :: item in list'[b] <==> item in list[b] && NameOf(item) != NameOf(list[b][i])
    ensures Represents(list', contents - {NameOf(list[b][i])})
  {
    hide Bucket, DistinctNames;
    var rest := contents - {NameOf(list[b][i])};
    forall c, k | 0 <= c < |list'| && 0 <= k < |list'[c]|
      ensures NameOf(list'[c][k]) in rest && rest[NameOf(list'[c][k])] == list'[c][k]
    {
      var item := list'[c][k];
      assert item in list[c];
      var m :| 0 <= m < |list[c]| && list[c][m] == item;
    }
  }

  // ---- Moving all entries to new buckets ----

  // The buckets hold exactly the entries of `done`.
  ghost predicate Holds(list: seq<seq<Item>>, done: seq<Item>)
    requires |list| > 0
  {
    && (forall b, i :: 0 <= b < |list| && 0 <= i < |list[b]| ==> list[b][i] in done)
    && (forall k :: 0 <= k < |done| ==> done[k] in list[Bucket(done[k].hash, |list|)])
  }

  lemma PushItem(list: seq<seq<Item>>, done: seq<Item>, item: Item)
    requires BucketsOk(list) && Holds(list, done) && DistinctNames(done + [item])
    ensures var b := Bucket(item.hash, |list|);
            BucketsOk(list[b := [item] + list[b]]) && Holds(list[b := [item] + list[b]], done + [item])
  {
    var b := Bucket(item.hash, |list|);
    var list' := list[b := [item] + list[b]];
    var done' := done + [item];
    assert done'[|done|] == item;
    forall i | 0 <= i < |list[b]| ensures NameOf(list[b][i]) != NameOf(item) {
      var k :| 0 <= k < |done| && done[k] == list[b][i];
      assert done'[k] == done[k];
    }
    assert forall i :: 0 < i < |list'[b]| ==> list'[b][i] == list[b][i - 1];
    forall k | 0 <= k < |done'| ensures done'[k] in list'[Bucket(done'[k].hash, |list'|)] {
      if k < |done| { assert done[k] in list[Bucket(done[k].hash, |list|)]; } else { assert list'[b][0] == item; }
    }
  }

  function Flatten(list: seq<seq<Item>>): seq<Item> {
    if list == [] then [] else Flatten(list[..|list| - 1]) + list[|list| - 1]
  }

  lemma {:induction false} FlattenHas(list: seq<seq<Item>>, item: Item)
    ensures item in Flatten(list) <==> exists b :: 0 <= b < |list| && item in list[b]
    ensures |Flatten(list)| == Count(list)
  {
    if list != [] {
      var rest := list[..|list| - 1];
      FlattenHas(rest, item);
      forall b | 0 <= b < |rest| ensures rest[b] == list[b] {}
      assert item in Flatten(list) <==> item in Flatten(rest) || item in list[|rest|];
    }
  }

  lemma {:induction false} FlattenIsDistinct(list: seq<seq<Item>>, n: nat)
    requires BucketsOk(list) && n <= |list|
    ensures DistinctNames(Flatten(list[..n]))
  {
    if n > 0 {
      FlattenIsDistinct(list, n - 1);
      var front, chain := Flatten(list[..n - 1]), list[n - 1];
      assert list[..n][..n - 1] == list[..n - 1];
      forall i, j | 0 <= i < |front| && 0 <= j < |chain| ensures NameOf(front[i]) != NameOf(chain[j]) {
        FlattenHas(list[..n - 1], front[i]);
        var b :| 0 <= b < n - 1 && front[i] in list[..n - 1][b];
        var k :| 0 <= k < |list[b]| && list[b][k] == front[i];
        assert Bucket(front[i].hash, |list|) == b && Bucket(chain[j].hash, |list|) == n - 1;
      }
    } else {
      assert list[..0] == [];
    }
  }

  lemma MovedRepresents(list: seq<seq<Item>>, moved: seq<seq<Item>>, contents: map<Name, Item>)
    requires BucketsOk(list) && Represents(list, contents) && BucketsOk(moved) && Holds(moved, Flatten(list))
    ensures Represents(moved, contents)
  {
    forall b, i | 0 <= b < |moved| && 0 <= i < |moved[b]|
      ensures NameOf(moved[b][i]) in contents && contents[NameOf(moved[b][i])] == moved[b][i]
    {
      FlattenHas(list, moved[b][i]);
      var c :| 0 <= c < |list| && moved[b][i] in list[c];
      var k :| 0 <= k < |list[c]| && list[c][k] == moved[b][i];
    }
    forall name | name in contents ensures contents[name] in moved[Bucket(name.hash, |moved|)] {
      FlattenHas(list, contents[name]);
      var k :| 0 <= k < |Flatten(list)| && Flatten(list)[k] == contents[name];
    }
  }

  class LRUHandleTable {
    var list: seq<seq<Item>>
    var elems: nat
    ghost var contents: map<Name, Item>

    ghost predicate Valid()
      reads this
    {
      Shape() && elems <= |list| && |list| >= 16 && PowerOfTwo(|list|)
    }

    // Valid, but for the number of buckets.
    ghost predicate Shape()
      reads this
    {
      BucketsOk(list) && Represents(list, contents) && elems == |contents| == Count(list)
    }

    constructor ()
      ensures Valid() && contents == map[]
    {
      list, elems, contents := seq(16, i => []), 0, map[];
      new;
      EmptyTable();
    }

    /** FindPointer: the position of the entry with this name, or the end of its chain. */
    method FindPointer(name: Name) returns (b: nat, i: nat)
      requires Shape()
      ensures b == Bucket(name.hash, |list|) && i <= |list[b]|
      ensures i < |list[b]| <==> name in contents
      ensures i < |list[b]| ==> list[b][i] == contents[name]
    {
      hide Bucket, Count, BucketsOk;
      BucketsExist(list);
      b := Bucket(name.hash, |list|);
      i := 0;
      while i < |list[b]| && (list[b][i].hash != name.hash || list[b][i].key != name.key)
        invariant i <= |list[b]| && forall k :: 0 <= k < i ==> NameOf(list[b][k]) != name
      {
        i := i + 1;
      }
      if i < |list[b]| {
        assert NameOf(list[b][i]) == name;
      }
    }

    method Lookup(name: Name) returns (item: Option<Item>)
      requires Valid()
      ensures item == if name in contents then Some(contents[name]) else None
    {
      var b, i := FindPointer(name);
      item := if i < |list[b]| then Some(list[b][i]) else None;
    }

    /** Insert: replaces the entry with the same name and returns it; grows the table when it has more
        entries than buckets. */
    method Insert(item: Item) returns (previous: Option<Item>)
      requires Valid()
      modifies this
      ensures Valid() && contents == old(contents)[NameOf(item) := item]
      ensures previous == if NameOf(item) in old(contents) then Some(old(contents)[NameOf(item)]) else None
    {
      hide Count, BucketsOk, Represents, PowerOfTwo;
      BucketsExist(list);
      var b, i := FindPointer(NameOf(item));
      if i < |list[b]| {
        previous := Some(list[b][i]);
        NameIs(list, contents, b, i, NameOf(item));
        ReplaceItem(list, contents, b, i, item);
        CountAfterChange(list, b, list[b][i := item]);
        list := list[b := list[b][i := item]];
        contents := contents[NameOf(item) := item];
      } else {
        previous := None;
        AppendItem(list, contents, b, item);
        CountAfterChange(list, b, list[b] + [item]);
        list := list[b := list[b] + [item]];
        contents := contents[NameOf(item) := item];
        elems := elems + 1;
        if elems > |list| { Resize(); }
      }
    }

    /** Remove: takes the entry with this name out and returns it. */
    method Remove(name: Name) returns (removed: Option<Item>)
      requires Valid()
      modifies this
      ensures Valid() && contents == old(contents) - {name} && |list| == old(|list|)
      ensures removed == if name in old(contents) then Some(old(contents)[name]) else None
    {
      hide Count, BucketsOk, Represents, PowerOfTwo;
      BucketsExist(list);
      var b, i := FindPointer(name);
      if i < |list[b]| {
        removed := Some(list[b][i]);
        NameIs(list, contents, b, i, name);
        RemoveItem(list, contents, b, i);
        CountAfterChange(list, b, list[b][..i] + list[b][i + 1..]);
        RemovedSize(contents, name);
        list := list[b := list[b][..i] + list[b][i + 1..]];
        contents := contents - {name};
        elems := elems - 1;
      } else {
        removed := None;
        assert contents - {name} == contents;
      }
    }

    /** Resize: all entries move to at least one and a half times as many buckets as there are entries,
        a power of two. */
    method Resize()
      requires Shape()
      modifies `list
      ensures Valid() && contents == old(contents) && elems == old(elems)
      ensures 2 * |list| >= 3 * elems && (|list| == 16 || |list| < 3 * elems)
    {
      hide Count, BucketsOk, Represents, Holds, DistinctNames, Flatten;
      var n := NewLength(elems);
      var moved := seq(n, i => []);
      EmptyBuckets(moved);
      var count := 0;
      var from := list;
      assert from[..0] == [];
      for i := 0 to |from|
        invariant |moved| == n && BucketsOk(moved) && Holds(moved, Flatten(from[..i])) && count == |Flatten(from[..i])|
      {
        var j := 0;
        FlattenNext(from, i);
        while j < |from[i]|
          invariant 0 <= j <= |from[i]| && |moved| == n && BucketsOk(moved)
          invariant Holds(moved, Flatten(from[..i]) + from[i][..j]) && count == |Flatten(from[..i])| + j
        {
          ghost var done := Flatten(from[..i]) + from[i][..j];
          StillDistinct(from, i, j);
          var item := from[i][j];
          var b := Bucket(item.hash, n);
          PushItem(moved, done, item);
          moved := moved[b := [item] + moved[b]];
          assert Flatten(from[..i]) + from[i][..j + 1] == done + [item];
          j := j + 1;
          count := count + 1;
        }
        assert from[i][..j] == from[i];
      }
      assert from[..|from|] == from;
      FlattenCount(from);
      assert elems == count;
      MovedRepresents(from, moved, contents);
      MovedCount(from, moved);
      list := moved;
    }
  }

  method NewLength(elems: nat) returns (n: nat)
    ensures n >= 16 && PowerOfTwo(n) && 2 * n >= 3 * elems && (n == 16 || n < 3 * elems)
  {
    hide PowerOfTwo;
    n := 16;
    SixteenIsPower();
    while 2 * n < 3 * elems
      invariant n >= 16 && PowerOfTwo(n) && (n == 16 || n < 3 * elems)
      decreases 3 * elems - n
    {
      DoubleIsPower(n);
      n := n * 2;
    }
  }

  lemma DoubleIsPower(n: nat)
    requires n > 0 && PowerOfTwo(n)
    ensures PowerOfTwo(n * 2)
  {
    assert n * 2 / 2 == n;
  }

  lemma SixteenIsPower()
    ensures PowerOfTwo(16)
  {
    assert PowerOfTwo(2) && PowerOfTwo(4) && PowerOfTwo(8);
  }

  lemma EmptyTable()
    ensures var list: seq<seq<Item>> := seq(16, i => []);
            BucketsOk(list) && Represents(list, map[]) && Count(list) == 0 && PowerOfTwo(16)
  {
    SixteenIsPower();
    EmptyCount(seq(16, i => []));
  }

  lemma {:induction false} EmptyCount(list: seq<seq<Item>>)
    requires forall b :: 0 <= b < |list| ==> list[b] == []
    ensures Count(list) == 0
  {
    if list != [] { EmptyCount(list[..|list| - 1]); }
  }

  lemma EmptyBuckets(list: seq<seq<Item>>)
    requires |list| > 0 && forall b :: 0 <= b < |list| ==> list[b] == []
    ensures BucketsOk(list) && Holds(list, Flatten([])) && Flatten([]) == []
  {
  }

  lemma BucketsExist(list: seq<seq<Item>>)
    requires BucketsOk(list)
    ensures |list| > 0
  {
  }

  lemma NameIs(list: seq<seq<Item>>, contents: map<Name, Item>, b: nat, i: nat, name: Name)
    requires |list| > 0 && Represents(list, contents) && b < |list| && i < |list[b]| && name in contents && list[b][i] == contents[name]
    ensures NameOf(list[b][i]) == name
  {
  }

  lemma RemovedSize(contents: map<Name, Item>, name: Name)
    requires name in contents
    ensures |contents - {name}| == |contents| - 1
  {
    assert contents == (contents - {name})[name := contents[name]];
  }

  lemma FlattenNext(list: seq<seq<Item>>, i: nat)
    requires i < |list|
    ensures Flatten(list[..i + 1]) == Flatten(list[..i]) + list[i] && Flatten(list[..i]) + list[i][..0] == Flatten(list[..i])
  {
    assert list[..i + 1][..i] == list[..i];
  }

  lemma StillDistinct(list: seq<seq<Item>>, i: nat, j: nat)
    requires BucketsOk(list) && i < |list| && j < |list[i]|
    ensures DistinctNames(Flatten(list[..i]) + list[i][..j] + [list[i][j]])
  {
    FlattenIsDistinct(list, i + 1);
    FlattenNext(list, i);
    var all := Flatten(list[..i]) + list[i];
    var part := Flatten(list[..i]) + list[i][..j] + [list[i][j]];
    assert forall k :: 0 <= k < |part| ==> part[k] == all[k];
  }

  lemma FlattenCount(list: seq<seq<Item>>)
    ensures |Flatten(list)| == Count(list)
  {
    FlattenHas(list, Item(0, 0, 0));
  }

  // Equally many entries, since both have the same, without repetition.
  lemma MovedCount(list: seq<seq<Item>>, moved: seq<seq<Item>>)
    requires BucketsOk(list) && BucketsOk(moved) && Holds(moved, Flatten(list))
    ensures Count(moved) == Count(list)
  {
    hide BucketsOk, Holds;
    FlattenCount(list);
    FlattenCount(moved);
    FlattenIsDistinct(list, |list|);
    FlattenIsDistinct(moved, |moved|);
    assert list[..|list|] == list && moved[..|moved|] == moved;
    forall item ensures item in Flatten(list) <==> item in Flatten(moved) { SameItems(list, moved, item); }
    SameSize(Flatten(list), Flatten(moved));
  }

  lemma SameItems(list: seq<seq<Item>>, moved: seq<seq<Item>>, item: Item)
    requires BucketsOk(moved) && Holds(moved, Flatten(list))
    ensures item in Flatten(list) <==> item in Flatten(moved)
  {
    FlattenHas(moved, item);
    if item in Flatten(list) {
      var k :| 0 <= k < |Flatten(list)| && Flatten(list)[k] == item;
      assert item in moved[Bucket(item.hash, |moved|)];
    }
    if item in Flatten(moved) {
      var b :| 0 <= b < |moved| && item in moved[b];
      var i :| 0 <= i < |moved[b]| && moved[b][i] == item;
    }
  }

  function ItemSet(items: seq<Item>): set<Item> {
    set item | item in items
  }

  lemma {:induction false} DistinctSize(items: seq<Item>)
    requires DistinctNames(items)
    ensures |ItemSet(items)| == |items|
  {
    if items != [] {
      var last := |items| - 1;
      var front := items[..last];
      DistinctSize(front);
      assert items == front + [items[last]];
      assert items[last] !in front;
      assert ItemSet(items) == ItemSet(front) + {items[last]};
    }
  }

  lemma SameSize(x: seq<Item>, y: seq<Item>)
    requires DistinctNames(x) && DistinctNames(y) && forall item :: item in x <==> item in y
    ensures |x| == |y|
  {
    DistinctSize(x);
    DistinctSize(y);
    assert ItemSet(x) == ItemSet(y);
  }
}
