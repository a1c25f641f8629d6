/**
 EvictFromCache of the CLOCK cache shard, run without interference (no Lookup or Release takes
 effect while it holds the mutex).
 */
module ClockEviction {
  import opened Options
  import opened ClockProtocol
  import opened ClockSafety

  predicate Unpinned(slot: Slot) {
    slot.inCache && slot.refs == 0
  }

  predicate Evictable(slot: Slot) {
    Unpinned(slot) && !slot.used
  }

  /** A slot after TryEvict has looked at it: an entry in use since the last look gets a second
      chance. */
  function Examined(slot: Slot): Slot {
    if Evictable(slot) then slot.(inCache := false, key := None, value := None) else slot.(used := false)
  }

  function ExaminedTimes(slot: Slot, times: nat): Slot {
    if times == 0 then slot else Examined(ExaminedTimes(slot, times - 1))
  }

  /** How often `count` visits in circular order from `start` come to slot i of n; at most two turns. */
  function Visits(i: nat, start: nat, n: nat, count: nat): nat
    requires start < n && i < n && count <= 2 * n
  {
    if count > n then 1 + VisitedInTurn(i, start, n, count - n) else VisitedInTurn(i, start, n, count)
  }

  function VisitedInTurn(i: nat, start: nat, n: nat, count: nat): nat
    requires start < n && i < n && count <= n
  {
    if start + count <= n then
      if start <= i < start + count then 1 else 0
    else if i >= start || i < start + count - n then 1
    else 0
  }

  // The slot visited after `count` others.
  function Position(start: nat, n: nat, count: nat): (p: nat)
    requires start < n && count < 2 * n
    ensures p < n
  {
    var offset := if count >= n then count - n else count;
    if start + offset < n then start + offset else start + offset - n
  }

  // What the last of `count` visits gave back.
  function LastFreed(slots: seq<Slot>, start: nat, count: nat): nat
    requires start < |slots| && 0 < count <= 2 * |slots|
  {
    var p := Position(start, |slots|, count - 1);
    if Evictable(ExaminedTimes(slots[p], Visits(p, start, |slots|, count - 1))) then slots[p].charge else 0
  }

  lemma NextVisit(i: nat, start: nat, n: nat, count: nat)
    requires start < n && i < n && count < 2 * n
    ensures Visits(i, start, n, count + 1) == Visits(i, start, n, count) + if i == Position(start, n, count) then 1 else 0
  {
  }

  /** Two looks leave nothing unpinned in cache, and touch nothing but the usage bit of the rest. */
  lemma TwoTurnsEvict(slot: Slot)
    ensures !Unpinned(ExaminedTimes(slot, 2))
    ensures !Unpinned(slot) ==> ExaminedTimes(slot, 2) == slot.(used := false)
  {
    assert ExaminedTimes(slot, 2) == Examined(Examined(slot)) by { assert ExaminedTimes(slot, 1) == Examined(slot); }
  }

  lemma {:induction false} ExaminedKeeps(slot: Slot, times: nat)
    ensures ExaminedTimes(slot, times).charge == slot.charge && ExaminedTimes(slot, times).refs == slot.refs
    ensures ExaminedTimes(slot, times).occ == slot.occ
  {
    if times > 0 { ExaminedKeeps(slot, times - 1); }
  }

  /** The slots `now` after `count` visits of `was` in circular order from `start`. */
  ghost predicate Visited(was: seq<Slot>, now: seq<Slot>, start: nat, count: nat) {
    && |now| == |was| && start < |was| && count <= 2 * |was|
    && forall i :: 0 <= i < |was| ==> now[i] == ExaminedTimes(was[i], Visits(i, start, |was|, count))
  }

  lemma VisitOne(was: seq<Slot>, now: seq<Slot>, start: nat, count: nat)
    requires Visited(was, now, start, count) && count < 2 * |was|
    ensures var p := Position(start, |was|, count);
            && Visited(was, now[p := Examined(now[p])], start, count + 1)
            && LastFreed(was, start, count + 1) == if Evictable(now[p]) then now[p].charge else 0
  {
    var p := Position(start, |was|, count);
    ExaminedKeeps(was[p], Visits(p, start, |was|, count));
    var now' := now[p := Examined(now[p])];
    forall i | 0 <= i < |was| ensures now'[i] == ExaminedTimes(was[i], Visits(i, start, |was|, count + 1)) {
      NextVisit(i, start, |was|, count);
    }
  }

  lemma TwoTurnsEvictAll(was: seq<Slot>, now: seq<Slot>, start: nat)
    requires Visited(was, now, start, 2 * |was|)
    ensures forall i :: 0 <= i < |now| ==> !Unpinned(now[i])
  {
    forall i | 0 <= i < |now| ensures !Unpinned(now[i]) { TwoTurnsEvict(was[i]); }
  }

  /** The second chance: an entry used since the last look goes only after every unused one that
      nobody refers to has gone. */
  lemma SecondChance(was: seq<Slot>, now: seq<Slot>, start: nat, count: nat, i: nat, j: nat)
    requires Visited(was, now, start, count) && i < |was| && j < |was|
    requires was[i].inCache && was[i].used && !now[i].inCache && Evictable(was[j])
    ensures !now[j].inCache
  {
    assert ExaminedTimes(was[i], 1) == Examined(was[i]) == was[i].(used := false);
    assert Visits(i, start, |was|, count) == 2;
    var visits := Visits(j, start, |was|, count);
    assert visits == 1 || visits == 2;
    assert ExaminedTimes(was[j], 1) == Examined(was[j]);
    assert ExaminedTimes(was[j], 2) == Examined(Examined(was[j]));
  }

  // recycle_ has the slots neither in cache nor referenced: no Release is under way.
  ghost predicate FreeAreDead(slots: seq<Slot>, free: seq<nat>) {
    forall i: nat :: i in free <==> DeadSlot(slots, i)
  }

  /** What a slot is still charged for when the loop compares for the last time: an unpinned entry is gone,
      but for one in use since the last look in the slot that comes last. */
  function ChargeAtEnd(slot: Slot, isLast: bool): nat {
    if Dead(slot) || (Unpinned(slot) && !(isLast && slot.used)) then 0 else slot.charge
  }

  function ChargeLeft(slots: seq<Slot>, last: nat): nat {
    if slots == [] then 0
    else ChargeLeft(slots[..|slots| - 1], last) + ChargeAtEnd(slots[|slots| - 1], |slots| - 1 == last)
  }

  /** The slot that the second turn from `head` comes to last. */
  function LastLooked(head: nat, n: nat): nat
    requires head < n || n == 0
  {
    if n == 0 then 0 else Position(head, n, 2 * n - 1)
  }

  /** Only the entry looked at last makes a difference, if it is unpinned and in use. */
  lemma {:induction false} LastEntryDecides(slots: seq<Slot>, last: nat, none: nat, k: nat)
    requires k <= |slots| <= none
    ensures ChargeLeft(slots[..k], last) ==
            ChargeLeft(slots[..k], none) + if last < k && Unpinned(slots[last]) && slots[last].used then slots[last].charge else 0
  {
    if k > 0 {
      LastEntryDecides(slots, last, none, k - 1);
      assert slots[..k][..k - 1] == slots[..k - 1];
    }
  }

  lemma VisitsOfLast(i: nat, start: nat, n: nat, count: nat)
    requires start < n && i < n && count <= 2 * n
    ensures Visits(i, start, n, count) <= 2
    ensures count < 2 * n && i == Position(start, n, 2 * n - 1) ==> Visits(i, start, n, count) <= 1
    ensures count == 2 * n - 1 ==> Visits(i, start, n, count) == if i == Position(start, n, 2 * n - 1) then 1 else 2
    ensures count == 2 * n ==> Visits(i, start, n, count) == 2
  {
  }

  lemma ChargeOfSlot(slot: Slot, visits: nat, isLast: bool)
    requires visits <= 2 && (isLast ==> visits <= 1)
    ensures var now := ExaminedTimes(slot, visits);
            var charge := if Dead(now) then 0 else now.charge;
            && charge >= ChargeAtEnd(slot, isLast)
            && (visits == (if isLast then 1 else 2) ==> charge == ChargeAtEnd(slot, isLast))
  {
    assert ExaminedTimes(slot, 0) == slot && ExaminedTimes(slot, 1) == Examined(slot);
    assert ExaminedTimes(slot, 2) == Examined(Examined(slot));
  }

  // The usage after `count` visits, for the first k slots; `last` is no slot after two full turns.
  lemma {:induction false} UsageOfVisited(was: seq<Slot>, now: seq<Slot>, free: seq<nat>, start: nat, count: nat, last: nat, k: nat)
    requires Visited(was, now, start, count) && FreeAreDead(now, free) && k <= |was|
    requires last == if count < 2 * |was| then Position(start, |was|, 2 * |was| - 1) else |was|
    ensures ChargeInUse(now[..k], free) >= ChargeLeft(was[..k], last)
    ensures count >= 2 * |was| - 1 ==> ChargeInUse(now[..k], free) == ChargeLeft(was[..k], last)
  {
    if k > 0 {
      UsageOfVisited(was, now, free, start, count, last, k - 1);
      var i := k - 1;
      assert now[..k][..i] == now[..i] && was[..k][..i] == was[..i];
      VisitsOfLast(i, start, |was|, count);
      ChargeOfSlot(was[i], Visits(i, start, |was|, count), i == last);
      assert i in free <==> DeadSlot(now, i);
    }
  }

  // The same for all slots.
  lemma UsageAfter(was: seq<Slot>, now: seq<Slot>, free: seq<nat>, usage: int, start: nat, count: nat)
    requires Visited(was, now, start, count) && FreeAreDead(now, free) && UsageOk(now, free, usage, None)
    ensures count < 2 * |was| ==> usage >= ChargeLeft(was, LastLooked(start, |was|))
    ensures count == 2 * |was| - 1 ==> usage == ChargeLeft(was, LastLooked(start, |was|))
    ensures count == 2 * |was| ==> usage == ChargeLeft(was, |was|)
  {
    var last := if count < 2 * |was| then Position(start, |was|, 2 * |was| - 1) else |was|;
    UsageOfVisited(was, now, free, start, count, last, |was|);
    assert now[..|was|] == now && was[..|was|] == was;
  }

  lemma {:induction false} NothingLeft(slots: seq<Slot>, free: seq<nat>, last: nat, k: nat)
    requires FreeAreDead(slots, free) && k <= |slots|
    ensures ChargeLeft(slots[..k], last) <= ChargeInUse(slots[..k], free)
  {
    if k > 0 {
      NothingLeft(slots, free, last, k - 1);
      assert slots[..k][..k - 1] == slots[..k - 1];
      assert k - 1 in free <==> DeadSlot(slots, k - 1);
    }
  }

  lemma NoVisit(was: seq<Slot>, start: nat)
    requires start < |was|
    ensures Visited(was, was, start, 0)
  {
  }

  lemma NextPosition(start: nat, n: nat, count: nat)
    requires start < n && count < 2 * n - 1
    ensures Position(start, n, count + 1) == (var p := Position(start, n, count); if p + 1 >= n then 0 else p + 1)
    ensures Position(start, n, count + 1) == start <==> count + 1 == n
  {
  }

  class ClockShard {
    var slots: seq<Slot>
    var free: seq<nat>
    var table: map<Key, nat>
    var usage: int
    var capacity: nat
    var head: nat

    ghost predicate Valid()
      reads this
    {
      && TableOk(slots, table, Unlocked) && UsageOk(slots, free, usage, None)
      && FreeAreDead(slots, free)
      && (head < |slots| || head == 0)
    }

    /** TryEvict: evicts slot i if it is in cache, unreferenced and not used since the last look. */
    method TryEvict(i: nat) returns (evicted: bool)
      requires Valid() && i < |slots|
      modifies this
      ensures Valid() && head == old(head) && capacity == old(capacity)
      ensures evicted == Evictable(old(slots[i])) && slots == old(slots[i := Examined(slots[i])])
      ensures free == old(free) + (if evicted then [i] else [])
      ensures usage == old(usage) - (if evicted then old(slots[i].charge) else 0)
    {
      hide TableOk, UsageOk, FreeAreDead;
      evicted := slots[i].inCache && !slots[i].used && slots[i].refs == 0;
      if evicted {
        KeyInTable(slots, table, i);
        EvictFrom(slots, free, table, usage, i);
        table := table - {slots[i].key.value};
        usage := usage - slots[i].charge;
        free := free + [i];
        slots := slots[i := slots[i].(inCache := false, key := None, value := None)];
      } else {
        SpareIn(slots, free, table, usage, i);
        slots := slots[i := slots[i].(used := false)];
      }
    }

    /** EvictFromCache. It succeeds exactly if the charge fits beside what is left when the loop compares
        for the last time, before the last look of the second turn: pinned entries, and the entry looked
        at last if it was in use. Otherwise only pinned charges are left, beside which it may fit.
        It looks at each slot at most twice, in circular order from head_, and at no more slots than
        it takes to make room. */
    method EvictFromCache(charge: nat) returns (success: bool, ghost examined: nat)
      requires Valid()
      modifies this
      ensures Valid() && capacity == old(capacity) && |slots| == old(|slots|)
      ensures success <==> ChargeLeft(old(slots), LastLooked(old(head), |slots|)) + charge <= capacity
      ensures success ==> usage + charge <= capacity
      ensures !success ==> usage == ChargeLeft(old(slots), |slots|)
      ensures !success && usage + charge <= capacity <==>
              ChargeLeft(old(slots), |slots|) + charge <= capacity < ChargeLeft(old(slots), LastLooked(old(head), |slots|)) + charge
      ensures !success ==> forall i :: 0 <= i < |slots| && Unpinned(slots[i]) ==> slots[i].charge == 0
      ensures slots == [] ==> examined == 0 && head == old(head)
      ensures slots != [] ==>
                && Visited(old(slots), slots, old(head), examined) && (success ==> examined < 2 * |slots|)
                && (examined > 0 ==> usage + LastFreed(old(slots), old(head), examined) + charge > capacity)
                && head == (if success then Position(old(head), |slots|, examined) else old(head))
    {
      hide TableOk, UsageOk, Visited, LastFreed, Visits, Position, DeadSlot, Unpinned, Examined, FreeAreDead, ChargeLeft, LastLooked;
      examined := 0;
      UnusedIsFree(slots, free, usage);
      if slots != [] {
        NoVisit(slots, head);
        AtStart(head, |slots|);
      }
      if usage == 0 {
        success := charge <= capacity;
        UnusedHasNothingLeft(slots, free, usage, LastLooked(head, |slots|));
        UnusedHasNothingLeft(slots, free, usage, |slots|);
        return;
      }
      var newHead, second := head, false;
      ghost var was, n := slots, |slots|;
      while usage + charge > capacity
        invariant Valid() && capacity == old(capacity) && head == old(head) && |slots| == n
        invariant head < n && examined < 2 * n && second == (examined >= n)
        invariant newHead == Position(head, n, examined) && Visited(was, slots, head, examined)
        invariant examined > 0 ==> usage + LastFreed(was, head, examined) + charge > capacity
        decreases 2 * n - examined
      {
        UsageAfter(was, slots, free, usage, head, examined);
        VisitOne(was, slots, head, examined);
        var evicted := TryEvict(newHead);
        if examined < 2 * n - 1 { NextPosition(head, n, examined); } else { LastPosition(head, n); }
        examined := examined + 1;
        newHead := if newHead + 1 >= |slots| then 0 else newHead + 1;
        if newHead == head {
          if second {
            success := false;
            UsageAfter(was, slots, free, usage, head, examined);
            TwoTurnsEvictAll(was, slots, head);
            return;
          } else {
            second := true;
          }
        }
      }
      UsageAfter(was, slots, free, usage, head, examined);
      head := newHead;
      success := true;
    }
  }

  lemma UnusedHasNothingLeft(slots: seq<Slot>, free: seq<nat>, usage: int, last: nat)
    requires UsageOk(slots, free, usage, None) && FreeAreDead(slots, free) && usage == 0
    ensures ChargeLeft(slots, last) == 0
  {
    NothingLeft(slots, free, last, |slots|);
    assert slots[..|slots|] == slots;
  }

  lemma UnusedIsFree(slots: seq<Slot>, free: seq<nat>, usage: int)
    requires UsageOk(slots, free, usage, None) && FreeAreDead(slots, free)
    ensures usage == 0 ==> forall i :: 0 <= i < |slots| && Unpinned(slots[i]) ==> slots[i].charge == 0
    ensures slots == [] ==> usage == 0
  {
    if usage == 0 { NoChargeLeft(slots, free); }
  }

  lemma AtStart(start: nat, n: nat)
    requires start < n
    ensures Position(start, n, 0) == start
  {
  }

  lemma LastPosition(start: nat, n: nat)
    requires start < n
    ensures (var p := Position(start, n, 2 * n - 1); if p + 1 >= n then 0 else p + 1) == start
  {
  }

  lemma KeyInTable(slots: seq<Slot>, table: map<Key, nat>, i: nat)
    requires TableOk(slots, table, Unlocked) && i < |slots| && slots[i].inCache
    ensures InTable(slots, table, i)
  {
  }

  lemma EvictFrom(slots: seq<Slot>, free: seq<nat>, table: map<Key, nat>, usage: int, i: nat)
    requires TableOk(slots, table, Unlocked) && UsageOk(slots, free, usage, None)
    requires i < |slots| && Evictable(slots[i]) && InTable(slots, table, i)
    requires FreeAreDead(slots, free)
    ensures TableOk(slots[i := Examined(slots[i])], table - {slots[i].key.value}, Unlocked)
    ensures UsageOk(slots[i := Examined(slots[i])], free + [i], usage - slots[i].charge, None)
    ensures FreeAreDead(slots[i := Examined(slots[i])], free + [i])
  {
    var slots' := slots[i := Examined(slots[i])];
    hide TableOk;
    EvictFromTable(slots, table, i);
    assert i !in free;
    SameCharges(slots, slots', free + [i]);
    FreeOne(slots, free, i);
  }

  lemma SpareIn(slots: seq<Slot>, free: seq<nat>, table: map<Key, nat>, usage: int, i: nat)
    requires TableOk(slots, table, Unlocked) && UsageOk(slots, free, usage, None) && FreeAreDead(slots, free)
    requires i < |slots|
    ensures var slots' := slots[i := slots[i].(used := false)];
            TableOk(slots', table, Unlocked) && UsageOk(slots', free, usage, None) && FreeAreDead(slots', free)
  {
    var slots' := slots[i := slots[i].(used := false)];
    hide TableOk;
    TableSame(slots, slots', table, Unlocked);
    SameCharges(slots, slots', free);
    assert SameDead(slots, slots');
  }

  lemma EvictFromTable(slots: seq<Slot>, table: map<Key, nat>, i: nat)
    requires TableOk(slots, table, Unlocked) && i < |slots| && Evictable(slots[i]) && InTable(slots, table, i)
    ensures TableOk(slots[i := Examined(slots[i])], table - {slots[i].key.value}, Unlocked)
  {
  }

  lemma {:induction false} NoChargeLeft(slots: seq<Slot>, free: seq<nat>)
    requires ChargeInUse(slots, free) == 0
    ensures forall i :: 0 <= i < |slots| && i !in free ==> slots[i].charge == 0
  {
    if slots != [] { NoChargeLeft(slots[..|slots| - 1], free); }
  }

  // One entry, in use since the last look, fills the cache.
  const FULL := [Slot(Some(0), Some(0), 1, true, true, 0, 0)]

  /** False does not mean that the charge does not fit: the second turn ends before the usage is
      compared with the capacity again. */
  method FalseThoughItFits() returns (success: bool, fits: bool)
    ensures !success && fits
  {
    var shard := new ClockShard;
    shard.slots, shard.free, shard.table := FULL, [], map[0 := 0];
    shard.usage, shard.capacity, shard.head := 1, 1, 0;
    FullIsValid();
    ghost var examined;
    success, examined := shard.EvictFromCache(1);
    fits := shard.usage + 1 <= shard.capacity;
    FullExamined(shard.slots, shard.free, shard.usage, examined);
  }

  lemma FullIsValid()
    ensures TableOk(FULL, map[0 := 0], Unlocked) && UsageOk(FULL, [], 1, None)
  {
  }

  lemma FullExamined(slots: seq<Slot>, free: seq<nat>, usage: int, examined: nat)
    requires Visited(FULL, slots, 0, examined) && UsageOk(slots, free, usage, None) && FreeAreDead(slots, free)
    ensures if examined < 2 then Unpinned(slots[0]) && usage == 1 else usage == 0
  {
    assert 0 in free <==> DeadSlot(slots, 0);
    assert slots[..0] == [];
    assert ChargeInUse(slots, free) == if 0 in free then 0 else slots[0].charge;
    assert ExaminedTimes(FULL[0], 1) == Examined(FULL[0]) && ExaminedTimes(FULL[0], 2) == Examined(Examined(FULL[0]));
  }
}
