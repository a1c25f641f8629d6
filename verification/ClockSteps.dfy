/**
 Every step of the CLOCK cache protocol keeps the invariant.
 */
module ClockSteps {
  import opened Options
  import opened ClockProtocol
  import opened ClockSafety

  // ---- Calls without the mutex ----

  // A step of a call that changes at most the flags of slot i, and not whether it is in cache.
  lemma CallKeeps(s: State, s': State, i: nat)
    requires Inv(s) && s'.who.section == s.who.section
    requires s' == s.(slots := s'.slots, who := s'.who)
    requires s'.slots == s.slots || (FlagsOnly(s.slots, s'.slots, i) && s'.slots[i].inCache == s.slots[i].inCache)
    requires RefsExact(s'.slots, s'.who) && RecycleExact(s'.slots, s.free, s'.who)
    requires HandlesOk(s.slots, s'.who.handles)
    requires OpsInRange(s'.who.ops, |s.slots|)
    ensures Inv(s')
  {
    hide RefsExact, RecycleExact, Holders, ChargeInUse;
    if s'.slots != s.slots {
      FlagsKeepContents(s.slots, s'.slots, i, s.free, s.nextOcc, s.freed);
      FlagsKeepHandles(s.slots, s'.slots, i, s'.who.handles);
      hide OccupancyOk, HandlesOk;
      TableSame(s.slots, s'.slots, s.table, s.who.section);
      hide TableOk;
      SameCharges(s.slots, s'.slots, s.free);
    }
  }

  lemma LookupFindKeeps(s: State, o: nat, key: Key)
    requires Inv(s) && o !in s.who.ops && key in s.table
    ensures Inv(LookupFindStep(s, o, key))
  {
    hide RefsExact, RecycleExact, OccupancyOk, TableOk, UsageOk, IncomingOk, HandlesOk, Holders, Moves, SameRecyclers,
         Owns, Recycles, DeadSlot;
    var s' := LookupFindStep(s, o, key);
    TableInRange(s.slots, s.table, s.who.section, key);
    CallStarts(s.who, o, s'.who.ops[o]);
    RefsAfter(s.slots, s.slots, s.who, s'.who, 0, {}, {});
    RecycleSame(s.slots, s.slots, s.free, s.who, s'.who);
    CallKeeps(s, s', 0);
  }

  lemma CallStarts(who: Actors, o: nat, op: Op)
    requires o !in who.ops && op.Found?
    ensures Moves(who, who.(ops := who.ops[o := op]), 0, {}, {}) && SameRecyclers(who, who.(ops := who.ops[o := op]))
  {
  }

  lemma TableInRange(slots: seq<Slot>, table: map<Key, nat>, section: Section, key: Key)
    requires TableOk(slots, table, section) && key in table
    ensures table[key] < |slots|
  {
  }

  lemma LookupRefKeeps(s: State, o: nat)
    requires Inv(s) && HasOp(s, o) && s.who.ops[o].Found?
    ensures Inv(LookupRefStep(s, o))
  {
    hide RefsExact, RecycleExact, OccupancyOk, TableOk, UsageOk, IncomingOk, Holders;
    var s' := LookupRefStep(s, o);
    var i := s.who.ops[o].slot;
    if s.slots[i].inCache {
      RefsAfter(s.slots, s'.slots, s.who, s'.who, i, {}, {OpToken(o)});
    } else {
      RefsAfter(s.slots, s'.slots, s.who, s'.who, 0, {}, {});
    }
    RecycleSame(s.slots, s'.slots, s.free, s.who, s'.who);
    CallKeeps(s, s', i);
  }

  lemma LookupCheckKeeps(s: State, o: nat, h: nat)
    requires Inv(s) && HasOp(s, o) && s.who.ops[o].Refd? && h !in s.who.handles
    ensures Inv(LookupCheckStep(s, o, h))
  {
    hide RefsExact, RecycleExact, OccupancyOk, TableOk, UsageOk, IncomingOk, Holders;
    var s' := LookupCheckStep(s, o, h);
    var i := s.who.ops[o].slot;
    if o in s'.who.ops {
      RefsAfter(s.slots, s.slots, s.who, s'.who, 0, {}, {});
    } else {
      HandedOver(s.who, o, h, s'.who.handles[h]);
      hide Moves;
      RefsAfter(s.slots, s.slots, s.who, s'.who, i, {OpToken(o)}, {HandleToken(h)});
    }
    RecycleSame(s.slots, s.slots, s.free, s.who, s'.who);
    CallKeeps(s, s', i);
  }

  lemma HandedOver(who: Actors, o: nat, h: nat, handle: Handle)
    requires o in who.ops && who.ops[o].Refd? && h !in who.handles && handle.slot == who.ops[o].slot
    ensures Moves(who, who.(ops := who.ops - {o}, handles := who.handles[h := handle]), handle.slot, {OpToken(o)}, {HandleToken(h)})
  {
  }

  lemma ReleaseMarkKeeps(s: State, h: nat, o: nat)
    requires Inv(s) && HasHandle(s, h) && o !in s.who.ops
    ensures Inv(ReleaseMarkStep(s, h, o))
  {
    hide RefsExact, RecycleExact, OccupancyOk, TableOk, UsageOk, IncomingOk, Holders;
    var s' := ReleaseMarkStep(s, h, o);
    var i := s.who.handles[h].slot;
    RefsAfter(s.slots, s'.slots, s.who, s'.who, i, {HandleToken(h)}, {OpToken(o)});
    RecycleSame(s.slots, s'.slots, s.free, s.who, s'.who);
    CallKeeps(s, s', i);
  }

  lemma DropRefKeeps(s: State, o: nat)
    requires Inv(s) && HasOp(s, o) && s.who.ops[o].Dropping? && s.slots[s.who.ops[o].slot].refs > 0
    ensures Inv(DropRefStep(s, o))
  {
    hide RefsExact, RecycleExact, OccupancyOk, TableOk, UsageOk, IncomingOk, Holders;
    var s' := DropRefStep(s, o);
    var i := s.who.ops[o].slot;
    RefsAfter(s.slots, s'.slots, s.who, s'.who, i, {OpToken(o)}, {});
    if s.slots[i].refs == 1 && !s.slots[i].inCache {
      RecycleGain(s.slots, s'.slots, s.free, s.who, s'.who, i, OpRecycler(o));
    } else {
      RecycleSame(s.slots, s'.slots, s.free, s.who, s'.who);
    }
    CallKeeps(s, s', i);
  }

  // ---- Sections under the mutex ----

  // The section moves on without gaining or losing a reference or a slot to recycle.
  predicate QuietMove(section: Section, section': Section) {
    && SectionOwns(section') == SectionOwns(section)
    && SectionRecycles(section') == SectionRecycles(section)
  }

  lemma QuietActors(who: Actors, section': Section)
    requires QuietMove(who.section, section')
    ensures Moves(who, who.(section := section'), 0, {}, {}) && SameRecyclers(who, who.(section := section'))
  {
  }

  // A step of the section that leaves the slots alone.
  lemma SectionKeeps(s: State, s': State)
    requires Inv(s) && s'.who == s.who.(section := s'.who.section) && QuietMove(s.who.section, s'.who.section)
    requires s' == s.(table := s'.table, capacity := s'.capacity, head := s'.head, who := s'.who)
    requires TableOk(s.slots, s'.table, s'.who.section) && IncomingOk(s.slots, s'.who.section)
    requires UsageOk(s.slots, s.free, s.usage, IncomingOf(s'.who.section))
    requires SectionInRange(s'.who.section, |s.slots|) && (s'.head < |s.slots| || s'.head == 0)
    ensures Inv(s')
  {
    hide RefsExact, RecycleExact, OccupancyOk, TableOk, UsageOk, IncomingOk, HandlesOk, Holders, Moves, SameRecyclers,
         Owns, Recycles, DeadSlot, QuietMove, SectionInRange, IncomingOf;
    QuietActors(s.who, s'.who.section);
    RefsAfter(s.slots, s.slots, s.who, s'.who, 0, {}, {});
    RecycleSame(s.slots, s.slots, s.free, s.who, s'.who);
  }

  lemma InsertLockKeeps(s: State, entry: Entry)
    requires Inv(s) && s.who.section.Unlocked?
    ensures Inv(InsertLockStep(s, entry))
  {
    var s' := InsertLockStep(s, entry);
    hide RefsExact, RecycleExact, OccupancyOk, TableOk, HandlesOk, OpsInRange, ChargeInUse, Owns, Recycles, DeadSlot;
    UsedIsNotEmpty(s.slots, s.free, s.usage);
    TableSettled(s.slots, s.table, s.who.section, s'.who.section);
    SectionKeeps(s, s');
  }

  lemma UsedIsNotEmpty(slots: seq<Slot>, free: seq<nat>, usage: int)
    requires UsageOk(slots, free, usage, None)
    ensures usage >= 0 && (slots == [] ==> usage == 0)
  {
  }

  lemma CapacityLockKeeps(s: State, capacity: nat)
    requires Inv(s) && s.who.section.Unlocked?
    ensures Inv(CapacityLockStep(s, capacity))
  {
    var s' := CapacityLockStep(s, capacity);
    hide RefsExact, RecycleExact, OccupancyOk, TableOk, HandlesOk, OpsInRange, ChargeInUse, Owns, Recycles, DeadSlot;
    UsedIsNotEmpty(s.slots, s.free, s.usage);
    TableSettled(s.slots, s.table, s.who.section, s'.who.section);
    SectionKeeps(s, s');
  }

  lemma EraseLockKeeps(s: State, key: Key)
    requires Inv(s) && s.who.section.Unlocked? && key in s.table
    ensures Inv(EraseLockStep(s, key))
  {
    hide RefsExact, RecycleExact, OccupancyOk, TableOk, HandlesOk, OpsInRange, ChargeInUse, Owns, Recycles, DeadSlot;
    TableAfterLookup(s.slots, s.table, key);
    TableInRange(s.slots, s.table, s.who.section, key);
    SectionKeeps(s, EraseLockStep(s, key));
  }

  lemma SweepLockKeeps(s: State)
    requires Inv(s) && s.who.section.Unlocked?
    ensures Inv(SweepLockStep(s))
  {
    hide RefsExact, RecycleExact, OccupancyOk, HandlesOk, ChargeInUse;
    assert TableOk(s.slots, map[], Sweeping(0));
    hide TableOk;
    SectionKeeps(s, SweepLockStep(s));
  }

  lemma SweepNextKeeps(s: State)
    requires Inv(s) && s.who.section.Sweeping?
    ensures Inv(SweepNextStep(s))
  {
    hide RefsExact, RecycleExact, OccupancyOk, TableOk, HandlesOk, OpsInRange, ChargeInUse, Owns, Recycles, DeadSlot;
    TableSwept(s.slots, s.table, s.who.section.next);
    SectionKeeps(s, SweepNextStep(s));
  }

  lemma EraseEvictedKeeps(s: State)
    requires Inv(s) && s.who.section.Evicted? && s.who.section.newHead < |s.slots|
    ensures Inv(EraseEvictedStep(s))
  {
    hide RefsExact, RecycleExact, OccupancyOk, TableOk, HandlesOk, OpsInRange, ChargeInUse, UsageOk, IncomingOk;
    var Evicted(goal, n, second) := s.who.section;
    EvictedIsDead(s.slots, s.free, s.who);
    TableAfterErase(s.slots, s.table, goal, n, second);
    var s' := EraseEvictedStep(s);
    NothingIncoming(s.slots, s.free, s.usage, s.who.section, s'.who.section);
    SectionKeeps(s, s');
  }

  lemma NothingIncoming(slots: seq<Slot>, free: seq<nat>, usage: int, section: Section, section': Section)
    requires IncomingOf(section) == IncomingOf(section') == None && UsageOk(slots, free, usage, IncomingOf(section))
    ensures UsageOk(slots, free, usage, IncomingOf(section')) && IncomingOk(slots, section')
  {
  }

  lemma NoIncoming(slots: seq<Slot>, section: Section)
    requires IncomingOf(section) == None
    ensures IncomingOk(slots, section)
  {
  }

  lemma EvictedIsDead(slots: seq<Slot>, free: seq<nat>, who: Actors)
    requires RecycleExact(slots, free, who) && SectionRecycles(who.section).Some?
    ensures DeadSlot(slots, SectionRecycles(who.section).value) && SectionRecycles(who.section).value !in free
  {
    assert Recycles(who, SectionRecycler) == SectionRecycles(who.section);
  }

  lemma FindExistingKeeps(s: State)
    requires Inv(s) && s.who.section.Replacing?
    ensures Inv(FindExistingStep(s))
  {
    hide RefsExact, RecycleExact, OccupancyOk, TableOk, HandlesOk, OpsInRange, ChargeInUse;
    var Replacing(entry, i) := s.who.section;
    if entry.key in s.table {
      TableInRange(s.slots, s.table, s.who.section, entry.key);
      TableAfterFind(s.slots, s.table, entry, i);
    } else {
      TableAfterMiss(s.slots, s.table, entry, i);
    }
    SectionKeeps(s, FindExistingStep(s));
  }

  lemma LinkKeeps(s: State)
    requires Inv(s) && s.who.section.Linking?
    ensures Inv(LinkStep(s))
  {
    var Linking(entry, i) := s.who.section;
    hide RefsExact, RecycleExact, OccupancyOk, TableOk, HandlesOk, OpsInRange, ChargeInUse, Owns, Recycles, DeadSlot;
    TableAfterLink(s.slots, s.table, entry, i);
    SectionKeeps(s, LinkStep(s));
  }

  // A step of the section that changes the flags of slot i.
  lemma FlagSectionKeeps(s: State, s': State, i: nat)
    requires Inv(s) && s'.who == s.who.(section := s'.who.section) && SectionOwns(s'.who.section) == SectionOwns(s.who.section)
    requires s' == s.(slots := s'.slots, who := s'.who) && FlagsOnly(s.slots, s'.slots, i) && s'.slots[i].refs == s.slots[i].refs
    requires RecycleExact(s'.slots, s.free, s'.who)
    requires TableOk(s'.slots, s.table, s'.who.section) && IncomingOk(s'.slots, s'.who.section)
    requires UsageOk(s.slots, s.free, s.usage, IncomingOf(s'.who.section))
    requires SectionInRange(s'.who.section, |s.slots|)
    ensures Inv(s')
  {
    hide RefsExact, RecycleExact, OccupancyOk, TableOk, IncomingOk, HandlesOk, Holders, Moves, DeadSlot, SectionInRange,
         IncomingOf, ChargeInUse, SectionOwns, Owns;
    SectionMoves(s.who, s'.who.section);
    RefsAfter(s.slots, s'.slots, s.who, s'.who, 0, {}, {});
    FlagsKeepContents(s.slots, s'.slots, i, s.free, s.nextOcc, s.freed);
    FlagsKeepHandles(s.slots, s'.slots, i, s'.who.handles);
    SameCharges(s.slots, s'.slots, s.free);
  }

  lemma SectionMoves(who: Actors, section': Section)
    requires SectionOwns(section') == SectionOwns(who.section)
    ensures Moves(who, who.(section := section'), 0, {}, {})
  {
  }

  // The in-cache bit of slot i is reset.
  lemma DeadAfterUnset(slots: seq<Slot>, i: nat)
    requires i < |slots|
    ensures var slots' := slots[i := slots[i].(inCache := false)];
            forall j: nat :: DeadSlot(slots', j) <==> DeadSlot(slots, j) || (j == i && slots[i].refs == 0)
  {
  }

  lemma SectionRecyclers(who: Actors, section': Section)
    ensures var who' := who.(section := section');
            && (forall r :: r != SectionRecycler ==> Recycles(who', r) == Recycles(who, r))
            && Recycles(who, SectionRecycler) == SectionRecycles(who.section)
            && Recycles(who', SectionRecycler) == SectionRecycles(section')
  {
  }

  lemma RecycleAfterUnset(slots: seq<Slot>, free: seq<nat>, who: Actors, section': Section, i: nat)
    requires RecycleExact(slots, free, who) && i < |slots| && SectionRecycles(who.section) == None
    requires SectionRecycles(section') == if slots[i].inCache && slots[i].refs == 0 then Some(i) else None
    ensures RecycleExact(slots[i := slots[i].(inCache := false)], free, who.(section := section'))
  {
    hide RecycleExact, Recycles, SectionRecycles;
    var slots', who' := slots[i := slots[i].(inCache := false)], who.(section := section');
    DeadAfterUnset(slots, i);
    SectionRecyclers(who, section');
    if slots[i].inCache && slots[i].refs == 0 {
      RecycleGain(slots, slots', free, who, who', i, SectionRecycler);
    } else {
      assert SameDead(slots, slots') && SameRecyclers(who, who');
      RecycleSame(slots, slots', free, who, who');
    }
  }

  lemma ResetUsageKeeps(s: State)
    requires Inv(s) && s.who.section.Spared? && s.who.section.newHead < |s.slots|
    ensures Inv(ResetUsageStep(s))
  {
    hide RefsExact, RecycleExact, OccupancyOk, TableOk, HandlesOk, OpsInRange, ChargeInUse, UsageOk, IncomingOk;
    var s' := ResetUsageStep(s);
    TableSettled(s.slots, s.table, s.who.section, s'.who.section);
    TableSame(s.slots, s'.slots, s.table, s'.who.section);
    RecycleSame(s.slots, s'.slots, s.free, s.who, s'.who);
    NothingIncoming(s.slots, s.free, s.usage, s.who.section, s'.who.section);
    NoIncoming(s'.slots, s'.who.section);
    FlagSectionKeeps(s, s', s.who.section.newHead);
  }

  lemma ExamineKeeps(s: State)
    requires Inv(s) && s.who.section.Evicting? && s.who.section.newHead < |s.slots|
    ensures Inv(ExamineStep(s))
  {
    hide RefsExact, RecycleExact, OccupancyOk, TableOk, HandlesOk, OpsInRange, ChargeInUse, Owns, Recycles;
    var s' := ExamineStep(s);
    var Evicting(goal, n, second) := s.who.section;
    if s'.who.section.Evicted? {
      TableAfterEvict(s.slots, s.table, goal, n, second);
      RecycleAfterUnset(s.slots, s.free, s.who, s'.who.section, n);
      FlagSectionKeeps(s, s', n);
    } else {
      TableSettled(s.slots, s.table, s.who.section, s'.who.section);
      SectionKeeps(s, s');
    }
  }

  lemma UnsetKeeps(s: State)
    requires Inv(s) && s.who.section.Unsetting? && s.who.section.slot < |s.slots|
    ensures Inv(UnsetStep(s))
  {
    hide RefsExact, RecycleExact, OccupancyOk, TableOk, HandlesOk, OpsInRange, ChargeInUse, Owns, Recycles;
    var s' := UnsetStep(s);
    var Unsetting(i, after) := s.who.section;
    TableAfterUnset(s.slots, s.table, i, after);
    RecycleAfterUnset(s.slots, s.free, s.who, s'.who.section, i);
    if !s'.who.section.Recycling? { TableContinues(s'.slots, s.table, i, after, s'.who.section); }
    FlagSectionKeeps(s, s', i);
  }

  // ---- Recycling a slot ----

  ghost predicate Retires(who: Actors, who': Actors, i: nat, r: Recycler) {
    && Recycles(who, r) == Some(i) && Recycles(who', r) == None
    && (forall q :: q != r ==> Recycles(who', q) == Recycles(who, q))
  }

  lemma RecycledKeeps(s: State, s': State, i: nat, r: Recycler)
    requires Inv(s) && Moves(s.who, s'.who, 0, {}, {}) && Retires(s.who, s'.who, i, r) && s'.who.handles == s.who.handles
    requires i < |s.slots| && s' == Recycled(s, i).(who := s'.who)
    requires TableOk(s'.slots, s.table, s'.who.section) && IncomingOk(s'.slots, s'.who.section)
    requires IncomingOf(s'.who.section) == IncomingOf(s.who.section)
    requires SectionInRange(s'.who.section, |s.slots|) && OpsInRange(s'.who.ops, |s.slots|)
    ensures Inv(s')
  {
    hide RefsExact, RecycleExact, OccupancyOk, TableOk, IncomingOk, HandlesOk, Holders, Moves, SectionInRange,
         IncomingOf, ChargeInUse, SectionOwns, Owns, OpsInRange, Recycles;
    RetiredSlot(s.slots, s.free, s.who, i, r);
    RefsAfter(s.slots, s'.slots, s.who, s'.who, 0, {}, {});
    assert SameDead(s.slots, s'.slots);
    RecycleDone(s.slots, s'.slots, s.free, s.who, s'.who, i, r);
    OccupancyAfterRecycle(s.slots, s.free, s.nextOcc, s.freed, i);
    DeadNotHeld(s.slots, s.who, i);
    HandlesElsewhere(s.slots, s'.slots, s.who.handles, i);
    SameCharges(s.slots, s'.slots, s.free + [i]);
    FreeOne(s.slots, s.free, i);
  }

  lemma RetiredSlot(slots: seq<Slot>, free: seq<nat>, who: Actors, i: nat, r: Recycler)
    requires RecycleExact(slots, free, who) && Recycles(who, r) == Some(i)
    ensures i < |slots| && Dead(slots[i]) && i !in free
  {
  }

  lemma RecycleLastKeeps(s: State, o: nat)
    requires Inv(s) && HasOp(s, o) && s.who.ops[o].Last? && s.who.section.Unlocked?
    ensures Inv(RecycleLastStep(s, o))
  {
    hide RefsExact, RecycleExact, OccupancyOk, TableOk, HandlesOk, ChargeInUse, UsageOk;
    var s' := RecycleLastStep(s, o);
    var i := s.who.ops[o].slot;
    CallEnds(s.who, o);
    hide Moves, Retires, Owns, Recycles;
    RetiredSlot(s.slots, s.free, s.who, i, OpRecycler(o));
    TableAfterRecycle(s.slots, s'.slots, s.table, Unlocked, i);
    RecycledKeeps(s, s', i, OpRecycler(o));
  }

  lemma CallEnds(who: Actors, o: nat)
    requires o in who.ops && who.ops[o].Last?
    ensures Moves(who, who.(ops := who.ops - {o}), 0, {}, {})
    ensures Recycles(who, OpRecycler(o)) == Some(who.ops[o].slot)
    ensures Retires(who, who.(ops := who.ops - {o}), who.ops[o].slot, OpRecycler(o))
  {
  }

  lemma RecycleKeeps(s: State)
    requires Inv(s) && s.who.section.Recycling? && s.who.section.slot < |s.slots|
    ensures Inv(RecycleStep(s))
  {
    hide RefsExact, RecycleExact, OccupancyOk, TableOk, HandlesOk, ChargeInUse, UsageOk, Owns, Recycles, OpsInRange, Moves, Retires;
    var s' := RecycleStep(s);
    var Recycling(i, after) := s.who.section;
    SectionRetires(s.who, s'.who.section);
    RetiredSlot(s.slots, s.free, s.who, i, SectionRecycler);
    TableAfterRecycle(s.slots, s'.slots, s.table, s.who.section, i);
    TableContinues(s'.slots, s.table, i, after, s'.who.section);
    RecycledKeeps(s, s', i, SectionRecycler);
  }

  lemma SectionRetires(who: Actors, section': Section)
    requires who.section.Recycling? && SectionRecycles(section') == None && SectionOwns(section') == SectionOwns(who.section)
    ensures Moves(who, who.(section := section'), 0, {}, {})
    ensures Recycles(who, SectionRecycler) == Some(who.section.slot)
    ensures Retires(who, who.(section := section'), who.section.slot, SectionRecycler)
  {
  }

  // ---- Taking a slot ----

  lemma FillKeeps(s: State)
    requires Inv(s) && s.who.section.Filling? && (s.free != [] ==> SlotToFill(s) < |s.slots|)
    ensures Inv(FillStep(s))
  {
    hide RefsExact, RecycleExact, OccupancyOk, TableOk, HandlesOk, ChargeInUse, Owns, Recycles, OpsInRange, Moves;
    var s' := FillStep(s);
    var i := SlotToFill(s);
    FreeSlot(s);
    FillRefs(s);
    FillRecycling(s);
    OccupancyAfterFill(s.slots, s'.slots, s.free, s'.free, s.nextOcc, s.freed, i);
    DeadNotHeld(s.slots, s.who, i);
    HandlesElsewhere(s.slots, s'.slots, s.who.handles, i);
    TableAfterFill(s.slots, s'.slots, s.table, s.who.section.entry, i);
    FillCharge(s);
    OpsStayInRange(s.who.ops, |s.slots|, |s'.slots|);
  }

  lemma OpsStayInRange(ops: map<nat, Op>, n: nat, n': nat)
    requires OpsInRange(ops, n) && n <= n'
    ensures OpsInRange(ops, n')
  {
  }

  lemma FreeSlot(s: State)
    requires RecycleExact(s.slots, s.free, s.who) && s.who.section.Filling? && (s.free != [] ==> SlotToFill(s) < |s.slots|)
    ensures var i := SlotToFill(s);
            && (i < |s.slots| ==> Dead(s.slots[i]) && i in s.free) && (i == |s.slots| <==> s.free == [])
            && i !in FillStep(s).free && (forall j: nat :: j != i ==> (j in FillStep(s).free <==> j in s.free))
  {
    if s.free != [] {
      var rest := s.free[..|s.free| - 1];
      assert s.free == rest + [SlotToFill(s)];
      assert DeadSlot(s.slots, SlotToFill(s));
    }
  }

  lemma FillRefs(s: State)
    requires RefsExact(s.slots, s.who) && s.who.section.Filling? && (s.free != [] ==> SlotToFill(s) < |s.slots|)
    requires SlotToFill(s) < |s.slots| ==> Dead(s.slots[SlotToFill(s)])
    ensures RefsExact(FillStep(s).slots, FillStep(s).who)
  {
    hide RefsExact, Holders;
    var s' := FillStep(s);
    var i := SlotToFill(s);
    if s.who.section.entry.hold {
      RefsAfter(s.slots, s'.slots, s.who, s'.who, i, {}, {SectionToken});
    } else {
      RefsAfter(s.slots, s'.slots, s.who, s'.who, 0, {}, {});
    }
  }

  lemma FillRecycling(s: State)
    requires RecycleExact(s.slots, s.free, s.who) && s.who.section.Filling? && (s.free != [] ==> SlotToFill(s) < |s.slots|)
    ensures RecycleExact(FillStep(s).slots, FillStep(s).free, FillStep(s).who)
  {
    hide RecycleExact;
    var s' := FillStep(s);
    assert SameRecyclers(s.who, s'.who);
    if s.free != [] {
      assert s.free == s'.free + [SlotToFill(s)];
      RecycleTake(s.slots, s'.slots, s'.free, s.who, s'.who, SlotToFill(s));
    } else {
      RecycleSame(s.slots, s'.slots, s.free, s.who, s'.who);
    }
  }

  lemma FillCharge(s: State)
    requires s.who.section.Filling? && (s.free != [] ==> SlotToFill(s) < |s.slots|)
    requires SlotToFill(s) !in FillStep(s).free && UsageOk(s.slots, s.free, s.usage, None)
    ensures UsageOk(FillStep(s).slots, FillStep(s).free, s.usage, IncomingOf(FillStep(s).who.section))
  {
    hide ChargeInUse;
    var s' := FillStep(s);
    var i := SlotToFill(s);
    if s.free != [] {
      assert s.free == s'.free + [i];
      ChargeReused(s.slots, s'.free, i, s'.slots[i]);
    } else {
      ChargeAppended(s.slots, s.free, s'.slots[i]);
    }
  }

  lemma ChargeReused(slots: seq<Slot>, free: seq<nat>, i: nat, slot: Slot)
    requires i < |slots| && i !in free
    ensures ChargeInUse(slots[i := slot], free) == ChargeInUse(slots, free + [i]) + slot.charge
  {
    hide ChargeInUse;
    SetCharge(slots, free + [i], i, slot);
    FreeOne(slots[i := slot], free, i);
  }

  lemma ChargeAppended(slots: seq<Slot>, free: seq<nat>, slot: Slot)
    requires |slots| !in free
    ensures ChargeInUse(slots + [slot], free) == ChargeInUse(slots, free) + slot.charge
  {
    assert (slots + [slot])[..|slots|] == slots;
  }

  // ---- The end of an Insert ----

  lemma FinishKeeps(s: State, h: nat)
    requires Inv(s) && s.who.section.Counting? && s.who.section.taken < |s.slots| && h !in s.who.handles
    ensures Inv(FinishStep(s, h))
  {
    hide RefsExact, RecycleExact, OccupancyOk, TableOk, ChargeInUse, Owns, Recycles, OpsInRange, Moves;
    var s' := FinishStep(s, h);
    FinishActors(s.who, h, s'.who.handles);
    if s.who.section.entry.hold {
      RefsAfter(s.slots, s.slots, s.who, s'.who, s.who.section.taken, {SectionToken}, {HandleToken(h)});
    } else {
      RefsAfter(s.slots, s.slots, s.who, s'.who, 0, {}, {});
    }
    RecycleSame(s.slots, s.slots, s.free, s.who, s'.who);
    TableSettled(s.slots, s.table, s.who.section, Unlocked);
  }

  lemma FinishActors(who: Actors, h: nat, handles': map<nat, Handle>)
    requires who.section.Counting? && h !in who.handles
    requires if who.section.entry.hold then h in handles' && handles' == who.handles[h := handles'[h]] && handles'[h].slot == who.section.taken
             else handles' == who.handles
    ensures var who' := who.(section := Unlocked, handles := handles');
            && SameRecyclers(who, who')
            && if who.section.entry.hold then Moves(who, who', who.section.taken, {SectionToken}, {HandleToken(h)})
               else Moves(who, who', 0, {}, {})
  {
  }
}
