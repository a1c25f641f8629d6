/**
 What the CLOCK cache shard guarantees in every run of Lookup, Insert, Erase, EraseUnRefEntries,
 SetCapacity and Release, however their steps interleave.
 */
module ClockRuns {
  import opened Options
  import opened ClockProtocol
  import opened ClockSafety
  import opened ClockSteps

  lemma CallStepKeeps(s: State, step: Step)
    requires Inv(s) && CallEnabled(s, step)
    ensures Inv(ApplyCall(s, step))
  {
    hide RefsExact, RecycleExact, OccupancyOk, TableOk, HandlesOk, ChargeInUse, OpsInRange, IncomingOk, LookupFindStep,
         LookupRefStep, LookupCheckStep, ReleaseMarkStep, DropRefStep, RecycleLastStep;
    match step
    case LookupFind(o, key) => LookupFindKeeps(s, o, key);
    case LookupRef(o) => LookupRefKeeps(s, o);
    case LookupCheck(o, h) => LookupCheckKeeps(s, o, h);
    case ReleaseMark(h, o) => ReleaseMarkKeeps(s, h, o);
    case DropRef(o) => DropRefKeeps(s, o);
    case RecycleLast(o) => RecycleLastKeeps(s, o);
    case SetStrict(_) =>
  }

  lemma SectionStepKeeps(s: State, step: Step)
    requires Inv(s) && SectionEnabled(s, step)
    ensures Inv(ApplySection(s, step))
  {
    hide Inv, InsertLockStep, CapacityLockStep, EraseLockStep, SweepLockStep, ExamineStep, EraseEvictedStep,
         ResetUsageStep, FillStep, FindExistingStep, UnsetStep, RecycleStep, LinkStep, FinishStep, SweepNextStep;
    match step
    case InsertLock(entry) => InsertLockKeeps(s, entry);
    case CapacityLock(capacity) => CapacityLockKeeps(s, capacity);
    case EraseLock(key) => EraseLockKeeps(s, key);
    case SweepLock => SweepLockKeeps(s);
    case Examine => ExamineKeeps(s);
    case EraseEvicted => EraseEvictedKeeps(s);
    case ResetUsage => ResetUsageKeeps(s);
    case Fill => FillKeeps(s);
    case FindExisting => FindExistingKeeps(s);
    case Unset => UnsetKeeps(s);
    case Recycle => RecycleKeeps(s);
    case Link => LinkKeeps(s);
    case Finish(h) => FinishKeeps(s, h);
    case SweepNext => SweepNextKeeps(s);
  }

  /** Every step of every caller keeps the invariant. */
  lemma StepKeepsInv(s: State, step: Step)
    requires Inv(s) && Enabled(s, step)
    ensures Inv(Apply(s, step))
  {
    hide Inv, CallEnabled, SectionEnabled, ApplyCall, ApplySection;
    if CallEnabled(s, step) { CallStepKeeps(s, step); } else { SectionStepKeeps(s, step); }
  }

  /** The invariant holds in every state of every run. */
  lemma {:induction false} RunKeepsInv(states: seq<State>, steps: seq<Step>, i: nat)
    requires IsRun(states, steps) && i < |states|
    ensures Inv(states[i])
  {
    hide Inv, Enabled, Apply;
    if i == 0 {
      InitialInv(states[0]);
    } else {
      RunKeepsInv(states, steps, i - 1);
      StepKeepsInv(states[i - 1], steps[i - 1]);
    }
  }

  /** The last state of some run. */
  ghost predicate Reachable(s: State) {
    exists states: seq<State>, steps: seq<Step> :: IsRun(states, steps) && states[|steps|] == s
  }

  lemma ReachableInv(s: State)
    requires Reachable(s)
    ensures Inv(s)
  {
    var states: seq<State>, steps: seq<Step> :| IsRun(states, steps) && states[|steps|] == s;
    RunKeepsInv(states, steps, |steps|);
  }

  lemma RunReaches(states: seq<State>, steps: seq<Step>, i: nat)
    requires IsRun(states, steps) && i < |states|
    ensures Reachable(states[i])
  {
    assert IsRun(states[..i + 1], steps[..i]) && states[..i + 1][i] == states[i];
  }

  /** A handle keeps the entry it was handed out for: the same occupancy of the slot, with the key
      and the value asked for, referenced, and not passed to its deleter. */
  lemma HandleKeepsEntry(s: State, h: nat)
    requires Reachable(s) && h in s.who.handles
    ensures Holds(s.slots, s.who.handles[h])
    ensures s.slots[s.who.handles[h].slot].refs > 0 && !WasFreed(s.freed, s.who.handles[h].occ)
  {
    hide RefsExact, RecycleExact, TableOk, ChargeInUse, OpsInRange, IncomingOk, WasFreed;
    ReachableInv(s);
    HeldIsLive(s.slots, s.who, HandleToken(h), s.who.handles[h].slot);
    LiveIsNotFree(s.slots, s.free, s.who, s.who.handles[h].slot);
  }

  lemma LiveIsNotFree(slots: seq<Slot>, free: seq<nat>, who: Actors, i: nat)
    requires RecycleExact(slots, free, who) && i < |slots| && !Dead(slots[i])
    ensures i !in free
  {
  }

  // The caller keeps handle h from state i to state j.
  ghost predicate Keeps(states: seq<State>, h: nat, i: nat, j: nat) {
    i <= j < |states| && forall k :: i <= k <= j ==> h in states[k].who.handles
  }

  lemma SectionKeepsHandle(s: State, step: Step, h: nat)
    requires SectionEnabled(s, step) && h in s.who.handles
    ensures h in ApplySection(s, step).who.handles && ApplySection(s, step).who.handles[h] == s.who.handles[h]
  {
  }

  lemma CallKeepsHandle(s: State, step: Step, h: nat)
    requires CallEnabled(s, step) && h in s.who.handles && h in ApplyCall(s, step).who.handles
    ensures ApplyCall(s, step).who.handles[h] == s.who.handles[h]
  {
  }

  lemma HandleUnchanged(s: State, step: Step, h: nat)
    requires Enabled(s, step) && h in s.who.handles && h in Apply(s, step).who.handles
    ensures Apply(s, step).who.handles[h] == s.who.handles[h]
  {
    hide CallEnabled, SectionEnabled, ApplyCall, ApplySection;
    if CallEnabled(s, step) { CallKeepsHandle(s, step, h); } else { SectionKeepsHandle(s, step, h); }
  }

  /** From the call that returned a handle up to its Release, the slot keeps the entry, whatever is
      evicted, erased or inserted meanwhile. */
  lemma {:induction false} HandleIsStable(states: seq<State>, steps: seq<Step>, h: nat, i: nat, j: nat)
    requires IsRun(states, steps) && Keeps(states, h, i, j)
    ensures states[j].who.handles[h] == states[i].who.handles[h] && Holds(states[j].slots, states[i].who.handles[h])
    decreases j - i
  {
    hide Inv, Enabled, Apply, Holds;
    RunReaches(states, steps, j);
    HandleKeepsEntry(states[j], h);
    if i < j {
      HandleIsStable(states, steps, h, i, j - 1);
      HandleUnchanged(states[j - 1], steps[j - 1], h);
    }
  }

  /** Every occupancy is passed to its deleter at most once, and not while it has its slot; it has
      its slot or was passed to the deleter. */
  lemma RecycledExactlyOnce(s: State, occ: nat)
    requires Reachable(s) && occ < s.nextOcc
    ensures WasFreed(s.freed, occ) <==> !Occupied(s.slots, s.free, occ)
    ensures forall j, k :: 0 <= j < k < |s.freed| ==> !(s.freed[j].occ == s.freed[k].occ == occ)
  {
    hide RefsExact, RecycleExact, TableOk, ChargeInUse, OpsInRange, IncomingOk, HandlesOk;
    ReachableInv(s);
  }

  /** Nothing leaks: without calls under way and handles out, a slot is in recycle_ or in cache and
      in the table under its key. */
  lemma QuietSlotIsCachedOrFree(s: State, i: nat)
    requires Reachable(s) && s.who == Actors(Unlocked, map[], map[]) && i < |s.slots|
    ensures i in s.free <==> !s.slots[i].inCache
    ensures i !in s.free ==> InTable(s.slots, s.table, i) && s.slots[i].refs == 0
  {
    hide OccupancyOk, ChargeInUse, OpsInRange, IncomingOk, HandlesOk;
    ReachableInv(s);
    assert Holders(s.who, i) == {};
    assert !HasRecycler(s.who, i);
    assert DeadSlot(s.slots, i) <==> !s.slots[i].inCache;
  }

  /** usage_ is the charge of all slots in use whenever the mutex is free. */
  lemma UsageIsExact(s: State)
    requires Reachable(s) && s.who.section.Unlocked?
    ensures s.usage == ChargeInUse(s.slots, s.free) >= 0
  {
    hide RefsExact, RecycleExact, TableOk, OccupancyOk, OpsInRange, IncomingOk, HandlesOk;
    ReachableInv(s);
  }

  /** The assertions of RecycleHandle and of Unref. */
  lemma RecyclesOnlyDead(s: State, r: Recycler, i: nat)
    requires Inv(s) && Recycles(s.who, r) == Some(i)
    ensures i < |s.slots| && !s.slots[i].inCache && s.slots[i].refs == 0 && i !in s.free
  {
    hide RefsExact, OccupancyOk, TableOk, ChargeInUse, OpsInRange, IncomingOk, HandlesOk;
    RetiredSlot(s.slots, s.free, s.who, i, r);
  }

  lemma UnrefNeverUnderflows(s: State, o: nat)
    requires Reachable(s) && o in s.who.ops && s.who.ops[o].Dropping?
    ensures s.who.ops[o].slot < |s.slots| && s.slots[s.who.ops[o].slot].refs > 0
  {
    hide RefsExact, RecycleExact, OccupancyOk, TableOk, ChargeInUse, OpsInRange, IncomingOk, HandlesOk;
    ReachableInv(s);
    HeldIsLive(s.slots, s.who, OpToken(o), s.who.ops[o].slot);
  }

  /** The assertion of TryEvict: the table still maps the key of an evicted slot to it. */
  lemma EvictedIsInTable(s: State)
    requires Reachable(s) && s.who.section.Evicted?
    ensures s.who.section.newHead < |s.slots| && InTable(s.slots, s.table, s.who.section.newHead)
  {
    hide RefsExact, RecycleExact, OccupancyOk, ChargeInUse, OpsInRange, IncomingOk, HandlesOk;
    ReachableInv(s);
  }

  // ---- Where the values passed to deleters come from ----

  ghost predicate Inserted(states: seq<State>, steps: seq<Step>, n: nat, occ: nat, key: Option<Key>, value: Option<Value>) {
    exists m :: 0 <= m < n && m < |steps| && m < |states| && FillsWith(states[m], steps[m], occ, key, value)
  }

  predicate FillsWith(s: State, step: Step, occ: nat, key: Option<Key>, value: Option<Value>) {
    && step.Fill? && s.who.section.Filling? && s.nextOcc == occ
    && key == Some(s.who.section.entry.key) && value == Some(s.who.section.entry.value)
  }

  // The entry in slot i after the step was put there by it, or was there before.
  predicate SlotFrom(s: State, step: Step, s': State, i: nat)
    requires i < |s'.slots|
  {
    || FillsWith(s, step, s'.slots[i].occ, s'.slots[i].key, s'.slots[i].value)
    || (i < |s.slots| && i !in s.free
        && s'.slots[i].occ == s.slots[i].occ && s'.slots[i].key == s.slots[i].key && s'.slots[i].value == s.slots[i].value)
  }

  lemma CallSlotFrom(s: State, step: Step, i: nat)
    requires CallEnabled(s, step) && i < |ApplyCall(s, step).slots| && i !in ApplyCall(s, step).free
    ensures SlotFrom(s, step, ApplyCall(s, step), i)
  {
    if step.RecycleLast? { assert i !in s.free; }
  }

  lemma FillSlotFrom(s: State, i: nat)
    requires SectionEnabled(s, Fill) && i < |FillStep(s).slots| && i !in FillStep(s).free
    ensures SlotFrom(s, Fill, FillStep(s), i)
  {
    if s.free != [] && i != SlotToFill(s) {
      assert s.free == FillStep(s).free + [SlotToFill(s)];
    }
  }

  lemma RecycleSlotFrom(s: State, i: nat)
    requires SectionEnabled(s, Recycle) && i < |RecycleStep(s).slots| && i !in RecycleStep(s).free
    ensures SlotFrom(s, Recycle, RecycleStep(s), i)
  {
    assert i !in s.free;
  }

  lemma SectionSlotFrom(s: State, step: Step, i: nat)
    requires SectionEnabled(s, step) && i < |ApplySection(s, step).slots| && i !in ApplySection(s, step).free
    ensures SlotFrom(s, step, ApplySection(s, step), i)
  {
    hide FillStep, RecycleStep;
    if step.Fill? {
      FillSlotFrom(s, i);
    } else if step.Recycle? {
      RecycleSlotFrom(s, i);
    }
  }

  predicate FreedFrom(s: State, s': State, k: nat)
    requires k < |s'.freed|
  {
    || (k < |s.freed| && s'.freed[k] == s.freed[k])
    || exists i :: 0 <= i < |s.slots| && s'.freed[k] == Freed(s.slots[i].occ, s.slots[i].key, s.slots[i].value) && i !in s.free
  }

  lemma StepFreedFrom(s: State, step: Step, k: nat)
    requires Inv(s) && Enabled(s, step) && k < |Apply(s, step).freed|
    ensures FreedFrom(s, Apply(s, step), k)
  {
    hide RefsExact, RecycleExact, OccupancyOk, TableOk, ChargeInUse, OpsInRange, IncomingOk, HandlesOk;
    if step.RecycleLast? { RecyclesOnlyDead(s, OpRecycler(step.o), s.who.ops[step.o].slot); }
    if step.Recycle? { RecyclesOnlyDead(s, SectionRecycler, s.who.section.slot); }
  }

  lemma {:induction false} SlotWasInserted(states: seq<State>, steps: seq<Step>, n: nat, i: nat)
    requires IsRun(states, steps) && n < |states| && i < |states[n].slots| && i !in states[n].free
    ensures Inserted(states, steps, n, states[n].slots[i].occ, states[n].slots[i].key, states[n].slots[i].value)
  {
    hide CallEnabled, SectionEnabled, ApplyCall, ApplySection, FillsWith;
    if n > 0 {
      var s, step := states[n - 1], steps[n - 1];
      if CallEnabled(s, step) { CallSlotFrom(s, step, i); } else { SectionSlotFrom(s, step, i); }
      if !FillsWith(s, step, states[n].slots[i].occ, states[n].slots[i].key, states[n].slots[i].value) {
        SlotWasInserted(states, steps, n - 1, i);
      }
    }
  }

  /** What is passed to a deleter is the key and value some Insert put into the cache, each once
      (RecycledExactlyOnce). */
  lemma {:induction false} FreedWasInserted(states: seq<State>, steps: seq<Step>, n: nat, k: nat)
    requires IsRun(states, steps) && n < |states| && k < |states[n].freed|
    ensures Inserted(states, steps, n, states[n].freed[k].occ, states[n].freed[k].key, states[n].freed[k].value)
  {
    hide Inv, Enabled, Apply, FillsWith;
    if n > 0 {
      var s := states[n - 1];
      RunKeepsInv(states, steps, n - 1);
      StepFreedFrom(s, steps[n - 1], k);
      if k < |s.freed| && states[n].freed[k] == s.freed[k] {
        FreedWasInserted(states, steps, n - 1, k);
      } else {
        var i :| 0 <= i < |s.slots| && states[n].freed[k] == Freed(s.slots[i].occ, s.slots[i].key, s.slots[i].value) && i !in s.free;
        SlotWasInserted(states, steps, n - 1, i);
      }
    }
  }

  // ---- A whole Lookup ----

  predicate LooksFor(op: Op, key: Key) {
    op.Found? || op.Refd? ==> op.key == key
  }

  lemma SectionKeepsOps(s: State, step: Step)
    requires SectionEnabled(s, step)
    ensures ApplySection(s, step).who.ops == s.who.ops
  {
  }

  lemma CallLooksFor(s: State, step: Step, o: nat, key: Key)
    requires CallEnabled(s, step) && o in s.who.ops && LooksFor(s.who.ops[o], key) && o in ApplyCall(s, step).who.ops
    ensures LooksFor(ApplyCall(s, step).who.ops[o], key)
  {
  }

  lemma StillLooksFor(s: State, step: Step, o: nat, key: Key)
    requires Enabled(s, step) && o in s.who.ops && LooksFor(s.who.ops[o], key) && o in Apply(s, step).who.ops
    ensures LooksFor(Apply(s, step).who.ops[o], key)
  {
    hide CallEnabled, SectionEnabled, ApplyCall, ApplySection, LooksFor;
    if CallEnabled(s, step) { CallLooksFor(s, step, o, key); } else { SectionKeepsOps(s, step); }
  }

  lemma FindLooksFor(s: State, o: nat, key: Key)
    requires Enabled(s, LookupFind(o, key))
    ensures o in Apply(s, LookupFind(o, key)).who.ops && LooksFor(Apply(s, LookupFind(o, key)).who.ops[o], key)
  {
  }

  // Call o is under way after step i, up to step j.
  ghost predicate UnderWay(states: seq<State>, o: nat, i: nat, j: nat) {
    i < j < |states| && forall k :: i < k <= j ==> o in states[k].who.ops
  }

  lemma {:induction false} LooksForThroughout(states: seq<State>, steps: seq<Step>, o: nat, key: Key, i: nat, j: nat)
    requires IsRun(states, steps) && UnderWay(states, o, i, j) && steps[i] == LookupFind(o, key)
    ensures LooksFor(states[j].who.ops[o], key)
    decreases j - i
  {
    hide Enabled, Apply, LooksFor, Initial;
    if j == i + 1 {
      assert Enabled(states[i], steps[i]) && states[i + 1] == Apply(states[i], steps[i]);
      FindLooksFor(states[i], o, key);
    } else {
      LooksForThroughout(states, steps, o, key, i, j - 1);
      var n := j - 1;
      assert Enabled(states[n], steps[n]) && states[n + 1] == Apply(states[n], steps[n]);
      StillLooksFor(states[j - 1], steps[j - 1], o, key);
    }
  }

  lemma CheckReturns(s: State, o: nat, h: nat)
    requires Enabled(s, LookupCheck(o, h)) && h in Apply(s, LookupCheck(o, h)).who.handles
    ensures o in s.who.ops && s.who.ops[o].Refd? && Apply(s, LookupCheck(o, h)).who.handles[h].key == s.who.ops[o].key
  {
  }

  /** A Lookup that asked the table for a key in step i and returned handle h in step j: from then on up to
      its Release, the handle's slot holds that key and the value that some Insert of the run put in with
      it, although the slot may have been reused between the two steps. */
  lemma LookupReturnsKey(states: seq<State>, steps: seq<Step>, o: nat, key: Key, h: nat, i: nat, j: nat, k: nat)
    requires IsRun(states, steps) && UnderWay(states, o, i, j) && j < |steps|
    requires steps[i] == LookupFind(o, key) && steps[j] == LookupCheck(o, h) && Keeps(states, h, j + 1, k)
    ensures var handle := states[k].who.handles[h];
            && handle.key == key && Holds(states[k].slots, handle)
            && Inserted(states, steps, k, handle.occ, Some(key), Some(handle.value))
  {
    hide Enabled, Apply, FillsWith;
    LooksForThroughout(states, steps, o, key, i, j);
    assert Enabled(states[j], steps[j]) && states[j + 1] == Apply(states[j], steps[j]);
    CheckReturns(states[j], o, h);
    HandleIsStable(states, steps, h, j + 1, k);
    HandleOccupies(states, steps, h, k);
    SlotWasInserted(states, steps, k, states[k].who.handles[h].slot);
  }

  lemma HandleOccupies(states: seq<State>, steps: seq<Step>, h: nat, k: nat)
    requires IsRun(states, steps) && k < |states| && h in states[k].who.handles
    ensures states[k].who.handles[h].slot < |states[k].slots| && states[k].who.handles[h].slot !in states[k].free
  {
    hide Enabled, Apply, RefsExact, RecycleExact, TableOk, ChargeInUse, OpsInRange, IncomingOk, OccupancyOk;
    var s := states[k];
    RunKeepsInv(states, steps, k);
    HeldIsLive(s.slots, s.who, HandleToken(h), s.who.handles[h].slot);
    LiveIsNotFree(s.slots, s.free, s.who, s.who.handles[h].slot);
  }

  // ---- Progress ----

  // The next step of a section; h is a handle not in use.
  function NextOf(section: Section, h: nat): Step {
    match section
    case Unlocked => SweepLock
    case Evicting(_, _, _) => Examine
    case Evicted(_, _, _) => EraseEvicted
    case Spared(_, _, _) => ResetUsage
    case Filling(_) => Fill
    case Replacing(_, _) => FindExisting
    case Unsetting(_, _) => Unset
    case Recycling(_, _) => Recycle
    case Linking(_, _) => Link
    case Counting(_, _) => Finish(h)
    case Sweeping(_) => SweepNext
  }

  /** A section never gets stuck: the slots it goes on to are there. */
  lemma SectionContinues(s: State, h: nat)
    requires Reachable(s) && h !in s.who.handles
    ensures SectionEnabled(s, NextOf(s.who.section, h))
  {
    hide RefsExact, RecycleExact, OccupancyOk, TableOk, ChargeInUse, OpsInRange, HandlesOk;
    ReachableInv(s);
    if s.free != [] { FreeInRange(s.slots, s.free, s.who); }
  }

  lemma FreeInRange(slots: seq<Slot>, free: seq<nat>, who: Actors)
    requires RecycleExact(slots, free, who) && free != []
    ensures free[|free| - 1] < |slots|
  {
    assert DeadSlot(slots, free[|free| - 1]);
  }

  function NextOfCall(o: nat, op: Op, h: nat): Step {
    match op
    case Found(_, _) => LookupRef(o)
    case Refd(_, _) => LookupCheck(o, h)
    case Dropping(_) => DropRef(o)
    case Last(_) => RecycleLast(o)
  }

  /** A call outside the mutex waits for nothing but, to recycle a slot, the mutex. */
  lemma CallContinues(s: State, o: nat, h: nat)
    requires Reachable(s) && o in s.who.ops && h !in s.who.handles
    ensures CallEnabled(s, NextOfCall(o, s.who.ops[o], h)) || (s.who.ops[o].Last? && !s.who.section.Unlocked?)
  {
    hide RefsExact, RecycleExact, OccupancyOk, TableOk, ChargeInUse, IncomingOk, HandlesOk;
    ReachableInv(s);
    if s.who.ops[o].Dropping? { UnrefNeverUnderflows(s, o); }
  }
}
