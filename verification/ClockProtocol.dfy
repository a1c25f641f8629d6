/**
 The CLOCK cache shard (ClockCacheShard) as a protocol between concurrent callers.

 A slot of the circular list has one atomic flag word: an in-cache bit, a usage bit and a
 reference count. Lookup and Release work on it without the mutex; Insert, Erase,
 EraseUnRefEntries, SetCapacity and the recycling of a slot run in sections under the mutex.
 A state machine over atomic steps: one step per access of a flag word or of the hash table. What
 a section does to list_, recycle_, usage_ and the fields of a slot nobody refers to is visible
 to no other thread, and belongs to the step next to it. A key stands for the pair of a key and
 its hash.
 */
module ClockProtocol {
  import opened Options

  type Key = nat
  type Value = nat

  /** One CacheHandle. `occ` numbers the entries that ever occupied a slot. */
  datatype Slot = Slot(key: Option<Key>, value: Option<Value>, charge: nat, inCache: bool, used: bool, refs: nat, occ: nat)

  // An entry passed to Insert; with `hold` the caller wants a handle to it.
  datatype Entry = Entry(key: Key, value: Value, charge: nat, hold: bool)

  datatype Goal = ForInsert(entry: Entry) | ForCapacity

  // What a section does after it is done with a slot.
  datatype Cont =
    | ToLink(entry: Entry, taken: nat)
    | ToUnlock
    | ToSweep(next: nat)
    | ToEvict(goal: Goal, newHead: nat, second: bool)

  // The section running under the mutex and where it is.
  datatype Section =
    | Unlocked
    | Evicting(goal: Goal, newHead: nat, second: bool)   // is about to examine list_[newHead]
    | Evicted(goal: Goal, newHead: nat, second: bool)    // cleared its flags, is about to erase it from the table
    | Spared(goal: Goal, newHead: nat, second: bool)     // left it in cache, is about to reset its usage bit
    | Filling(entry: Entry)                              // is about to take a slot for the entry
    | Replacing(entry: Entry, taken: nat)                // is about to look for an older entry of the key
    | Unsetting(slot: nat, after: Cont)                  // is about to reset the in-cache bit
    | Recycling(slot: nat, after: Cont)                  // is about to put the slot into recycle_
    | Linking(entry: Entry, taken: nat)                  // is about to put the entry into the table
    | Counting(entry: Entry, taken: nat)                 // is about to count its charge and to return
    | Sweeping(next: nat)

  // A call that does not have the mutex.
  datatype Op =
    | Found(key: Key, slot: nat)    // Lookup got the slot from the table, is about to Ref it
    | Refd(key: Key, slot: nat)     // Lookup has a reference, is about to compare keys
    | Dropping(slot: nat)           // is about to give its reference up
    | Last(slot: nat)               // gave the last one up, waits for the mutex to recycle the slot

  // A handle in the hands of a caller, with what the caller asked for.
  datatype Handle = Handle(slot: nat, occ: nat, key: Key, value: Value)

  // A value passed to its deleter.
  datatype Freed = Freed(occ: nat, key: Option<Key>, value: Option<Value>)

  datatype Actors = Actors(section: Section, ops: map<nat, Op>, handles: map<nat, Handle>)

  datatype State = State(
    slots: seq<Slot>,               // list_
    free: seq<nat>,                 // recycle_
    table: map<Key, nat>,           // table_
    usage: int,                     // usage_
    capacity: nat, head: nat, strict: bool,
    nextOcc: nat,
    freed: seq<Freed>,
    who: Actors)

  datatype Step =
    | LookupFind(o: nat, key: Key)
    | LookupRef(o: nat)
    | LookupCheck(o: nat, h: nat)
    | ReleaseMark(h: nat, o: nat)
    | DropRef(o: nat)
    | RecycleLast(o: nat)
    | InsertLock(entry: Entry)
    | CapacityLock(capacity: nat)
    | Examine
    | EraseEvicted
    | ResetUsage
    | Fill
    | FindExisting
    | Unset
    | Recycle
    | Link
    | Finish(h: nat)
    | EraseLock(key: Key)
    | SweepLock
    | SweepNext
    | SetStrict(strict: bool)

  function SetOp(s: State, o: nat, op: Op): State {
    s.(who := s.who.(ops := s.who.ops[o := op]))
  }

  function EndOp(s: State, o: nat): State {
    s.(who := s.who.(ops := s.who.ops - {o}))
  }

  function SetSection(s: State, section: Section): State {
    s.(who := s.who.(section := section))
  }

  function SetSlot(s: State, i: nat, slot: Slot): State
    requires i < |s.slots|
  {
    s.(slots := s.slots[i := slot])
  }

  predicate HasOp(s: State, o: nat) {
    o in s.who.ops && s.who.ops[o].slot < |s.slots|
  }

  predicate HasHandle(s: State, h: nat) {
    h in s.who.handles && s.who.handles[h].slot < |s.slots|
  }

  function LookupFindStep(s: State, o: nat, key: Key): State
    requires key in s.table
  {
    SetOp(s, o, Found(key, s.table[key]))
  }

  // The compare-and-swap loop of Ref takes effect where it succeeds, or where it reads the flags last.
  function LookupRefStep(s: State, o: nat): State
    requires HasOp(s, o) && s.who.ops[o].Found?
  {
    var Found(key, i) := s.who.ops[o];
    if s.slots[i].inCache then SetOp(SetSlot(s, i, s.slots[i].(refs := s.slots[i].refs + 1)), o, Refd(key, i))
    else EndOp(s, o)
  }

  function LookupCheckStep(s: State, o: nat, h: nat): State
    requires HasOp(s, o) && s.who.ops[o].Refd?
  {
    var Refd(key, i) := s.who.ops[o];
    if s.slots[i].key == Some(key) && s.slots[i].value.Some? then
      s.(who := s.who.(ops := s.who.ops - {o},
                       handles := s.who.handles[h := Handle(i, s.slots[i].occ, key, s.slots[i].value.value)]))
    else SetOp(s, o, Dropping(i))
  }

  function ReleaseMarkStep(s: State, h: nat, o: nat): State
    requires HasHandle(s, h)
  {
    var i := s.who.handles[h].slot;
    SetSlot(s, i, s.slots[i].(used := true)).(
      who := s.who.(ops := s.who.ops[o := Dropping(i)], handles := s.who.handles - {h}))
  }

  function DropRefStep(s: State, o: nat): State
    requires HasOp(s, o) && s.who.ops[o].Dropping? && s.slots[s.who.ops[o].slot].refs > 0
  {
    var i := s.who.ops[o].slot;
    var t := SetSlot(s, i, s.slots[i].(refs := s.slots[i].refs - 1));
    if s.slots[i].refs == 1 && !s.slots[i].inCache then SetOp(t, o, Last(i)) else EndOp(t, o)
  }

  /** RecycleHandle: its value goes to the deleter, the slot to recycle_. */
  function Recycled(s: State, i: nat): State
    requires i < |s.slots|
  {
    s.(slots := s.slots[i := s.slots[i].(key := None, value := None)],
       free := s.free + [i],
       usage := s.usage - s.slots[i].charge,
       freed := s.freed + [Freed(s.slots[i].occ, s.slots[i].key, s.slots[i].value)])
  }

  function RecycleLastStep(s: State, o: nat): State
    requires HasOp(s, o) && s.who.ops[o].Last?
  {
    EndOp(Recycled(s, s.who.ops[o].slot), o)
  }

  function ChargeFor(goal: Goal): nat {
    if goal.ForInsert? then goal.entry.charge else 0
  }

  // EvictFromCache has returned `success`.
  function AfterEvict(strict: bool, goal: Goal, success: bool): Section {
    match goal
    case ForCapacity => Unlocked
    case ForInsert(entry) => if !success && (strict || !entry.hold) then Unlocked else Filling(entry)
  }

  function BeginEvict(s: State, goal: Goal): Section {
    if s.usage == 0 then AfterEvict(s.strict, goal, ChargeFor(goal) <= s.capacity) else Evicting(goal, s.head, false)
  }

  function InsertLockStep(s: State, entry: Entry): State {
    SetSection(s, BeginEvict(s, ForInsert(entry)))
  }

  function CapacityLockStep(s: State, capacity: nat): State {
    var t := s.(capacity := capacity);
    SetSection(t, BeginEvict(t, ForCapacity))
  }

  /** One turn of the loop of EvictFromCache: its test, and the compare-and-swap of TryEvict. */
  function ExamineStep(s: State): State
    requires s.who.section.Evicting? && s.who.section.newHead < |s.slots|
  {
    var Evicting(goal, n, second) := s.who.section;
    if s.usage + ChargeFor(goal) <= s.capacity then
      SetSection(s.(head := n), AfterEvict(s.strict, goal, true))
    else if s.slots[n].inCache && !s.slots[n].used && s.slots[n].refs == 0 then
      SetSection(SetSlot(s, n, s.slots[n].(inCache := false)), Evicted(goal, n, second))
    else SetSection(s, Spared(goal, n, second))
  }

  // The next position, and whether the loop goes on.
  function Advance(s: State, goal: Goal, n: nat, second: bool): Section {
    var next := if n + 1 >= |s.slots| then 0 else n + 1;
    if next == s.head then
      if second then AfterEvict(s.strict, goal, false) else Evicting(goal, next, true)
    else Evicting(goal, next, second)
  }

  function EraseEvictedStep(s: State): State
    requires s.who.section.Evicted? && s.who.section.newHead < |s.slots|
  {
    var Evicted(goal, n, second) := s.who.section;
    var key := s.slots[n].key;
    SetSection(s.(table := s.table - (if key.Some? then {key.value} else {})), Recycling(n, ToEvict(goal, n, second)))
  }

  function ResetUsageStep(s: State): State
    requires s.who.section.Spared? && s.who.section.newHead < |s.slots|
  {
    var Spared(goal, n, second) := s.who.section;
    SetSection(SetSlot(s, n, s.slots[n].(used := false)), Advance(s, goal, n, second))
  }

  // The slot Insert takes: the last of recycle_, or one appended to the list.
  function SlotToFill(s: State): nat {
    if s.free != [] then s.free[|s.free| - 1] else |s.slots|
  }

  function NewSlot(entry: Entry, occ: nat): Slot {
    Slot(Some(entry.key), Some(entry.value), entry.charge, true, false, if entry.hold then 1 else 0, occ)
  }

  function FillStep(s: State): State
    requires s.who.section.Filling? && (s.free != [] ==> SlotToFill(s) < |s.slots|)
  {
    var entry := s.who.section.entry;
    var i := SlotToFill(s);
    var slot := NewSlot(entry, s.nextOcc);
    SetSection(s.(slots := if s.free != [] then s.slots[i := slot] else s.slots + [slot],
                  free := if s.free != [] then s.free[..|s.free| - 1] else s.free,
                  nextOcc := s.nextOcc + 1),
               Replacing(entry, i))
  }

  function FindExistingStep(s: State): State
    requires s.who.section.Replacing?
  {
    var Replacing(entry, i) := s.who.section;
    if entry.key in s.table then
      SetSection(s.(table := s.table - {entry.key}), Unsetting(s.table[entry.key], ToLink(entry, i)))
    else SetSection(s, Linking(entry, i))
  }

  function Continue(s: State, after: Cont): Section {
    match after
    case ToLink(entry, i) => Linking(entry, i)
    case ToUnlock => Unlocked
    case ToSweep(next) => Sweeping(next)
    case ToEvict(goal, n, second) => Advance(s, goal, n, second)
  }

  function UnsetStep(s: State): State
    requires s.who.section.Unsetting? && s.who.section.slot < |s.slots|
  {
    var Unsetting(i, after) := s.who.section;
    SetSection(SetSlot(s, i, s.slots[i].(inCache := false)),
               if s.slots[i].inCache && s.slots[i].refs == 0 then Recycling(i, after) else Continue(s, after))
  }

  function RecycleStep(s: State): State
    requires s.who.section.Recycling? && s.who.section.slot < |s.slots|
  {
    var Recycling(i, after) := s.who.section;
    SetSection(Recycled(s, i), Continue(s, after))
  }

  function LinkStep(s: State): State
    requires s.who.section.Linking?
  {
    var Linking(entry, i) := s.who.section;
    SetSection(s.(table := s.table[entry.key := i]), Counting(entry, i))
  }

  function FinishStep(s: State, h: nat): State
    requires s.who.section.Counting? && s.who.section.taken < |s.slots|
  {
    var Counting(entry, i) := s.who.section;
    s.(usage := s.usage + entry.charge,
       who := s.who.(section := Unlocked,
                     handles := if entry.hold then s.who.handles[h := Handle(i, s.slots[i].occ, entry.key, entry.value)]
                                else s.who.handles))
  }

  function EraseLockStep(s: State, key: Key): State
    requires key in s.table
  {
    SetSection(s.(table := s.table - {key}), Unsetting(s.table[key], ToUnlock))
  }

  function SweepLockStep(s: State): State {
    SetSection(s.(table := map[]), Sweeping(0))
  }

  function SweepNextStep(s: State): State
    requires s.who.section.Sweeping?
  {
    var n := s.who.section.next;
    SetSection(s, if n < |s.slots| then Unsetting(n, ToSweep(n + 1)) else Unlocked)
  }

  predicate CallEnabled(s: State, step: Step) {
    match step
    case LookupFind(o, key) => o !in s.who.ops && key in s.table
    case LookupRef(o) => HasOp(s, o) && s.who.ops[o].Found?
    case LookupCheck(o, h) => HasOp(s, o) && s.who.ops[o].Refd? && h !in s.who.handles
    case ReleaseMark(h, o) => HasHandle(s, h) && o !in s.who.ops
    case DropRef(o) => HasOp(s, o) && s.who.ops[o].Dropping? && s.slots[s.who.ops[o].slot].refs > 0
    case RecycleLast(o) => HasOp(s, o) && s.who.ops[o].Last? && s.who.section.Unlocked?
    case SetStrict(_) => true
    case _ => false
  }

  predicate SectionEnabled(s: State, step: Step) {
    var section := s.who.section;
    match step
    case InsertLock(_) => section.Unlocked?
    case CapacityLock(_) => section.Unlocked?
    case EraseLock(key) => section.Unlocked? && key in s.table
    case SweepLock => section.Unlocked?
    case Examine => section.Evicting? && section.newHead < |s.slots|
    case EraseEvicted => section.Evicted? && section.newHead < |s.slots|
    case ResetUsage => section.Spared? && section.newHead < |s.slots|
    case Fill => section.Filling? && (s.free != [] ==> SlotToFill(s) < |s.slots|)
    case FindExisting => section.Replacing?
    case Unset => section.Unsetting? && section.slot < |s.slots|
    case Recycle => section.Recycling? && section.slot < |s.slots|
    case Link => section.Linking?
    case Finish(h) => section.Counting? && section.taken < |s.slots| && h !in s.who.handles
    case SweepNext => section.Sweeping?
    case _ => false
  }

  predicate Enabled(s: State, step: Step) {
    CallEnabled(s, step) || SectionEnabled(s, step)
  }

  function ApplyCall(s: State, step: Step): State
    requires CallEnabled(s, step)
  {
    match step
    case LookupFind(o, key) => LookupFindStep(s, o, key)
    case LookupRef(o) => LookupRefStep(s, o)
    case LookupCheck(o, h) => LookupCheckStep(s, o, h)
    case ReleaseMark(h, o) => ReleaseMarkStep(s, h, o)
    case DropRef(o) => DropRefStep(s, o)
    case RecycleLast(o) => RecycleLastStep(s, o)
    case SetStrict(strict) => s.(strict := strict)
  }

  function ApplySection(s: State, step: Step): State
    requires SectionEnabled(s, step)
  {
    match step
    case InsertLock(entry) => InsertLockStep(s, entry)
    case CapacityLock(capacity) => CapacityLockStep(s, capacity)
    case EraseLock(key) => EraseLockStep(s, key)
    case SweepLock => SweepLockStep(s)
    case Examine => ExamineStep(s)
    case EraseEvicted => EraseEvictedStep(s)
    case ResetUsage => ResetUsageStep(s)
    case Fill => FillStep(s)
    case FindExisting => FindExistingStep(s)
    case Unset => UnsetStep(s)
    case Recycle => RecycleStep(s)
    case Link => LinkStep(s)
    case Finish(h) => FinishStep(s, h)
    case SweepNext => SweepNextStep(s)
  }

  function Apply(s: State, step: Step): State
    requires Enabled(s, step)
  {
    if CallEnabled(s, step) then ApplyCall(s, step) else ApplySection(s, step)
  }

  predicate Initial(s: State) {
    && s.slots == [] && s.free == [] && s.table == map[] && s.usage == 0 && s.head == 0
    && s.nextOcc == 0 && s.freed == [] && s.who == Actors(Unlocked, map[], map[])
  }

  ghost predicate IsRun(states: seq<State>, steps: seq<Step>) {
    && |states| == |steps| + 1 && Initial(states[0])
    && forall i :: 0 <= i < |steps| ==> Enabled(states[i], steps[i]) && states[i + 1] == Apply(states[i], steps[i])
  }
}
