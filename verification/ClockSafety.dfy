/**
 The invariant of the CLOCK cache protocol, and how each kind of step acts on its parts.
 */
module ClockSafety {
  import opened Options
  import opened ClockProtocol

  // Who may hold a reference to a slot.
  datatype Token = HandleToken(h: nat) | OpToken(o: nat) | SectionToken

  // The entry an Insert has put into a slot and not yet counted.
  datatype Incoming = Incoming(entry: Entry, slot: nat)

  function IncomingOfCont(after: Cont): Option<Incoming> {
    match after
    case ToLink(entry, i) => Some(Incoming(entry, i))
    case _ => None
  }

  function IncomingOf(section: Section): Option<Incoming> {
    match section
    case Replacing(entry, i) => Some(Incoming(entry, i))
    case Linking(entry, i) => Some(Incoming(entry, i))
    case Counting(entry, i) => Some(Incoming(entry, i))
    case Unsetting(_, after) => IncomingOfCont(after)
    case Recycling(_, after) => IncomingOfCont(after)
    case _ => None
  }

  function SectionOwns(section: Section): Option<nat> {
    var incoming := IncomingOf(section);
    if incoming.Some? && incoming.value.entry.hold then Some(incoming.value.slot) else None
  }

  /** The slot a token holds one reference to. */
  function Owns(who: Actors, token: Token): Option<nat> {
    match token
    case HandleToken(h) => if h in who.handles then Some(who.handles[h].slot) else None
    case OpToken(o) =>
      if o in who.ops && (who.ops[o].Refd? || who.ops[o].Dropping?) then Some(who.ops[o].slot) else None
    case SectionToken => SectionOwns(who.section)
  }

  function AllTokens(who: Actors): (tokens: set<Token>)
    ensures forall token :: Owns(who, token).Some? ==> token in tokens
  {
    (set h | h in who.handles :: HandleToken(h)) + (set o | o in who.ops :: OpToken(o)) + {SectionToken}
  }

  function Holders(who: Actors, i: nat): (holders: set<Token>)
    ensures forall token :: token in holders <==> Owns(who, token) == Some(i)
  {
    set token | token in AllTokens(who) && Owns(who, token) == Some(i)
  }

  /** The reference count of every slot is the number of those who hold a reference to it. */
  ghost predicate RefsExact(slots: seq<Slot>, who: Actors) {
    && (forall i :: 0 <= i < |slots| ==> slots[i].refs == |Holders(who, i)|)
    && (forall token :: Owns(who, token).Some? ==> Owns(who, token).value < |slots|)
  }

  // Who is about to recycle a slot.
  datatype Recycler = OpRecycler(o: nat) | SectionRecycler

  function SectionRecycles(section: Section): Option<nat> {
    match section
    case Recycling(i, _) => Some(i)
    case Evicted(_, n, _) => Some(n)
    case _ => None
  }

  function Recycles(who: Actors, r: Recycler): Option<nat> {
    match r
    case OpRecycler(o) => if o in who.ops && who.ops[o].Last? then Some(who.ops[o].slot) else None
    case SectionRecycler => SectionRecycles(who.section)
  }

  ghost predicate HasRecycler(who: Actors, i: nat) {
    exists r :: Recycles(who, r) == Some(i)
  }

  predicate Dead(slot: Slot) {
    !slot.inCache && slot.refs == 0
  }

  predicate NoDuplicates(s: seq<nat>) {
    forall i, j :: 0 <= i < j < |s| ==> s[i] != s[j]
  }

  /** A slot that is neither in cache nor referenced is in recycle_, once, or exactly one caller is
      about to put it there. */
  ghost predicate RecycleExact(slots: seq<Slot>, free: seq<nat>, who: Actors) {
    && (forall r :: Recycles(who, r).Some? ==> DeadSlot(slots, Recycles(who, r).value) && Recycles(who, r).value !in free)
    && (forall r, q :: Recycles(who, r).Some? && Recycles(who, r) == Recycles(who, q) ==> r == q)
    && (forall i :: i in free ==> DeadSlot(slots, i))
    && NoDuplicates(free)
    && (forall i: nat :: DeadSlot(slots, i) ==> i in free || HasRecycler(who, i))
  }

  predicate DeadSlot(slots: seq<Slot>, i: nat) {
    i < |slots| && Dead(slots[i])
  }

  predicate WasFreed(freed: seq<Freed>, occ: nat) {
    exists k :: 0 <= k < |freed| && freed[k].occ == occ
  }

  predicate Occupied(slots: seq<Slot>, free: seq<nat>, occ: nat) {
    exists i :: 0 <= i < |slots| && i !in free && slots[i].occ == occ
  }

  /** Every occupancy either still has its slot or went to the deleter, once. */
  ghost predicate OccupancyOk(slots: seq<Slot>, free: seq<nat>, nextOcc: nat, freed: seq<Freed>) {
    && (forall i :: 0 <= i < |slots| ==> slots[i].occ < nextOcc)
    && (forall i, j :: 0 <= i < j < |slots| ==> slots[i].occ != slots[j].occ)
    && (forall i :: 0 <= i < |slots| && i !in free ==> slots[i].key.Some? && slots[i].value.Some? && !WasFreed(freed, slots[i].occ))
    && (forall k :: 0 <= k < |freed| ==> freed[k].occ < nextOcc && freed[k].key.Some? && freed[k].value.Some?)
    && (forall j, k :: 0 <= j < k < |freed| ==> freed[j].occ != freed[k].occ)
    && (forall occ: nat :: occ < nextOcc ==> WasFreed(freed, occ) || Occupied(slots, free, occ))
  }

  predicate Holds(slots: seq<Slot>, handle: Handle) {
    && handle.slot < |slots|
    && slots[handle.slot].occ == handle.occ
    && slots[handle.slot].key == Some(handle.key)
    && slots[handle.slot].value == Some(handle.value)
  }

  ghost predicate HandlesOk(slots: seq<Slot>, handles: map<nat, Handle>) {
    forall h :: h in handles ==> Holds(slots, handles[h])
  }

  predicate InTable(slots: seq<Slot>, table: map<Key, nat>, i: nat)
    requires i < |slots|
  {
    slots[i].key.Some? && slots[i].key.value in table && table[slots[i].key.value] == i
  }

  function SweepFrom(section: Section): Option<nat> {
    match section
    case Sweeping(n) => Some(n)
    case Unsetting(_, ToSweep(n)) => Some(n)
    case Recycling(_, ToSweep(n)) => Some(n)
    case _ => None
  }

  // In cache, and the section has taken it out of the table or not yet put it in.
  predicate Unlinked(section: Section, i: nat) {
    || (IncomingOf(section).Some? && IncomingOf(section).value.slot == i && !section.Counting?)
    || (section.Unsetting? && section.slot == i)
    || (SweepFrom(section).Some? && SweepFrom(section).value <= i)
  }

  /** The table maps every key to the slot in cache that has it. */
  ghost predicate TableOk(slots: seq<Slot>, table: map<Key, nat>, section: Section) {
    && (forall key :: key in table ==>
          && table[key] < |slots| && slots[table[key]].key == Some(key)
          && (slots[table[key]].inCache || (section.Evicted? && section.newHead == table[key])))
    && (forall i :: 0 <= i < |slots| && slots[i].inCache ==> InTable(slots, table, i) || Unlinked(section, i))
    && (section.Evicted? && section.newHead < |slots| ==> InTable(slots, table, section.newHead))
    && (IncomingOf(section).Some? && !section.Replacing? && !section.Counting? ==>
          IncomingOf(section).value.entry.key !in table)
    && (IncomingOf(section).Some? && !section.Counting? ==> NotLinked(table, IncomingOf(section).value.slot))
    && (section.Unsetting? ==> NotLinked(table, section.slot))
    && (SweepFrom(section).Some? ==> table == map[])
  }

  predicate NotLinked(table: map<Key, nat>, i: nat) {
    forall key :: key in table ==> table[key] != i
  }

  ghost predicate IncomingOk(slots: seq<Slot>, section: Section) {
    IncomingOf(section).Some? ==>
      var Incoming(entry, i) := IncomingOf(section).value;
      && i < |slots| && slots[i].inCache && slots[i].charge == entry.charge
      && slots[i].key == Some(entry.key) && slots[i].value == Some(entry.value)
      && (section.Unsetting? ==> section.slot != i)
  }

  // Charges of the slots in use.
  function ChargeInUse(slots: seq<Slot>, free: seq<nat>): nat {
    if slots == [] then 0
    else ChargeInUse(slots[..|slots| - 1], free) + if |slots| - 1 in free then 0 else slots[|slots| - 1].charge
  }

  predicate UsageOk(slots: seq<Slot>, free: seq<nat>, usage: int, incoming: Option<Incoming>) {
    usage == ChargeInUse(slots, free) - if incoming.Some? then incoming.value.entry.charge else 0
  }

  predicate ContInRange(after: Cont, n: nat) {
    match after
    case ToEvict(_, newHead, _) => newHead < n
    case _ => true
  }

  predicate SectionInRange(section: Section, n: nat) {
    match section
    case Evicting(_, newHead, _) => newHead < n
    case Evicted(_, newHead, _) => newHead < n
    case Spared(_, newHead, _) => newHead < n
    case Unsetting(i, after) => i < n && ContInRange(after, n)
    case Recycling(i, after) => i < n && ContInRange(after, n)
    case _ => true
  }

  ghost predicate OpsInRange(ops: map<nat, Op>, n: nat) {
    forall o :: o in ops ==> ops[o].slot < n
  }

  ghost predicate Inv(s: State) {
    && RefsExact(s.slots, s.who)
    && RecycleExact(s.slots, s.free, s.who)
    && OccupancyOk(s.slots, s.free, s.nextOcc, s.freed)
    && HandlesOk(s.slots, s.who.handles)
    && TableOk(s.slots, s.table, s.who.section)
    && IncomingOk(s.slots, s.who.section)
    && UsageOk(s.slots, s.free, s.usage, IncomingOf(s.who.section))
    && SectionInRange(s.who.section, |s.slots|) && OpsInRange(s.who.ops, |s.slots|)
    && (s.head < |s.slots| || s.head == 0)
  }

  lemma InitialInv(s: State)
    requires Initial(s)
    ensures Inv(s)
  {
  }

  // ---- Changes of the flags of one slot ----

  // Slot i may have other flags; its contents stay.
  predicate FlagsOnly(slots: seq<Slot>, slots': seq<Slot>, i: nat) {
    && i < |slots| && |slots'| == |slots|
    && slots' == slots[i := slots'[i]]
    && slots'[i] == slots[i].(inCache := slots'[i].inCache, used := slots'[i].used, refs := slots'[i].refs)
  }

  lemma FlagsKeepContents(slots: seq<Slot>, slots': seq<Slot>, i: nat, free: seq<nat>, nextOcc: nat, freed: seq<Freed>)
    requires FlagsOnly(slots, slots', i) && OccupancyOk(slots, free, nextOcc, freed)
    ensures OccupancyOk(slots', free, nextOcc, freed)
  {
    forall occ: nat | occ < nextOcc ensures WasFreed(freed, occ) || Occupied(slots', free, occ) {
      if Occupied(slots, free, occ) {
        var j :| 0 <= j < |slots| && j !in free && slots[j].occ == occ;
        assert slots'[j].occ == occ;
      }
    }
  }

  lemma FlagsKeepHandles(slots: seq<Slot>, slots': seq<Slot>, i: nat, handles: map<nat, Handle>)
    requires FlagsOnly(slots, slots', i) && HandlesOk(slots, handles)
    ensures HandlesOk(slots', handles)
  {
  }

  lemma {:induction false} SameCharges(slots: seq<Slot>, slots': seq<Slot>, free: seq<nat>)
    requires |slots'| == |slots| && forall i :: 0 <= i < |slots| ==> slots'[i].charge == slots[i].charge
    ensures ChargeInUse(slots', free) == ChargeInUse(slots, free)
  {
    if slots != [] { SameCharges(slots[..|slots| - 1], slots'[..|slots| - 1], free); }
  }

  lemma {:induction false} FreeOne(slots: seq<Slot>, free: seq<nat>, i: nat)
    requires i !in free
    ensures ChargeInUse(slots, free + [i]) + (if i < |slots| then slots[i].charge else 0) == ChargeInUse(slots, free)
  {
    if slots != [] { FreeOne(slots[..|slots| - 1], free, i); }
  }

  lemma {:induction false} SetCharge(slots: seq<Slot>, free: seq<nat>, i: nat, slot: Slot)
    requires i < |slots| && i in free
    ensures ChargeInUse(slots[i := slot], free) == ChargeInUse(slots, free)
  {
    var last := |slots| - 1;
    if i < last {
      SetCharge(slots[..last], free, i, slot);
      assert slots[i := slot][..last] == slots[..last][i := slot];
    } else {
      assert slots[i := slot][..last] == slots[..last];
    }
  }

  // ---- References ----

  // Ownership is the same but for the tokens in `lose` and `gain`, which all concern slot i.
  ghost predicate Moves(who: Actors, who': Actors, i: nat, lose: set<Token>, gain: set<Token>) {
    && (forall token :: token !in lose + gain ==> Owns(who', token) == Owns(who, token))
    && (forall token :: token in lose ==> Owns(who, token) == Some(i) && Owns(who', token) == None)
    && (forall token :: token in gain ==> Owns(who', token) == Some(i) && Owns(who, token) == None)
  }

  function RefsAt(slots: seq<Slot>, i: nat): nat {
    if i < |slots| then slots[i].refs else 0
  }

  lemma HoldersAfter(who: Actors, who': Actors, i: nat, lose: set<Token>, gain: set<Token>, j: nat)
    requires Moves(who, who', i, lose, gain)
    ensures |Holders(who', j)| == |Holders(who, j)| + if j == i then |gain| - |lose| else 0
  {
    hide Owns, Holders;
    if j == i {
      assert lose <= Holders(who, i) && gain !! Holders(who, i);
      assert Holders(who', i) == Holders(who, i) - lose + gain;
    } else {
      assert Holders(who', j) == Holders(who, j);
    }
  }

  lemma RefsAfter(slots: seq<Slot>, slots': seq<Slot>, who: Actors, who': Actors, i: nat, lose: set<Token>, gain: set<Token>)
    requires RefsExact(slots, who) && Moves(who, who', i, lose, gain) && |slots| <= |slots'| && (gain != {} ==> i < |slots'|)
    requires forall j :: 0 <= j < |slots'| ==>
               slots'[j].refs == RefsAt(slots, j) + if j == i then |gain| - |lose| else 0
    ensures RefsExact(slots', who')
  {
    hide Owns, Holders;
    forall j | 0 <= j < |slots'| ensures slots'[j].refs == |Holders(who', j)| {
      HoldersAfter(who, who', i, lose, gain, j);
      if j >= |slots| { assert Holders(who, j) == {}; }
    }
    forall token | Owns(who', token).Some? ensures Owns(who', token).value < |slots'| {
      if token !in gain { assert token !in lose && Owns(who', token) == Owns(who, token); }
    }
  }

  lemma HeldIsLive(slots: seq<Slot>, who: Actors, token: Token, i: nat)
    requires RefsExact(slots, who) && Owns(who, token) == Some(i)
    ensures i < |slots| && slots[i].refs > 0
  {
    hide Owns;
    assert token in Holders(who, i);
  }

  // ---- Recycling ----

  ghost predicate SameRecyclers(who: Actors, who': Actors) {
    forall r :: Recycles(who', r) == Recycles(who, r)
  }

  ghost predicate SameDead(slots: seq<Slot>, slots': seq<Slot>) {
    forall i: nat :: DeadSlot(slots', i) <==> DeadSlot(slots, i)
  }

  lemma RecycleSame(slots: seq<Slot>, slots': seq<Slot>, free: seq<nat>, who: Actors, who': Actors)
    requires RecycleExact(slots, free, who) && SameDead(slots, slots') && SameRecyclers(who, who')
    ensures RecycleExact(slots', free, who')
  {
    hide DeadSlot, Recycles;
    forall i: nat | DeadSlot(slots', i) ensures i in free || HasRecycler(who', i) {
      if i !in free {
        var r :| Recycles(who, r) == Some(i);
        assert Recycles(who', r) == Some(i);
      }
    }
  }

  // Slot i dies, and r is the one to recycle it.
  lemma RecycleGain(slots: seq<Slot>, slots': seq<Slot>, free: seq<nat>, who: Actors, who': Actors, i: nat, r: Recycler)
    requires RecycleExact(slots, free, who) && !DeadSlot(slots, i)
    requires forall j: nat :: DeadSlot(slots', j) <==> DeadSlot(slots, j) || j == i
    requires forall q :: q != r ==> Recycles(who', q) == Recycles(who, q)
    requires Recycles(who, r) == None && Recycles(who', r) == Some(i)
    ensures RecycleExact(slots', free, who')
  {
    hide DeadSlot, Recycles;
    forall j: nat | DeadSlot(slots', j) ensures j in free || HasRecycler(who', j) {
      if j !in free && j != i {
        var q :| Recycles(who, q) == Some(j);
        assert Recycles(who', q) == Some(j);
      }
    }
  }

  // r puts slot i into recycle_.
  lemma RecycleDone(slots: seq<Slot>, slots': seq<Slot>, free: seq<nat>, who: Actors, who': Actors, i: nat, r: Recycler)
    requires RecycleExact(slots, free, who) && SameDead(slots, slots')
    requires forall q :: q != r ==> Recycles(who', q) == Recycles(who, q)
    requires Recycles(who, r) == Some(i) && Recycles(who', r) == None
    ensures RecycleExact(slots', free + [i], who')
  {
    hide DeadSlot, Recycles;
    forall j: nat | DeadSlot(slots', j) ensures j in free + [i] || HasRecycler(who', j) {
      if j !in free && j != i {
        var q :| Recycles(who, q) == Some(j);
        assert Recycles(who', q) == Some(j);
      }
    }
  }

  // A live entry takes slot i, the last of recycle_.
  lemma RecycleTake(slots: seq<Slot>, slots': seq<Slot>, free: seq<nat>, who: Actors, who': Actors, i: nat)
    requires RecycleExact(slots, free + [i], who) && SameRecyclers(who, who')
    requires forall j: nat :: DeadSlot(slots', j) <==> DeadSlot(slots, j) && j != i
    ensures RecycleExact(slots', free, who')
  {
    hide DeadSlot, Recycles;
    assert i in free + [i];
    forall j | j in free ensures DeadSlot(slots', j) {
      var k :| 0 <= k < |free| && free[k] == j;
      assert (free + [i])[k] == j && (free + [i])[|free|] == i && j in free + [i];
    }
    assert NoDuplicates(free) by {
      forall j, k | 0 <= j < k < |free| ensures free[j] != free[k] { assert (free + [i])[j] == free[j] && (free + [i])[k] == free[k]; }
    }
    forall r | Recycles(who', r).Some?
      ensures DeadSlot(slots', Recycles(who', r).value) && Recycles(who', r).value !in free
    {
      assert Recycles(who, r).value !in free + [i];
    }
    forall j: nat | DeadSlot(slots', j) ensures j in free || HasRecycler(who', j) {
      if j !in free {
        var q :| Recycles(who, q) == Some(j);
        assert Recycles(who', q) == Some(j);
      }
    }
  }

  // ---- Contents ----

  lemma OccupancyAfterRecycle(slots: seq<Slot>, free: seq<nat>, nextOcc: nat, freed: seq<Freed>, i: nat)
    requires OccupancyOk(slots, free, nextOcc, freed) && i < |slots| && i !in free
    ensures OccupancyOk(slots[i := slots[i].(key := None, value := None)], free + [i], nextOcc,
                        freed + [Freed(slots[i].occ, slots[i].key, slots[i].value)])
  {
    var slots' := slots[i := slots[i].(key := None, value := None)];
    var freed' := freed + [Freed(slots[i].occ, slots[i].key, slots[i].value)];
    assert freed'[|freed|].occ == slots[i].occ;
    FreedGrows(freed, freed'[|freed|]);
    hide WasFreed;
    forall occ: nat | occ < nextOcc ensures WasFreed(freed', occ) || Occupied(slots', free + [i], occ) {
      if !WasFreed(freed', occ) {
        var j :| 0 <= j < |slots| && j !in free && slots[j].occ == occ;
        assert slots'[j].occ == occ && j !in free + [i];
      }
    }
    forall k | 0 <= k < |freed| ensures freed[k].occ != slots[i].occ { FreedAt(freed, k); }
  }

  lemma FreedGrows(freed: seq<Freed>, entry: Freed)
    ensures forall occ :: WasFreed(freed + [entry], occ) <==> WasFreed(freed, occ) || occ == entry.occ
  {
    forall occ ensures WasFreed(freed + [entry], occ) <==> WasFreed(freed, occ) || occ == entry.occ {
      if WasFreed(freed, occ) {
        var k :| 0 <= k < |freed| && freed[k].occ == occ;
        assert (freed + [entry])[k].occ == occ;
      }
      assert (freed + [entry])[|freed|] == entry;
    }
  }

  lemma FreedAt(freed: seq<Freed>, k: nat)
    requires k < |freed|
    ensures WasFreed(freed, freed[k].occ)
  {
  }

  // A new occupancy takes slot i, which was free or is new.
  lemma OccupancyAfterFill(slots: seq<Slot>, slots': seq<Slot>, free: seq<nat>, free': seq<nat>, nextOcc: nat,
                           freed: seq<Freed>, i: nat)
    requires OccupancyOk(slots, free, nextOcc, freed) && i < |slots'| && |slots| <= |slots'| <= |slots| + 1
    requires forall j :: 0 <= j < |slots'| && j != i ==> j < |slots| && slots'[j] == slots[j]
    requires slots'[i].occ == nextOcc && slots'[i].key.Some? && slots'[i].value.Some?
    requires i < |slots| ==> i in free
    requires i !in free' && forall j: nat :: j != i ==> (j in free' <==> j in free)
    ensures OccupancyOk(slots', free', nextOcc + 1, freed)
  {
    hide WasFreed;
    forall k | 0 <= k < |freed| ensures freed[k].occ != nextOcc {}
    assert !WasFreed(freed, nextOcc) by { NotFreed(freed, nextOcc); }
    forall occ: nat | occ < nextOcc + 1 ensures WasFreed(freed, occ) || Occupied(slots', free', occ) {
      if occ == nextOcc {
        assert slots'[i].occ == occ;
      } else if !WasFreed(freed, occ) {
        var j :| 0 <= j < |slots| && j !in free && slots[j].occ == occ;
        assert slots'[j].occ == occ;
      }
    }
  }

  lemma NotFreed(freed: seq<Freed>, occ: nat)
    requires forall k :: 0 <= k < |freed| ==> freed[k].occ != occ
    ensures !WasFreed(freed, occ)
  {
  }

  lemma HandlesElsewhere(slots: seq<Slot>, slots': seq<Slot>, handles: map<nat, Handle>, i: nat)
    requires HandlesOk(slots, handles) && |slots| <= |slots'|
    requires forall j :: 0 <= j < |slots| && j != i ==> slots'[j] == slots[j]
    requires forall h :: h in handles ==> handles[h].slot != i
    ensures HandlesOk(slots', handles)
  {
  }

  lemma DeadNotHeld(slots: seq<Slot>, who: Actors, i: nat)
    requires RefsExact(slots, who) && (i < |slots| ==> Dead(slots[i]))
    ensures forall h :: h in who.handles ==> who.handles[h].slot != i
    ensures forall token :: Owns(who, token) != Some(i)
  {
    forall token ensures Owns(who, token) != Some(i) {
      if Owns(who, token) == Some(i) { HeldIsLive(slots, who, token, i); }
    }
    forall h | h in who.handles ensures who.handles[h].slot != i { assert Owns(who, HandleToken(h)) != Some(i); }
  }

  // ---- The table ----

  predicate SameKeys(slots: seq<Slot>, slots': seq<Slot>) {
    |slots'| == |slots| && forall i :: 0 <= i < |slots| ==> slots'[i].key == slots[i].key && slots'[i].inCache == slots[i].inCache
  }

  lemma TableSame(slots: seq<Slot>, slots': seq<Slot>, table: map<Key, nat>, section: Section)
    requires TableOk(slots, table, section) && SameKeys(slots, slots')
    ensures TableOk(slots', table, section)
  {
  }

  // Sections in which the table has exactly the slots in cache.
  predicate Settled(section: Section) {
    match section
    case Unlocked => true
    case Evicting(_, _, _) => true
    case Spared(_, _, _) => true
    case Filling(_) => true
    case Counting(_, _) => true
    case Recycling(_, ToUnlock) => true
    case Recycling(_, ToEvict(_, _, _)) => true
    case _ => false
  }

  lemma TableSettled(slots: seq<Slot>, table: map<Key, nat>, section: Section, section': Section)
    requires TableOk(slots, table, section) && Settled(section) && Settled(section')
    ensures TableOk(slots, table, section')
  {
  }

  lemma TableAfterEvict(slots: seq<Slot>, table: map<Key, nat>, goal: Goal, n: nat, second: bool)
    requires TableOk(slots, table, Evicting(goal, n, second)) && n < |slots| && slots[n].inCache
    ensures TableOk(slots[n := slots[n].(inCache := false)], table, Evicted(goal, n, second))
  {
  }

  lemma TableAfterErase(slots: seq<Slot>, table: map<Key, nat>, goal: Goal, n: nat, second: bool)
    requires TableOk(slots, table, Evicted(goal, n, second)) && n < |slots| && !slots[n].inCache
    ensures slots[n].key.Some? && slots[n].key.value in table
    ensures TableOk(slots, table - {slots[n].key.value}, Recycling(n, ToEvict(goal, n, second)))
  {
  }

  lemma TableAfterFill(slots: seq<Slot>, slots': seq<Slot>, table: map<Key, nat>, entry: Entry, i: nat)
    requires TableOk(slots, table, Filling(entry)) && i < |slots'| && |slots| <= |slots'| <= |slots| + 1
    requires forall j :: 0 <= j < |slots'| && j != i ==> j < |slots| && slots'[j] == slots[j]
    requires i < |slots| ==> !slots[i].inCache
    ensures TableOk(slots', table, Replacing(entry, i))
  {
  }

  lemma TableAfterFind(slots: seq<Slot>, table: map<Key, nat>, entry: Entry, i: nat)
    requires TableOk(slots, table, Replacing(entry, i)) && entry.key in table
    ensures TableOk(slots, table - {entry.key}, Unsetting(table[entry.key], ToLink(entry, i))) && table[entry.key] != i
  {
  }

  lemma TableAfterMiss(slots: seq<Slot>, table: map<Key, nat>, entry: Entry, i: nat)
    requires TableOk(slots, table, Replacing(entry, i)) && entry.key !in table
    ensures TableOk(slots, table, Linking(entry, i))
  {
  }

  lemma TableAfterUnset(slots: seq<Slot>, table: map<Key, nat>, i: nat, after: Cont)
    requires TableOk(slots, table, Unsetting(i, after)) && i < |slots|
    ensures TableOk(slots[i := slots[i].(inCache := false)], table, Recycling(i, after))
  {
  }

  lemma TableAfterRecycle(slots: seq<Slot>, slots': seq<Slot>, table: map<Key, nat>, section: Section, i: nat)
    requires TableOk(slots, table, section) && !section.Evicted? && i < |slots| == |slots'| && !slots[i].inCache && !slots'[i].inCache
    requires forall j :: 0 <= j < |slots| && j != i ==> slots'[j] == slots[j]
    ensures TableOk(slots', table, section)
  {
  }

  // A section that is done with a slot goes on to what comes after.
  lemma TableContinues(slots: seq<Slot>, table: map<Key, nat>, i: nat, after: Cont, section': Section)
    requires TableOk(slots, table, Recycling(i, after)) && (i < |slots| ==> !slots[i].inCache)
    requires match after
             case ToLink(entry, j) => section' == Linking(entry, j)
             case ToSweep(n) => section' == Sweeping(n)
             case _ => Settled(section')
    ensures TableOk(slots, table, section')
  {
  }

  lemma TableAfterLink(slots: seq<Slot>, table: map<Key, nat>, entry: Entry, i: nat)
    requires TableOk(slots, table, Linking(entry, i)) && IncomingOk(slots, Linking(entry, i))
    ensures TableOk(slots, table[entry.key := i], Counting(entry, i))
  {
  }

  lemma TableAfterLookup(slots: seq<Slot>, table: map<Key, nat>, key: Key)
    requires TableOk(slots, table, Unlocked) && key in table
    ensures TableOk(slots, table - {key}, Unsetting(table[key], ToUnlock))
  {
  }

  lemma TableSwept(slots: seq<Slot>, table: map<Key, nat>, n: nat)
    requires TableOk(slots, table, Sweeping(n))
    ensures if n < |slots| then TableOk(slots, table, Unsetting(n, ToSweep(n + 1))) else TableOk(slots, table, Unlocked)
  {
  }
}
