/**
 Safety of the SuperVersion caching protocol in every interleaving.
 */
module SuperVersionSafety {
  import opened Options
  import opened SuperVersionProtocol

  /** A reference count is exactly the number of places that hold a reference: super_version_ or
      the SuperVersion an install is replacing, the slots caching it, the pointers scraped but not
      yet released, the readers and the users. */
  ghost predicate RefsExact(s: State) {
    && (forall sv :: sv in s.svs ==> s.svs[sv].refs == |Holders(s, sv)|)
    && (forall token :: Owns(s, token).Some? ==> Owns(s, token).value in s.svs)
  }

  predicate Unreachable(s: State, sv: Sv) {
    sv in s.svs && s.svs[sv].refs == 0 && !s.svs[sv].cleaned
  }

  ghost predicate HasCleaner(s: State, sv: Sv) {
    exists c :: Cleans(s, c) == Some(sv)
  }

  /** Whoever is about to clean up a SuperVersion is alone in that, and nobody holds a reference to
      it; a SuperVersion without references is cleaned up or about to be. */
  ghost predicate CleanupExact(s: State) {
    && (forall c :: Cleans(s, c).Some? ==> Unreachable(s, Cleans(s, c).value))
    && (forall c, d :: Cleans(s, c).Some? && Cleans(s, c) == Cleans(s, d) ==> c == d)
    && (forall sv :: sv in s.svs && s.svs[sv].cleaned ==> s.svs[sv].refs == 0)
    && (forall sv :: Unreachable(s, sv) ==> HasCleaner(s, sv))
  }

  predicate InCriticalSection(r: Reader) {
    r.CleaningStale? || r.Locked? || r.Fetched?
  }

  // The SuperVersion a reader got and has not yet given back.
  function Got(r: Reader): Option<Sv> {
    if r.Fetched? || r.Holding? || r.Referenced? || r.Outdated? then Some(r.sv) else None
  }

  // While an install scrapes, only the old SuperVersion is cached, in slots it has yet to reach;
  // otherwise only the current one is.
  predicate Fresh(t: Tid, sv: Sv, current: Option<Sv>, install: Install) {
    if install.Scraping? then t in install.todo && sv == install.prev else PublishedOf(current, install) == Some(sv)
  }

  /** What holds of one thread: its slot, its program counter and what was current during its call. */
  predicate ThreadOk(t: Tid, slot: Slot, r: Reader, seen: set<Sv>, current: Option<Sv>, install: Install) {
    && (r.Idle? ==> slot != InUse)
    && (Active(r) ==> !slot.Cached? && PublishedOf(current, install).Some? && PublishedOf(current, install).value in seen)
    && (r.Outdated? || r.LastOfReturned? ==> slot == Obsolete)
    && (slot.Cached? ==> Fresh(t, slot.sv, current, install))
    && (Got(r).Some? ==> Got(r).value in seen && (slot == InUse ==> Fresh(t, Got(r).value, current, install)))
    && (r.Swapped? && r.ptr.Some? && (install.Switched? || install.Scraping?) ==> r.ptr != current)
  }

  predicate ThreadOkIn(s: State, t: Tid)
    requires HasThread(s, t)
  {
    ThreadOk(t, s.slots[t], s.readers[t], s.seen[t], s.current, s.install)
  }

  ghost predicate ThreadsOk(s: State) {
    && s.slots.Keys == s.readers.Keys == s.seen.Keys
    && (forall t :: t in s.readers ==> ThreadOkIn(s, t))
    && (forall t :: t in s.readers ==> (InCriticalSection(s.readers[t]) <==> s.mutex == ByReader(t)))
    && (s.mutex.ByReader? ==> s.mutex.t in s.readers)
  }

  // The installer holds the mutex and releases only what it scraped.
  ghost predicate InstallOk(s: State) {
    && (s.mutex == ByInstaller <==> s.install != NoInstall)
    && (s.install != NoInstall ==> s.current.Some?)
    && (s.install.Switched? ==> s.install.replaced != s.current)
    && (s.install.Scraping? ==> Some(s.install.prev) != s.current && s.install.todo <= s.readers.Keys
                                && s.install.todo !! s.install.scraped.Keys
                                && forall t :: t in s.install.scraped ==> s.install.scraped[t] == s.install.prev)
  }

  // Version numbers single out the current SuperVersion.
  ghost predicate VersionsOk(svs: map<Sv, SvState>, number: nat, published: Option<Sv>) {
    && (published.Some? ==> number > 0 && published.value in svs && svs[published.value].version == number)
    && (published.None? ==> number == 0)
    && (forall sv :: sv in svs ==> svs[sv].version <= number)
    && (forall sv :: sv in svs && svs[sv].version == number && number > 0 ==> published == Some(sv))
  }

  ghost predicate GlobalOk(s: State) {
    InstallOk(s) && VersionsOk(s.svs, s.number, Published(s))
  }

  ghost predicate Inv(s: State) {
    RefsExact(s) && CleanupExact(s) && GlobalOk(s) && ThreadsOk(s)
  }

  lemma InitialInv(s: State)
    requires Initial(s)
    ensures Inv(s)
  {
  }

  // Ownership is the same but for the tokens in `lose` and `gain`, which all concern `sv`.
  ghost predicate Moves(s: State, s': State, sv: Sv, lose: set<Token>, gain: set<Token>) {
    && (forall token :: token !in lose + gain ==> Owns(s', token) == Owns(s, token))
    && (forall token :: token in lose ==> Owns(s, token) == Some(sv) && Owns(s', token) == None)
    && (forall token :: token in gain ==> Owns(s', token) == Some(sv) && Owns(s, token) == None)
  }

  lemma HoldersAfterMove(s: State, s': State, sv: Sv, lose: set<Token>, gain: set<Token>, other: Sv)
    requires Moves(s, s', sv, lose, gain)
    ensures |Holders(s', other)| == |Holders(s, other)| + if other == sv then |gain| - |lose| else 0
  {
    if other == sv {
      assert lose <= Holders(s, sv) && gain !! Holders(s, sv);
      assert Holders(s', sv) == (Holders(s, sv) - lose) + gain;
    } else {
      assert Holders(s', other) == Holders(s, other);
    }
  }

  lemma RefsAfterMove(s: State, s': State, sv: Sv, lose: set<Token>, gain: set<Token>)
    requires RefsExact(s) && Moves(s, s', sv, lose, gain) && s'.svs.Keys == s.svs.Keys
    requires gain != {} ==> sv in s.svs
    requires forall other :: other in s.svs ==>
               s'.svs[other].refs == s.svs[other].refs + if other == sv then |gain| - |lose| else 0
    ensures RefsExact(s')
  {
    forall other { HoldersAfterMove(s, s', sv, lose, gain, other); }
    forall token | Owns(s', token).Some? ensures Owns(s', token).value in s'.svs {
      assert token !in lose;
      if token !in gain { assert Owns(s', token) == Owns(s, token); }
    }
  }

  // Same counts and clean-up marks; versions may differ.
  ghost predicate SameCounts(s: State, s': State) {
    && s'.svs.Keys == s.svs.Keys
    && forall sv :: sv in s.svs ==> s'.svs[sv].refs == s.svs[sv].refs && s'.svs[sv].cleaned == s.svs[sv].cleaned
  }

  ghost predicate SameCleaners(s: State, s': State) {
    forall c :: Cleans(s', c) == Cleans(s, c)
  }

  lemma KeepCleaners(s: State, s': State)
    requires CleanupExact(s) && SameCleaners(s, s')
    requires forall sv :: sv in s.svs ==> sv in s'.svs && s'.svs[sv].cleaned == s.svs[sv].cleaned
                                          && (s'.svs[sv].refs == 0 <==> s.svs[sv].refs == 0)
    requires forall sv :: sv in s'.svs && sv !in s.svs ==> s'.svs[sv].refs > 0 && !s'.svs[sv].cleaned
    ensures CleanupExact(s')
  {
    forall sv: Sv | Unreachable(s', sv) ensures HasCleaner(s', sv) {
      assert Unreachable(s, sv);
      var c :| Cleans(s, c) == Some(sv);
      assert Cleans(s', c) == Some(sv);
    }
  }

  /** References change hands. */
  lemma AfterMove(s: State, s': State, sv: Sv, lose: set<Token>, gain: set<Token>)
    requires RefsExact(s) && CleanupExact(s)
    requires Moves(s, s', sv, lose, gain) && |lose| == |gain| && (gain != {} ==> sv in s.svs)
    requires SameCounts(s, s') && SameCleaners(s, s')
    ensures RefsExact(s') && CleanupExact(s')
  {
    RefsAfterMove(s, s', sv, lose, gain);
    KeepCleaners(s, s');
  }

  lemma HolderCounts(s: State, sv: Sv, token: Token)
    requires RefsExact(s) && Owns(s, token) == Some(sv)
    ensures sv in s.svs && s.svs[sv].refs > 0
  {
    assert token in Holders(s, sv);
  }

  /** A place that can see a reference takes another one. */
  lemma AfterAdd(s: State, s': State, sv: Sv, holder: Token, token: Token)
    requires RefsExact(s) && CleanupExact(s) && Owns(s, holder) == Some(sv)
    requires Moves(s, s', sv, {}, {token}) && SameCleaners(s, s') && s'.svs == Incremented(s.svs, sv)
    ensures RefsExact(s') && CleanupExact(s')
  {
    HolderCounts(s, sv, holder);
    RefsAfterMove(s, s', sv, {}, {token});
    KeepCleaners(s, s');
  }

  /** A place gives its reference up, and turns into the one cleaner if it was the last. */
  lemma AfterDrop(s: State, s': State, sv: Sv, lose: set<Token>, gain: set<Token>, token: Token, c: Cleaner)
    requires RefsExact(s) && CleanupExact(s) && token in lose && |lose| == |gain| + 1
    requires Moves(s, s', sv, lose, gain) && s'.svs == Decremented(s.svs, sv)
    requires forall d :: d != c ==> Cleans(s', d) == Cleans(s, d)
    requires Cleans(s, c) == None && Cleans(s', c) == (if WasLast(s, sv) then Some(sv) else None)
    ensures RefsExact(s') && CleanupExact(s')
  {
    HolderCounts(s, sv, token);
    RefsAfterMove(s, s', sv, lose, gain);
    hide Owns, Holders, Moves;
    if WasLast(s, sv) { GainCleaner(s, s', sv, c); } else { KeepCleaners(s, s'); }
  }

  lemma GainCleaner(s: State, s': State, sv: Sv, c: Cleaner)
    requires CleanupExact(s) && WasLast(s, sv) && s'.svs == Decremented(s.svs, sv)
    requires forall d :: d != c ==> Cleans(s', d) == Cleans(s, d)
    requires Cleans(s, c) == None && Cleans(s', c) == Some(sv)
    ensures CleanupExact(s')
  {
    forall other: Sv | Unreachable(s', other) ensures HasCleaner(s', other) {
      if other != sv {
        assert Unreachable(s, other);
        var d :| Cleans(s, d) == Some(other);
        assert Cleans(s', d) == Some(other);
      }
    }
    forall d | Cleans(s', d).Some? ensures Unreachable(s', Cleans(s', d).value) {
      if d != c { assert Unreachable(s, Cleans(s, d).value); }
    }
  }

  /** A cleaner cleans up. */
  lemma AfterClean(s: State, s': State, sv: Sv, c: Cleaner)
    requires RefsExact(s) && CleanupExact(s) && Cleans(s, c) == Some(sv) && Cleans(s', c) == None
    requires Moves(s, s', sv, {}, {}) && s'.svs == CleanedUp(s.svs, sv)
    requires forall d :: d != c ==> Cleans(s', d) == Cleans(s, d)
    ensures RefsExact(s') && CleanupExact(s')
  {
    RefsAfterMove(s, s', sv, {}, {});
    assert Unreachable(s, sv);
    forall other: Sv | Unreachable(s', other) ensures HasCleaner(s', other) {
      assert Unreachable(s, other);
      var d :| Cleans(s, d) == Some(other);
      assert Cleans(s', d) == Some(other);
    }
  }
}
