/**
 Every step of the SuperVersion protocol keeps the invariant.
 */
module SuperVersionSteps {
  import opened Options
  import opened SuperVersionProtocol
  import opened SuperVersionSafety

  // Reference counts and clean-up marks may change, nothing else about SuperVersions.
  predicate CountChange(svs: map<Sv, SvState>, svs': map<Sv, SvState>, sv: Sv) {
    svs' == svs || svs' == Incremented(svs, sv) || svs' == Decremented(svs, sv) || svs' == CleanedUp(svs, sv)
  }

  predicate SameInstall(s: State, s': State) {
    s'.install == s.install && s'.current == s.current && s'.number == s.number
  }

  predicate MutexChange(s: State, s': State, t: Tid) {
    s'.mutex == s.mutex || (s.mutex == Free && s'.mutex == ByReader(t)) || (s.mutex == ByReader(t) && s'.mutex == Free)
  }

  lemma VersionsAfterCountChange(svs: map<Sv, SvState>, svs': map<Sv, SvState>, sv: Sv, number: nat, published: Option<Sv>)
    requires VersionsOk(svs, number, published) && CountChange(svs, svs', sv)
    ensures VersionsOk(svs', number, published)
  {
  }

  /** A step of thread t that leaves the install alone. */
  lemma ThreadStep(s: State, s': State, t: Tid, sv: Sv)
    requires GlobalOk(s) && ThreadsOk(s) && HasThread(s, t) && t in s'.readers
    requires SameInstall(s, s') && CountChange(s.svs, s'.svs, sv) && MutexChange(s, s', t)
    requires s'.readers == s.readers[t := s'.readers[t]]
    requires s'.slots == s.slots || (t in s'.slots && s'.slots == s.slots[t := s'.slots[t]])
    requires s'.seen == s.seen || (t in s'.seen && s'.seen == s.seen[t := s'.seen[t]])
    requires ThreadOkIn(s', t) && (InCriticalSection(s'.readers[t]) <==> s'.mutex == ByReader(t))
    ensures GlobalOk(s') && ThreadsOk(s')
  {
    hide VersionsOk, ThreadOk, CountChange, Incremented, Decremented, CleanedUp;
    VersionsAfterCountChange(s.svs, s'.svs, sv, s.number, Published(s));
    forall u | u in s'.readers
      ensures ThreadOkIn(s', u) && (InCriticalSection(s'.readers[u]) <==> s'.mutex == ByReader(u))
    {
      if u != t { assert ThreadOkIn(s, u); }
    }
  }

  /** A step of a user, or of a cleaner outside the readers. */
  lemma OutsideStep(s: State, s': State, sv: Sv)
    requires GlobalOk(s) && ThreadsOk(s) && SameInstall(s, s') && CountChange(s.svs, s'.svs, sv)
    requires s'.readers == s.readers && s'.slots == s.slots && s'.seen == s.seen && s'.mutex == s.mutex
    ensures GlobalOk(s') && ThreadsOk(s')
  {
    VersionsAfterCountChange(s.svs, s'.svs, sv, s.number, Published(s));
    forall u | u in s'.readers ensures ThreadOkIn(s', u) { assert ThreadOkIn(s, u); }
  }

  lemma SwapCounts(s: State, t: Tid)
    requires RefsExact(s) && CleanupExact(s) && HasThread(s, t) && s.readers[t].Idle? && Published(s).Some?
    ensures var s' := SwapStep(s, t); RefsExact(s') && CleanupExact(s')
  {
    hide RefsExact, CleanupExact, Holders, AllTokens;
    var s' := SwapStep(s, t);
    if s.slots[t].Cached? {
      OwnedExists(s, SlotToken(t));
      AfterMove(s, s', s.slots[t].sv, {SlotToken(t)}, {LocalToken(t)});
    } else {
      AfterMove(s, s', 0, {}, {});
    }
  }

  lemma OwnedExists(s: State, token: Token)
    requires RefsExact(s) && Owns(s, token).Some?
    ensures Owns(s, token).value in s.svs
  {
  }

  lemma SwapThreads(s: State, t: Tid)
    requires GlobalOk(s) && ThreadsOk(s) && HasThread(s, t) && s.readers[t].Idle? && Published(s).Some?
    ensures var s' := SwapStep(s, t); GlobalOk(s') && ThreadsOk(s')
  {
    var s' := SwapStep(s, t);
    assert ThreadOkIn(s, t);
    hide ThreadsOk, GlobalOk;
    ThreadStep(s, s', t, 0);
  }

  lemma CheckCounts(s: State, t: Tid)
    requires RefsExact(s) && CleanupExact(s) && HasThread(s, t) && s.readers[t].Swapped? && (s.readers[t].ptr.Some? ==> s.readers[t].ptr.value in s.svs)
    ensures var s' := CheckStep(s, t); RefsExact(s') && CleanupExact(s')
  {
    hide RefsExact, CleanupExact, Holders, AllTokens;
    var s' := CheckStep(s, t);
    AfterMove(s, s', 0, {}, {});
  }

  lemma CheckThreads(s: State, t: Tid)
    requires GlobalOk(s) && ThreadsOk(s) && HasThread(s, t) && s.readers[t].Swapped? && (s.readers[t].ptr.Some? ==> s.readers[t].ptr.value in s.svs)
    ensures var s' := CheckStep(s, t); GlobalOk(s') && ThreadsOk(s')
  {
    var s' := CheckStep(s, t);
    assert ThreadOkIn(s, t);
    assert s.readers[t].ptr.Some? && s.svs[s.readers[t].ptr.value].version == s.number ==> Published(s) == s.readers[t].ptr;
    hide ThreadsOk, GlobalOk;
    ThreadStep(s, s', t, 0);
  }

  lemma UnrefStaleCounts(s: State, t: Tid)
    requires RefsExact(s) && CleanupExact(s) && HasThread(s, t) && s.readers[t].Stale?
    ensures var s' := UnrefStaleStep(s, t); RefsExact(s') && CleanupExact(s')
  {
    hide RefsExact, CleanupExact, Holders, AllTokens;
    var s' := UnrefStaleStep(s, t);
    AfterDrop(s, s', s.readers[t].sv, {LocalToken(t)}, {}, LocalToken(t), ReaderCleaner(t));
  }

  lemma UnrefStaleThreads(s: State, t: Tid)
    requires GlobalOk(s) && ThreadsOk(s) && HasThread(s, t) && s.readers[t].Stale?
    ensures var s' := UnrefStaleStep(s, t); GlobalOk(s') && ThreadsOk(s')
  {
    var s' := UnrefStaleStep(s, t);
    assert ThreadOkIn(s, t);
    hide ThreadsOk, GlobalOk;
    ThreadStep(s, s', t, s.readers[t].sv);
  }

  lemma LockCounts(s: State, t: Tid)
    requires RefsExact(s) && CleanupExact(s) && HasThread(s, t) && (s.readers[t].Waiting? || s.readers[t].LastOfStale?) && s.mutex == Free
    ensures var s' := LockStep(s, t); RefsExact(s') && CleanupExact(s')
  {
    hide RefsExact, CleanupExact, Holders, AllTokens;
    var s' := LockStep(s, t);
    AfterMove(s, s', 0, {}, {});
  }

  lemma LockThreads(s: State, t: Tid)
    requires GlobalOk(s) && ThreadsOk(s) && HasThread(s, t) && (s.readers[t].Waiting? || s.readers[t].LastOfStale?) && s.mutex == Free
    ensures var s' := LockStep(s, t); GlobalOk(s') && ThreadsOk(s')
  {
    var s' := LockStep(s, t);
    assert ThreadOkIn(s, t);
    hide ThreadsOk, GlobalOk;
    ThreadStep(s, s', t, 0);
  }

  lemma CleanStaleCounts(s: State, t: Tid)
    requires RefsExact(s) && CleanupExact(s) && HasThread(s, t) && s.readers[t].CleaningStale?
    ensures var s' := CleanStaleStep(s, t); RefsExact(s') && CleanupExact(s')
  {
    hide RefsExact, CleanupExact, Holders, AllTokens;
    var s' := CleanStaleStep(s, t);
    AfterClean(s, s', s.readers[t].sv, ReaderCleaner(t));
  }

  lemma CleanStaleThreads(s: State, t: Tid)
    requires GlobalOk(s) && ThreadsOk(s) && HasThread(s, t) && s.readers[t].CleaningStale?
    ensures var s' := CleanStaleStep(s, t); GlobalOk(s') && ThreadsOk(s')
  {
    var s' := CleanStaleStep(s, t);
    assert ThreadOkIn(s, t);
    assert s.mutex == ByReader(t);
    hide ThreadsOk, GlobalOk;
    ThreadStep(s, s', t, s.readers[t].sv);
  }

  lemma RefCurrentCounts(s: State, t: Tid)
    requires RefsExact(s) && CleanupExact(s) && HasThread(s, t) && s.readers[t].Locked? && s.current.Some?
    ensures var s' := RefCurrentStep(s, t); RefsExact(s') && CleanupExact(s')
  {
    hide RefsExact, CleanupExact, Holders, AllTokens;
    var s' := RefCurrentStep(s, t);
    AfterAdd(s, s', s.current.value, CurrentToken, LocalToken(t));
  }

  lemma RefCurrentThreads(s: State, t: Tid)
    requires GlobalOk(s) && ThreadsOk(s) && HasThread(s, t) && s.readers[t].Locked? && s.current.Some?
    ensures var s' := RefCurrentStep(s, t); GlobalOk(s') && ThreadsOk(s')
  {
    var s' := RefCurrentStep(s, t);
    assert ThreadOkIn(s, t);
    assert s.mutex == ByReader(t) && Published(s) == s.current;
    hide ThreadsOk, GlobalOk;
    ThreadStep(s, s', t, s.current.value);
  }

  lemma UnlockCounts(s: State, t: Tid)
    requires RefsExact(s) && CleanupExact(s) && HasThread(s, t) && s.readers[t].Fetched?
    ensures var s' := UnlockStep(s, t); RefsExact(s') && CleanupExact(s')
  {
    hide RefsExact, CleanupExact, Holders, AllTokens;
    var s' := UnlockStep(s, t);
    AfterMove(s, s', 0, {}, {});
  }

  lemma UnlockThreads(s: State, t: Tid)
    requires GlobalOk(s) && ThreadsOk(s) && HasThread(s, t) && s.readers[t].Fetched?
    ensures var s' := UnlockStep(s, t); GlobalOk(s') && ThreadsOk(s')
  {
    var s' := UnlockStep(s, t);
    assert ThreadOkIn(s, t);
    assert s.mutex == ByReader(t);
    hide ThreadsOk, GlobalOk;
    ThreadStep(s, s', t, 0);
  }

  lemma TakeRefCounts(s: State, t: Tid)
    requires RefsExact(s) && CleanupExact(s) && HasThread(s, t) && s.readers[t].Holding?
    ensures var s' := TakeRefStep(s, t); RefsExact(s') && CleanupExact(s')
  {
    hide RefsExact, CleanupExact, Holders, AllTokens;
    var s' := TakeRefStep(s, t);
    AfterAdd(s, s', s.readers[t].sv, LocalToken(t), ExtraToken(t));
  }

  lemma TakeRefThreads(s: State, t: Tid)
    requires GlobalOk(s) && ThreadsOk(s) && HasThread(s, t) && s.readers[t].Holding?
    ensures var s' := TakeRefStep(s, t); GlobalOk(s') && ThreadsOk(s')
  {
    var s' := TakeRefStep(s, t);
    assert ThreadOkIn(s, t);
    hide ThreadsOk, GlobalOk;
    ThreadStep(s, s', t, s.readers[t].sv);
  }

  lemma CompareAndSwapCounts(s: State, t: Tid, user: nat)
    requires RefsExact(s) && CleanupExact(s) && HasThread(s, t) && user !in s.users && !s.slots[t].Cached?
    requires s.readers[t].Holding? || s.readers[t].Referenced?
    ensures var s' := CompareAndSwapStep(s, t, user); RefsExact(s') && CleanupExact(s')
  {
    hide RefsExact, CleanupExact, Holders, AllTokens;
    OwnedExists(s, LocalToken(t));
    if s.slots[t] != InUse {
      AfterMove(s, CompareAndSwapStep(s, t, user), 0, {}, {});
    } else if s.readers[t].Referenced? {
      ReturnReferencedCounts(s, t, user);
    } else {
      ReturnCounts(s, t, user);
    }
  }

  lemma ReturnReferencedCounts(s: State, t: Tid, user: nat)
    requires RefsExact(s) && CleanupExact(s) && HasThread(s, t) && user !in s.users
    requires s.slots[t] == InUse && s.readers[t].Referenced? && s.readers[t].sv in s.svs
    ensures var s' := CompareAndSwapStep(s, t, user); RefsExact(s') && CleanupExact(s')
  {
    hide RefsExact, CleanupExact, Holders, AllTokens, Owns, Moves;
    ReturnReferencedMoves(s, t, user);
    assert |{LocalToken(t), ExtraToken(t)}| == 2 == |{SlotToken(t), UserToken(user)}|;
    AfterMove(s, CompareAndSwapStep(s, t, user), s.readers[t].sv,
              {LocalToken(t), ExtraToken(t)}, {SlotToken(t), UserToken(user)});
  }

  lemma ReturnReferencedMoves(s: State, t: Tid, user: nat)
    requires HasThread(s, t) && user !in s.users && s.slots[t] == InUse && s.readers[t].Referenced?
    ensures Moves(s, CompareAndSwapStep(s, t, user), s.readers[t].sv, {LocalToken(t), ExtraToken(t)}, {SlotToken(t), UserToken(user)})
  {
  }

  lemma ReturnCounts(s: State, t: Tid, user: nat)
    requires RefsExact(s) && CleanupExact(s) && HasThread(s, t)
    requires s.slots[t] == InUse && s.readers[t].Holding? && s.readers[t].sv in s.svs
    ensures var s' := CompareAndSwapStep(s, t, user); RefsExact(s') && CleanupExact(s')
  {
    hide RefsExact, CleanupExact, Holders, AllTokens;
    AfterMove(s, CompareAndSwapStep(s, t, user), s.readers[t].sv, {LocalToken(t)}, {SlotToken(t)});
  }

  lemma CompareAndSwapThreads(s: State, t: Tid, user: nat)
    requires GlobalOk(s) && ThreadsOk(s) && HasThread(s, t) && (s.readers[t].Holding? || s.readers[t].Referenced?) && user !in s.users
    ensures var s' := CompareAndSwapStep(s, t, user); GlobalOk(s') && ThreadsOk(s')
  {
    var s' := CompareAndSwapStep(s, t, user);
    assert ThreadOkIn(s, t);
    hide ThreadsOk, GlobalOk;
    ThreadStep(s, s', t, 0);
  }

  lemma UnrefOutdatedCounts(s: State, t: Tid, user: nat)
    requires RefsExact(s) && CleanupExact(s) && HasThread(s, t) && s.readers[t].Outdated? && user !in s.users
    ensures var s' := UnrefOutdatedStep(s, t, user); RefsExact(s') && CleanupExact(s')
    ensures s.readers[t].referenced ==> !WasLast(s, s.readers[t].sv)
  {
    hide RefsExact, CleanupExact, Holders, AllTokens;
    if s.readers[t].referenced {
      TwoHolders(s, s.readers[t].sv, LocalToken(t), ExtraToken(t));
      UnrefReferencedCounts(s, t, user);
    } else {
      AfterDrop(s, UnrefOutdatedStep(s, t, user), s.readers[t].sv, {LocalToken(t)}, {}, LocalToken(t), ReaderCleaner(t));
    }
  }

  lemma UnrefReferencedCounts(s: State, t: Tid, user: nat)
    requires RefsExact(s) && CleanupExact(s) && HasThread(s, t) && s.readers[t].Outdated? && user !in s.users
    requires s.readers[t].referenced && !WasLast(s, s.readers[t].sv)
    ensures var s' := UnrefOutdatedStep(s, t, user); RefsExact(s') && CleanupExact(s')
  {
    hide RefsExact, CleanupExact, Holders, AllTokens, Owns, Moves;
    UnrefReferencedMoves(s, t, user);
    assert |{LocalToken(t), ExtraToken(t)}| == 2;
    AfterDrop(s, UnrefOutdatedStep(s, t, user), s.readers[t].sv, {LocalToken(t), ExtraToken(t)}, {UserToken(user)},
              LocalToken(t), ReaderCleaner(t));
  }

  lemma UnrefReferencedMoves(s: State, t: Tid, user: nat)
    requires HasThread(s, t) && s.readers[t].Outdated? && s.readers[t].referenced && user !in s.users
    ensures Moves(s, UnrefOutdatedStep(s, t, user), s.readers[t].sv, {LocalToken(t), ExtraToken(t)}, {UserToken(user)})
  {
  }

  lemma UnrefOutdatedThreads(s: State, t: Tid, user: nat)
    requires GlobalOk(s) && ThreadsOk(s) && HasThread(s, t) && s.readers[t].Outdated? && user !in s.users
    ensures var s' := UnrefOutdatedStep(s, t, user); GlobalOk(s') && ThreadsOk(s')
  {
    var s' := UnrefOutdatedStep(s, t, user);
    assert ThreadOkIn(s, t);
    hide ThreadsOk, GlobalOk;
    ThreadStep(s, s', t, s.readers[t].sv);
  }

  lemma TwoHolders(s: State, sv: Sv, a: Token, b: Token)
    requires RefsExact(s) && a != b && Owns(s, a) == Some(sv) && Owns(s, b) == Some(sv)
    ensures sv in s.svs && s.svs[sv].refs >= 2
  {
    HolderIn(s, sv, a);
    HolderIn(s, sv, b);
    hide Owns, Holders, AllTokens;
    assert {a, b} <= Holders(s, sv);
    SubsetCount({a, b}, Holders(s, sv));
  }

  lemma HolderIn(s: State, sv: Sv, token: Token)
    requires RefsExact(s) && Owns(s, token) == Some(sv)
    ensures token in Holders(s, sv) && sv in s.svs && s.svs[sv].refs == |Holders(s, sv)|
  {
  }

  lemma SubsetCount<T>(a: set<T>, b: set<T>)
    requires a <= b
    ensures |a| <= |b|
  {
    assert b == a + (b - a);
  }

  lemma CleanReturnedCounts(s: State, t: Tid)
    requires RefsExact(s) && CleanupExact(s) && HasThread(s, t) && s.readers[t].LastOfReturned?
    ensures var s' := CleanReturnedStep(s, t); RefsExact(s') && CleanupExact(s')
  {
    hide RefsExact, CleanupExact, Holders, AllTokens;
    var s' := CleanReturnedStep(s, t);
    AfterClean(s, s', s.readers[t].sv, ReaderCleaner(t));
  }

  lemma CleanReturnedThreads(s: State, t: Tid)
    requires GlobalOk(s) && ThreadsOk(s) && HasThread(s, t) && s.readers[t].LastOfReturned?
    ensures var s' := CleanReturnedStep(s, t); GlobalOk(s') && ThreadsOk(s')
  {
    var s' := CleanReturnedStep(s, t);
    assert ThreadOkIn(s, t);
    hide ThreadsOk, GlobalOk;
    ThreadStep(s, s', t, s.readers[t].sv);
  }

  lemma ReleaseUserKeeps(s: State, user: nat)
    requires Inv(s) && user in s.users && s.users[user].Held?
    ensures Inv(ReleaseUserStep(s, user))
  {
    hide RefsExact, CleanupExact, Holders, AllTokens, GlobalOk, ThreadsOk;
    var s' := ReleaseUserStep(s, user);
    AfterDrop(s, s', s.users[user].sv, {UserToken(user)}, {}, UserToken(user), UserCleaner(user));
    OutsideStep(s, s', s.users[user].sv);
  }

  lemma CleanUserKeeps(s: State, user: nat)
    requires Inv(s) && user in s.users && s.users[user].LastOfUser?
    ensures Inv(CleanUserStep(s, user))
  {
    hide RefsExact, CleanupExact, Holders, AllTokens, GlobalOk, ThreadsOk;
    var s' := CleanUserStep(s, user);
    AfterClean(s, s', s.users[user].sv, UserCleaner(user));
    OutsideStep(s, s', s.users[user].sv);
  }

  /** A step of the installer, which holds the mutex before or after it. */
  lemma InstallStep(s: State, s': State)
    requires ThreadsOk(s) && s'.readers == s.readers && s'.slots.Keys == s.slots.Keys && s'.seen.Keys == s.seen.Keys
    requires s'.mutex == s.mutex || (!s.mutex.ByReader? && !s'.mutex.ByReader?)
    requires forall t :: t in s.readers ==> ThreadOk(t, s'.slots[t], s.readers[t], s'.seen[t], s'.current, s'.install)
    ensures ThreadsOk(s')
  {
  }

  lemma SwitchCounts(s: State, sv: Sv)
    requires RefsExact(s) && CleanupExact(s) && s.install == NoInstall && sv !in s.svs
    ensures var s' := SwitchStep(s, sv); RefsExact(s') && CleanupExact(s')
  {
    var s' := SwitchStep(s, sv);
    SwitchOwners(s, sv);
    forall other { SwitchHolders(s, sv, other); }
    forall token | Owns(s', token).Some? ensures Owns(s', token).value in s'.svs {
      if token == OldToken { OwnedExists(s, CurrentToken); } else if token != CurrentToken { OwnedExists(s, token); }
    }
    KeepCleaners(s, s');
  }

  lemma SwitchOwners(s: State, sv: Sv)
    requires s.install == NoInstall
    ensures var s' := SwitchStep(s, sv);
            && (forall token :: token != CurrentToken && token != OldToken ==> Owns(s', token) == Owns(s, token))
            && Owns(s', CurrentToken) == Some(sv) && Owns(s', OldToken) == Owns(s, CurrentToken) && Owns(s, OldToken) == None
            && SameCleaners(s, s')
  {
  }

  lemma SwitchHolders(s: State, sv: Sv, other: Sv)
    requires RefsExact(s) && s.install == NoInstall && sv !in s.svs
    ensures |Holders(SwitchStep(s, sv), other)| == if other == sv then 1 else |Holders(s, other)|
  {
    var s' := SwitchStep(s, sv);
    SwitchOwners(s, sv);
    forall token ensures Owns(s, token) != Some(sv) { NewSvUnowned(s, sv, token); }
    hide RefsExact, Owns, Holders, SwitchStep;
    if other == sv {
      OnlyHolder(s', sv, CurrentToken);
    } else {
      HolderPasses(s, s', other, CurrentToken, OldToken);
    }
  }

  lemma HoldersAre(s: State, sv: Sv)
    ensures forall token :: token in Holders(s, sv) <==> Owns(s, token) == Some(sv)
  {
    hide Owns;
  }

  lemma OnlyHolder(s: State, sv: Sv, only: Token)
    requires forall token :: Owns(s, token) == Some(sv) <==> token == only
    ensures |Holders(s, sv)| == 1
  {
    hide Owns, Holders;
    HoldersAre(s, sv);
    assert Holders(s, sv) == {only};
  }

  // The holder `a` of a reference, if it is one, passes it to `b`.
  lemma SwapOne(x: set<Token>, y: set<Token>, a: Token, b: Token)
    requires b !in x && forall token :: token in y <==> (token in x && token != a) || (token == b && a in x)
    ensures |y| == |x|
  {
    if a in x { assert y == x - {a} + {b}; } else { assert y == x; }
  }

  lemma HolderPasses(s: State, s': State, sv: Sv, a: Token, b: Token)
    requires a != b && (forall token :: token != a && token != b ==> Owns(s', token) == Owns(s, token))
    requires Owns(s', a) != Some(sv) && Owns(s, b) == None && Owns(s', b) == Owns(s, a)
    ensures |Holders(s', sv)| == |Holders(s, sv)|
  {
    hide Owns, Holders;
    HoldersAre(s, sv);
    HoldersAre(s', sv);
    var x, y := Holders(s, sv), Holders(s', sv);
    forall token ensures token in y <==> (token in x && token != a) || (token == b && a in x) {
      if token != a && token != b { assert Owns(s', token) == Owns(s, token); }
    }
    SwapOne(x, y, a, b);
  }

  lemma NewSvUnowned(s: State, sv: Sv, token: Token)
    requires RefsExact(s) && sv !in s.svs
    ensures Owns(s, token) != Some(sv)
  {
  }

  lemma SwitchThreads(s: State, sv: Sv)
    requires RefsExact(s) && GlobalOk(s) && ThreadsOk(s) && s.mutex == Free && s.install == NoInstall && sv !in s.svs
    ensures var s' := SwitchStep(s, sv); GlobalOk(s') && ThreadsOk(s')
  {
    var s' := SwitchStep(s, sv);
    hide RefsExact, ThreadOk;
    NewSvUnowned(s, sv, CurrentToken);
    forall t | t in s.readers ensures ThreadOk(t, s'.slots[t], s.readers[t], s'.seen[t], s'.current, s'.install) {
      assert ThreadOkIn(s, t);
      NewSvUnowned(s, sv, LocalToken(t));
      SwitchThread(t, s.slots[t], s.readers[t], s.seen[t], s.current, sv);
    }
    InstallStep(s, s');
  }

  lemma SwitchThread(t: Tid, slot: Slot, r: Reader, seen: set<Sv>, current: Option<Sv>, sv: Sv)
    requires ThreadOk(t, slot, r, seen, current, NoInstall) && LocalOf(r) != Some(sv)
    ensures ThreadOk(t, slot, r, seen, Some(sv), Switched(current))
  {
  }

  lemma BumpCounts(s: State)
    requires RefsExact(s) && CleanupExact(s) && s.install.Switched? && s.current.Some? && s.current.value in s.svs
    ensures var s' := BumpStep(s); RefsExact(s') && CleanupExact(s')
  {
    hide RefsExact, CleanupExact, Holders, AllTokens, Moves, Owns;
    BumpMoves(s);
    AfterMove(s, BumpStep(s), 0, {}, {});
  }

  lemma BumpMoves(s: State)
    requires s.install.Switched? && s.current.Some? && s.current.value in s.svs
    ensures Moves(s, BumpStep(s), 0, {}, {})
  {
  }

  lemma BumpThreads(s: State)
    requires GlobalOk(s) && ThreadsOk(s) && s.install.Switched? && s.current.Some? && s.current.value in s.svs
    ensures var s' := BumpStep(s); GlobalOk(s') && ThreadsOk(s')
  {
    var s' := BumpStep(s);
    forall t | t in s.readers ensures ThreadOk(t, s'.slots[t], s.readers[t], s'.seen[t], s'.current, s'.install) {
      assert ThreadOkIn(s, t);
    }
    InstallStep(s, s');
  }

  lemma ScrapeCounts(s: State, t: Tid)
    requires RefsExact(s) && CleanupExact(s) && s.install.Scraping? && t in s.install.todo && HasThread(s, t)
    requires t !in s.install.scraped
    ensures var s' := ScrapeStep(s, t); RefsExact(s') && CleanupExact(s')
  {
    hide RefsExact, CleanupExact, Holders, AllTokens, Owns, Moves;
    ScrapeMoves(s, t);
    if s.slots[t].Cached? {
      OwnedExists(s, SlotToken(t));
      AfterMove(s, ScrapeStep(s, t), s.slots[t].sv, {SlotToken(t)}, {ScrapedToken(t)});
    } else {
      AfterMove(s, ScrapeStep(s, t), 0, {}, {});
    }
  }

  lemma ScrapeMoves(s: State, t: Tid)
    requires s.install.Scraping? && t in s.install.todo && HasThread(s, t) && t !in s.install.scraped
    ensures if s.slots[t].Cached? then Owns(s, SlotToken(t)) == Some(s.slots[t].sv)
              && Moves(s, ScrapeStep(s, t), s.slots[t].sv, {SlotToken(t)}, {ScrapedToken(t)})
            else Moves(s, ScrapeStep(s, t), 0, {}, {})
  {
  }

  lemma ScrapeThreads(s: State, t: Tid)
    requires GlobalOk(s) && ThreadsOk(s) && s.install.Scraping? && t in s.install.todo && HasThread(s, t)
    ensures var s' := ScrapeStep(s, t); GlobalOk(s') && ThreadsOk(s')
  {
    var s' := ScrapeStep(s, t);
    assert ThreadOkIn(s, t);
    forall u | u in s.readers ensures ThreadOk(u, s'.slots[u], s.readers[u], s'.seen[u], s'.current, s'.install) {
      assert ThreadOkIn(s, u);
    }
    InstallStep(s, s');
  }

  lemma UnrefScrapedCounts(s: State, t: Tid)
    requires RefsExact(s) && CleanupExact(s) && s.install.Scraping? && t in s.install.scraped
    requires s.install.scraped[t] == s.install.prev
    ensures var s' := UnrefScrapedStep(s, t); RefsExact(s') && CleanupExact(s')
    ensures !WasLast(s, s.install.scraped[t])
  {
    hide RefsExact, CleanupExact, Holders, AllTokens;
    TwoHolders(s, s.install.prev, ScrapedToken(t), OldToken);
    AfterDrop(s, UnrefScrapedStep(s, t), s.install.prev, {ScrapedToken(t)}, {}, ScrapedToken(t), InstallCleaner);
  }

  lemma UnrefScrapedThreads(s: State, t: Tid)
    requires GlobalOk(s) && ThreadsOk(s) && s.install.Scraping? && t in s.install.scraped
    ensures var s' := UnrefScrapedStep(s, t); GlobalOk(s') && ThreadsOk(s')
  {
    var s' := UnrefScrapedStep(s, t);
    forall u | u in s.readers ensures ThreadOk(u, s'.slots[u], s.readers[u], s'.seen[u], s'.current, s'.install) {
      assert ThreadOkIn(s, u);
    }
    InstallStep(s, s');
  }

  lemma UnrefOldCounts(s: State)
    requires RefsExact(s) && CleanupExact(s) && s.install.Scraping? && s.install.scraped == map[]
    ensures var s' := UnrefOldStep(s); RefsExact(s') && CleanupExact(s')
  {
    hide RefsExact, CleanupExact, Holders, AllTokens, Moves;
    UnrefOldMoves(s);
    AfterDrop(s, UnrefOldStep(s), s.install.prev, {OldToken}, {}, OldToken, InstallCleaner);
  }

  lemma UnrefOldMoves(s: State)
    requires s.install.Scraping? && s.install.scraped == map[]
    ensures Moves(s, UnrefOldStep(s), s.install.prev, {OldToken}, {})
  {
  }

  lemma UnrefOldThreads(s: State)
    requires GlobalOk(s) && ThreadsOk(s) && s.install.Scraping? && s.install.todo == {}
    ensures var s' := UnrefOldStep(s); GlobalOk(s') && ThreadsOk(s')
  {
    var s' := UnrefOldStep(s);
    forall u | u in s.readers ensures ThreadOk(u, s'.slots[u], s.readers[u], s'.seen[u], s'.current, s'.install) {
      assert ThreadOkIn(s, u);
    }
    InstallStep(s, s');
  }

  lemma CleanOldCounts(s: State)
    requires RefsExact(s) && CleanupExact(s) && s.install.CleaningOld?
    ensures var s' := CleanOldStep(s); RefsExact(s') && CleanupExact(s')
  {
    hide RefsExact, CleanupExact, Holders, AllTokens;
    AfterClean(s, CleanOldStep(s), s.install.prev, InstallCleaner);
  }

  lemma CleanOldThreads(s: State)
    requires GlobalOk(s) && ThreadsOk(s) && s.install.CleaningOld?
    ensures var s' := CleanOldStep(s); GlobalOk(s') && ThreadsOk(s')
  {
    var s' := CleanOldStep(s);
    forall u | u in s.readers ensures ThreadOk(u, s'.slots[u], s.readers[u], s'.seen[u], s'.current, s'.install) {
      assert ThreadOkIn(s, u);
    }
    InstallStep(s, s');
  }
}
