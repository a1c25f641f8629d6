/**
 What the SuperVersion protocol guarantees in every run: references, clean-up, freshness, progress.
 */
module SuperVersionRuns {
  import opened Options
  import opened SuperVersionProtocol
  import opened SuperVersionSafety
  import opened SuperVersionSteps

  lemma ReaderStepKeeps(s: State, step: Step)
    requires Inv(s) && ReaderEnabled(s, step)
    ensures Inv(ApplyReader(s, step))
  {
    hide RefsExact, CleanupExact, GlobalOk, ThreadsOk, SwapStep, CheckStep, UnrefStaleStep, LockStep, CleanStaleStep,
         RefCurrentStep, UnlockStep, TakeRefStep, CompareAndSwapStep, UnrefOutdatedStep, CleanReturnedStep,
         ReleaseUserStep, CleanUserStep, Owns, Cleans, Published, PublishedOf;
    match step
    case Swap(t) => SwapCounts(s, t); SwapThreads(s, t);
    case Check(t) => CheckCounts(s, t); CheckThreads(s, t);
    case UnrefStale(t) => UnrefStaleCounts(s, t); UnrefStaleThreads(s, t);
    case Lock(t) => LockCounts(s, t); LockThreads(s, t);
    case CleanStale(t) => CleanStaleCounts(s, t); CleanStaleThreads(s, t);
    case RefCurrent(t) => RefCurrentCounts(s, t); RefCurrentThreads(s, t);
    case Unlock(t) => UnlockCounts(s, t); UnlockThreads(s, t);
    case TakeRef(t) => TakeRefCounts(s, t); TakeRefThreads(s, t);
    case CompareAndSwap(t, user) =>
      BusySlot(s, t);
      CompareAndSwapCounts(s, t, user);
      CompareAndSwapThreads(s, t, user);
    case UnrefOutdated(t, user) => UnrefOutdatedCounts(s, t, user); UnrefOutdatedThreads(s, t, user);
    case CleanReturned(t) => CleanReturnedCounts(s, t); CleanReturnedThreads(s, t);
    case ReleaseUser(user) => ReleaseUserKeeps(s, user);
    case CleanUser(user) => CleanUserKeeps(s, user);
  }

  lemma InstallStepKeeps(s: State, step: Step)
    requires Inv(s) && InstallEnabled(s, step)
    ensures Inv(ApplyInstall(s, step))
  {
    ScrapesOnlyOld(s);
    hide RefsExact, CleanupExact, GlobalOk, ThreadsOk, SwitchStep, BumpStep, ScrapeStep, UnrefScrapedStep, UnrefOldStep,
         CleanOldStep, Owns, Cleans;
    match step
    case InstallSwitch(sv) => SwitchCounts(s, sv); SwitchThreads(s, sv);
    case InstallBump => BumpCounts(s); BumpThreads(s);
    case Scrape(t) => ScrapeCounts(s, t); ScrapeThreads(s, t);
    case UnrefScraped(t) => UnrefScrapedCounts(s, t); UnrefScrapedThreads(s, t);
    case UnrefOld => UnrefOldCounts(s); UnrefOldThreads(s);
    case CleanOld => CleanOldCounts(s); CleanOldThreads(s);
  }

  lemma BusySlot(s: State, t: Tid)
    requires ThreadsOk(s) && HasThread(s, t) && Active(s.readers[t])
    ensures !s.slots[t].Cached?
  {
    assert ThreadOkIn(s, t);
  }

  lemma ScrapesOnlyOld(s: State)
    requires GlobalOk(s)
    ensures s.install.Scraping? ==> s.install.todo !! s.install.scraped.Keys
    ensures s.install.Scraping? ==> forall t :: t in s.install.scraped ==> s.install.scraped[t] == s.install.prev
  {
  }

  /** Every step, of any thread, keeps the invariant. */
  lemma StepKeepsInv(s: State, step: Step)
    requires Inv(s) && Enabled(s, step)
    ensures Inv(Apply(s, step))
  {
    hide Inv, ReaderEnabled, InstallEnabled, ApplyReader, ApplyInstall;
    if ReaderEnabled(s, step) { ReaderStepKeeps(s, step); } else { InstallStepKeeps(s, step); }
  }

  /** The invariant holds in every state of every run. */
  lemma {:induction false} RunKeepsInv(states: seq<State>, steps: seq<Step>, i: nat)
    requires IsRun(states, steps) && i < |states|
    ensures Inv(states[i])
  {
    if i == 0 {
      InitialInv(states[0]);
    } else {
      RunKeepsInv(states, steps, i - 1);
      StepKeepsInv(states[i - 1], steps[i - 1]);
    }
  }

  /** The last state of some run. */
  ghost predicate Reachable(s: State) {
    exists states: seq<State>, steps: seq<Step> :: IsRun(states, steps) && states[|steps|] == s
  }

  lemma ReachableInv(s: State)
    requires Reachable(s)
    ensures Inv(s)
  {
    var states: seq<State>, steps: seq<Step> :| IsRun(states, steps) && states[|steps|] == s;
    RunKeepsInv(states, steps, |steps|);
  }

  lemma RunReaches(states: seq<State>, steps: seq<Step>, i: nat)
    requires IsRun(states, steps) && i < |states|
    ensures Reachable(states[i])
  {
    assert IsRun(states[..i + 1], steps[..i]) && states[..i + 1][i] == states[i];
  }

  // The SuperVersion a step calls Unref on.
  function Unrefs(s: State, step: Step): Option<Sv>
    requires Enabled(s, step)
  {
    match step
    case UnrefStale(t) => Some(s.readers[t].sv)
    case UnrefOutdated(t, _) => Some(s.readers[t].sv)
    case ReleaseUser(user) => Some(s.users[user].sv)
    case UnrefScraped(t) => Some(s.install.scraped[t])
    case UnrefOld => Some(s.install.prev)
    case _ => None
  }

  // Who calls Unref in a step.
  function Unrefer(step: Step): Token {
    match step
    case UnrefStale(t) => LocalToken(t)
    case UnrefOutdated(t, _) => LocalToken(t)
    case ReleaseUser(user) => UserToken(user)
    case UnrefScraped(t) => ScrapedToken(t)
    case _ => OldToken
  }

  // The SuperVersion a step calls Cleanup on.
  function CleanedBy(s: State, step: Step): Option<Sv>
    requires Enabled(s, step)
  {
    match step
    case CleanStale(t) => Some(s.readers[t].sv)
    case CleanReturned(t) => Some(s.readers[t].sv)
    case CleanUser(user) => Some(s.users[user].sv)
    case CleanOld => Some(s.install.prev)
    case _ => None
  }

  function CleanerOf(step: Step): Cleaner {
    match step
    case CleanStale(t) => ReaderCleaner(t)
    case CleanReturned(t) => ReaderCleaner(t)
    case CleanUser(user) => UserCleaner(user)
    case _ => InstallCleaner
  }

  /** Whoever holds a reference can use the SuperVersion: it has not been cleaned up, and nobody is
      about to. */
  lemma HeldIsAlive(s: State, token: Token, sv: Sv)
    requires Reachable(s) && Owns(s, token) == Some(sv)
    ensures sv in s.svs && s.svs[sv].refs > 0 && !s.svs[sv].cleaned
    ensures forall c :: Cleans(s, c) != Some(sv)
  {
    ReachableInv(s);
    HolderCounts(s, sv, token);
    hide RefsExact, GlobalOk, ThreadsOk, Owns, Cleans;
    forall c ensures Cleans(s, c) != Some(sv) { assert Cleans(s, c) == Some(sv) ==> Unreachable(s, sv); }
  }

  /** No Unref finds a count of zero. */
  lemma UnrefNeverUnderflows(s: State, step: Step)
    requires Reachable(s) && Enabled(s, step) && Unrefs(s, step).Some?
    ensures var sv := Unrefs(s, step).value; sv in s.svs && s.svs[sv].refs > 0 && !s.svs[sv].cleaned
  {
    hide Inv;
    ReachableInv(s);
    HeldIsAlive(s, Unrefer(step), Unrefs(s, step).value);
  }

  /** Cleanup runs on a SuperVersion nobody refers to, and that was not cleaned up before. */
  lemma CleansOnlyUnreachable(s: State, step: Step)
    requires Reachable(s) && Enabled(s, step) && CleanedBy(s, step).Some?
    ensures Unreachable(s, CleanedBy(s, step).value)
  {
    hide RefsExact, GlobalOk, ThreadsOk, Unreachable;
    ReachableInv(s);
    assert Cleans(s, CleanerOf(step)) == CleanedBy(s, step);
  }

  /** A SuperVersion scraped from a slot is never released for the last time by ResetThreadLocalSuperVersions,
      nor by GetReferencedSuperVersion, neither of which would clean it up. */
  lemma UncheckedUnrefIsNeverLast(s: State, step: Step)
    requires Reachable(s) && Enabled(s, step)
    requires step.UnrefScraped? || (step.UnrefOutdated? && s.readers[step.t].referenced)
    ensures !WasLast(s, Unrefs(s, step).value)
  {
    ReachableInv(s);
    ScrapesOnlyOld(s);
    hide Inv, GlobalOk, ThreadsOk, RefsExact, CleanupExact;
    if step.UnrefScraped? {
      UnrefScrapedCounts(s, step.t);
    } else {
      UnrefOutdatedCounts(s, step.t, step.user);
    }
  }

  /** Swap never takes kSVInUse out of a slot, and a compare-and-swap that fails finds kSVObsolete there. */
  lemma SlotAssertions(s: State, t: Tid)
    requires Reachable(s) && HasThread(s, t)
    ensures s.readers[t].Idle? ==> s.slots[t] != InUse
    ensures (s.readers[t].Holding? || s.readers[t].Referenced?) && s.slots[t] != InUse ==> s.slots[t] == Obsolete
  {
    hide RefsExact, CleanupExact, GlobalOk;
    ReachableInv(s);
    assert ThreadOkIn(s, t);
  }

  /** A slot caches nothing but the SuperVersion readers take as current; only while an install is
      scraping can it be the one just replaced, in slots still to be scraped. */
  lemma CachedIsCurrent(s: State, t: Tid)
    requires Reachable(s) && HasThread(s, t) && s.slots[t].Cached?
    ensures if s.install.Scraping? then t in s.install.todo && s.slots[t].sv == s.install.prev
            else Published(s) == Some(s.slots[t].sv)
  {
    hide RefsExact, CleanupExact, GlobalOk;
    ReachableInv(s);
    assert ThreadOkIn(s, t);
  }

  // Nothing un-cleans a SuperVersion.
  predicate KeepsMarks(svs: map<Sv, SvState>, svs': map<Sv, SvState>) {
    forall sv :: sv in svs && svs[sv].cleaned ==> sv in svs' && svs'[sv].cleaned
  }

  lemma CleanedStays(s: State, step: Step)
    requires Enabled(s, step)
    ensures KeepsMarks(s.svs, Apply(s, step).svs)
  {
    forall sv { CountChangesKeepMarks(s.svs, sv); }
    hide Published, PublishedOf, Incremented, Decremented, CleanedUp, KeepsMarks;
    if step.InstallSwitch? || step.InstallBump? { InstallKeepsMarks(s, step); }
    assert KeepsMarks(s.svs, s.svs) by { IdleKeepsMarks(s.svs); }
  }

  lemma IdleKeepsMarks(svs: map<Sv, SvState>)
    ensures KeepsMarks(svs, svs)
  {
  }

  lemma InstallKeepsMarks(s: State, step: Step)
    requires Enabled(s, step) && (step.InstallSwitch? || step.InstallBump?)
    ensures KeepsMarks(s.svs, Apply(s, step).svs)
  {
  }

  lemma CountChangesKeepMarks(svs: map<Sv, SvState>, sv: Sv)
    ensures KeepsMarks(svs, Incremented(svs, sv))
    ensures KeepsMarks(svs, Decremented(svs, sv))
    ensures KeepsMarks(svs, CleanedUp(svs, sv))
  {
  }

  lemma CleaningMarks(s: State, step: Step)
    requires Enabled(s, step) && CleanedBy(s, step).Some? && CleanedBy(s, step).value in s.svs
    ensures var sv := CleanedBy(s, step).value; sv in Apply(s, step).svs && Apply(s, step).svs[sv].cleaned
  {
  }

  lemma {:induction false} CleanedStaysInRun(states: seq<State>, steps: seq<Step>, i: nat, j: nat, sv: Sv)
    requires IsRun(states, steps) && i <= j < |states| && sv in states[i].svs && states[i].svs[sv].cleaned
    ensures sv in states[j].svs && states[j].svs[sv].cleaned
    decreases j - i
  {
    if i < j {
      CleanedStays(states[i], steps[i]);
      CleanedStaysInRun(states, steps, i + 1, j, sv);
    }
  }

  /** No SuperVersion is cleaned up twice in a run. */
  lemma CleanedAtMostOnce(states: seq<State>, steps: seq<Step>, i: nat, j: nat)
    requires IsRun(states, steps) && i < j < |steps| && CleanedBy(states[i], steps[i]).Some?
    ensures CleanedBy(states[j], steps[j]) != CleanedBy(states[i], steps[i])
  {
    RunReaches(states, steps, i);
    RunReaches(states, steps, j);
    CleansOnlyUnreachable(states[i], steps[i]);
    CleaningMarks(states[i], steps[i]);
    hide Inv, Enabled, Apply;
    CleanedStaysInRun(states, steps, i + 1, j, CleanedBy(states[i], steps[i]).value);
    if CleanedBy(states[j], steps[j]) == CleanedBy(states[i], steps[i]) {
      CleansOnlyUnreachable(states[j], steps[j]);
    }
  }

  predicate Quiescent(s: State) {
    s.install == NoInstall && s.users == map[] && forall t :: t in s.readers ==> s.readers[t] == Idle
  }

  /** No leak: once every call has returned and every reference has been given back, exactly the
      current SuperVersion has not been cleaned up. */
  lemma QuiescentKeepsOnlyCurrent(s: State, sv: Sv)
    requires Reachable(s) && Quiescent(s) && sv in s.svs
    ensures !s.svs[sv].cleaned <==> s.current == Some(sv)
  {
    ReachableInv(s);
    if s.current == Some(sv) {
      HeldIsAlive(s, CurrentToken, sv);
    } else {
      QuiescentHolders(s, sv);
      NobodyCleans(s);
      assert !HasCleaner(s, sv) && (Unreachable(s, sv) ==> HasCleaner(s, sv));
    }
  }

  lemma NobodyCleans(s: State)
    requires Quiescent(s)
    ensures forall c :: Cleans(s, c) == None
  {
  }

  lemma QuiescentHolders(s: State, sv: Sv)
    requires Inv(s) && Quiescent(s) && sv in s.svs && s.current != Some(sv)
    ensures s.svs[sv].refs == 0
  {
    forall token ensures Owns(s, token) != Some(sv) { QuiescentOwner(s, token); }
    HoldersAre(s, sv);
    hide GlobalOk, CleanupExact, ThreadsOk, Owns, Holders;
    assert Holders(s, sv) == {};
  }

  lemma QuiescentOwner(s: State, token: Token)
    requires ThreadsOk(s) && Quiescent(s)
    ensures Owns(s, token).Some? ==> Owns(s, token) == s.current
  {
    if token.SlotToken? && token.t in s.slots { assert ThreadOkIn(s, token.t); }
  }

  // The reader t is in one and the same call from state i to state j.
  ghost predicate SameCall(states: seq<State>, t: Tid, i: nat, j: nat) {
    i <= j < |states| && forall k :: i <= k <= j ==> t in states[k].readers && Active(states[k].readers[t])
  }

  // What thread t has seen in state s' it saw in s, or it is the current SuperVersion of s'.
  predicate SeenFrom(s: State, s': State, t: Tid, sv: Sv) {
    t in s'.readers && Active(s'.readers[t]) && t in s'.seen && sv in s'.seen[t] ==>
      Published(s') == Some(sv) || (t in s.readers && Active(s.readers[t]) && t in s.seen && sv in s.seen[t])
  }

  lemma ReaderSeenFrom(s: State, step: Step, t: Tid, sv: Sv)
    requires ReaderEnabled(s, step)
    ensures SeenFrom(s, ApplyReader(s, step), t, sv)
  {
    hide Incremented, Decremented, CleanedUp, WasLast;
  }

  lemma InstallSeenFrom(s: State, step: Step, t: Tid, sv: Sv)
    requires InstallEnabled(s, step)
    ensures SeenFrom(s, ApplyInstall(s, step), t, sv)
  {
    hide Incremented, Decremented, CleanedUp, WasLast;
  }

  ghost predicate PublishedDuringCall(states: seq<State>, t: Tid, sv: Sv, j: nat) {
    exists i: nat :: SameCall(states, t, i, j) && Published(states[i]) == Some(sv)
  }

  lemma {:induction false} SeenWasPublished(states: seq<State>, steps: seq<Step>, t: Tid, sv: Sv, j: nat)
    requires IsRun(states, steps) && j < |states| && t in states[j].readers && Active(states[j].readers[t])
    requires t in states[j].seen && sv in states[j].seen[t]
    ensures PublishedDuringCall(states, t, sv, j)
  {
    hide Published, ReaderEnabled, InstallEnabled, ApplyReader, ApplyInstall;
    if Published(states[j]) == Some(sv) {
      assert SameCall(states, t, j, j);
    } else if j > 0 {
      StepSeenFrom(states[j - 1], steps[j - 1], t, sv);
      SeenWasPublished(states, steps, t, sv, j - 1);
      CallExtends(states, t, sv, j);
    }
  }

  lemma StepSeenFrom(s: State, step: Step, t: Tid, sv: Sv)
    requires Enabled(s, step)
    ensures SeenFrom(s, Apply(s, step), t, sv)
  {
    hide ReaderEnabled, InstallEnabled, ApplyReader, ApplyInstall, SeenFrom;
    if ReaderEnabled(s, step) { ReaderSeenFrom(s, step, t, sv); } else { InstallSeenFrom(s, step, t, sv); }
  }

  lemma CallExtends(states: seq<State>, t: Tid, sv: Sv, j: nat)
    requires 0 < j < |states| && PublishedDuringCall(states, t, sv, j - 1)
    requires t in states[j].readers && Active(states[j].readers[t])
    ensures PublishedDuringCall(states, t, sv, j)
  {
    hide Published;
    var i: nat :| SameCall(states, t, i, j - 1) && Published(states[i]) == Some(sv);
    assert SameCall(states, t, i, j);
  }

  /** The SuperVersion a reader works with was the current one at some moment of its own call. */
  lemma ReaderGetsPublished(states: seq<State>, steps: seq<Step>, t: Tid, j: nat)
    requires IsRun(states, steps) && j < |states| && t in states[j].readers && Got(states[j].readers[t]).Some?
    ensures PublishedDuringCall(states, t, Got(states[j].readers[t]).value, j)
  {
    RunKeepsInv(states, steps, j);
    GotIsSeen(states[j], t);
    hide Inv, IsRun, PublishedDuringCall;
    SeenWasPublished(states, steps, t, Got(states[j].readers[t]).value, j);
  }

  lemma GotIsSeen(s: State, t: Tid)
    requires Inv(s) && t in s.readers && Got(s.readers[t]).Some?
    ensures t in s.seen && Got(s.readers[t]).value in s.seen[t]
  {
    hide RefsExact, CleanupExact, GlobalOk;
    assert ThreadOkIn(s, t);
  }

  // Work begun and not finished: a call of a reader, an install, a clean-up that was promised.
  ghost predicate Unfinished(s: State) {
    || s.install != NoInstall
    || (exists t :: t in s.readers && Active(s.readers[t]))
    || (exists user :: user in s.users && s.users[user].LastOfUser?)
  }

  predicate StartsWork(step: Step) {
    step.Swap? || step.InstallSwitch? || step.ReleaseUser?
  }

  ghost predicate CanContinue(s: State) {
    exists step :: Enabled(s, step) && !StartsWork(step)
  }

  lemma {:induction false} FreshUser(users: set<nat>) returns (user: nat)
    ensures forall u :: u in users ==> u < user
  {
    if users == {} {
      user := 0;
    } else {
      var u :| u in users;
      var rest := users - {u};
      var bound := FreshUser(rest);
      user := if bound <= u then u + 1 else bound;
      assert forall v :: v in users ==> v == u || v in rest;
    }
  }

  lemma InstallerContinues(s: State)
    requires Inv(s) && s.install != NoInstall
    ensures CanContinue(s)
  {
    assert InstallOk(s) && s.slots.Keys == s.readers.Keys == s.seen.Keys;
    if s.install.Switched? { OwnedExists(s, CurrentToken); }
    hide Inv, RefsExact, CleanupExact, GlobalOk, ThreadsOk, Owns;
    if s.install.Scraping? {
      ScraperContinues(s);
    } else {
      var step := if s.install.Switched? then InstallBump else CleanOld;
      assert InstallEnabled(s, step) && !StartsWork(step);
    }
  }

  lemma ScraperContinues(s: State)
    requires InstallOk(s) && s.install.Scraping? && s.slots.Keys == s.readers.Keys == s.seen.Keys
    ensures CanContinue(s)
  {
    var Scraping(_, todo, scraped) := s.install;
    var step := UnrefOld;
    if todo != {} {
      var t :| t in todo;
      step := Scrape(t);
    } else if scraped.Keys != {} {
      var t :| t in scraped.Keys;
      step := UnrefScraped(t);
    } else {
      assert scraped == map[];
    }
    assert InstallEnabled(s, step) && !StartsWork(step);
  }

  // The next step of a reader in the middle of a call.
  function NextOf(t: Tid, r: Reader, user: nat): Step {
    match r
    case Idle => Swap(t)
    case Swapped(_) => Check(t)
    case Stale(_) => UnrefStale(t)
    case Waiting => Lock(t)
    case LastOfStale(_) => Lock(t)
    case CleaningStale(_) => CleanStale(t)
    case Locked => RefCurrent(t)
    case Fetched(_) => Unlock(t)
    case Holding(_) => CompareAndSwap(t, user)
    case Referenced(_) => CompareAndSwap(t, user)
    case Outdated(_, _) => UnrefOutdated(t, user)
    case LastOfReturned(_) => CleanReturned(t)
  }

  /** A reader in the middle of a call waits for nothing but the DB mutex: the memory it goes on to
      read is there. */
  lemma ReaderWaitsOnlyForMutex(s: State, t: Tid, user: nat)
    requires Reachable(s) && t in s.readers && Active(s.readers[t]) && user !in s.users
    ensures Enabled(s, NextOf(t, s.readers[t], user)) || (s.mutex != Free && !InCriticalSection(s.readers[t]))
  {
    hide Inv, Reachable, RefsExact, CleanupExact, GlobalOk, ThreadsOk, Owns;
    ReachableInv(s);
    ReaderSees(s, t);
    assert ReaderEnabled(s, NextOf(t, s.readers[t], user)) || (s.mutex != Free && !InCriticalSection(s.readers[t]));
  }

  lemma ReaderSees(s: State, t: Tid)
    requires Inv(s) && t in s.readers && Active(s.readers[t])
    ensures HasThread(s, t)
    ensures s.readers[t].Locked? ==> s.current.Some?
    ensures s.readers[t].Swapped? && s.readers[t].ptr.Some? ==> s.readers[t].ptr.value in s.svs
  {
    if s.readers[t].Swapped? && s.readers[t].ptr.Some? { OwnedExists(s, LocalToken(t)); }
    hide RefsExact, CleanupExact, Owns, VersionsOk;
    assert ThreadOkIn(s, t) && InstallOk(s);
  }

  /** No deadlock: as long as anything begun is unfinished, some step that finishes a part of it can be taken. */
  lemma NeverStuck(s: State)
    requires Reachable(s) && Unfinished(s)
    ensures CanContinue(s)
  {
    ReachableInv(s);
    var user := FreshUser(s.users.Keys);
    if s.install != NoInstall {
      InstallerContinues(s);
    } else if s.mutex.ByReader? {
      ReaderContinues(s, s.mutex.t, user);
    } else if exists t :: t in s.readers && Active(s.readers[t]) {
      var t :| t in s.readers && Active(s.readers[t]);
      ReaderContinues(s, t, user);
    } else {
      var u :| u in s.users && s.users[u].LastOfUser?;
      assert ReaderEnabled(s, CleanUser(u)) && !StartsWork(CleanUser(u));
    }
  }

  lemma ReaderContinues(s: State, t: Tid, user: nat)
    requires Reachable(s) && t in s.readers && Active(s.readers[t]) && user !in s.users
    requires s.mutex == Free || InCriticalSection(s.readers[t])
    ensures CanContinue(s)
  {
    ReaderWaitsOnlyForMutex(s, t, user);
    hide Inv, Enabled;
    assert Enabled(s, NextOf(t, s.readers[t], user)) && !StartsWork(NextOf(t, s.readers[t], user));
  }
}
