/**
 The protocol by which threads cache the column family's current SuperVersion in thread-local
 slots (ColumnFamilyData::GetThreadLocalSuperVersion, GetReferencedSuperVersion,
 ReturnThreadLocalSuperVersion) while InstallSuperVersion replaces it.

 A state machine over atomic steps: one step per atomic access of a slot, of a reference count or
 of the version number, and per acquisition or release of the DB mutex. Any interleaving of the
 steps of any number of readers, of the users of references they obtained and of one installer at
 a time (it holds the mutex) is a run.
 */
module SuperVersionProtocol {
  import opened Options

  type Tid = nat
  type Sv = nat

  // Contents of a thread-local slot: kSVObsolete, kSVInUse or a cached SuperVersion.
  datatype Slot = Obsolete | InUse | Cached(sv: Sv)

  datatype SvState = SvState(refs: nat, version: nat, cleaned: bool)

  // Program counter and local variable of a reading thread.
  datatype Reader =
    | Idle
    | Swapped(ptr: Option<Sv>)              // swapped kSVInUse in, looks at what came out
    | Stale(sv: Sv)                         // version number differs, is about to Unref
    | Waiting                               // is about to take the mutex
    | LastOfStale(sv: Sv)                   // dropped the last reference, is about to take the mutex
    | CleaningStale(sv: Sv)                 // has the mutex, is about to Cleanup
    | Locked                                // has the mutex, is about to Ref super_version_
    | Fetched(sv: Sv)                       // has the mutex and a reference
    | Holding(sv: Sv)                       // GetThreadLocalSuperVersion has returned
    | Referenced(sv: Sv)                    // GetReferencedSuperVersion has taken a second reference
    | Outdated(sv: Sv, referenced: bool)    // the compare-and-swap failed, is about to Unref
    | LastOfReturned(sv: Sv)                // dropped the last reference, must lock and Cleanup

  // A reference handed out by GetReferencedSuperVersion.
  datatype User = Held(sv: Sv) | LastOfUser(sv: Sv)

  datatype Install =
    | NoInstall
    | Switched(replaced: Option<Sv>)             // super_version_ replaced, number not yet bumped
    | Scraping(prev: Sv, todo: set<Tid>, scraped: map<Tid, Sv>)
    | CleaningOld(prev: Sv)

  datatype Mutex = Free | ByReader(t: Tid) | ByInstaller

  datatype State = State(
    svs: map<Sv, SvState>,
    current: Option<Sv>,                    // super_version_
    number: nat,                            // super_version_number_
    slots: map<Tid, Slot>,
    readers: map<Tid, Reader>,
    users: map<nat, User>,
    mutex: Mutex,
    install: Install,
    // For each thread, the SuperVersions that were current since its call began.
    seen: map<Tid, set<Sv>>)

  /** The SuperVersion whose number readers compare with: a replacement takes effect when the
      number is bumped. */
  function PublishedOf(current: Option<Sv>, install: Install): Option<Sv> {
    if install.Switched? then install.replaced else current
  }

  function Published(s: State): Option<Sv> {
    PublishedOf(s.current, s.install)
  }

  datatype Step =
    | Swap(t: Tid)
    | Check(t: Tid)
    | UnrefStale(t: Tid)
    | Lock(t: Tid)
    | CleanStale(t: Tid)
    | RefCurrent(t: Tid)
    | Unlock(t: Tid)
    | TakeRef(t: Tid)
    | CompareAndSwap(t: Tid, user: nat)
    | UnrefOutdated(t: Tid, user: nat)
    | CleanReturned(t: Tid)
    | ReleaseUser(user: nat)
    | CleanUser(user: nat)
    | InstallSwitch(sv: Sv)
    | InstallBump
    | Scrape(t: Tid)
    | UnrefScraped(t: Tid)
    | UnrefOld
    | CleanOld

  predicate HasThread(s: State, t: Tid) {
    t in s.readers && t in s.slots && t in s.seen
  }

  predicate ReaderEnabled(s: State, step: Step) {
    match step
    case Swap(t) => HasThread(s, t) && s.readers[t] == Idle && Published(s).Some?
    case Check(t) => HasThread(s, t) && s.readers[t].Swapped?
                     && (s.readers[t].ptr.Some? ==> s.readers[t].ptr.value in s.svs)
    case UnrefStale(t) => HasThread(s, t) && s.readers[t].Stale?
    case Lock(t) => HasThread(s, t) && (s.readers[t].Waiting? || s.readers[t].LastOfStale?) && s.mutex == Free
    case CleanStale(t) => HasThread(s, t) && s.readers[t].CleaningStale?
    case RefCurrent(t) => HasThread(s, t) && s.readers[t].Locked? && s.current.Some?
    case Unlock(t) => HasThread(s, t) && s.readers[t].Fetched?
    case TakeRef(t) => HasThread(s, t) && s.readers[t].Holding?
    case CompareAndSwap(t, user) => HasThread(s, t) && (s.readers[t].Holding? || s.readers[t].Referenced?) && user !in s.users
    case UnrefOutdated(t, user) => HasThread(s, t) && s.readers[t].Outdated? && user !in s.users
    case CleanReturned(t) => HasThread(s, t) && s.readers[t].LastOfReturned? && s.mutex == Free
    case ReleaseUser(user) => user in s.users && s.users[user].Held?
    case CleanUser(user) => user in s.users && s.users[user].LastOfUser? && s.mutex == Free
    case _ => false
  }

  predicate InstallEnabled(s: State, step: Step) {
    match step
    case InstallSwitch(sv) => s.mutex == Free && s.install == NoInstall && sv !in s.svs
    case InstallBump => s.install.Switched? && s.current.Some? && s.current.value in s.svs
    case Scrape(t) => s.install.Scraping? && t in s.install.todo && HasThread(s, t)
    case UnrefScraped(t) => s.install.Scraping? && s.install.todo == {} && t in s.install.scraped
    case UnrefOld => s.install.Scraping? && s.install.todo == {} && s.install.scraped == map[]
    case CleanOld => s.install.CleaningOld?
    case _ => false
  }

  predicate Enabled(s: State, step: Step) {
    ReaderEnabled(s, step) || InstallEnabled(s, step)
  }

  function Incremented(svs: map<Sv, SvState>, sv: Sv): map<Sv, SvState> {
    if sv in svs then svs[sv := svs[sv].(refs := svs[sv].refs + 1)] else svs
  }

  // fetch_sub on a count that the invariant keeps positive.
  function Decremented(svs: map<Sv, SvState>, sv: Sv): map<Sv, SvState> {
    if sv in svs && svs[sv].refs > 0 then svs[sv := svs[sv].(refs := svs[sv].refs - 1)] else svs
  }

  function CleanedUp(svs: map<Sv, SvState>, sv: Sv): map<Sv, SvState> {
    if sv in svs then svs[sv := svs[sv].(cleaned := true)] else svs
  }

  function AddRef(s: State, sv: Sv): State {
    s.(svs := Incremented(s.svs, sv))
  }

  function DropRef(s: State, sv: Sv): State {
    s.(svs := Decremented(s.svs, sv))
  }

  function CleanUp(s: State, sv: Sv): State {
    s.(svs := CleanedUp(s.svs, sv))
  }

  predicate WasLast(s: State, sv: Sv) {
    sv in s.svs && s.svs[sv].refs == 1
  }

  function SetReader(s: State, t: Tid, r: Reader): State {
    s.(readers := s.readers[t := r])
  }

  function SwapStep(s: State, t: Tid): State
    requires HasThread(s, t) && Published(s).Some?
  {
    var ptr := if s.slots[t].Cached? then Some(s.slots[t].sv) else None;
    SetReader(s.(slots := s.slots[t := InUse], seen := s.seen[t := {Published(s).value}]), t, Swapped(ptr))
  }

  function CheckStep(s: State, t: Tid): State
    requires HasThread(s, t) && s.readers[t].Swapped?
    requires s.readers[t].ptr.Some? ==> s.readers[t].ptr.value in s.svs
  {
    match s.readers[t].ptr
    case None => SetReader(s, t, Waiting)
    case Some(sv) => SetReader(s, t, if s.svs[sv].version == s.number then Holding(sv) else Stale(sv))
  }

  function UnrefStaleStep(s: State, t: Tid): State
    requires HasThread(s, t) && s.readers[t].Stale?
  {
    var sv := s.readers[t].sv;
    SetReader(DropRef(s, sv), t, if WasLast(s, sv) then LastOfStale(sv) else Waiting)
  }

  function LockStep(s: State, t: Tid): State
    requires HasThread(s, t) && (s.readers[t].Waiting? || s.readers[t].LastOfStale?)
  {
    SetReader(s.(mutex := ByReader(t)), t, if s.readers[t].Waiting? then Locked else CleaningStale(s.readers[t].sv))
  }

  function CleanStaleStep(s: State, t: Tid): State
    requires HasThread(s, t) && s.readers[t].CleaningStale?
  {
    SetReader(CleanUp(s, s.readers[t].sv), t, Locked)
  }

  function RefCurrentStep(s: State, t: Tid): State
    requires HasThread(s, t) && s.current.Some?
  {
    SetReader(AddRef(s, s.current.value), t, Fetched(s.current.value))
  }

  function UnlockStep(s: State, t: Tid): State
    requires HasThread(s, t) && s.readers[t].Fetched?
  {
    SetReader(s.(mutex := Free), t, Holding(s.readers[t].sv))
  }

  function TakeRefStep(s: State, t: Tid): State
    requires HasThread(s, t) && s.readers[t].Holding?
  {
    SetReader(AddRef(s, s.readers[t].sv), t, Referenced(s.readers[t].sv))
  }

  function CompareAndSwapStep(s: State, t: Tid, user: nat): State
    requires HasThread(s, t) && (s.readers[t].Holding? || s.readers[t].Referenced?)
  {
    var r := s.readers[t];
    if s.slots[t] == InUse then
      var put := SetReader(s.(slots := s.slots[t := Cached(r.sv)]), t, Idle);
      if r.Referenced? then put.(users := s.users[user := Held(r.sv)]) else put
    else SetReader(s, t, Outdated(r.sv, r.Referenced?))
  }

  function UnrefOutdatedStep(s: State, t: Tid, user: nat): State
    requires HasThread(s, t) && s.readers[t].Outdated?
  {
    var r := s.readers[t];
    if r.referenced then SetReader(DropRef(s, r.sv), t, Idle).(users := s.users[user := Held(r.sv)])
    else SetReader(DropRef(s, r.sv), t, if WasLast(s, r.sv) then LastOfReturned(r.sv) else Idle)
  }

  function CleanReturnedStep(s: State, t: Tid): State
    requires HasThread(s, t) && s.readers[t].LastOfReturned?
  {
    SetReader(CleanUp(s, s.readers[t].sv), t, Idle)
  }

  function ReleaseUserStep(s: State, user: nat): State
    requires user in s.users && s.users[user].Held?
  {
    var sv := s.users[user].sv;
    DropRef(s, sv).(users := if WasLast(s, sv) then s.users[user := LastOfUser(sv)] else s.users - {user})
  }

  function CleanUserStep(s: State, user: nat): State
    requires user in s.users && s.users[user].LastOfUser?
  {
    CleanUp(s, s.users[user].sv).(users := s.users - {user})
  }

  function ApplyReader(s: State, step: Step): State
    requires ReaderEnabled(s, step)
  {
    match step
    case Swap(t) => SwapStep(s, t)
    case Check(t) => CheckStep(s, t)
    case UnrefStale(t) => UnrefStaleStep(s, t)
    case Lock(t) => LockStep(s, t)
    case CleanStale(t) => CleanStaleStep(s, t)
    case RefCurrent(t) => RefCurrentStep(s, t)
    case Unlock(t) => UnlockStep(s, t)
    case TakeRef(t) => TakeRefStep(s, t)
    case CompareAndSwap(t, user) => CompareAndSwapStep(s, t, user)
    case UnrefOutdated(t, user) => UnrefOutdatedStep(s, t, user)
    case CleanReturned(t) => CleanReturnedStep(s, t)
    case ReleaseUser(user) => ReleaseUserStep(s, user)
    case CleanUser(user) => CleanUserStep(s, user)
  }

  predicate Active(r: Reader) {
    !r.Idle?
  }

  function SwitchStep(s: State, sv: Sv): State {
    s.(svs := s.svs[sv := SvState(1, 0, false)], current := Some(sv), install := Switched(s.current), mutex := ByInstaller)
  }

  function BumpStep(s: State): State
    requires s.install.Switched? && s.current.Some? && s.current.value in s.svs
  {
    var sv := s.current.value;
    var bumped := s.(number := s.number + 1, svs := s.svs[sv := s.svs[sv].(version := s.number + 1)],
                     seen := map t | t in s.seen :: s.seen[t] + {sv});
    match s.install.replaced
    case None => bumped.(install := NoInstall, mutex := Free)
    case Some(prev) => bumped.(install := Scraping(prev, s.readers.Keys, map[]))
  }

  function ScrapeStep(s: State, t: Tid): State
    requires s.install.Scraping? && t in s.install.todo && HasThread(s, t)
  {
    var Scraping(prev, todo, scraped) := s.install;
    s.(slots := s.slots[t := Obsolete],
       install := Scraping(prev, todo - {t}, if s.slots[t].Cached? then scraped[t := s.slots[t].sv] else scraped))
  }

  function UnrefScrapedStep(s: State, t: Tid): State
    requires s.install.Scraping? && t in s.install.scraped
  {
    DropRef(s, s.install.scraped[t]).(install := s.install.(scraped := s.install.scraped - {t}))
  }

  function UnrefOldStep(s: State): State
    requires s.install.Scraping?
  {
    if WasLast(s, s.install.prev) then DropRef(s, s.install.prev).(install := CleaningOld(s.install.prev))
    else DropRef(s, s.install.prev).(install := NoInstall, mutex := Free)
  }

  function CleanOldStep(s: State): State
    requires s.install.CleaningOld?
  {
    CleanUp(s, s.install.prev).(install := NoInstall, mutex := Free)
  }

  function ApplyInstall(s: State, step: Step): State
    requires InstallEnabled(s, step)
  {
    match step
    case InstallSwitch(sv) => SwitchStep(s, sv)
    case InstallBump => BumpStep(s)
    case Scrape(t) => ScrapeStep(s, t)
    case UnrefScraped(t) => UnrefScrapedStep(s, t)
    case UnrefOld => UnrefOldStep(s)
    case CleanOld => CleanOldStep(s)
  }

  function Apply(s: State, step: Step): State
    requires Enabled(s, step)
  {
    if ReaderEnabled(s, step) then ApplyReader(s, step) else ApplyInstall(s, step)
  }

  predicate Initial(s: State) {
    && s.svs == map[] && s.current == None && s.number == 0 && s.users == map[]
    && s.mutex == Free && s.install == NoInstall
    && s.slots.Keys == s.readers.Keys == s.seen.Keys
    && (forall t :: t in s.slots ==> s.slots[t] == Obsolete)
    && (forall t :: t in s.readers ==> s.readers[t] == Idle)
  }

  ghost predicate IsRun(states: seq<State>, steps: seq<Step>) {
    && |states| == |steps| + 1 && Initial(states[0])
    && forall i :: 0 <= i < |steps| ==> Enabled(states[i], steps[i]) && states[i + 1] == Apply(states[i], steps[i])
  }

  // Who may hold a reference.
  datatype Token =
    | CurrentToken | OldToken
    | SlotToken(t: Tid) | ScrapedToken(t: Tid) | LocalToken(t: Tid) | ExtraToken(t: Tid)
    | UserToken(user: nat)

  function LocalOf(r: Reader): Option<Sv> {
    match r
    case Swapped(ptr) => ptr
    case Stale(sv) => Some(sv)
    case Fetched(sv) => Some(sv)
    case Holding(sv) => Some(sv)
    case Referenced(sv) => Some(sv)
    case Outdated(sv, _) => Some(sv)
    case _ => None
  }

  /** The SuperVersion a token holds one reference to. */
  function Owns(s: State, token: Token): Option<Sv> {
    match token
    case CurrentToken => s.current
    case OldToken =>
      (match s.install
       case Switched(prev) => prev
       case Scraping(prev, _, _) => Some(prev)
       case _ => None)
    case SlotToken(t) => if t in s.slots && s.slots[t].Cached? then Some(s.slots[t].sv) else None
    case ScrapedToken(t) => if s.install.Scraping? && t in s.install.scraped then Some(s.install.scraped[t]) else None
    case LocalToken(t) => if t in s.readers then LocalOf(s.readers[t]) else None
    case ExtraToken(t) =>
      if t in s.readers && s.readers[t].Referenced? then Some(s.readers[t].sv)
      else if t in s.readers && s.readers[t].Outdated? && s.readers[t].referenced then Some(s.readers[t].sv)
      else None
    case UserToken(user) => if user in s.users && s.users[user].Held? then Some(s.users[user].sv) else None
  }

  function AllTokens(s: State): (tokens: set<Token>)
    ensures forall token :: Owns(s, token).Some? ==> token in tokens
  {
    {CurrentToken, OldToken}
    + (set t | t in s.slots :: SlotToken(t))
    + (set t | t in (if s.install.Scraping? then s.install.scraped.Keys else {}) :: ScrapedToken(t))
    + (set t | t in s.readers :: LocalToken(t)) + (set t | t in s.readers :: ExtraToken(t))
    + (set user | user in s.users :: UserToken(user))
  }

  function Holders(s: State, sv: Sv): set<Token> {
    set token | token in AllTokens(s) && Owns(s, token) == Some(sv)
  }

  // Who is about to clean a SuperVersion up.
  datatype Cleaner = ReaderCleaner(t: Tid) | UserCleaner(user: nat) | InstallCleaner

  function Cleans(s: State, c: Cleaner): Option<Sv> {
    match c
    case ReaderCleaner(t) =>
      if t in s.readers && (s.readers[t].LastOfStale? || s.readers[t].CleaningStale? || s.readers[t].LastOfReturned?)
      then Some(s.readers[t].sv) else None
    case UserCleaner(user) => if user in s.users && s.users[user].LastOfUser? then Some(s.users[user].sv) else None
    case InstallCleaner => if s.install.CleaningOld? then Some(s.install.prev) else None
  }
}
