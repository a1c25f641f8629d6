/**
 How table files come and go: background jobs create them, versions refer to them, FindObsoleteFiles
 takes a snapshot under the DB mutex and PurgeObsoleteFiles deletes later, without it.

 A state machine: one step per section under the mutex and per file created, deleted or queued.
 Files are their numbers.
 */
module PurgeProtocol {
  import opened Options

  type FileNo = nat

  // An element of pending_outputs_: the next file number when the job began.
  datatype Pending = Pending(job: nat, number: FileNo)

  // The numbers a running job took, and those it has written a file for.
  datatype Job = Job(outputs: set<FileNo>, written: set<FileNo>)

  /** What FindObsoleteFiles put into a JobContext: `bound` is min_pending_output (none: no pending
      outputs), `todo` the candidates not yet looked at, `chosen` is files_to_del. */
  datatype Purge = Purge(bound: Option<FileNo>, live: set<FileNo>, todo: set<FileNo>, chosen: set<FileNo>, scheduleOnly: bool)

  datatype State = State(
    next: FileNo,                      // next_file_number_
    pending: seq<Pending>,             // pending_outputs_
    jobs: map<nat, Job>,
    versions: map<nat, set<FileNo>>,   // the versions alive, of all column families
    current: map<nat, nat>,            // each column family's current version
    obsolete: set<FileNo>,             // obsolete_files_
    grabbed: set<FileNo>,              // files_grabbed_for_purge_
    purges: map<nat, Purge>,
    queue: seq<FileNo>,                // purge_queue_
    popped: map<nat, FileNo>,          // taken from purge_queue_ by a background purge
    disk: set<FileNo>,
    // Files that were ever part of a version, and files deleted, in order.
    installed: set<FileNo>,
    deleted: seq<FileNo>)

  datatype Step =
    | BeginJob(job: nat)
    | TakeNumber(job: nat)
    | TakeOtherNumber
    | WriteFile(job: nat, file: FileNo)
    | Install(job: nat, cf: nat, version: nat, added: set<FileNo>, removed: set<FileNo>)
    | DropVersion(version: nat)
    | EndJob(job: nat)
    | Find(purge: nat, full: bool, scheduleOnly: bool)
    | PurgeFile(purge: nat, file: FileNo)
    | EndPurge(purge: nat)
    | Pop(worker: nat)
    | DeletePopped(worker: nat)

  predicate InSomeVersion(s: State, f: FileNo) {
    exists v :: v in s.versions && f in s.versions[v]
  }

  predicate IsOutput(s: State, f: FileNo) {
    exists j :: j in s.jobs && f in s.jobs[j].outputs
  }

  /** AddLiveFiles. */
  function LiveFiles(s: State): (live: set<FileNo>)
    ensures forall f :: f in live <==> InSomeVersion(s, f)
  {
    set v, f | v in s.versions && f in s.versions[v] :: f
  }

  function MinPending(s: State): Option<FileNo> {
    if s.pending == [] then None else Some(s.pending[0].number)
  }

  predicate Below(f: FileNo, bound: Option<FileNo>) {
    bound.None? || f < bound.value
  }

  // PurgeObsoleteFiles deletes the file (its `keep` is false).
  predicate Deletes(p: Purge, f: FileNo) {
    f !in p.live && Below(f, p.bound)
  }

  predicate ShouldPurge(s: State, f: FileNo) {
    f !in s.grabbed && f !in s.queue
  }

  function Without(pending: seq<Pending>, job: nat): seq<Pending> {
    if pending == [] then [] else
    if pending[0].job == job then Without(pending[1..], job) else [pending[0]] + Without(pending[1..], job)
  }

  function BeginJobStep(s: State, job: nat): State {
    s.(pending := s.pending + [Pending(job, s.next)], jobs := s.jobs[job := Job({}, {})])
  }

  function TakeNumberStep(s: State, job: nat): State
    requires job in s.jobs
  {
    s.(next := s.next + 1, jobs := s.jobs[job := s.jobs[job].(outputs := s.jobs[job].outputs + {s.next})])
  }

  function WriteFileStep(s: State, job: nat, f: FileNo): State
    requires job in s.jobs
  {
    s.(disk := s.disk + {f}, jobs := s.jobs[job := s.jobs[job].(written := s.jobs[job].written + {f})])
  }

  function InstallStep(s: State, cf: nat, version: nat, added: set<FileNo>, removed: set<FileNo>): State {
    var base := if cf in s.current && s.current[cf] in s.versions then s.versions[s.current[cf]] else {};
    s.(versions := s.versions[version := base - removed + added], current := s.current[cf := version],
       installed := s.installed + added)
  }

  // ~Version: files no other version refers to become obsolete.
  function DropVersionStep(s: State, version: nat): State
    requires version in s.versions
  {
    var t := s.(versions := s.versions - {version});
    t.(obsolete := s.obsolete + (set f | f in s.versions[version] && !InSomeVersion(t, f)))
  }

  function EndJobStep(s: State, job: nat): State {
    s.(pending := Without(s.pending, job), jobs := s.jobs - {job})
  }

  function FoundObsolete(s: State): set<FileNo> {
    set f | f in s.obsolete && Below(f, MinPending(s))
  }

  function FoundByScan(s: State): set<FileNo> {
    set f | f in s.disk && f !in FoundObsolete(s) && ShouldPurge(s, f)
  }

  function FindStep(s: State, purge: nat, full: bool, scheduleOnly: bool): State {
    var found := FoundObsolete(s);
    var todo := found + (if full then FoundByScan(s) else {});
    s.(obsolete := s.obsolete - found, grabbed := s.grabbed + found,
       purges := s.purges[purge := Purge(MinPending(s), LiveFiles(s), todo, {}, scheduleOnly)])
  }

  function Delete(s: State, f: FileNo): State {
    s.(disk := s.disk - {f}, deleted := s.deleted + [f])
  }

  function PurgeFileStep(s: State, purge: nat, f: FileNo): State
    requires purge in s.purges
  {
    var p := s.purges[purge];
    if !Deletes(p, f) then s.(purges := s.purges[purge := p.(todo := p.todo - {f})])
    else
      var t := s.(purges := s.purges[purge := p.(todo := p.todo - {f}, chosen := p.chosen + {f})]);
      if p.scheduleOnly then t.(queue := s.queue + [f]) else Delete(t, f)
  }

  function EndPurgeStep(s: State, purge: nat): State
    requires purge in s.purges
  {
    s.(grabbed := s.grabbed - s.purges[purge].chosen, purges := s.purges - {purge})
  }

  function PopStep(s: State, worker: nat): State
    requires s.queue != []
  {
    s.(popped := s.popped[worker := s.queue[0]], queue := s.queue[1..])
  }

  function DeletePoppedStep(s: State, worker: nat): State
    requires worker in s.popped
  {
    Delete(s, s.popped[worker]).(popped := s.popped - {worker})
  }

  predicate Enabled(s: State, step: Step) {
    match step
    case BeginJob(job) => job !in s.jobs
    case TakeNumber(job) => job in s.jobs
    case TakeOtherNumber => true
    case WriteFile(job, f) => job in s.jobs && f in s.jobs[job].outputs && f !in s.jobs[job].written
    case Install(job, cf, version, added, removed) =>
      // each output is added by one version edit
      job in s.jobs && version !in s.versions && added <= s.jobs[job].written && added !! s.installed
    case DropVersion(version) => version in s.versions && version !in s.current.Values
    case EndJob(job) => job in s.jobs
    case Find(purge, _, _) => purge !in s.purges
    case PurgeFile(purge, f) => purge in s.purges && f in s.purges[purge].todo
    case EndPurge(purge) => purge in s.purges && s.purges[purge].todo == {}
    case Pop(worker) => worker !in s.popped && s.queue != []
    case DeletePopped(worker) => worker in s.popped
  }

  function Apply(s: State, step: Step): State
    requires Enabled(s, step)
  {
    match step
    case BeginJob(job) => BeginJobStep(s, job)
    case TakeNumber(job) => TakeNumberStep(s, job)
    case TakeOtherNumber => s.(next := s.next + 1)
    case WriteFile(job, f) => WriteFileStep(s, job, f)
    case Install(_, cf, version, added, removed) => InstallStep(s, cf, version, added, removed)
    case DropVersion(version) => DropVersionStep(s, version)
    case EndJob(job) => EndJobStep(s, job)
    case Find(purge, full, scheduleOnly) => FindStep(s, purge, full, scheduleOnly)
    case PurgeFile(purge, f) => PurgeFileStep(s, purge, f)
    case EndPurge(purge) => EndPurgeStep(s, purge)
    case Pop(worker) => PopStep(s, worker)
    case DeletePopped(worker) => DeletePoppedStep(s, worker)
  }

  // An opened database: the files of its versions are there, nothing is under way.
  ghost predicate Initial(s: State) {
    && s.pending == [] && s.jobs == map[] && s.obsolete == {} && s.grabbed == {} && s.purges == map[]
    && s.queue == [] && s.popped == map[] && s.deleted == []
    && (forall v, f :: v in s.versions && f in s.versions[v] ==> f in s.disk && f in s.installed)
    && (forall f :: f in s.disk ==> f < s.next) && (forall f :: f in s.installed ==> f < s.next)
    && (forall f :: f in s.installed && f in s.disk ==> InSomeVersion(s, f))
  }

  ghost predicate IsRun(states: seq<State>, steps: seq<Step>) {
    && |states| == |steps| + 1 && Initial(states[0])
    && forall i :: 0 <= i < |steps| ==> Enabled(states[i], steps[i]) && states[i + 1] == Apply(states[i], steps[i])
  }

  // The file a step deletes.
  function DeletedBy(s: State, step: Step): Option<FileNo>
    requires Enabled(s, step)
  {
    match step
    case PurgeFile(purge, f) =>
      if Deletes(s.purges[purge], f) && !s.purges[purge].scheduleOnly then Some(f) else None
    case DeletePopped(worker) => Some(s.popped[worker])
    case _ => None
  }
}
