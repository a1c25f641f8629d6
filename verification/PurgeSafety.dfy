/**
 A purge never deletes a file in use, however late it runs.
 */
module PurgeSafety {
  import opened PurgeProtocol

  /** Out of every version, not an output of a running job, and with a number no job will get: such
      a file can never come into use again. */
  predicate Doomed(s: State, f: FileNo) {
    f < s.next && !InSomeVersion(s, f) && !IsOutput(s, f)
  }

  // The element of pending_outputs_ of job j is at or below all numbers the job has taken.
  predicate Guarded(pending: seq<Pending>, j: nat, outputs: set<FileNo>) {
    exists k :: 0 <= k < |pending| && pending[k].job == j && forall f :: f in outputs ==> pending[k].number <= f
  }

  /** pending_outputs_ is sorted, so that its first element is the smallest. */
  ghost predicate PendingOk(pending: seq<Pending>, jobs: map<nat, Job>, next: FileNo) {
    && (forall i, k :: 0 <= i < k < |pending| ==> pending[i].number <= pending[k].number)
    && (forall k :: 0 <= k < |pending| ==> pending[k].number <= next)
    && (forall j :: j in jobs ==> Guarded(pending, j, jobs[j].outputs))
    && (forall j, f :: j in jobs && f in jobs[j].outputs ==> f < next)
  }

  predicate JobOk(job: Job, disk: set<FileNo>) {
    job.written <= job.outputs && job.written <= disk
  }

  /** The files of every version, and those running jobs have written, are there. */
  ghost predicate FilesOk(s: State) {
    && (forall f :: f in s.disk || f in s.installed ==> f < s.next)
    && (forall f :: InSomeVersion(s, f) ==> f in s.disk && f in s.installed)
    && (forall j :: j in s.jobs ==> JobOk(s.jobs[j], s.disk))
    && (forall f :: f in s.obsolete ==> f in s.installed && !InSomeVersion(s, f))
  }

  predicate Aims(s: State, p: nat, f: FileNo) {
    p in s.purges && f in s.purges[p].todo && Deletes(s.purges[p], f)
  }

  /** Whatever is going to be deleted is doomed. */
  ghost predicate AimsOk(s: State) {
    && (forall p, f :: Aims(s, p, f) ==> Doomed(s, f))
    && (forall f :: f in s.queue ==> Doomed(s, f))
    && (forall w :: w in s.popped ==> Doomed(s, s.popped[w]))
  }

  ghost predicate Inv(s: State) {
    PendingOk(s.pending, s.jobs, s.next) && FilesOk(s) && AimsOk(s)
  }

  lemma InitialInv(s: State)
    requires Initial(s)
    ensures Inv(s)
  {
  }

  /** A doomed file stays doomed. */
  lemma DoomedStays(s: State, step: Step, f: FileNo)
    requires FilesOk(s) && Enabled(s, step) && Doomed(s, f)
    ensures Doomed(Apply(s, step), f)
  {
    if step.Install? {
      assert JobOk(s.jobs[step.job], s.disk);
      assert f !in s.jobs[step.job].outputs;
    }
    hide FilesOk;
  }

  // ---- pending_outputs_ ----

  lemma MinPendingIsLeast(s: State, f: FileNo)
    requires PendingOk(s.pending, s.jobs, s.next) && IsOutput(s, f)
    ensures !Below(f, MinPending(s))
  {
    var j :| j in s.jobs && f in s.jobs[j].outputs;
    assert Guarded(s.pending, j, s.jobs[j].outputs);
  }

  lemma {:induction false} WithoutSound(pending: seq<Pending>, job: nat)
    ensures forall e :: e in Without(pending, job) <==> e in pending && e.job != job
    ensures |Without(pending, job)| <= |pending|
  {
    if pending != [] { WithoutSound(pending[1..], job); }
  }

  lemma {:induction false} WithoutSorted(pending: seq<Pending>, job: nat)
    requires forall i, k :: 0 <= i < k < |pending| ==> pending[i].number <= pending[k].number
    ensures var rest := Without(pending, job); forall i, k :: 0 <= i < k < |rest| ==> rest[i].number <= rest[k].number
  {
    if pending != [] {
      WithoutSorted(pending[1..], job);
      WithoutSound(pending[1..], job);
      var tail := Without(pending[1..], job);
      forall k | 0 <= k < |tail| ensures pending[0].number <= tail[k].number {
        assert tail[k] in pending[1..];
      }
    }
  }

  lemma PendingAfterEnd(pending: seq<Pending>, jobs: map<nat, Job>, next: FileNo, job: nat)
    requires PendingOk(pending, jobs, next)
    ensures PendingOk(Without(pending, job), jobs - {job}, next)
  {
    var rest := Without(pending, job);
    WithoutSorted(pending, job);
    WithoutSound(pending, job);
    forall k | 0 <= k < |rest| ensures rest[k].number <= next { assert rest[k] in pending; }
    forall j | j in jobs - {job} ensures Guarded(rest, j, jobs[j].outputs) {
      assert Guarded(pending, j, jobs[j].outputs);
      var k :| 0 <= k < |pending| && pending[k].job == j && forall f :: f in jobs[j].outputs ==> pending[k].number <= f;
      assert pending[k] in rest;
    }
  }

  lemma PendingAfterBegin(pending: seq<Pending>, jobs: map<nat, Job>, next: FileNo, job: nat)
    requires PendingOk(pending, jobs, next)
    ensures PendingOk(pending + [Pending(job, next)], jobs[job := Job({}, {})], next)
  {
    var pending' := pending + [Pending(job, next)];
    assert pending'[|pending|].job == job;
    forall j | j in jobs ensures Guarded(pending', j, if j == job then {} else jobs[j].outputs) {
      if j != job {
        assert Guarded(pending, j, jobs[j].outputs);
        var k :| 0 <= k < |pending| && pending[k].job == j && forall f :: f in jobs[j].outputs ==> pending[k].number <= f;
        assert pending'[k] == pending[k];
      }
    }
  }

  lemma PendingAfterTake(pending: seq<Pending>, jobs: map<nat, Job>, next: FileNo, job: nat)
    requires PendingOk(pending, jobs, next) && job in jobs
    ensures PendingOk(pending, jobs[job := jobs[job].(outputs := jobs[job].outputs + {next})], next + 1)
  {
    assert Guarded(pending, job, jobs[job].outputs);
    var k :| 0 <= k < |pending| && pending[k].job == job && forall f :: f in jobs[job].outputs ==> pending[k].number <= f;
    assert Guarded(pending, job, jobs[job].outputs + {next});
  }

  lemma StepKeepsPending(s: State, step: Step)
    requires PendingOk(s.pending, s.jobs, s.next) && Enabled(s, step)
    ensures var s' := Apply(s, step); PendingOk(s'.pending, s'.jobs, s'.next)
  {
    match step
    case BeginJob(job) => PendingAfterBegin(s.pending, s.jobs, s.next, job);
    case TakeNumber(job) => PendingAfterTake(s.pending, s.jobs, s.next, job);
    case EndJob(job) => PendingAfterEnd(s.pending, s.jobs, s.next, job);
    case _ =>
  }

  // ---- Files ----

  lemma DeletesOnlyDoomed(s: State, step: Step)
    requires Inv(s) && Enabled(s, step) && DeletedBy(s, step).Some?
    ensures Doomed(s, DeletedBy(s, step).value)
  {
    hide PendingOk, FilesOk, Doomed;
    if step.PurgeFile? { assert Aims(s, step.purge, step.file); }
  }

  lemma FilesAfterDelete(s: State, s': State, f: FileNo)
    requires FilesOk(s) && Doomed(s, f) && s'.disk == s.disk - {f} && s'.installed == s.installed
    requires s'.next == s.next && s'.versions == s.versions && s'.jobs == s.jobs && s'.obsolete == s.obsolete
    ensures FilesOk(s')
  {
    forall j | j in s'.jobs ensures JobOk(s'.jobs[j], s'.disk) {
      assert JobOk(s.jobs[j], s.disk) && f !in s.jobs[j].outputs;
    }
    forall g | InSomeVersion(s', g) ensures g in s'.disk { assert InSomeVersion(s, g); }
    forall g | g in s'.obsolete ensures !InSomeVersion(s', g) { assert !InSomeVersion(s, g); }
  }

  lemma FilesAfterInstall(s: State, step: Step)
    requires FilesOk(s) && Enabled(s, step) && step.Install?
    ensures FilesOk(Apply(s, step))
  {
    var s' := Apply(s, step);
    assert JobOk(s.jobs[step.job], s.disk);
    forall f | InSomeVersion(s', f) ensures f in s'.disk && f in s'.installed && f !in s.obsolete {
      assert f in step.added || InSomeVersion(s, f);
    }
  }

  lemma FilesAfterDrop(s: State, v: nat)
    requires FilesOk(s) && v in s.versions
    ensures FilesOk(DropVersionStep(s, v))
  {
    var s' := DropVersionStep(s, v);
    forall f | InSomeVersion(s', f) ensures InSomeVersion(s, f) {}
    forall f | f in s'.obsolete ensures f in s'.installed && !InSomeVersion(s', f) {
      if f !in s.obsolete { assert InSomeVersion(s, f); }
    }
  }

  lemma FilesOtherwise(s: State, step: Step)
    requires FilesOk(s) && Enabled(s, step) && !step.Install? && !step.DropVersion? && DeletedBy(s, step).None?
    requires step.WriteFile? ==> step.file < s.next
    ensures FilesOk(Apply(s, step))
  {
    var s' := Apply(s, step);
    assert s'.versions == s.versions && s'.disk >= s.disk && s'.next >= s.next && s'.installed == s.installed;
    forall f ensures InSomeVersion(s', f) <==> InSomeVersion(s, f) {}
    assert s'.obsolete <= s.obsolete;
    forall j | j in s'.jobs ensures JobOk(s'.jobs[j], s'.disk) {
      if j in s.jobs { assert JobOk(s.jobs[j], s.disk); }
    }
    if step.WriteFile? { assert step.file in s.jobs[step.job].outputs; }
  }

  lemma StepKeepsFiles(s: State, step: Step)
    requires Inv(s) && Enabled(s, step)
    ensures FilesOk(Apply(s, step))
  {
    assert step.WriteFile? ==> step.file < s.next;
    hide PendingOk, AimsOk, FilesOk, Doomed;
    if step.Install? {
      FilesAfterInstall(s, step);
    } else if step.DropVersion? {
      FilesAfterDrop(s, step.version);
    } else if DeletedBy(s, step).Some? {
      DeletesOnlyDoomed(s, step);
      FilesAfterDelete(s, Apply(s, step), DeletedBy(s, step).value);
    } else {
      FilesOtherwise(s, step);
    }
  }

  // ---- Purges ----

  /** What FindObsoleteFiles leaves for deletion is doomed when the mutex is released. */
  lemma FindAimsAtDoomed(s: State, full: bool, f: FileNo)
    requires PendingOk(s.pending, s.jobs, s.next) && FilesOk(s)
    requires f in FoundObsolete(s) || f in FoundByScan(s)
    requires f !in LiveFiles(s) && Below(f, MinPending(s))
    ensures Doomed(s, f)
  {
    if IsOutput(s, f) { MinPendingIsLeast(s, f); }
  }

  // A step adds nothing to what is going to be deleted, except that Find does so by its own rules
  // and that files move on to the queue and to a background purge.
  lemma AimsFrom(s: State, step: Step, p: nat, f: FileNo)
    requires Enabled(s, step) && Aims(Apply(s, step), p, f)
    ensures || Aims(s, p, f)
            || (step.Find? && p == step.purge && (f in FoundObsolete(s) || f in FoundByScan(s))
                && f !in LiveFiles(s) && Below(f, MinPending(s)))
  {
    hide LiveFiles, InSomeVersion, Below;
  }

  lemma QueueFrom(s: State, step: Step, f: FileNo)
    requires Enabled(s, step) && f in Apply(s, step).queue
    ensures f in s.queue || (step.PurgeFile? && f == step.file && Aims(s, step.purge, f))
  {
  }

  lemma PoppedFrom(s: State, step: Step, w: nat)
    requires Enabled(s, step) && w in Apply(s, step).popped
    ensures (w in s.popped && Apply(s, step).popped[w] == s.popped[w]) || Apply(s, step).popped[w] in s.queue
  {
  }

  lemma StepKeepsAims(s: State, step: Step)
    requires Inv(s) && Enabled(s, step)
    ensures AimsOk(Apply(s, step))
  {
    hide PendingOk, FilesOk, Doomed, Aims, Apply, Enabled;
    var s' := Apply(s, step);
    forall p, f | Aims(s', p, f) ensures Doomed(s', f) {
      AimsFrom(s, step, p, f);
      if !Aims(s, p, f) { FindAimsAtDoomed(s, step.full, f); }
      DoomedStays(s, step, f);
    }
    forall f | f in s'.queue ensures Doomed(s', f) {
      QueueFrom(s, step, f);
      DoomedStays(s, step, f);
    }
    forall w | w in s'.popped ensures Doomed(s', s'.popped[w]) {
      PoppedFrom(s, step, w);
      DoomedStays(s, step, s'.popped[w]);
    }
  }

  /** Every step keeps the invariant. */
  lemma StepKeepsInv(s: State, step: Step)
    requires Inv(s) && Enabled(s, step)
    ensures Inv(Apply(s, step))
  {
    hide PendingOk, FilesOk, AimsOk, Apply, Enabled;
    StepKeepsPending(s, step);
    StepKeepsFiles(s, step);
    StepKeepsAims(s, step);
  }

  lemma {:induction false} RunKeepsInv(states: seq<State>, steps: seq<Step>, i: nat)
    requires IsRun(states, steps) && i < |states|
    ensures Inv(states[i])
  {
    hide Inv, Enabled, Apply, Initial;
    if i == 0 {
      InitialInv(states[0]);
    } else {
      RunKeepsInv(states, steps, i - 1);
      StepKeepsInv(states[i - 1], steps[i - 1]);
    }
  }

  /** In every run, no purge, however old its snapshot, deletes a file that is in a version alive or
      is an output of a running job. */
  lemma NeverDeletesFileInUse(states: seq<State>, steps: seq<Step>, i: nat)
    requires IsRun(states, steps) && i < |steps| && DeletedBy(states[i], steps[i]).Some?
    ensures var f := DeletedBy(states[i], steps[i]).value; !InSomeVersion(states[i], f) && !IsOutput(states[i], f)
  {
    hide Inv, Enabled, Apply, Initial, InSomeVersion, IsOutput;
    RunKeepsInv(states, steps, i);
    DeletesOnlyDoomed(states[i], steps[i]);
  }

  /** In every state of every run, the files of every version alive, and those running jobs have
      written, exist. */
  lemma FilesInUseExist(states: seq<State>, steps: seq<Step>, i: nat, f: FileNo)
    requires IsRun(states, steps) && i < |states|
    requires InSomeVersion(states[i], f) || (exists j :: j in states[i].jobs && f in states[i].jobs[j].written)
    ensures f in states[i].disk
  {
    RunKeepsInv(states, steps, i);
    hide PendingOk, AimsOk, IsRun;
    if !InSomeVersion(states[i], f) {
      var j :| j in states[i].jobs && f in states[i].jobs[j].written;
      assert JobOk(states[i].jobs[j], states[i].disk);
    }
  }
}
