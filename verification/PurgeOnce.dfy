/**
 A file that was part of a version is never leaked; and it is deleted only once exactly as long as no
 full scan takes up a file that a background purge has taken from purge_queue_ and not yet deleted.
 */
module PurgeOnce {
  import opened Options
  import opened PurgeProtocol
  import opened PurgeSafety

  // Who is going to delete a file, or still has to hand it to somebody who will.
  datatype Owner = ByObsolete | ByPurge(p: nat) | ByQueue | ByWorker(w: nat)

  predicate Owned(s: State, o: Owner, f: FileNo) {
    match o
    case ByObsolete => f in s.obsolete
    case ByPurge(p) => Aims(s, p, f)
    case ByQueue => f in s.queue
    case ByWorker(w) => w in s.popped && s.popped[w] == f
  }

  ghost predicate HasOwner(s: State, f: FileNo) {
    exists o :: Owned(s, o, f)
  }

  /** What holds of a file that was once part of a version: it is in a version or exactly one owner
      will delete it, while it exists. */
  ghost predicate FileOk(s: State, f: FileNo) {
    && (forall a, b :: Owned(s, a, f) && Owned(s, b, f) ==> a == b)
    && (HasOwner(s, f) <==> f in s.disk && !InSomeVersion(s, f))
    && (forall p :: Aims(s, p, f) ==> f in s.grabbed)
  }

  predicate Chosen(s: State, p: nat, f: FileNo) {
    p in s.purges && f in s.purges[p].chosen
  }

  ghost predicate ChosenOk(s: State) {
    forall p, f :: Chosen(s, p, f) ==> Doomed(s, f) && (f in s.installed ==> f !in s.obsolete && forall q :: !Aims(s, q, f))
  }

  ghost predicate DeletedOk(s: State) {
    && (forall f :: f in s.deleted ==> Doomed(s, f) && f !in s.disk)
    && (forall i, k :: 0 <= i < k < |s.deleted| && s.deleted[i] in s.installed ==> s.deleted[i] != s.deleted[k])
    && (forall i, k :: 0 <= i < k < |s.queue| && s.queue[i] in s.installed ==> s.queue[i] != s.queue[k])
  }

  // A number belongs to one job, which writes the file before it is installed.
  ghost predicate JobsOk(s: State) {
    && (forall j, k, f :: Takes(s, j, f) && Takes(s, k, f) ==> j == k)
    && (forall j, f :: Takes(s, j, f) && f in s.installed ==> f in s.jobs[j].written)
  }

  predicate Takes(s: State, j: nat, f: FileNo) {
    j in s.jobs && f in s.jobs[j].outputs
  }

  ghost predicate OnceInv(s: State) {
    && (forall f :: f in s.installed ==> FileOk(s, f))
    && ChosenOk(s) && DeletedOk(s) && JobsOk(s)
  }

  // A full scan takes the file up, and it was part of a version.
  predicate TakenUp(s: State, f: FileNo) {
    f in s.installed && ShouldPurge(s, f) && Below(f, MinPending(s))
  }

  // A full scan does not take up what a background purge has taken from the queue and not yet deleted.
  predicate QuietScan(s: State, step: Step) {
    step.Find? && step.full ==> forall w :: w in s.popped ==> !TakenUp(s, s.popped[w])
  }

  lemma InitialOnce(s: State)
    requires Initial(s)
    ensures OnceInv(s)
  {
    forall f | f in s.installed ensures FileOk(s, f) {
      forall o ensures !Owned(s, o, f) {}
    }
  }

  // ---- One file ----

  lemma SameOwners(s: State, s': State, f: FileNo)
    requires FileOk(s, f) && (forall o :: Owned(s', o, f) <==> Owned(s, o, f))
    requires (f in s'.disk && !InSomeVersion(s', f)) <==> (f in s.disk && !InSomeVersion(s, f))
    requires f in s.grabbed ==> f in s'.grabbed || forall p :: !Aims(s, p, f)
    ensures FileOk(s', f)
  {
    forall p | Aims(s', p, f) ensures f in s'.grabbed { assert Owned(s', ByPurge(p), f) && Owned(s, ByPurge(p), f); }
    hide Owned, InSomeVersion, Aims;
    if HasOwner(s, f) {
      var o :| Owned(s, o, f);
      assert Owned(s', o, f);
    }
  }

  // The file passes from owner a to owner b.
  lemma OwnerChanges(s: State, s': State, f: FileNo, a: Owner, b: Owner)
    requires FileOk(s, f) && Owned(s, a, f) && Owned(s', b, f)
    requires forall o :: o != b ==> (Owned(s', o, f) ==> Owned(s, o, f) && o != a)
    requires f in s'.disk && !InSomeVersion(s', f) && (b.ByPurge? ==> f in s'.grabbed)
    ensures FileOk(s', f)
  {
    forall o | Owned(s', o, f) ensures o == b {}
    OneOwner(s', f, b);
  }

  // The file has one owner.
  lemma OneOwner(s': State, f: FileNo, b: Owner)
    requires Owned(s', b, f) && (forall o :: Owned(s', o, f) ==> o == b)
    requires f in s'.disk && !InSomeVersion(s', f) && (b.ByPurge? ==> f in s'.grabbed)
    ensures FileOk(s', f)
  {
    forall p | Aims(s', p, f) ensures f in s'.grabbed { assert Owned(s', ByPurge(p), f); }
    hide Owned, InSomeVersion, Aims;
  }

  lemma NoOwner(s': State, f: FileNo)
    requires (forall o :: !Owned(s', o, f)) && !(f in s'.disk && !InSomeVersion(s', f))
    ensures FileOk(s', f)
  {
    forall p ensures !Aims(s', p, f) { assert !Owned(s', ByPurge(p), f); }
    hide Owned, InSomeVersion, Aims;
  }

  // ---- Each step, for one file ----

  lemma JobStepKeepsFile(s: State, step: Step, f: FileNo)
    requires FileOk(s, f) && Enabled(s, step) && (step.WriteFile? ==> step.file != f)
    requires step.BeginJob? || step.TakeNumber? || step.TakeOtherNumber? || step.WriteFile? || step.EndJob?
    ensures FileOk(Apply(s, step), f)
  {
    hide FileOk;
    SameFacts(s, Apply(s, step), f);
  }

  lemma SameFacts(s: State, s': State, f: FileNo)
    requires FileOk(s, f) && s'.obsolete == s.obsolete && s'.purges == s.purges && s'.queue == s.queue && s'.popped == s.popped
    requires s'.grabbed == s.grabbed && (f in s'.disk <==> f in s.disk) && s'.versions == s.versions
    ensures FileOk(s', f)
  {
    SameOwners(s, s', f);
  }

  lemma InstallKeepsFile(s: State, step: Step, f: FileNo)
    requires Inv(s) && Enabled(s, step) && step.Install? && (f in s.installed ==> FileOk(s, f)) && f in Apply(s, step).installed
    ensures FileOk(Apply(s, step), f)
  {
    hide PendingOk;
    var s' := Apply(s, step);
    if f in s.installed {
      hide FilesOk, AimsOk;
      assert f !in step.added;
      assert InSomeVersion(s', f) <==> InSomeVersion(s, f) by {
        if InSomeVersion(s, f) {
          var v :| v in s.versions && f in s.versions[v];
          assert v in s'.versions && f in s'.versions[v];
        }
      }
      SameOwners(s, s', f);
    } else {
      NewlyInstalled(s, step, f);
    }
  }

  lemma NewlyInstalled(s: State, step: Step, f: FileNo)
    requires FilesOk(s) && AimsOk(s) && Enabled(s, step) && step.Install? && f in step.added
    ensures FileOk(Apply(s, step), f)
  {
    var s' := Apply(s, step);
    assert JobOk(s.jobs[step.job], s.disk);
    assert IsOutput(s, f);
    forall o ensures !Owned(s', o, f) {
      assert Owned(s', o, f) <==> Owned(s, o, f);
      assert Owned(s, o, f) ==> o.ByObsolete? || Doomed(s, f);
    }
    assert f in s'.versions[step.version];
    NoOwner(s', f);
  }

  lemma DropKeepsFile(s: State, v: nat, f: FileNo)
    requires FileOk(s, f) && v in s.versions
    requires InSomeVersion(s, f) ==> f in s.disk
    ensures FileOk(DropVersionStep(s, v), f)
  {
    var s' := DropVersionStep(s, v);
    assert InSomeVersion(s', f) ==> InSomeVersion(s, f);
    if InSomeVersion(s, f) && !InSomeVersion(s', f) {
      var u :| u in s.versions && f in s.versions[u];
      assert u == v by { assert u != v ==> u in s'.versions; }
      assert Owned(s', ByObsolete, f);
      forall o | Owned(s', o, f) ensures o == ByObsolete { assert o != ByObsolete ==> Owned(s, o, f); }
      OneOwner(s', f, ByObsolete);
    } else {
      assert f in s'.obsolete <==> f in s.obsolete by {
        if f in s.versions[v] { assert InSomeVersion(s, f); }
      }
      SameOwners(s, s', f);
    }
  }

  lemma FindKeepsFile(s: State, p: nat, full: bool, scheduleOnly: bool, f: FileNo)
    requires FileOk(s, f) && p !in s.purges && f in s.installed && QuietScan(s, Find(p, full, scheduleOnly))
    ensures FileOk(FindStep(s, p, full, scheduleOnly), f)
  {
    var s' := FindStep(s, p, full, scheduleOnly);
    if f in FoundObsolete(s) {
      assert Owned(s, ByObsolete, f) && f !in LiveFiles(s);
      assert Owned(s', ByPurge(p), f);
      OwnerChanges(s, s', f, ByObsolete, ByPurge(p));
    } else {
      ScanAimsAt(s, p, full, scheduleOnly, f);
      SameOwners(s, s', f);
    }
  }

  /** A scan aims at a file that already has an owner exactly if a background purge has it in hand,
      and the purge that queued it has ended. */
  lemma ScanAimsAt(s: State, p: nat, full: bool, scheduleOnly: bool, f: FileNo)
    requires FileOk(s, f) && p !in s.purges && f !in FoundObsolete(s)
    ensures Aims(FindStep(s, p, full, scheduleOnly), p, f) <==>
            full && (exists w :: Owned(s, ByWorker(w), f)) && ShouldPurge(s, f) && Below(f, MinPending(s))
  {
    if full && f in s.disk && !InSomeVersion(s, f) && ShouldPurge(s, f) && Below(f, MinPending(s)) {
      var o :| Owned(s, o, f);
      assert o.ByWorker?;
    }
    if exists w :: Owned(s, ByWorker(w), f) { assert HasOwner(s, f); }
  }

  lemma PurgeFileKeeps(s: State, p: nat, g: FileNo, f: FileNo)
    requires FileOk(s, f) && p in s.purges && g in s.purges[p].todo
    ensures FileOk(PurgeFileStep(s, p, g), f)
  {
    hide FileOk, Owned, Aims;
    if f == g && Aims(s, p, f) {
      PurgedFile(s, p, f);
    } else {
      OtherOwner(s, p, g, f, ByObsolete);
      forall o ensures Owned(PurgeFileStep(s, p, g), o, f) <==> Owned(s, o, f) { OtherOwner(s, p, g, f, o); }
      SameOwners(s, PurgeFileStep(s, p, g), f);
    }
  }

  lemma OtherOwner(s: State, p: nat, g: FileNo, f: FileNo, o: Owner)
    requires p in s.purges && g in s.purges[p].todo && !(f == g && Aims(s, p, f))
    ensures var s' := PurgeFileStep(s, p, g);
            (Owned(s', o, f) <==> Owned(s, o, f)) && (f in s'.disk <==> f in s.disk)
  {
    if o.ByPurge? {
      OtherAim(s, p, g, f, o.p);
    } else {
      assert f in s.queue + [g] <==> f in s.queue || f == g;
    }
  }

  lemma OtherAim(s: State, p: nat, g: FileNo, f: FileNo, q: nat)
    requires p in s.purges && g in s.purges[p].todo && !(f == g && Aims(s, p, f))
    ensures Aims(PurgeFileStep(s, p, g), q, f) <==> Aims(s, q, f)
  {
  }

  lemma PurgedFile(s: State, p: nat, f: FileNo)
    requires FileOk(s, f) && Aims(s, p, f)
    ensures FileOk(PurgeFileStep(s, p, f), f)
  {
    var s' := PurgeFileStep(s, p, f);
    assert Owned(s, ByPurge(p), f);
    if s.purges[p].scheduleOnly {
      assert Owned(s', ByQueue, f);
      OwnerChanges(s, s', f, ByPurge(p), ByQueue);
    } else {
      forall o ensures !Owned(s', o, f) { assert Owned(s', o, f) ==> Owned(s, o, f); }
      NoOwner(s', f);
    }
  }

  lemma EndPurgeKeeps(s: State, p: nat, f: FileNo)
    requires FileOk(s, f) && p in s.purges && s.purges[p].todo == {} && (Chosen(s, p, f) ==> forall q :: !Aims(s, q, f))
    ensures FileOk(EndPurgeStep(s, p), f)
  {
    var s' := EndPurgeStep(s, p);
    SameOwners(s, s', f);
  }

  lemma PopKeeps(s: State, w: nat, f: FileNo)
    requires FileOk(s, f) && w !in s.popped && s.queue != []
    requires forall k :: 0 < k < |s.queue| && s.queue[0] == f ==> s.queue[k] != f
    ensures FileOk(PopStep(s, w), f)
  {
    var s' := PopStep(s, w);
    assert s.queue == [s.queue[0]] + s'.queue;
    if s.queue[0] == f {
      assert Owned(s, ByQueue, f) && Owned(s', ByWorker(w), f);
      assert f !in s'.queue;
      OwnerChanges(s, s', f, ByQueue, ByWorker(w));
    } else {
      SameOwners(s, s', f);
    }
  }

  lemma DeletePoppedKeeps(s: State, w: nat, f: FileNo)
    requires FileOk(s, f) && w in s.popped
    ensures FileOk(DeletePoppedStep(s, w), f)
  {
    var s' := DeletePoppedStep(s, w);
    if s.popped[w] == f {
      assert Owned(s, ByWorker(w), f);
      forall o ensures !Owned(s', o, f) { assert Owned(s', o, f) ==> Owned(s, o, f); }
      NoOwner(s', f);
    } else {
      SameOwners(s, s', f);
    }
  }

  lemma StepKeepsFile(s: State, step: Step, f: FileNo)
    requires Inv(s) && OnceInv(s) && Enabled(s, step) && QuietScan(s, step) && f in Apply(s, step).installed
    ensures FileOk(Apply(s, step), f)
  {
    assert !step.Install? ==> f in s.installed;
    assert f in s.installed ==> FileOk(s, f);
    assert f in s.installed && InSomeVersion(s, f) ==> f in s.disk;
    if step.WriteFile? { assert Takes(s, step.job, step.file); }
    if step.EndPurge? { assert Chosen(s, step.purge, f) ==> forall q :: !Aims(s, q, f); }
    if step.Pop? { assert s.queue[0] == f ==> forall k :: 0 < k < |s.queue| ==> s.queue[k] != f; }
    hide FileOk, PendingOk, FilesOk, AimsOk, OnceInv, Takes, Chosen, Aims;
    match step
    case Install(_, _, _, _, _) => InstallKeepsFile(s, step, f);
    case DropVersion(v) => DropKeepsFile(s, v, f);
    case Find(p, full, scheduleOnly) => FindKeepsFile(s, p, full, scheduleOnly, f);
    case PurgeFile(p, g) => PurgeFileKeeps(s, p, g, f);
    case EndPurge(p) => EndPurgeKeeps(s, p, f);
    case Pop(w) => PopKeeps(s, w, f);
    case DeletePopped(w) => DeletePoppedKeeps(s, w, f);
    case _ => JobStepKeepsFile(s, step, f);
  }

  // ---- The other parts ----

  lemma InstallsOutputs(s: State, step: Step, f: FileNo)
    requires FilesOk(s) && Enabled(s, step) && f in Apply(s, step).installed && f !in s.installed
    ensures IsOutput(s, f) && step.Install? && f in step.added
  {
    assert step.Install? && f in step.added;
    assert JobOk(s.jobs[step.job], s.disk) && f in s.jobs[step.job].outputs;
  }

  lemma JobsStay(s: State, step: Step)
    requires Inv(s) && JobsOk(s) && Enabled(s, step)
    ensures JobsOk(Apply(s, step))
  {
    hide AimsOk;
    var s' := Apply(s, step);
    forall j, f | Takes(s', j, f) ensures Takes(s, j, f) || (f == s.next && step == TakeNumber(j)) {}
    forall j: nat, f: FileNo | Takes(s', j, f) && f in s'.installed ensures f in s'.jobs[j].written {
      if f in s.installed {
        assert f < s.next && Takes(s, j, f);
      } else {
        InstallsOutputs(s, step, f);
        assert JobOk(s.jobs[step.job], s.disk) && Takes(s, step.job, f) && Takes(s, j, f);
      }
    }
    forall j, k, f | Takes(s', j, f) && Takes(s', k, f) ensures j == k {
      if f == s.next && step.TakeNumber? {
        assert !Takes(s, j, f) && !Takes(s, k, f);
      }
    }
  }

  lemma DeletedIsGone(s: State, step: Step)
    requires Inv(s) && OnceInv(s) && Enabled(s, step) && DeletedBy(s, step).Some? && DeletedBy(s, step).value in s.installed
    ensures DeletedBy(s, step).value in s.disk
  {
    var f := DeletedBy(s, step).value;
    assert FileOk(s, f);
    var o := if step.PurgeFile? then ByPurge(step.purge) else ByWorker(step.worker);
    assert Owned(s, o, f);
  }

  lemma ChosenFrom(s: State, step: Step, p: nat, f: FileNo)
    requires Enabled(s, step) && Chosen(Apply(s, step), p, f)
    ensures Chosen(s, p, f) || (step == PurgeFile(p, f) && Aims(s, p, f))
  {
  }

  lemma ObsoleteFrom(s: State, step: Step, f: FileNo)
    requires Enabled(s, step) && f in Apply(s, step).obsolete && f !in s.obsolete
    ensures InSomeVersion(s, f)
  {
  }

  lemma NotAimedAgain(s: State, step: Step, q: nat, f: FileNo)
    requires FileOk(s, f) && Enabled(s, step) && QuietScan(s, step) && f in s.installed
    requires f !in s.obsolete && forall p :: !Aims(s, p, f)
    ensures !Aims(Apply(s, step), q, f)
  {
    hide FileOk;
    if step.Find? {
      ScanAimsAt(s, step.purge, step.full, step.scheduleOnly, f);
      assert q != step.purge ==> Aims(Apply(s, step), q, f) == Aims(s, q, f);
    } else {
      assert Aims(Apply(s, step), q, f) ==> Aims(s, q, f);
    }
  }

  lemma PurgedHasNoPurge(s: State, p: nat, f: FileNo, q: nat)
    requires FileOk(s, f) && Aims(s, p, f)
    ensures f !in PurgeFileStep(s, p, f).obsolete && !Aims(PurgeFileStep(s, p, f), q, f)
  {
    assert Owned(s, ByPurge(p), f);
    assert Owned(s, ByObsolete, f) ==> ByObsolete == ByPurge(p);
    assert Owned(s, ByPurge(q), f) ==> q == p;
  }

  // A file that was chosen for deletion does not become a target again.
  lemma ChosenStays(s: State, step: Step, p: nat, f: FileNo, q: nat)
    requires Inv(s) && OnceInv(s) && Enabled(s, step) && QuietScan(s, step) && f in s.installed
    requires Chosen(Apply(s, step), p, f)
    ensures f !in Apply(s, step).obsolete && !Aims(Apply(s, step), q, f)
  {
    ChosenFrom(s, step, p, f);
    assert FileOk(s, f);
    if Chosen(s, p, f) {
      assert Doomed(s, f);
      hide FileOk, PendingOk, FilesOk, AimsOk, Apply, DeletedOk, JobsOk;
      NotAimedAgain(s, step, q, f);
      if f in Apply(s, step).obsolete { ObsoleteFrom(s, step, f); }
    } else {
      PurgedHasNoPurge(s, p, f, q);
    }
  }

  lemma ChosenKeeps(s: State, step: Step)
    requires Inv(s) && OnceInv(s) && Enabled(s, step) && QuietScan(s, step)
    ensures ChosenOk(Apply(s, step))
  {
    var s' := Apply(s, step);
    forall p, f | Chosen(s', p, f)
      ensures Doomed(s', f) && (f in s'.installed ==> f !in s'.obsolete && forall q :: !Aims(s', q, f))
    {
      ChosenFrom(s, step, p, f);
      assert Doomed(s, f);
      hide FileOk, PendingOk, FilesOk, Apply, DeletedOk, JobsOk, Chosen, Aims, Enabled;
      DoomedStays(s, step, f);
      if f in s'.installed {
        if f !in s.installed { InstallsOutputs(s, step, f); }
        ChosenStays(s, step, p, f, 0);
        forall q ensures !Aims(s', q, f) { ChosenStays(s, step, p, f, q); }
      }
    }
  }

  lemma QueueKeeps(s: State, step: Step)
    requires Inv(s) && OnceInv(s) && Enabled(s, step)
    ensures var s' := Apply(s, step);
            forall i, k :: 0 <= i < k < |s'.queue| && s'.queue[i] in s'.installed ==> s'.queue[i] != s'.queue[k]
  {
    var s' := Apply(s, step);
    if step.PurgeFile? && Aims(s, step.purge, step.file) && step.file in s.installed {
      AimedIsNotQueued(s, step.purge, step.file);
    }
    forall i, k | 0 <= i < k < |s'.queue| && s'.queue[i] in s'.installed ensures s'.queue[i] != s'.queue[k] {
      var f := s'.queue[i];
      QueueFrom(s, step, f);
      assert Doomed(s, f);
      if f !in s.installed { InstallsOutputs(s, step, f); }
    }
  }

  lemma AimedIsNotQueued(s: State, p: nat, f: FileNo)
    requires FileOk(s, f) && Aims(s, p, f)
    ensures f !in s.queue
  {
    assert Owned(s, ByPurge(p), f) && (Owned(s, ByQueue, f) ==> ByQueue == ByPurge(p));
  }

  lemma DeletedIsDoomed(s: State, step: Step, f: FileNo)
    requires Inv(s) && DeletedOk(s) && Enabled(s, step) && f in Apply(s, step).deleted
    ensures Doomed(Apply(s, step), f) && f !in Apply(s, step).disk
  {
    hide PendingOk, AimsOk;
    if f !in s.deleted { DeletesOnlyDoomed(s, step); }
    assert Doomed(s, f);
    DoomedStays(s, step, f);
    if step.WriteFile? { assert IsOutput(s, step.file); }
    hide Doomed;
  }

  lemma LogStaysDistinct(s: State, step: Step, i: nat, k: nat)
    requires Inv(s) && OnceInv(s) && Enabled(s, step)
    requires i < k < |Apply(s, step).deleted| && Apply(s, step).deleted[i] in Apply(s, step).installed
    ensures Apply(s, step).deleted[i] != Apply(s, step).deleted[k]
  {
    var s' := Apply(s, step);
    var f := s'.deleted[i];
    LogStep(s, step);
    assert f in s.deleted && Doomed(s, f) && f !in s.disk;
    hide PendingOk, AimsOk, ChosenOk, JobsOk, Apply, FileOk;
    if f !in s.installed { InstallsOutputs(s, step, f); }
    if k == |s.deleted| && s'.deleted[k] == f { DeletedIsGone(s, step); }
  }

  lemma LogStep(s: State, step: Step)
    requires Enabled(s, step)
    ensures Apply(s, step).deleted == s.deleted + (if DeletedBy(s, step).Some? then [DeletedBy(s, step).value] else [])
  {
    hide LiveFiles, InSomeVersion, FoundByScan, FoundObsolete, Without;
  }

  lemma DeletedKeeps(s: State, step: Step)
    requires Inv(s) && OnceInv(s) && Enabled(s, step)
    ensures DeletedOk(Apply(s, step))
  {
    hide Inv, FileOk, Apply, ChosenOk, JobsOk, Enabled, Doomed;
    var s' := Apply(s, step);
    QueueKeeps(s, step);
    forall f | f in s'.deleted ensures Doomed(s', f) && f !in s'.disk { DeletedIsDoomed(s, step, f); }
    forall i, k | 0 <= i < k < |s'.deleted| && s'.deleted[i] in s'.installed ensures s'.deleted[i] != s'.deleted[k] {
      LogStaysDistinct(s, step, i, k);
    }
  }

  lemma QuietStepKeeps(s: State, step: Step)
    requires Inv(s) && OnceInv(s) && Enabled(s, step) && QuietScan(s, step)
    ensures OnceInv(Apply(s, step))
  {
    hide FileOk, PendingOk, FilesOk, AimsOk, Apply, ChosenOk, DeletedOk, JobsOk, Enabled, QuietScan;
    forall f | f in Apply(s, step).installed ensures FileOk(Apply(s, step), f) { StepKeepsFile(s, step, f); }
    ChosenKeeps(s, step);
    DeletedKeeps(s, step);
    JobsStay(s, step);
  }

  // A scan that takes up what worker w has in hand.
  lemma ScanTakesUp(s: State, step: Step, w: nat)
    requires w in s.popped && FileOk(s, s.popped[w]) && TakenUp(s, s.popped[w]) && Enabled(s, step) && step.Find? && step.full
    ensures Aims(Apply(s, step), step.purge, s.popped[w]) && Apply(s, step).popped == s.popped
    ensures Apply(s, step).purges[step.purge].scheduleOnly == step.scheduleOnly
  {
    var f := s.popped[w];
    assert Owned(s, ByWorker(w), f);
    assert Owned(s, ByObsolete, f) ==> ByObsolete == ByWorker(w);
    ScanAimsAt(s, step.purge, step.full, step.scheduleOnly, f);
  }

  lemma TwoOwners(s: State, p: nat, w: nat)
    requires w in s.popped && Aims(s, p, s.popped[w])
    ensures !FileOk(s, s.popped[w])
  {
    assert Owned(s, ByPurge(p), s.popped[w]) && Owned(s, ByWorker(w), s.popped[w]);
  }

  /** A step keeps it if and only if it is not a full scan that takes up a file a background purge has
      in hand. */
  lemma StepKeepsOnce(s: State, step: Step)
    requires Inv(s) && OnceInv(s) && Enabled(s, step)
    ensures OnceInv(Apply(s, step)) <==> QuietScan(s, step)
  {
    hide FileOk, PendingOk, FilesOk, AimsOk, Apply, ChosenOk, DeletedOk, JobsOk, Enabled;
    if QuietScan(s, step) {
      QuietStepKeeps(s, step);
    } else {
      var w :| w in s.popped && TakenUp(s, s.popped[w]);
      ScanTakesUp(s, step, w);
      TwoOwners(Apply(s, step), step.purge, w);
      InstalledStays(s, step, s.popped[w]);
    }
  }

  lemma InstalledStays(s: State, step: Step, f: FileNo)
    requires Enabled(s, step) && f in s.installed
    ensures f in Apply(s, step).installed
  {
    hide LiveFiles, InSomeVersion, FoundByScan, FoundObsolete, Without;
  }

  ghost predicate QuietRun(states: seq<State>, steps: seq<Step>) {
    IsRun(states, steps) && forall i :: 0 <= i < |steps| ==> QuietScan(states[i], steps[i])
  }

  lemma {:induction false} RunKeepsOnce(states: seq<State>, steps: seq<Step>, i: nat)
    requires QuietRun(states, steps) && i < |states|
    ensures OnceInv(states[i])
  {
    hide Inv, OnceInv, Enabled, Apply, Initial, QuietScan;
    if i == 0 {
      InitialOnce(states[0]);
    } else {
      RunKeepsOnce(states, steps, i - 1);
      RunKeepsInv(states, steps, i - 1);
      StepKeepsOnce(states[i - 1], steps[i - 1]);
    }
  }

  /** In such a run, a file that was part of a version is deleted at most once, and only if it is
      there. */
  lemma DeletedAtMostOnce(states: seq<State>, steps: seq<Step>, i: nat, j: nat)
    requires QuietRun(states, steps) && i < j < |steps|
    requires DeletedBy(states[i], steps[i]).Some? && DeletedBy(states[i], steps[i]).value in states[i].installed
    ensures DeletedBy(states[i], steps[i]).value in states[i].disk
    ensures DeletedBy(states[j], steps[j]) != DeletedBy(states[i], steps[i])
  {
    hide Inv, OnceInv, Enabled, Apply, Initial, QuietScan;
    RunKeepsOnce(states, steps, i);
    RunKeepsInv(states, steps, i);
    DeletedIsGone(states[i], steps[i]);
    GoneForGood(states, steps, i, j, DeletedBy(states[i], steps[i]).value);
    RunKeepsOnce(states, steps, j);
    RunKeepsInv(states, steps, j);
    if DeletedBy(states[j], steps[j]) == DeletedBy(states[i], steps[i]) { DeletedIsGone(states[j], steps[j]); }
  }

  lemma DeleteStep(s: State, step: Step)
    requires Enabled(s, step) && DeletedBy(s, step).Some?
    ensures DeletedBy(s, step).value in Apply(s, step).deleted && Apply(s, step).installed == s.installed
  {
  }

  lemma LogGrows(s: State, step: Step, f: FileNo)
    requires Enabled(s, step) && f in s.deleted && f in s.installed
    ensures f in Apply(s, step).deleted && f in Apply(s, step).installed
  {
  }

  lemma {:induction false} GoneForGood(states: seq<State>, steps: seq<Step>, i: nat, j: nat, f: FileNo)
    requires QuietRun(states, steps) && i < j < |states|
    requires DeletedBy(states[i], steps[i]) == Some(f) && f in states[i].installed
    ensures f in states[j].deleted && f in states[j].installed && f !in states[j].disk
    decreases j - i
  {
    hide Enabled, Apply, Initial, QuietScan;
    RunKeepsOnce(states, steps, j);
    if j == i + 1 {
      DeleteStep(states[i], steps[i]);
    } else {
      GoneForGood(states, steps, i, j - 1, f);
      LogGrows(states[j - 1], steps[j - 1], f);
    }
  }
}
