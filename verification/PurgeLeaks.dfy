/**
 In every run, a file that was part of a version and exists is in a version, or somebody will delete it.
 */
module PurgeLeaks {
  import opened PurgeProtocol
  import opened PurgeSafety
  import opened PurgeOnce

  ghost predicate Kept(s: State, f: FileNo) {
    f in s.disk && !InSomeVersion(s, f) ==> HasOwner(s, f)
  }

  /** No file that was once part of a version is forgotten. */
  ghost predicate NoLeak(s: State) {
    JobsOk(s) && forall f :: f in s.installed ==> Kept(s, f)
  }

  lemma JobStepKept(s: State, step: Step, f: FileNo)
    requires Kept(s, f) && Enabled(s, step) && (step.WriteFile? ==> step.file != f)
    requires step.BeginJob? || step.TakeNumber? || step.TakeOtherNumber? || step.WriteFile? || step.EndJob?
    ensures Kept(Apply(s, step), f)
  {
    hide Without;
    if HasOwner(s, f) { var x :| Owned(s, x, f); assert Owned(Apply(s, step), x, f); }
  }

  lemma InstallKept(s: State, step: Step, f: FileNo)
    requires FilesOk(s) && Enabled(s, step) && step.Install? && (f in s.installed ==> Kept(s, f)) && f in Apply(s, step).installed
    ensures Kept(Apply(s, step), f)
  {
    var s' := Apply(s, step);
    if f in s.installed {
      hide FilesOk;
      if InSomeVersion(s, f) {
        var v :| v in s.versions && f in s.versions[v];
        assert v in s'.versions && f in s'.versions[v];
      } else if f in s.disk {
        var x :| Owned(s, x, f);
        assert Owned(s', x, f);
      }
    } else {
      InstallsOutputs(s, step, f);
      assert f in s'.versions[step.version];
    }
  }

  lemma DropKept(s: State, v: nat, f: FileNo)
    requires Kept(s, f) && v in s.versions
    ensures Kept(DropVersionStep(s, v), f)
  {
    var s' := DropVersionStep(s, v);
    if f in s'.disk && !InSomeVersion(s', f) {
      if InSomeVersion(s, f) {
        var u :| u in s.versions && f in s.versions[u];
        assert u == v by { assert u != v ==> u in s'.versions; }
        assert Owned(s', ByObsolete, f);
      } else {
        var x :| Owned(s, x, f);
        assert Owned(s', x, f);
      }
    }
  }

  lemma FindKept(s: State, p: nat, full: bool, scheduleOnly: bool, f: FileNo)
    requires FilesOk(s) && Kept(s, f) && p !in s.purges
    ensures Kept(FindStep(s, p, full, scheduleOnly), f)
  {
    var s' := FindStep(s, p, full, scheduleOnly);
    if f in FoundObsolete(s) {
      assert f !in LiveFiles(s);
      assert Owned(s', ByPurge(p), f);
    } else if f in s.disk && !InSomeVersion(s, f) {
      var x :| Owned(s, x, f);
      assert Owned(s', x, f);
    }
  }

  lemma PurgeFileKept(s: State, p: nat, g: FileNo, f: FileNo)
    requires Kept(s, f) && p in s.purges && g in s.purges[p].todo
    ensures Kept(PurgeFileStep(s, p, g), f)
  {
    var s' := PurgeFileStep(s, p, g);
    if f == g && Aims(s, p, f) {
      if s.purges[p].scheduleOnly { assert Owned(s', ByQueue, f); }
    } else {
      OtherOwner(s, p, g, f, ByObsolete);
      if f in s.disk && !InSomeVersion(s, f) {
        var x :| Owned(s, x, f);
        OtherOwner(s, p, g, f, x);
      }
    }
  }

  lemma EndPurgeKept(s: State, p: nat, f: FileNo)
    requires Kept(s, f) && p in s.purges && s.purges[p].todo == {}
    ensures Kept(EndPurgeStep(s, p), f)
  {
    if HasOwner(s, f) {
      var x :| Owned(s, x, f);
      assert Owned(EndPurgeStep(s, p), x, f);
    }
  }

  lemma PopKept(s: State, w: nat, f: FileNo)
    requires Kept(s, f) && w !in s.popped && s.queue != []
    ensures Kept(PopStep(s, w), f)
  {
    var s' := PopStep(s, w);
    assert s.queue == [s.queue[0]] + s'.queue;
    if s.queue[0] == f {
      assert Owned(s', ByWorker(w), f);
    } else if HasOwner(s, f) {
      var x :| Owned(s, x, f);
      assert Owned(s', x, f);
    }
  }

  lemma DeletePoppedKept(s: State, w: nat, f: FileNo)
    requires Kept(s, f) && w in s.popped
    ensures Kept(DeletePoppedStep(s, w), f)
  {
    var s' := DeletePoppedStep(s, w);
    if s.popped[w] != f && HasOwner(s, f) {
      var x :| Owned(s, x, f);
      assert Owned(s', x, f);
    }
  }

  lemma StepKeepsFileKept(s: State, step: Step, f: FileNo)
    requires Inv(s) && NoLeak(s) && Enabled(s, step) && f in Apply(s, step).installed
    ensures Kept(Apply(s, step), f)
  {
    hide Kept, PendingOk, FilesOk, AimsOk, LiveFiles, FoundObsolete, FoundByScan, Without;
    assert !step.Install? ==> f in s.installed;
    if step.WriteFile? { assert Takes(s, step.job, step.file); }
    match step
    case Install(_, _, _, _, _) => InstallKept(s, step, f);
    case DropVersion(v) => DropKept(s, v, f);
    case Find(p, full, scheduleOnly) => FindKept(s, p, full, scheduleOnly, f);
    case PurgeFile(p, g) => PurgeFileKept(s, p, g, f);
    case EndPurge(p) => EndPurgeKept(s, p, f);
    case Pop(w) => PopKept(s, w, f);
    case DeletePopped(w) => DeletePoppedKept(s, w, f);
    case _ => JobStepKept(s, step, f);
  }

  /** Every step keeps it, full scans at any time included. */
  lemma StepKeepsNoLeak(s: State, step: Step)
    requires Inv(s) && NoLeak(s) && Enabled(s, step)
    ensures NoLeak(Apply(s, step))
  {
    hide Kept, PendingOk, FilesOk, AimsOk, Apply, JobsOk, Enabled;
    forall f | f in Apply(s, step).installed ensures Kept(Apply(s, step), f) { StepKeepsFileKept(s, step, f); }
    JobsStay(s, step);
  }

  lemma InitialNoLeak(s: State)
    requires Initial(s)
    ensures NoLeak(s)
  {
  }

  lemma {:induction false} RunKeepsNoLeak(states: seq<State>, steps: seq<Step>, i: nat)
    requires IsRun(states, steps) && i < |states|
    ensures NoLeak(states[i])
  {
    hide Inv, NoLeak, Enabled, Apply, Initial;
    if i == 0 {
      InitialNoLeak(states[0]);
    } else {
      RunKeepsNoLeak(states, steps, i - 1);
      RunKeepsInv(states, steps, i - 1);
      StepKeepsNoLeak(states[i - 1], steps[i - 1]);
    }
  }

  /** In every run: while a file that was part of a version exists and no version has it, it is in
      obsolete_files_ or somebody is going to delete it. */
  lemma NeverLeaked(states: seq<State>, steps: seq<Step>, i: nat, f: FileNo)
    requires IsRun(states, steps) && i < |states| && f in states[i].installed
    requires f in states[i].disk && !InSomeVersion(states[i], f)
    ensures HasOwner(states[i], f)
  {
    hide Enabled, Apply, Initial, InSomeVersion, HasOwner, JobsOk;
    RunKeepsNoLeak(states, steps, i);
    assert Kept(states[i], f);
  }
}
