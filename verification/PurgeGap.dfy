/**
 The condition of DeletedAtMostOnce cannot be weakened: whenever a full scan takes up a file that a
 background purge has in hand, the run can go on to delete that file twice.
 */
module PurgeGap {
  import opened Options
  import opened PurgeProtocol
  import opened PurgeSafety
  import opened PurgeOnce

  // A part of a run.
  ghost predicate IsPath(states: seq<State>, steps: seq<Step>) {
    && |states| == |steps| + 1
    && forall i :: 0 <= i < |steps| ==> Enabled(states[i], steps[i]) && states[i + 1] == Apply(states[i], steps[i])
  }

  lemma Prepend(s: State, step: Step, states: seq<State>, steps: seq<Step>)
    requires Enabled(s, step) && IsPath(states, steps) && states[0] == Apply(s, step)
    ensures IsPath([s] + states, [step] + steps)
  {
    hide Enabled, Apply;
    var all, allSteps := [s] + states, [step] + steps;
    forall i | 0 <= i < |allSteps| ensures Enabled(all[i], allSteps[i]) && all[i + 1] == Apply(all[i], allSteps[i]) {
      if i > 0 { assert allSteps[i] == steps[i - 1] && all[i] == states[i - 1] && all[i + 1] == states[i]; }
    }
  }

  lemma {:induction false} FreshWorker(workers: set<nat>) returns (w: nat)
    ensures forall u :: u in workers ==> u < w
  {
    if workers == {} { return 0; }
    var u :| u in workers;
    var v := FreshWorker(workers - {u});
    w := if u < v then v else u + 1;
    forall x | x in workers ensures x < w { assert x == u || x in workers - {u}; }
  }

  // What is done to the queue.
  lemma PopAndDelete(s: State, w: nat)
    requires s.queue != [] && w !in s.popped
    ensures Enabled(s, Pop(w)) && Enabled(PopStep(s, w), DeletePopped(w))
    ensures DeletedBy(PopStep(s, w), DeletePopped(w)) == Some(s.queue[0])
    ensures DeletePoppedStep(PopStep(s, w), w).queue == s.queue[1..]
  {
  }

  /** Whatever is in the queue can be deleted by background purges. */
  lemma {:induction false} QueueDrains(s: State, f: FileNo) returns (states: seq<State>, steps: seq<Step>)
    requires f in s.queue
    ensures IsPath(states, steps) && states[0] == s && steps != []
    ensures DeletedBy(states[|steps| - 1], steps[|steps| - 1]) == Some(f)
    decreases |s.queue|
  {
    var w := FreshWorker(s.popped.Keys);
    PopAndDelete(s, w);
    var popped := PopStep(s, w);
    var rest := DeletePoppedStep(popped, w);
    hide PopStep, DeletePoppedStep;
    if s.queue[0] == f {
      states, steps := [popped, rest], [DeletePopped(w)];
    } else {
      assert s.queue == [s.queue[0]] + s.queue[1..];
      states, steps := QueueDrains(rest, f);
      Prepend(popped, DeletePopped(w), states, steps);
      Last(popped, DeletePopped(w), states, steps);
      states, steps := [popped] + states, [DeletePopped(w)] + steps;
    }
    Prepend(s, Pop(w), states, steps);
    Last(s, Pop(w), states, steps);
    states, steps := [s] + states, [Pop(w)] + steps;
  }

  lemma Last(s: State, step: Step, states: seq<State>, steps: seq<Step>)
    requires |states| == |steps| + 1 && steps != []
    ensures ([s] + states)[|steps|] == states[|steps| - 1] && ([step] + steps)[|steps|] == steps[|steps| - 1]
  {
  }

  // Step i deletes the file.
  ghost predicate DeletesAt(states: seq<State>, steps: seq<Step>, i: nat, f: FileNo) {
    i < |steps| && i < |states| && Enabled(states[i], steps[i]) && DeletedBy(states[i], steps[i]) == Some(f)
  }

  /** Two steps delete the file. */
  ghost predicate DeletesTwice(states: seq<State>, steps: seq<Step>, f: FileNo) {
    exists i: nat, j: nat :: i < j && DeletesAt(states, steps, i, f) && DeletesAt(states, steps, j, f)
  }

  lemma DeletesLater(s: State, step: Step, states: seq<State>, steps: seq<Step>, i: nat, f: FileNo)
    requires DeletesAt(states, steps, i, f)
    ensures DeletesAt([s] + states, [step] + steps, i + 1, f)
  {
    hide Enabled, DeletedBy;
    assert ([s] + states)[i + 1] == states[i] && ([step] + steps)[i + 1] == steps[i];
  }

  // The purge p that aims at what worker w has in hand deletes or queues it, and then w deletes it.
  lemma BothDelete(s: State, p: nat, w: nat)
    requires w in s.popped && Aims(s, p, s.popped[w])
    ensures var f := s.popped[w];
            var t := PurgeFileStep(s, p, f);
            && Enabled(s, PurgeFile(p, f)) && Enabled(t, DeletePopped(w)) && DeletedBy(t, DeletePopped(w)) == Some(f)
            && if s.purges[p].scheduleOnly then f in DeletePoppedStep(t, w).queue else DeletedBy(s, PurgeFile(p, f)) == Some(f)
  {
  }

  // From there the file can be deleted twice.
  lemma TwoOwnersDelete(s: State, p: nat, w: nat) returns (states: seq<State>, steps: seq<Step>)
    requires w in s.popped && Aims(s, p, s.popped[w])
    ensures IsPath(states, steps) && states[0] == s && DeletesTwice(states, steps, s.popped[w])
  {
    var f := s.popped[w];
    BothDelete(s, p, w);
    var t := PurgeFileStep(s, p, f);
    var u := DeletePoppedStep(t, w);
    var last: nat := 0;
    if s.purges[p].scheduleOnly {
      states, steps := QueueDrains(u, f);
      last := |steps| - 1;
      assert DeletesAt(states, steps, last, f);
      DeletesLater(t, DeletePopped(w), states, steps, last, f);
      DeletesLater(s, PurgeFile(p, f), [t] + states, [DeletePopped(w)] + steps, last + 1, f);
    } else {
      states, steps := [u], [];
    }
    hide PurgeFileStep, DeletePoppedStep, Aims;
    Prepend(t, DeletePopped(w), states, steps);
    states, steps := [t] + states, [DeletePopped(w)] + steps;
    assert DeletesAt(states, steps, 0, f);
    DeletesLater(s, PurgeFile(p, f), states, steps, 0, f);
    Prepend(s, PurgeFile(p, f), states, steps);
    states, steps := [s] + states, [PurgeFile(p, f)] + steps;
    if !s.purges[p].scheduleOnly { assert DeletesAt(states, steps, 0, f); }
  }

  lemma RunGoesOn(states: seq<State>, steps: seq<Step>, more: seq<State>, moreSteps: seq<Step>)
    requires IsRun(states, steps) && IsPath(more, moreSteps) && more[0] == states[|steps|]
    ensures IsRun(states[..|steps|] + more, steps + moreSteps)
  {
    hide Enabled, Apply, Initial;
    var all, allSteps := states[..|steps|] + more, steps + moreSteps;
    assert all[0] == states[0];
    forall i | 0 <= i < |allSteps| ensures Enabled(all[i], allSteps[i]) && all[i + 1] == Apply(all[i], allSteps[i]) {
      if i < |steps| {
        assert all[i] == states[i] && allSteps[i] == steps[i] && all[i + 1] == states[i + 1];
      } else {
        var k := i - |steps|;
        assert all[i] == more[k] && allSteps[i] == moreSteps[k] && all[i + 1] == more[k + 1];
      }
    }
  }

  /** A run that deletes every file at most once so far, followed by a full scan that takes up a file a
      background purge has in hand, can always go on to delete that file twice. */
  lemma TakenUpIsDeletedTwice(states: seq<State>, steps: seq<Step>, step: Step)
    returns (f: FileNo, more: seq<State>, moreSteps: seq<Step>)
    requires QuietRun(states, steps) && Enabled(states[|steps|], step) && !QuietScan(states[|steps|], step)
    ensures f in states[|steps|].installed && moreSteps != [] && moreSteps[0] == step
    ensures IsRun(states[..|steps|] + more, steps + moreSteps) && more[0] == states[|steps|]
    ensures DeletesTwice(more, moreSteps, f)
  {
    hide Inv, Enabled, Apply, Initial, FileOk, ChosenOk, DeletedOk, JobsOk, Aims;
    var s := states[|steps|];
    RunKeepsOnce(states, steps, |steps|);
    var w :| w in s.popped && TakenUp(s, s.popped[w]);
    f := s.popped[w];
    ScanTakesUp(s, step, w);
    more, moreSteps := TwoOwnersDelete(Apply(s, step), step.purge, w);
    Prepend(s, step, more, moreSteps);
    var i: nat, j: nat :| i < j && DeletesAt(more, moreSteps, i, f) && DeletesAt(more, moreSteps, j, f);
    DeletesLater(s, step, more, moreSteps, i, f);
    DeletesLater(s, step, more, moreSteps, j, f);
    more, moreSteps := [s] + more, [step] + moreSteps;
    RunGoesOn(states, steps, more, moreSteps);
  }

  // ---- An example ----

  // A compaction takes file 5, the only one, out of the current version. The file is queued for deletion
  // and a background purge takes it from the queue; before it is deleted, a full scan finds it.
  const GAP_STEPS: seq<Step> := [
    BeginJob(0), Install(0, 0, 1, {}, {5}), EndJob(0), DropVersion(0), Find(1, false, true), PurgeFile(1, 5), EndPurge(1), Pop(1),
    Find(2, true, false), PurgeFile(2, 5), DeletePopped(1)]

  // Once the old version is gone.
  function Gap(obsolete: set<FileNo>, grabbed: set<FileNo>, purges: map<nat, Purge>, queue: seq<FileNo>,
               popped: map<nat, FileNo>, disk: set<FileNo>, deleted: seq<FileNo>): State
  {
    State(6, [], map[], map[1 := {}], map[0 := 1], obsolete, grabbed, purges, queue, popped, disk, {5}, deleted)
  }

  const OPENED := State(6, [], map[], map[0 := {5}], map[0 := 0], {}, {}, map[], [], map[], {5}, {5}, [])

  const GAP_STATES := [
    OPENED,
    OPENED.(pending := [Pending(0, 6)], jobs := map[0 := Job({}, {})]),
    OPENED.(pending := [Pending(0, 6)], jobs := map[0 := Job({}, {})], versions := map[0 := {5}, 1 := {}], current := map[0 := 1]),
    OPENED.(versions := map[0 := {5}, 1 := {}], current := map[0 := 1]),
    Gap({5}, {}, map[], [], map[], {5}, []),
    Gap({}, {5}, map[1 := Purge(None, {}, {5}, {}, true)], [], map[], {5}, []),
    Gap({}, {5}, map[1 := Purge(None, {}, {}, {5}, true)], [5], map[], {5}, []),
    Gap({}, {}, map[], [5], map[], {5}, []),
    Gap({}, {}, map[], [], map[1 := 5], {5}, []),
    Gap({}, {}, map[2 := Purge(None, {}, {5}, {}, false)], [], map[1 := 5], {5}, []),
    Gap({}, {}, map[2 := Purge(None, {}, {}, {5}, false)], [], map[1 := 5], {}, [5]),
    Gap({}, {}, map[2 := Purge(None, {}, {}, {5}, false)], [], map[], {}, [5, 5])]

  lemma GapStart()
    ensures Initial(OPENED)
  {
    assert 5 in OPENED.versions[0];
  }

  lemma GapInstall(i: nat)
    requires i < 4
    ensures Enabled(GAP_STATES[i], GAP_STEPS[i]) && GAP_STATES[i + 1] == Apply(GAP_STATES[i], GAP_STEPS[i])
  {
    var s := GAP_STATES[i];
    assert i == 0 || i == 1 || i == 2 || i == 3;
    if i == 1 {
      assert {5} - {5} + {} == {} && {5} + {} == {5};
    } else if i == 2 {
      assert Without([Pending(0, 6)], 0) == [] && map[0 := Job({}, {})] - {0} == map[];
    } else if i == 3 {
      GapDrop();
    }
  }

  lemma GapDrop()
    ensures Enabled(GAP_STATES[3], DropVersion(0)) && GAP_STATES[4] == DropVersionStep(GAP_STATES[3], 0)
  {
    var s := GAP_STATES[3];
    assert s.current[0] == 1 && s.versions - {0} == map[1 := {}];
    var t := s.(versions := map[1 := {}]);
    assert !InSomeVersion(t, 5);
    assert (set f | f in s.versions[0] && !InSomeVersion(t, f)) == {5} && {} + {5} == {5};
  }

  lemma GapFirst(i: nat)
    requires 4 <= i < 8
    ensures Enabled(GAP_STATES[i], GAP_STEPS[i]) && GAP_STATES[i + 1] == Apply(GAP_STATES[i], GAP_STEPS[i])
  {
    var s := GAP_STATES[i];
    assert i == 4 || i == 5 || i == 6 || i == 7;
    if i == 4 {
      assert FoundObsolete(s) == {5} && LiveFiles(s) == {} && {5} + {} == {5} && {} + {5} == {5} && {5} - {5} == {};
    } else if i == 5 {
      assert {5} - {5} == {} && {} + {5} == {5} && [] + [5] == [5];
      assert s.purges[1 := Purge(None, {}, {}, {5}, true)] == map[1 := Purge(None, {}, {}, {5}, true)];
    } else if i == 6 {
      assert s.purges - {1} == map[];
    }
  }

  lemma GapSecond(i: nat)
    requires 8 <= i < 11
    ensures Enabled(GAP_STATES[i], GAP_STEPS[i]) && GAP_STATES[i + 1] == Apply(GAP_STATES[i], GAP_STEPS[i])
  {
    var s := GAP_STATES[i];
    assert i == 8 || i == 9 || i == 10;
    if i == 8 {
      assert FoundObsolete(s) == {} && FoundByScan(s) == {5} && LiveFiles(s) == {} && {} + {5} == {5};
    } else if i == 9 {
      assert {5} - {5} == {} && {} + {5} == {5} && [] + [5] == [5];
      assert s.purges[2 := Purge(None, {}, {}, {5}, false)] == map[2 := Purge(None, {}, {}, {5}, false)];
    } else if i == 10 {
      assert [5] + [5] == [5, 5];
      assert s.popped - {1} == map[];
    }
  }

  /** A run that deletes a file twice. */
  lemma ScanInGapDeletesTwice()
    ensures IsRun(GAP_STATES, GAP_STEPS) && !QuietRun(GAP_STATES, GAP_STEPS)
    ensures GAP_STATES[11].deleted == [5, 5] && 5 in GAP_STATES[11].installed
  {
    hide Enabled, Apply, Initial;
    GapStart();
    forall i | 0 <= i < 11 ensures Enabled(GAP_STATES[i], GAP_STEPS[i]) && GAP_STATES[i + 1] == Apply(GAP_STATES[i], GAP_STEPS[i]) {
      if i < 4 { GapInstall(i); } else if i < 8 { GapFirst(i); } else { GapSecond(i); }
    }
    assert 1 in GAP_STATES[8].popped && TakenUp(GAP_STATES[8], 5);
    assert !QuietScan(GAP_STATES[8], GAP_STEPS[8]);
  }
}
