/**
 Runs of flushes, automatic universal compactions and their completions: compactions never share
 a sorted run, and the runs stay listed from newest to oldest.
 */
module UniversalRuns {
  import opened Options
  import opened UniversalPicker

  // `outputs` maps each running compaction to its output level.
  datatype State = State(runs: seq<Run>, outputs: map<nat, nat>, clock: nat, numLevels: nat)

  datatype Step =
    | Flush(size: nat, compensated: nat)
    | Start(c: nat, config: Config, pick: Pick)
    | Finish(c: nat, size: nat, compensated: nat)
    | Abandon(c: nat)

  // CalculateSortedRuns lists level 0 first, by age, then the deeper levels.
  predicate ListedBefore(a: Run, b: Run) {
    a.level < b.level || (a.level == 0 == b.level && a.newest > b.newest)
  }

  function Place(runs: seq<Run>, run: Run): seq<Run> {
    if runs == [] || ListedBefore(run, runs[0]) then [run] + runs else [runs[0]] + Place(runs[1..], run)
  }

  function FlushStep(s: State, size: nat, compensated: nat): State {
    s.(runs := Place(s.runs, Run(0, s.clock, s.clock, size, compensated, None)), clock := s.clock + 1)
  }

  // MarkFilesBeingCompacted.
  function Mark(runs: seq<Run>, start: nat, end: nat, c: nat): seq<Run> {
    seq(|runs|, i requires 0 <= i < |runs| => if start <= i < end then runs[i].(job := Some(c)) else runs[i])
  }

  function StartStep(s: State, c: nat, pick: Pick): State {
    s.(runs := Mark(s.runs, pick.start, pick.start + pick.count, c), outputs := s.outputs[c := pick.outputLevel])
  }

  function InputsOf(runs: seq<Run>, c: nat): seq<Run> {
    if runs == [] then [] else (if runs[0].job == Some(c) then [runs[0]] else []) + InputsOf(runs[1..], c)
  }

  function OthersOf(runs: seq<Run>, c: nat): seq<Run> {
    if runs == [] then [] else (if runs[0].job == Some(c) then [] else [runs[0]]) + OthersOf(runs[1..], c)
  }

  // The inputs, listed from newest to oldest, give way to one run; to none if nothing is left of them.
  function FinishStep(s: State, c: nat, size: nat, compensated: nat): State
    requires c in s.outputs
  {
    var inputs, others := InputsOf(s.runs, c), OthersOf(s.runs, c);
    s.(outputs := s.outputs - {c},
       runs := if inputs == [] || compensated == 0 then others
               else Place(others, Run(s.outputs[c], inputs[0].newest, inputs[|inputs| - 1].oldest, size, compensated, None)))
  }

  // ReleaseCompactionFiles of a compaction that failed.
  function Release(runs: seq<Run>, c: nat): seq<Run> {
    seq(|runs|, i requires 0 <= i < |runs| => if runs[i].job == Some(c) then runs[i].(job := None) else runs[i])
  }

  ghost predicate Enabled(s: State, step: Step) {
    match step
    case Flush(_, _) => true
    case Start(c, config, pick) =>
      c !in s.outputs && config.numLevels == s.numLevels > 0 && Picks(s.runs, config, Some(pick))
    case Finish(c, _, _) => c in s.outputs
    case Abandon(c) => c in s.outputs
  }

  ghost function Apply(s: State, step: Step): State
    requires Enabled(s, step)
  {
    match step
    case Flush(size, compensated) => FlushStep(s, size, compensated)
    case Start(c, _, pick) => StartStep(s, c, pick)
    case Finish(c, size, compensated) => FinishStep(s, c, size, compensated)
    case Abandon(c) => s.(runs := Release(s.runs, c), outputs := s.outputs - {c})
  }

  ghost predicate IsRun(states: seq<State>, steps: seq<Step>) {
    && |states| == |steps| + 1 && states[0].runs == [] && states[0].outputs == map[] && states[0].numLevels > 0
    && forall i :: 0 <= i < |steps| ==> Enabled(states[i], steps[i]) && states[i + 1] == Apply(states[i], steps[i])
  }

  // ---- The invariant ----

  // Run a is newer than run b, and listed before it: not deeper, and in a level of its own unless
  // both are of level 0.
  predicate Precedes(a: Run, b: Run) {
    a.oldest > b.newest && (a.level < b.level || a.level == 0 == b.level)
  }

  /** From newest to oldest; level 0 first, then at most one run per level. */
  ghost predicate Ordered(runs: seq<Run>, clock: nat, numLevels: nat) {
    && (forall i, j :: 0 <= i < j < |runs| ==> Precedes(runs[i], runs[j]))
    && (forall i :: 0 <= i < |runs| ==> runs[i].oldest <= runs[i].newest < clock && runs[i].level < numLevels)
  }

  /** The inputs of compaction c are the runs from a to b: at least two. */
  predicate Covers(runs: seq<Run>, c: nat, a: nat, b: nat) {
    a + 2 <= b <= |runs| && forall i :: 0 <= i < |runs| ==> (runs[i].job == Some(c) <==> a <= i < b)
  }

  ghost predicate HasInputs(runs: seq<Run>, c: nat) {
    exists a, b :: Covers(runs, c, a, b)
  }

  /** The output level of compaction c is not above an input and above every older run; level 0 stays
      level 0. */
  ghost predicate OutputFits(runs: seq<Run>, c: nat, level: nat, numLevels: nat) {
    && level < numLevels
    && (forall i :: 0 <= i < |runs| && runs[i].job == Some(c) ==> runs[i].level <= level)
    && (forall i, j :: 0 <= i < j < |runs| && runs[i].job == Some(c) && runs[j].job != Some(c) ==>
          level < runs[j].level || level == 0 == runs[j].level)
  }

  ghost predicate JobsOk(runs: seq<Run>, outputs: map<nat, nat>, numLevels: nat) {
    && (forall i :: 0 <= i < |runs| && runs[i].job.Some? ==> runs[i].job.value in outputs)
    && (forall c :: c in outputs ==> HasInputs(runs, c) && OutputFits(runs, c, outputs[c], numLevels))
  }

  ghost predicate Inv(s: State) {
    s.numLevels > 0 && Ordered(s.runs, s.clock, s.numLevels) && JobsOk(s.runs, s.outputs, s.numLevels)
  }

  // ---- Picks ----

  /** If the last run is an input of a running compaction, so is the one before. */
  lemma LastIsNotAlone(runs: seq<Run>, outputs: map<nat, nat>, numLevels: nat)
    requires JobsOk(runs, outputs, numLevels) && |runs| >= 2 && Busy(runs[|runs| - 1])
    ensures Busy(runs[|runs| - 2])
  {
    var c := runs[|runs| - 1].job.value;
    assert HasInputs(runs, c);
    var a, b :| Covers(runs, c, a, b);
    assert runs[|runs| - 2].job == Some(c);
  }

  predicate PickFits(runs: seq<Run>, pick: Pick) {
    && pick.count >= 2 && pick.start + pick.count <= |runs|
    && forall i :: pick.start <= i < pick.start + pick.count ==> !Busy(runs[i])
  }

  lemma RatioPickFits(runs: seq<Run>, ratio: nat, limit: nat, config: Config, pick: Pick)
    requires config.numLevels > 0 && ReducesRuns(runs, ratio, limit, config, Some(pick))
    ensures PickFits(runs, pick) && pick.outputLevel == OutputLevel(runs, pick.start + pick.count, config.numLevels)
  {
    SeriesAreFree(runs, pick.start, ratio, Min(config.maxMergeWidth, limit), config.stopStyle);
  }

  lemma AmpPickFits(s: State, config: Config, pick: Pick)
    requires Inv(s) && config.numLevels == s.numLevels && ReducesSizeAmp(s.runs, config, Some(pick))
    ensures PickFits(s.runs, pick) && pick.outputLevel == OutputLevel(s.runs, pick.start + pick.count, config.numLevels)
  {
    if Busy(s.runs[|s.runs| - 1]) { LastIsNotAlone(s.runs, s.outputs, s.numLevels); }
  }

  /** Whatever is picked consists of at least two adjacent runs, none of which is an input of a running
      compaction, although the size amplification pick does not test the last one. */
  lemma PickIsFree(s: State, config: Config, pick: Pick)
    requires Inv(s) && config.numLevels == s.numLevels && Picks(s.runs, config, Some(pick))
    ensures PickFits(s.runs, pick) && pick.outputLevel == OutputLevel(s.runs, pick.start + pick.count, s.numLevels)
  {
    hide Ordered, JobsOk, PickFits, ReducesRuns, ReducesSizeAmp;
    if ReducesSizeAmp(s.runs, config, Some(pick)) {
      AmpPickFits(s, config, pick);
    } else if ReducesRuns(s.runs, config.sizeRatio, UINT_MAX, config, Some(pick)) {
      RatioPickFits(s.runs, config.sizeRatio, UINT_MAX, config, pick);
    } else {
      RatioPickFits(s.runs, UINT_MAX, FreeRuns(s.runs) - config.trigger + 1, config, pick);
    }
  }

  // ---- Starting a compaction ----

  lemma OutputFitsPick(runs: seq<Run>, clock: nat, numLevels: nat, c: nat, pick: Pick)
    requires numLevels > 0 && Ordered(runs, clock, numLevels) && PickFits(runs, pick)
    requires forall i :: 0 <= i < |runs| ==> runs[i].job != Some(c)
    requires pick.outputLevel == OutputLevel(runs, pick.start + pick.count, numLevels)
    ensures OutputFits(Mark(runs, pick.start, pick.start + pick.count, c), c, pick.outputLevel, numLevels)
  {
    var end := pick.start + pick.count;
    if end < |runs| {
      forall i | 0 <= i < end ensures runs[i].level <= pick.outputLevel {
        assert runs[i].level < runs[end].level || runs[i].level == 0 == runs[end].level;
      }
      forall j | end <= j < |runs| ensures pick.outputLevel < runs[j].level || pick.outputLevel == 0 == runs[j].level {
        assert j > end ==> runs[end].level < runs[j].level || runs[end].level == 0 == runs[j].level;
      }
    }
  }

  // Marking runs nobody has does not touch the inputs of compaction d.
  lemma OthersAfterMark(runs: seq<Run>, start: nat, end: nat, c: nat, d: nat, level: nat, numLevels: nat)
    requires c != d && HasInputs(runs, d) && OutputFits(runs, d, level, numLevels)
    requires forall i :: start <= i < end && i < |runs| ==> !Busy(runs[i])
    ensures HasInputs(Mark(runs, start, end, c), d) && OutputFits(Mark(runs, start, end, c), d, level, numLevels)
  {
    var a, b :| Covers(runs, d, a, b);
    assert Covers(Mark(runs, start, end, c), d, a, b);
  }

  // Marks do not matter to the order.
  lemma OrderAfterMark(runs: seq<Run>, runs': seq<Run>, clock: nat, numLevels: nat)
    requires Ordered(runs, clock, numLevels) && |runs'| == |runs|
    requires forall i :: 0 <= i < |runs| ==> runs'[i] == runs[i].(job := runs'[i].job)
    ensures Ordered(runs', clock, numLevels)
  {
  }

  lemma FreshJob(runs: seq<Run>, outputs: map<nat, nat>, numLevels: nat, c: nat)
    requires JobsOk(runs, outputs, numLevels) && c !in outputs
    ensures forall i :: 0 <= i < |runs| ==> runs[i].job != Some(c)
  {
  }

  lemma JobsAfterStart(runs: seq<Run>, outputs: map<nat, nat>, numLevels: nat, c: nat, pick: Pick)
    requires JobsOk(runs, outputs, numLevels) && c !in outputs && PickFits(runs, pick)
    requires OutputFits(Mark(runs, pick.start, pick.start + pick.count, c), c, pick.outputLevel, numLevels)
    ensures JobsOk(Mark(runs, pick.start, pick.start + pick.count, c), outputs[c := pick.outputLevel], numLevels)
  {
    var end := pick.start + pick.count;
    var runs', outputs' := Mark(runs, pick.start, end, c), outputs[c := pick.outputLevel];
    assert Covers(runs', c, pick.start, end);
    hide OutputFits, Covers;
    forall d | d in outputs' ensures HasInputs(runs', d) && OutputFits(runs', d, outputs'[d], numLevels) {
      if d != c { OthersAfterMark(runs, pick.start, end, c, d, outputs[d], numLevels); }
    }
  }

  lemma StartKeeps(s: State, c: nat, config: Config, pick: Pick)
    requires Inv(s) && Enabled(s, Start(c, config, pick))
    ensures Inv(StartStep(s, c, pick))
  {
    hide Ordered, JobsOk, PickFits, Picks, OutputFits;
    PickIsFree(s, config, pick);
    FreshJob(s.runs, s.outputs, s.numLevels, c);
    OutputFitsPick(s.runs, s.clock, s.numLevels, c, pick);
    JobsAfterStart(s.runs, s.outputs, s.numLevels, c, pick);
    OrderAfterMark(s.runs, StartStep(s, c, pick).runs, s.clock, s.numLevels);
  }

  // ---- Failing ----

  lemma OthersAfterRelease(runs: seq<Run>, c: nat, d: nat, level: nat, numLevels: nat)
    requires c != d && HasInputs(runs, d) && OutputFits(runs, d, level, numLevels)
    ensures HasInputs(Release(runs, c), d) && OutputFits(Release(runs, c), d, level, numLevels)
  {
    var a: nat, b: nat :| Covers(runs, d, a, b);
    assert Covers(Release(runs, c), d, a, b);
  }

  lemma AbandonKeeps(s: State, c: nat)
    requires Inv(s) && c in s.outputs
    ensures Inv(s.(runs := Release(s.runs, c), outputs := s.outputs - {c}))
  {
    hide Ordered, OutputFits, HasInputs;
    var runs, outputs := Release(s.runs, c), s.outputs - {c};
    OrderAfterMark(s.runs, runs, s.clock, s.numLevels);
    forall d | d in outputs ensures HasInputs(runs, d) && OutputFits(runs, d, outputs[d], s.numLevels) {
      OthersAfterRelease(s.runs, c, d, s.outputs[d], s.numLevels);
    }
  }

  // ---- Listing a new run ----

  lemma {:induction false} PlaceAt(runs: seq<Run>, run: Run, k: nat)
    requires k <= |runs| && (forall i :: 0 <= i < k ==> !ListedBefore(run, runs[i]))
    requires k < |runs| ==> ListedBefore(run, runs[k])
    ensures Place(runs, run) == runs[..k] + [run] + runs[k..]
    decreases runs
  {
    if k == 0 {
      assert runs[..0] + [run] + runs[0..] == [run] + runs;
    } else {
      PlaceAt(runs[1..], run, k - 1);
      assert runs[..k] + [run] + runs[k..] == [runs[0]] + (runs[1..][..k - 1] + [run] + runs[1..][k - 1..]);
    }
  }

  lemma OthersAfterFlush(runs: seq<Run>, run: Run, c: nat, level: nat, numLevels: nat)
    requires HasInputs(runs, c) && OutputFits(runs, c, level, numLevels) && run.job == None
    ensures HasInputs([run] + runs, c) && OutputFits([run] + runs, c, level, numLevels)
  {
    var a: nat, b: nat :| Covers(runs, c, a, b);
    assert Covers([run] + runs, c, a + 1, b + 1);
  }

  lemma OrderAfterFlush(runs: seq<Run>, run: Run, clock: nat, numLevels: nat)
    requires Ordered(runs, clock, numLevels) && numLevels > 0
    requires run.level == 0 && run.newest == run.oldest == clock
    ensures Ordered([run] + runs, clock + 1, numLevels)
    ensures Place(runs, run) == [run] + runs
  {
    PlaceAt(runs, run, 0);
    assert runs[..0] + [run] + runs[0..] == [run] + runs;
  }

  lemma FlushKeeps(s: State, size: nat, compensated: nat)
    requires Inv(s)
    ensures Inv(FlushStep(s, size, compensated))
    ensures FlushStep(s, size, compensated).runs == [Run(0, s.clock, s.clock, size, compensated, None)] + s.runs
  {
    hide Ordered, OutputFits, HasInputs, Place;
    var run := Run(0, s.clock, s.clock, size, compensated, None);
    OrderAfterFlush(s.runs, run, s.clock, s.numLevels);
    var runs := [run] + s.runs;
    forall c | c in s.outputs ensures HasInputs(runs, c) && OutputFits(runs, c, s.outputs[c], s.numLevels) {
      OthersAfterFlush(s.runs, run, c, s.outputs[c], s.numLevels);
    }
  }

  // ---- Completing ----

  lemma {:induction false} InputsOfConcat(x: seq<Run>, y: seq<Run>, c: nat)
    ensures InputsOf(x + y, c) == InputsOf(x, c) + InputsOf(y, c)
  {
    if x == [] {
      assert x + y == y;
    } else {
      InputsOfConcat(x[1..], y, c);
      assert (x + y)[0] == x[0] && (x + y)[1..] == x[1..] + y;
      var first := if x[0].job == Some(c) then [x[0]] else [];
      Associative(first, InputsOf(x[1..], c), InputsOf(y, c));
    }
  }

  lemma {:induction false} OthersOfConcat(x: seq<Run>, y: seq<Run>, c: nat)
    ensures OthersOf(x + y, c) == OthersOf(x, c) + OthersOf(y, c)
  {
    if x == [] {
      assert x + y == y;
    } else {
      OthersOfConcat(x[1..], y, c);
      assert (x + y)[0] == x[0] && (x + y)[1..] == x[1..] + y;
      var first := if x[0].job == Some(c) then [] else [x[0]];
      Associative(first, OthersOf(x[1..], c), OthersOf(y, c));
    }
  }

  lemma Associative(x: seq<Run>, y: seq<Run>, z: seq<Run>)
    ensures x + (y + z) == (x + y) + z
  {
  }

  lemma {:induction false} AllInputs(x: seq<Run>, c: nat)
    requires forall i :: 0 <= i < |x| ==> x[i].job == Some(c)
    ensures InputsOf(x, c) == x && OthersOf(x, c) == []
  {
    if x != [] { AllInputs(x[1..], c); }
  }

  lemma {:induction false} NoInputs(x: seq<Run>, c: nat)
    requires forall i :: 0 <= i < |x| ==> x[i].job != Some(c)
    ensures InputsOf(x, c) == [] && OthersOf(x, c) == x
  {
    if x != [] { NoInputs(x[1..], c); }
  }

  lemma InputsOfParts(x: seq<Run>, y: seq<Run>, z: seq<Run>, c: nat)
    requires InputsOf(x, c) == [] && OthersOf(x, c) == x && InputsOf(z, c) == [] && OthersOf(z, c) == z
    requires InputsOf(y, c) == y && OthersOf(y, c) == []
    ensures InputsOf(x + (y + z), c) == y && OthersOf(x + (y + z), c) == x + z
  {
    hide InputsOf, OthersOf;
    InputsOfConcat(y, z, c);
    InputsOfConcat(x, y + z, c);
    OthersOfConcat(y, z, c);
    OthersOfConcat(x, y + z, c);
    assert y + [] == y && [] + y == y && [] + z == z;
  }

  lemma SplitsAtInputs(runs: seq<Run>, c: nat, a: nat, b: nat)
    requires Covers(runs, c, a, b)
    ensures InputsOf(runs, c) == runs[a..b] && OthersOf(runs, c) == runs[..a] + runs[b..]
  {
    hide InputsOf, OthersOf;
    var x, y, z := runs[..a], runs[a..b], runs[b..];
    NoInputs(x, c);
    AllInputs(y, c);
    NoInputs(z, c);
    InputsOfParts(x, y, z, c);
    assert x + (y + z) == runs;
  }

  // The run that replaces the inputs from a to b.
  function Merged(runs: seq<Run>, a: nat, b: nat, level: nat, size: nat, compensated: nat): Run
    requires a < b <= |runs|
  {
    Run(level, runs[a].newest, runs[b - 1].oldest, size, compensated, None)
  }

  lemma PlaceMerged(runs: seq<Run>, clock: nat, numLevels: nat, c: nat, level: nat, a: nat, b: nat, run: Run)
    requires Ordered(runs, clock, numLevels) && Covers(runs, c, a, b) && OutputFits(runs, c, level, numLevels)
    requires run == Merged(runs, a, b, level, run.size, run.compensated)
    ensures Place(runs[..a] + runs[b..], run) == runs[..a] + [run] + runs[b..]
  {
    var others := runs[..a] + runs[b..];
    forall i | 0 <= i < a ensures !ListedBefore(run, others[i]) {
      assert others[i] == runs[i] && runs[i].oldest > runs[a].newest && runs[a].level <= level;
    }
    if b < |runs| { assert others[a] == runs[b] && runs[a].oldest > runs[b].newest; }
    PlaceAt(others, run, a);
    assert others[..a] == runs[..a] && others[a..] == runs[b..];
  }

  lemma OrderOfParts(x: seq<Run>, y: seq<Run>, clock: nat, numLevels: nat)
    requires Ordered(x, clock, numLevels) && Ordered(y, clock, numLevels)
    requires forall i, j :: 0 <= i < |x| && 0 <= j < |y| ==> Precedes(x[i], y[j])
    ensures Ordered(x + y, clock, numLevels)
  {
    hide Precedes;
  }

  lemma OrderOfSlices(runs: seq<Run>, clock: nat, numLevels: nat, a: nat, b: nat)
    requires Ordered(runs, clock, numLevels) && a <= b <= |runs|
    ensures Ordered(runs[..a], clock, numLevels) && Ordered(runs[b..], clock, numLevels)
    ensures forall i, j :: 0 <= i < a && 0 <= j < |runs| - b ==> Precedes(runs[..a][i], runs[b..][j])
  {
    hide Precedes;
  }

  lemma MergedFits(runs: seq<Run>, clock: nat, numLevels: nat, c: nat, level: nat, a: nat, b: nat, run: Run)
    requires Ordered(runs, clock, numLevels) && Covers(runs, c, a, b) && OutputFits(runs, c, level, numLevels)
    requires run == Merged(runs, a, b, level, run.size, run.compensated)
    ensures Ordered([run], clock, numLevels)
    ensures forall i :: 0 <= i < a ==> Precedes(runs[i], run)
    ensures forall j :: b <= j < |runs| ==> Precedes(run, runs[j])
  {
    assert runs[a].job == Some(c) && runs[b - 1].job == Some(c) && Precedes(runs[a], runs[b - 1]);
    forall i | 0 <= i < a ensures Precedes(runs[i], run) { assert Precedes(runs[i], runs[a]); }
    forall j | b <= j < |runs| ensures Precedes(run, runs[j]) { assert Precedes(runs[b - 1], runs[j]); }
  }

  lemma OrderAfterFinish(runs: seq<Run>, clock: nat, numLevels: nat, c: nat, level: nat, a: nat, b: nat, run: Run)
    requires Ordered(runs, clock, numLevels) && Covers(runs, c, a, b) && OutputFits(runs, c, level, numLevels)
    requires run == Merged(runs, a, b, level, run.size, run.compensated)
    ensures Ordered(runs[..a] + [run] + runs[b..], clock, numLevels)
    ensures Ordered(runs[..a] + runs[b..], clock, numLevels)
  {
    hide Precedes, OutputFits, Ordered;
    MergedFits(runs, clock, numLevels, c, level, a, b, run);
    OrderOfSlices(runs, clock, numLevels, a, b);
    OrderOfParts(runs[..a], runs[b..], clock, numLevels);
    OrderOfParts(runs[..a], [run], clock, numLevels);
    forall i, j | 0 <= i < a + 1 && 0 <= j < |runs| - b ensures Precedes((runs[..a] + [run])[i], runs[b..][j]) {
      if i < a { assert (runs[..a] + [run])[i] == runs[..a][i]; }
    }
    OrderOfParts(runs[..a] + [run], runs[b..], clock, numLevels);
  }

  // ---- The other compactions, when one completes ----

  // Index j of the old list in the list with the runs from a to b replaced by `middle`.
  lemma SpliceAt(runs: seq<Run>, a: nat, b: nat, middle: seq<Run>)
    requires a <= b <= |runs|
    ensures var spliced := runs[..a] + middle + runs[b..];
            && |spliced| == |runs| - (b - a) + |middle|
            && (forall i :: 0 <= i < a ==> spliced[i] == runs[i])
            && (forall i :: a <= i < a + |middle| ==> spliced[i] == middle[i - a])
            && (forall i :: a + |middle| <= i < |spliced| ==> spliced[i] == runs[i - |middle| + (b - a)])
  {
  }

  lemma IntervalsApart(runs: seq<Run>, c: nat, a: nat, b: nat, d: nat, p: nat, q: nat)
    requires c != d && Covers(runs, c, a, b) && Covers(runs, d, p, q)
    ensures q <= a || b <= p
  {
    var i := if a <= p then p else a;
    assert i < |runs| ==> !(runs[i].job == Some(c) && runs[i].job == Some(d));
  }

  lemma CoversAfterFinish(runs: seq<Run>, c: nat, a: nat, b: nat, d: nat, middle: seq<Run>)
    requires c != d && Covers(runs, c, a, b) && HasInputs(runs, d)
    requires |middle| <= 1 && forall i :: 0 <= i < |middle| ==> middle[i].job == None
    ensures HasInputs(runs[..a] + middle + runs[b..], d)
  {
    var p: nat, q: nat :| Covers(runs, d, p, q);
    IntervalsApart(runs, c, a, b, d, p, q);
    SpliceAt(runs, a, b, middle);
    var spliced := runs[..a] + middle + runs[b..];
    var shift := b - a - |middle|;
    if q <= a {
      assert Covers(spliced, d, p, q);
    } else {
      assert Covers(spliced, d, p - shift, q - shift);
    }
  }

  lemma OutputFitsAfterFinish(runs: seq<Run>, c: nat, a: nat, b: nat, d: nat, level: nat, numLevels: nat, middle: seq<Run>)
    requires c != d && Covers(runs, c, a, b) && OutputFits(runs, d, level, numLevels)
    requires |middle| <= 1 && forall i :: 0 <= i < |middle| ==> middle[i].job == None && middle[i].level >= runs[b - 1].level
    ensures OutputFits(runs[..a] + middle + runs[b..], d, level, numLevels)
  {
    SpliceAt(runs, a, b, middle);
    var spliced := runs[..a] + middle + runs[b..];
    forall i, j | 0 <= i < j < |spliced| && spliced[i].job == Some(d) && spliced[j].job != Some(d)
      ensures level < spliced[j].level || level == 0 == spliced[j].level
    {
      var i' := if i < a then i else i - |middle| + (b - a);
      var j' := if j < a then j else if j < a + |middle| then b - 1 else j - |middle| + (b - a);
      assert runs[i'].job == Some(d) && runs[j'].job != Some(d) && i' < j';
      assert level < runs[j'].level || level == 0 == runs[j'].level;
    }
  }

  lemma FinishAt(s: State, c: nat, size: nat, compensated: nat, a: nat, b: nat)
    requires Inv(s) && c in s.outputs && Covers(s.runs, c, a, b)
    ensures var middle := if compensated == 0 then [] else [Merged(s.runs, a, b, s.outputs[c], size, compensated)];
            FinishStep(s, c, size, compensated).runs == s.runs[..a] + middle + s.runs[b..]
  {
    hide Ordered, OutputFits, HasInputs, Place, InputsOf, OthersOf;
    SplitsAtInputs(s.runs, c, a, b);
    if compensated == 0 {
      assert s.runs[..a] + [] + s.runs[b..] == s.runs[..a] + s.runs[b..];
    } else {
      PlaceMerged(s.runs, s.clock, s.numLevels, c, s.outputs[c], a, b,
                  Merged(s.runs, a, b, s.outputs[c], size, compensated));
    }
  }

  lemma JobsAfterFinish(runs: seq<Run>, outputs: map<nat, nat>, numLevels: nat, c: nat, a: nat, b: nat, middle: seq<Run>)
    requires JobsOk(runs, outputs, numLevels) && c in outputs && Covers(runs, c, a, b)
    requires |middle| <= 1 && forall i :: 0 <= i < |middle| ==> middle[i].job == None && middle[i].level >= runs[b - 1].level
    ensures JobsOk(runs[..a] + middle + runs[b..], outputs - {c}, numLevels)
  {
    var spliced := runs[..a] + middle + runs[b..];
    forall i | 0 <= i < |spliced| && spliced[i].job.Some? ensures spliced[i].job.value in outputs - {c} {
      SpliceAt(runs, a, b, middle);
    }
    hide Covers, HasInputs, OutputFits;
    forall d | d in outputs - {c} ensures HasInputs(spliced, d) && OutputFits(spliced, d, outputs[d], numLevels) {
      CoversAfterFinish(runs, c, a, b, d, middle);
      OutputFitsAfterFinish(runs, c, a, b, d, outputs[d], numLevels, middle);
    }
  }

  lemma FinishKeeps(s: State, c: nat, size: nat, compensated: nat)
    requires Inv(s) && c in s.outputs
    ensures Inv(FinishStep(s, c, size, compensated))
  {
    assert HasInputs(s.runs, c) && OutputFits(s.runs, c, s.outputs[c], s.numLevels);
    var a: nat, b: nat :| Covers(s.runs, c, a, b);
    assert s.runs[b - 1].level <= s.outputs[c];
    hide Ordered, OutputFits, HasInputs, Place, InputsOf, OthersOf, JobsOk;
    var run := Merged(s.runs, a, b, s.outputs[c], size, compensated);
    FinishAt(s, c, size, compensated, a, b);
    OrderAfterFinish(s.runs, s.clock, s.numLevels, c, s.outputs[c], a, b, run);
    assert s.runs[..a] + [] + s.runs[b..] == s.runs[..a] + s.runs[b..];
    JobsAfterFinish(s.runs, s.outputs, s.numLevels, c, a, b, if compensated == 0 then [] else [run]);
  }

  /** Every step keeps the invariant. */
  lemma StepKeepsInv(s: State, step: Step)
    requires Inv(s) && Enabled(s, step)
    ensures Inv(Apply(s, step))
  {
    hide Inv, FlushStep, StartStep, FinishStep, Picks;
    match step
    case Flush(size, compensated) => FlushKeeps(s, size, compensated);
    case Start(c, config, pick) => StartKeeps(s, c, config, pick);
    case Finish(c, size, compensated) => FinishKeeps(s, c, size, compensated);
    case Abandon(c) => AbandonKeeps(s, c);
  }

  /** In every state of every run: sorted runs are listed from newest to oldest, and every running
      compaction has at least two adjacent ones. */
  lemma {:induction false} RunKeepsInv(states: seq<State>, steps: seq<Step>, i: nat)
    requires IsRun(states, steps) && i < |states|
    ensures Inv(states[i])
  {
    if i > 0 {
      hide Inv, Enabled, Apply;
      RunKeepsInv(states, steps, i - 1);
      StepKeepsInv(states[i - 1], steps[i - 1]);
    }
  }

  /** In every run, no compaction is started on a sorted run that is an input of another. */
  lemma NeverSharesRun(states: seq<State>, steps: seq<Step>, i: nat)
    requires IsRun(states, steps) && i < |steps| && steps[i].Start?
    ensures PickFits(states[i].runs, steps[i].pick)
  {
    hide Inv, Apply, PickFits, Picks;
    RunKeepsInv(states, steps, i);
    PickIsFree(states[i], steps[i].config, steps[i].pick);
  }

  /** When a compaction completes, its output takes the place of its inputs in the list. */
  lemma OutputTakesPlaceOfInputs(states: seq<State>, steps: seq<Step>, i: nat) returns (a: nat, b: nat)
    requires IsRun(states, steps) && i < |steps| && steps[i].Finish? && steps[i].compensated > 0
    ensures Covers(states[i].runs, steps[i].c, a, b)
    ensures states[i + 1].runs == states[i].runs[..a]
              + [Merged(states[i].runs, a, b, states[i].outputs[steps[i].c], steps[i].size, steps[i].compensated)]
              + states[i].runs[b..]
  {
    RunKeepsInv(states, steps, i);
    assert HasInputs(states[i].runs, steps[i].c);
    hide Ordered, OutputFits, Place, InputsOf, OthersOf, JobsOk, FinishStep;
    a, b :| Covers(states[i].runs, steps[i].c, a, b);
    FinishAt(states[i], steps[i].c, steps[i].size, steps[i].compensated, a, b);
  }

  /** The condition matters: were the last run alone being compacted, the size amplification pick
      would take it again. */
  lemma SizeAmpTakesBusyLastRun()
    ensures var runs := [Run(0, 2, 2, 1, 1, None), Run(0, 1, 1, 1, 1, Some(7))];
            var config := Config(2, 1, 2, UINT_MAX, TotalSize, 100, 3);
            Picks(runs, config, Some(Pick(0, 2, 2))) && Busy(runs[1])
  {
    var runs := [Run(0, 2, 2, 1, 1, None), Run(0, 1, 1, 1, 1, Some(7))];
    assert runs[0..1] == [runs[0]] && runs[0..1][..0] == [];
    assert TotalCompensated(runs[0..1]) == 1;
    assert AmpCandidates(runs, 0) && AmpExceeded(runs, 0, 100);
  }
}
