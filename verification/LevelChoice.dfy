/**
 What the level compaction picker is to choose: the first candidate, by priority, that no running
 compaction stands in the way of.
 */
module LevelChoice {
  import opened Options
  import opened LevelFiles
  import opened LevelInputs
  import opened RunningCompactions

  const MIN_FILES_FOR_INTRA_L0: nat := 4
  const MAX_UINT64: nat := 0xFFFF_FFFF_FFFF_FFFF

  // The levels, the running compactions and the files being compacted.
  datatype View = View(levels: seq<seq<File>>, running: seq<Comp>, busy: set<nat>)

  // A file marked for compaction: its level and its place there.
  datatype Marked = Marked(level: nat, index: nat)

  /** What the version asks for: the levels whose score is at least 1, highest score first; the files of
      each level by priority; and the files marked for compaction, at the bottom, or expired. */
  datatype Agenda = Agenda(scored: seq<nat>, base: nat, orders: seq<seq<nat>>, trigger: nat, marked: seq<Marked>, random: nat,
                           bottommost: seq<Marked>, expired: seq<Marked>, nonEmpty: nat)

  // The first files of a compaction, and its levels.
  datatype Choice = Nothing | Chosen(start: nat, output: nat, sel: seq<File>)

  ghost predicate MarksOk(v: View, marks: seq<Marked>) {
    forall k :: 0 <= k < |marks| ==>
      && marks[k].level < |v.levels| && marks[k].index < |v.levels[marks[k].level]|
      && v.levels[marks[k].level][marks[k].index].id !in v.busy
  }

  ghost predicate AgendaOk(v: View, w: Agenda) {
    && 0 < w.base < |v.levels| == |w.orders|
    && (forall k :: 0 <= k < |w.scored| ==> w.scored[k] + 1 < |v.levels|)
    && (forall l, k :: 0 <= l < |v.levels| && 0 <= k < |w.orders[l]| ==> w.orders[l][k] < |v.levels[l]|)
    && MarksOk(v, w.marked) && MarksOk(v, w.bottommost) && MarksOk(v, w.expired)
    && (w.marked != [] ==> w.random < |w.marked|)
    && (forall k :: 0 <= k < |w.marked| ==> w.marked[k].level + 1 < |v.levels|)
    && (forall k :: 0 <= k < |w.expired| ==> w.expired[k].level + 1 < |v.levels| || w.expired[k].level + 1 == w.nonEmpty)
  }

  function OutputOf(start: nat, base: nat): nat {
    if start == 0 then base else start + 1
  }

  // ---- One file ----

  predicate OverlapsRunning(running: seq<Comp>, lo: int, hi: int, level: nat) {
    exists k :: 0 <= k < |running| && running[k].outputLevel == level && lo <= running[k].hi && hi >= running[k].lo
  }

  ghost predicate CutAround(files: seq<File>, i: nat, a: nat, b: nat) {
    i < |files| && ExpandsTo(files, i, i + 1, a, b)
  }

  /** File i with the smallest clean cut around it; by itself in level 0. */
  ghost predicate Expanded(files: seq<File>, level: nat, i: nat, sel: seq<File>) {
    && i < |files|
    && if level == 0 then sel == [files[i]] else exists a: nat, b: nat :: CutAround(files, i, a, b) && IsSlice(files, sel, a, b)
  }

  // A clean cut that takes in a file being compacted does not count.
  ghost predicate MayExpand(v: View, level: nat, i: nat, sel: seq<File>) {
    level < |v.levels| && Expanded(v.levels[level], level, i, sel) && (level == 0 || !AreFilesInCompaction(sel, v.busy))
  }

  /** A compaction from this file to the output level does not meet a running one. */
  ghost predicate Starts(v: View, start: nat, output: nat, i: nat, sel: seq<File>) {
    && start < |v.levels| && output < |v.levels| && i < |v.levels[start]| && v.levels[start][i].id !in v.busy
    && (start == 0 ==> !Level0InProgress(v.running))
    && MayExpand(v, start, i, sel) && sel != []
    && !OverlapsRunning(v.running, MinLo(sel), MaxHi(sel), output)
    && !RangeBlocked(v.levels[output], MinLo(sel), MaxHi(sel), v.busy)
  }

  ghost predicate CannotStart(v: View, start: nat, output: nat, i: nat) {
    forall sel :: !Starts(v, start, output, i, sel)
  }

  lemma ExpandedIsUnique(files: seq<File>, level: nat, i: nat, sel: seq<File>, sel': seq<File>)
    requires Expanded(files, level, i, sel) && Expanded(files, level, i, sel')
    ensures sel == sel'
  {
    if level > 0 {
      var a: nat, b: nat :| CutAround(files, i, a, b) && IsSlice(files, sel, a, b);
      var a': nat, b': nat :| CutAround(files, i, a', b') && IsSlice(files, sel', a', b');
      assert a == a' && b == b';
    }
  }

  // The only selection there is for the file does not do.
  lemma CannotExpandOtherwise(v: View, start: nat, output: nat, i: nat, sel: seq<File>)
    requires start < |v.levels| && Expanded(v.levels[start], start, i, sel) && !Starts(v, start, output, i, sel)
    ensures CannotStart(v, start, output, i)
  {
    hide Expanded, OverlapsRunning, RangeBlocked, AreFilesInCompaction;
    forall other ensures !Starts(v, start, output, i, other) {
      if Starts(v, start, output, i, other) { ExpandedIsUnique(v.levels[start], start, i, sel, other); }
    }
  }

  // ---- Levels by score ----

  ghost predicate NoFile(v: View, start: nat, output: nat, order: seq<nat>) {
    forall k :: 0 <= k < |order| ==> CannotStart(v, start, output, order[k])
  }

  /** PickFileToCompact: the first file by priority that can start a compaction. */
  ghost predicate FirstFile(v: View, start: nat, output: nat, order: seq<nat>, sel: seq<File>) {
    exists k :: 0 <= k < |order| && Starts(v, start, output, order[k], sel) && NoFile(v, start, output, order[..k])
  }

  /** PickIntraL0Compaction: the newest files of level 0, if they are enough. */
  ghost predicate IntraSpan(files: seq<File>, trigger: nat, busy: set<nat>, sel: seq<File>) {
    && |files| >= trigger + 2 && files[0].id !in busy && |sel| >= MIN_FILES_FOR_INTRA_L0
    && IsSpan(files, |sel|, busy) && sel == files[..|sel|] && Cost(files, |sel| - 1) < MAX_UINT64
  }

  ghost predicate NoSpan(files: seq<File>, trigger: nat, busy: set<nat>) {
    forall sel :: !IntraSpan(files, trigger, busy, sel)
  }

  // No compaction out of the base level while one from level 0 into it is held up.
  predicate Skipped(w: Agenda, i: nat)
    requires i < |w.scored|
  {
    w.scored[i] == w.base && 0 in w.scored[..i]
  }

  ghost predicate LevelPasses(v: View, w: Agenda, i: nat)
    requires i < |w.scored| && w.scored[i] < |w.orders| == |v.levels|
  {
    || Skipped(w, i)
    || (&& NoFile(v, w.scored[i], OutputOf(w.scored[i], w.base), w.orders[w.scored[i]])
        && (w.scored[i] == 0 ==> NoSpan(v.levels[0], w.trigger, v.busy)))
  }

  // The level gives a compaction: of its first file, or, failing that, of a span of level 0.
  ghost predicate ByScore(v: View, w: Agenda, i: nat, choice: Choice)
    requires i < |w.scored| && w.scored[i] < |w.orders| == |v.levels|
  {
    var start, output := w.scored[i], OutputOf(w.scored[i], w.base);
    && !Skipped(w, i) && choice.Chosen? && choice.start == start
    && ((choice.output == output && FirstFile(v, start, output, w.orders[start], choice.sel))
        || (start == choice.output == 0 && NoFile(v, start, output, w.orders[start])
            && IntraSpan(v.levels[0], w.trigger, v.busy, choice.sel)))
  }

  ghost predicate PassesBefore(v: View, w: Agenda, n: nat)
    requires AgendaOk(v, w) && n <= |w.scored|
  {
    forall i :: 0 <= i < n ==> LevelPasses(v, w, i)
  }

  /** SetupInitialFiles, first part: the level with the highest score that gives a compaction. */
  ghost predicate ScoreChoice(v: View, w: Agenda, choice: Choice)
    requires AgendaOk(v, w)
  {
    exists i :: 0 <= i < |w.scored| && ByScore(v, w, i, choice) && PassesBefore(v, w, i)
  }

  // ---- Marked files ----

  datatype Reason = ByMark | ByBottommost | ByTtl

  // The output level for a marked file; none for an expired one in the last level that has files.
  function Target(w: Agenda, why: Reason, m: Marked): Option<nat> {
    match why
    case ByMark => Some(OutputOf(m.level, w.base))
    case ByBottommost => Some(m.level)
    case ByTtl => if m.level + 1 == w.nonEmpty then None else Some(OutputOf(m.level, w.base))
  }

  ghost predicate MarkStarts(v: View, w: Agenda, why: Reason, m: Marked, sel: seq<File>) {
    && Target(w, why, m).Some?
    && (m.level == 0 && Target(w, why, m).value > 0 ==> !Level0InProgress(v.running))
    && MayExpand(v, m.level, m.index, sel)
  }

  ghost predicate CannotMark(v: View, w: Agenda, why: Reason, m: Marked) {
    forall sel :: !MarkStarts(v, w, why, m, sel)
  }

  ghost predicate MarkChoice(v: View, w: Agenda, why: Reason, m: Marked, choice: Choice) {
    && choice.Chosen? && MarkStarts(v, w, why, m, choice.sel)
    && choice.start == m.level && Some(choice.output) == Target(w, why, m)
  }

  ghost predicate NoMark(v: View, w: Agenda, why: Reason, marks: seq<Marked>) {
    forall k :: 0 <= k < |marks| ==> CannotMark(v, w, why, marks[k])
  }

  ghost predicate FirstMark(v: View, w: Agenda, why: Reason, marks: seq<Marked>, choice: Choice) {
    exists k :: 0 <= k < |marks| && MarkChoice(v, w, why, marks[k], choice) && NoMark(v, w, why, marks[..k])
  }

  /** PickFilesMarkedForCompaction: a random one first, then the first in order. */
  ghost predicate MarkedChoice(v: View, w: Agenda, choice: Choice)
    requires w.marked != [] ==> w.random < |w.marked|
  {
    w.marked != [] &&
    (MarkChoice(v, w, ByMark, w.marked[w.random], choice)
     || (CannotMark(v, w, ByMark, w.marked[w.random]) && FirstMark(v, w, ByMark, w.marked, choice)))
  }

  lemma CannotMarkOtherwise(v: View, w: Agenda, why: Reason, m: Marked, sel: seq<File>)
    requires m.level < |v.levels| && Expanded(v.levels[m.level], m.level, m.index, sel) && !MarkStarts(v, w, why, m, sel)
    ensures CannotMark(v, w, why, m)
  {
    hide Expanded, AreFilesInCompaction;
    forall other ensures !MarkStarts(v, w, why, m, other) {
      if MarkStarts(v, w, why, m, other) { ExpandedIsUnique(v.levels[m.level], m.level, m.index, sel, other); }
    }
  }

  // ---- Everything ----

  // A bottommost file is chosen or, failing that, an expired one.
  ghost predicate LastResort(v: View, w: Agenda, choice: Choice) {
    || FirstMark(v, w, ByBottommost, w.bottommost, choice)
    || (NoMark(v, w, ByBottommost, w.bottommost) && FirstMark(v, w, ByTtl, w.expired, choice))
  }

  ghost predicate NotByScore(v: View, w: Agenda, choice: Choice)
    requires AgendaOk(v, w)
  {
    MarkedChoice(v, w, choice) || (NoMark(v, w, ByMark, w.marked) && LastResort(v, w, choice))
  }

  /** SetupInitialFiles: scores come first, then marked files, then those at the bottom, then expired ones. */
  ghost predicate Chooses(v: View, w: Agenda, choice: Choice)
    requires AgendaOk(v, w)
  {
    ScoreChoice(v, w, choice) || (PassesBefore(v, w, |w.scored|) && NotByScore(v, w, choice))
  }

  ghost predicate NothingToDo(v: View, w: Agenda)
    requires AgendaOk(v, w)
  {
    && PassesBefore(v, w, |w.scored|) && NoMark(v, w, ByMark, w.marked)
    && NoMark(v, w, ByBottommost, w.bottommost) && NoMark(v, w, ByTtl, w.expired)
  }

  /** The files of level 0 that have to be compacted with the first ones: those that meet the smallest
      closed range around them. */
  ghost predicate Level0Closure(files: seq<File>, seed: seq<File>, sel: seq<File>) {
    seed != [] && MeetsClosed(files, MinLo(seed), MaxHi(seed), sel)
  }

  /** The compaction SetupOtherInputs makes of the selection `sel` of the start level. */
  ghost predicate BuiltFrom(v: View, start: nat, output: nat, sel: seq<File>, limit: nat, c: Comp) {
    && start <= output < |v.levels| && sel != [] && c.startLevel == start && c.outputLevel == output
    && (start == output ==> c.startFiles == sel && c.outputFiles == [])
    && (start < output ==>
          && Taken(v.levels[output], MinLo(sel), MaxHi(sel), c.outputFiles)
          && ExpandedInputs(v.levels[start], v.levels[output], start, sel, c.outputFiles, v.busy, limit, c.startFiles))
  }

  // The compaction is the choice, with the files that have to go with it.
  ghost predicate Completes(v: View, choice: Choice, limit: nat, c: Comp) {
    && choice.Chosen? && AllIn(choice.sel, c.startFiles) && choice.start < |v.levels|
    && exists sel :: BuiltFrom(v, choice.start, choice.output, sel, limit, c)
                     && (if choice.start == 0 < choice.output then Level0Closure(v.levels[0], choice.sel, sel) else sel == choice.sel)
  }

  /** No file is being compacted without a running compaction. */
  lemma IdleMeansFree(levels: seq<seq<File>>, running: seq<Comp>, busy: set<nat>, next: nat, files: seq<File>)
    requires Inv(levels, running, busy, next) && AreFilesInCompaction(files, busy)
    ensures running != []
  {
    var i :| 0 <= i < |files| && files[i].id in busy;
    assert Registered(running, files[i].id);
  }

  lemma BlockedMeansBusy(files: seq<File>, lo: int, hi: int, busy: set<nat>)
    requires RangeBlocked(files, lo, hi, busy)
    ensures AreFilesInCompaction(files, busy)
  {
    hide Lower, Upper;
    assert CleanCut(files, 0, |files|);
    assert files[0..|files|] == files;
  }
}
