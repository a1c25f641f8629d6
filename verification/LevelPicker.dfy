/**
 The level compaction picker (LevelCompactionBuilder, CompactionPicker::CompactRange) with the levels
 and the running compactions it works on. Every operation keeps: levels below 0 sorted, no file an
 input of two running compactions, and no common user key in two that write to the same level
 below 0.

 Scores, file priorities and the lists of marked files come from elsewhere and are parameters.
 */
module LevelPicker {
  import opened Options
  import opened LevelFiles
  import opened LevelInputs
  import opened RunningCompactions
  import opened LevelChoice

  lemma CutIsExclusive(files: seq<File>, sel: seq<File>)
    requires SortedLevel(files) && StartInputs(files, 1, sel)
    ensures forall i :: 0 <= i < |files| && Overlaps(files[i], MinLo(sel), MaxHi(sel)) ==> files[i] in sel
  {
    hide MinLo, MaxHi, SortedLevel, Overlaps, CleanCut;
    var a: nat, b: nat :| IsSlice(files, sel, a, b) && CleanCut(files, a, b);
    SliceIsSorted(files, a, b);
    SortedRange(sel);
    assert sel[0] == files[a] && sel[|sel| - 1] == files[b - 1];
    forall i | 0 <= i < |files| && Overlaps(files[i], MinLo(sel), MaxHi(sel)) ensures files[i] in sel {
      CleanCutContains(files, a, b, i);
      InSlice(files, a, b, i);
    }
  }

  // The compaction of these inputs.
  function MakeComp(start: nat, output: nat, inputs: seq<File>, out: seq<File>): Comp
    requires inputs != []
  {
    Comp(start, output, inputs, out, MinLo(inputs + out), MaxHi(inputs + out))
  }

  lemma IdOf(c: Comp, f: File)
    requires f in c.startFiles || f in c.outputFiles
    ensures f.id in Ids(c)
  {
  }

  lemma CompIsOk(levels: seq<seq<File>>, start: nat, output: nat, inputs: seq<File>, out: seq<File>)
    requires start <= output < |levels| && inputs != [] && AllIn(inputs, levels[start]) && AllIn(out, levels[output])
    requires start < output ==> InputsClosed(levels[output], inputs, out)
    requires start == output ==> out == []
    requires start == output > 0 ==> SortedLevel(levels[start]) && StartInputs(levels[start], start, inputs)
    ensures CompOk(levels, MakeComp(start, output, inputs, out))
  {
    hide MinLo, MaxHi, Ids, SortedLevel;
    var c := MakeComp(start, output, inputs, out);
    var files := levels[output];
    if start == output > 0 {
      SameLevelInputs(files, start, inputs);
      CutIsExclusive(files, inputs);
      assert inputs + out == inputs;
    }
    if output > 0 {
      forall i | 0 <= i < |files| && Overlaps(files[i], c.lo, c.hi) ensures files[i].id in Ids(c) { IdOf(c, files[i]); }
    }
  }

  lemma SameLevelInputs(files: seq<File>, level: nat, inputs: seq<File>)
    requires level > 0 && StartInputs(files, level, inputs)
    ensures StartInputs(files, 1, inputs)
  {
  }

  class LevelCompactionPicker {
    var levels: seq<seq<File>>
    var running: seq<Comp>
    var busy: set<nat>
    var next: nat

    ghost predicate Valid()
      reads this
    {
      Inv(levels, running, busy, next)
    }

    ghost function Now(): View
      reads this
    {
      View(levels, running, busy)
    }

    /** An empty database with n levels. */
    constructor (n: nat)
      requires n > 0
      ensures Valid() && levels == seq(n, i => []) && running == [] && busy == {}
    {
      levels, running, busy, next := seq(n, i => []), [], {}, 0;
    }

    /** RangeOverlapWithCompaction: some running compaction writes to the level within the range. */
    method RangeOverlapWithCompaction(lo: int, hi: int, level: nat) returns (overlap: bool)
      ensures overlap <==> OverlapsRunning(running, lo, hi, level)
    {
      for k := 0 to |running|
        invariant forall j :: 0 <= j < k ==> !(running[j].outputLevel == level && lo <= running[j].hi && hi >= running[j].lo)
      {
        if running[k].outputLevel == level && lo <= running[k].hi && hi >= running[k].lo { return true; }
      }
      return false;
    }

    /** RegisterCompaction, and the marking of the inputs by the constructor of Compaction. */
    method Register(c: Comp)
      requires Valid() && Sound(levels, running, busy, c)
      modifies `running, `busy
      ensures Valid() && Ids(c) !! old(busy)
      ensures running == old(running) + [c] && busy == old(busy) + Ids(c)
    {
      RegisterKeeps(levels, running, busy, c);
      running, busy := running + [c], busy + Ids(c);
    }

    // What the first files chosen satisfy.
    ghost predicate Seed(start: nat, sel: seq<File>)
      reads this
    {
      && start < |levels| && sel != [] && AllIn(sel, levels[start])
      && (start == 0 ==> !Level0InProgress(running))
      && (start > 0 ==> StartInputs(levels[start], start, sel) && !AreFilesInCompaction(sel, busy))
    }

    /** One file expanded to a clean cut. */
    method ExpandOne(start: nat, i: nat) returns (ok: bool, sel: seq<File>)
      requires Valid() && start < |levels| && i < |levels[start]|
      ensures Expanded(levels[start], start, i, sel) && (ok <==> MayExpand(Now(), start, i, sel))
      ensures ok && (start == 0 ==> !Level0InProgress(running)) ==> Seed(start, sel)
      ensures !ok ==> running != []
    {
      hide SortedLevel, CleanCut, AreFilesInCompaction, IdsOk, RunningOk;
      var files := levels[start];
      assert files[i..i + 1] == [files[i]];
      ghost var a: nat, b: nat;
      ok, sel, a, b := ExpandInputsToCleanCut(files, start, [files[i]], busy, i, i + 1);
      if start > 0 {
        assert CutAround(files, i, a, b);
        SliceHas0(files, a, b);
        if !ok { IdleMeansFree(levels, running, busy, next, sel); }
      }
    }

    /** PickFileToCompact: the first file by priority that can be compacted. Without a running
        compaction every file can. */
    method PickFileToCompact(start: nat, output: nat, order: seq<nat>) returns (found: bool, sel: seq<File>)
      requires Valid() && start < output < |levels| && forall k :: 0 <= k < |order| ==> order[k] < |levels[start]|
      ensures found ==> Seed(start, sel) && FirstFile(Now(), start, output, order, sel)
      ensures !found ==> NoFile(Now(), start, output, order) && (running == [] ==> order == [])
    {
      hide Inv, Seed, Starts, CannotStart, Expanded;
      sel := [];
      if start == 0 && Level0InProgress(running) {
        Level0Passes(Now(), output, order);
        return false, [];
      }
      var k := 0;
      while k < |order|
        invariant k <= |order| && NoFile(Now(), start, output, order[..k]) && (k > 0 ==> running != [])
      {
        var ok, wider := TryFile(start, output, order[k]);
        if ok { return true, wider; }
        k := k + 1;
      }
      assert order[..k] == order;
      return false, [];
    }

    // One turn of the loop.
    method TryFile(start: nat, output: nat, i: nat) returns (ok: bool, sel: seq<File>)
      requires Valid() && start < output < |levels| && i < |levels[start]| && (start == 0 ==> !Level0InProgress(running))
      ensures ok ==> Seed(start, sel) && Starts(Now(), start, output, i, sel)
      ensures !ok ==> CannotStart(Now(), start, output, i) && running != []
    {
      hide Inv, Seed, Expanded, RangeBlocked, OverlapsRunning, AreFilesInCompaction, CannotStart;
      sel := [];
      if levels[start][i].id in busy {
        BusyCannotStart(Now(), start, output, i, next);
        return false, [];
      }
      ok, sel := ExpandOne(start, i);
      if !ok {
        CannotExpandOtherwise(Now(), start, output, i, sel);
        return;
      }
      SeedFacts(start, sel);
      var lo, hi := GetRange(start, sel);
      var overlap := RangeOverlapWithCompaction(lo, hi, output);
      if overlap {
        CannotExpandOtherwise(Now(), start, output, i, sel);
        OverlapMeansRunning(running, lo, hi, output);
        return false, sel;
      }
      SortedAt(levels, running, busy, next, output);
      var free, out, x, y := TakeOutputFiles(levels[output], lo, hi, busy);
      ok := free;
      if !ok {
        CannotExpandOtherwise(Now(), start, output, i, sel);
        BlockedMeansBusy(levels[output], lo, hi, busy);
        IdleMeansFree(levels, running, busy, next, levels[output]);
      }
    }

    /** PickIntraL0Compaction: the newest files of level 0. */
    method PickIntraL0Compaction(trigger: nat) returns (found: bool, sel: seq<File>)
      requires Valid()
      ensures found ==> IntraSpan(levels[0], trigger, busy, sel) && sel != [] && AllIn(sel, levels[0]) && !AreFilesInCompaction(sel, busy)
      ensures !found ==> NoSpan(levels[0], trigger, busy)
    {
      var files := levels[0];
      if |files| < trigger + 2 || files[0].id in busy { return false, []; }
      found, sel := FindIntraL0Compaction(files, MIN_FILES_FOR_INTRA_L0, MAX_UINT64, busy);
    }

    /** SetupOtherL0FilesIfNeeded: for a compaction out of level 0, all files of level 0 that meet the
        range; fails if a file of the output level within the range is being compacted. */
    method SetupOtherL0FilesIfNeeded(start: nat, output: nat, seed: seq<File>) returns (ok: bool, sel: seq<File>)
      requires Valid() && Seed(start, seed) && start <= output < |levels| && output > 0
      ensures ok ==> StartInputs(levels[start], start, sel) && AllIn(seed, sel) && !AreFilesInCompaction(sel, busy)
      ensures if start > 0 then ok && sel == seed else Level0Closure(levels[0], seed, sel)
      ensures !ok ==> running != []
    {
      hide MinLo, MaxHi, Meeting, ClosedRange, SortedLevel, AreFilesInCompaction, IdsOk, RunningOk, Level0InProgress;
      sel := seed;
      AllInItself(seed);
      if start > 0 { return true, seed; }
      SeedFacts(start, seed);
      var lo, hi := GetRange(0, seed);
      ghost var x, y;
      sel, x, y := OverlappingInLevel0(levels[0], lo, hi);
      PositiveIn(seed, levels[0]);
      InRangeMeets(seed, x, y);
      MeetingHasAll(levels[0], seed, x, y);
      assert seed[0] in sel;
      Level0IsFree(levels, running, busy, next, sel);
      lo, hi := GetRange(0, sel);
      var out := Select(levels[output], lo, hi);
      ok := !AreFilesInCompaction(out, busy);
      if !ok { IdleMeansFree(levels, running, busy, next, out); }
    }

    /** SetupOtherInputsIfNeeded and GetCompaction, for an output level below 0: the other inputs, the
        test against the running compactions, and the registration. */
    method FinishPick(start: nat, output: nat, sel: seq<File>, limit: nat) returns (c: Option<Comp>)
      requires Valid() && start <= output < |levels| && output > 0
      requires StartInputs(levels[start], start, sel) && !AreFilesInCompaction(sel, busy)
      modifies `running, `busy
      ensures Valid()
      ensures c.None? ==> running == old(running) != [] && busy == old(busy)
      ensures c.Some? ==> Started(old(levels), old(running), old(busy), c.value)
      ensures c.Some? ==> BuiltFrom(old(Now()), start, output, sel, limit, c.value) && AllIn(sel, c.value.startFiles)
    {
      hide MinLo, MaxHi, SortedLevel, AreFilesInCompaction, IdsOk, RunningOk, StartInputs, Ids, CompOk, RangeBlocked, AllIn, Taken, ExpandedInputs;
      SelectionFacts(levels[start], start, sel);
      var ok, inputs, out := SetupOtherInputs(levels[start], levels[output], start, output, sel, busy, limit);
      if !ok {
        BlockedMeansBusy(levels[output], MinLo(sel), MaxHi(sel), busy);
        IdleMeansFree(levels, running, busy, next, levels[output]);
        return None;
      }
      SelectionFacts(levels[start], start, inputs);
      var comp := MakeComp(start, output, inputs, out);
      var overlap := RangeOverlapWithCompaction(comp.lo, comp.hi, output);
      if overlap {
        OverlapMeansRunning(running, comp.lo, comp.hi, output);
        return None;
      }
      CompIsOk(levels, start, output, inputs, out);
      Register(comp);
      c := Some(comp);
    }

    // The compaction has been registered, and it was sound to do so.
    ghost predicate Started(was: seq<seq<File>>, wasRunning: seq<Comp>, wasBusy: set<nat>, c: Comp)
      reads this
    {
      Sound(was, wasRunning, wasBusy, c) && running == wasRunning + [c] && busy == wasBusy + Ids(c) && Ids(c) !! wasBusy
    }

    /** A compaction whose output stays in level 0. */
    method RegisterInL0(sel: seq<File>) returns (c: Comp)
      requires Valid() && sel != [] && AllIn(sel, levels[0]) && !AreFilesInCompaction(sel, busy)
      modifies `running, `busy
      ensures Valid() && Started(old(levels), old(running), old(busy), c) && c.startLevel == c.outputLevel == 0
      ensures c.startFiles == sel && c.outputFiles == []
    {
      hide MinLo, MaxHi, SortedLevel, IdsOk, RunningOk, Ids, CompOk;
      NothingIn(busy, levels[0]);
      CompIsOk(levels, 0, 0, sel, []);
      c := MakeComp(0, 0, sel, []);
      Register(c);
    }

    ghost predicate ChoiceOk(choice: Choice)
      reads this
    {
      choice.Chosen? ==>
        && choice.start <= choice.output < |levels|
        && (choice.output > 0 ==> Seed(choice.start, choice.sel))
        && (choice.output == 0 ==> choice.sel != [] && AllIn(choice.sel, levels[0]) && !AreFilesInCompaction(choice.sel, busy))
    }

    /** SetupInitialFiles, first part: the levels whose score calls for a compaction, in that order. */
    method PickByScore(w: Agenda) returns (choice: Choice)
      requires Valid() && AgendaOk(Now(), w)
      ensures ChoiceOk(choice)
      ensures if choice.Chosen? then ScoreChoice(Now(), w, choice) else PassesBefore(Now(), w, |w.scored|)
      ensures running == [] && (exists k :: 0 <= k < |w.scored| && !Skipped(w, k) && w.orders[w.scored[k]] != []) ==> choice.Chosen?
    {
      hide Inv, Seed, NoFile, FirstFile, NoSpan, IntraSpan, MarksOk, AllIn, AreFilesInCompaction;
      var skippedL0 := false;
      for i := 0 to |w.scored|
        invariant PassesBefore(Now(), w, i) && (skippedL0 <==> 0 in w.scored[..i])
        invariant running == [] ==> forall k :: 0 <= k < i ==> Skipped(w, k) || w.orders[w.scored[k]] == []
      {
        var start := w.scored[i];
        assert w.scored[..i + 1] == w.scored[..i] + [start];
        if skippedL0 && start == w.base { continue; }
        var output := OutputOf(start, w.base);
        var found, sel := PickFileToCompact(start, output, w.orders[start]);
        if found {
          choice := Chosen(start, output, sel);
          assert ByScore(Now(), w, i, choice);
          return;
        }
        if start == 0 {
          skippedL0 := true;
          found, sel := PickIntraL0Compaction(w.trigger);
          if found {
            choice := Chosen(0, 0, sel);
            assert ByScore(Now(), w, i, choice);
            return;
          }
        }
        assert LevelPasses(Now(), w, i);
      }
      return Nothing;
    }

    /** One marked file as the first file of a compaction. */
    method TryMarked(w: Agenda, why: Reason, m: Marked) returns (choice: Choice)
      requires Valid() && 0 < w.base < |levels| && m.level < |levels| && m.index < |levels[m.level]|
      requires Target(w, why, m).Some? ==> Target(w, why, m).value < |levels|
      requires why == ByBottommost ==> levels[m.level][m.index].id !in busy
      ensures ChoiceOk(choice)
      ensures if choice.Chosen? then MarkChoice(Now(), w, why, m, choice) else CannotMark(Now(), w, why, m)
    {
      hide Inv, Seed, Expanded;
      var target := Target(w, why, m);
      if target == None || (m.level == 0 && target.value > 0 && Level0InProgress(running)) { return Nothing; }
      var ok, sel := ExpandOne(m.level, m.index);
      if !ok {
        CannotMarkOtherwise(Now(), w, why, m, sel);
        return Nothing;
      }
      if m.level == 0 { ExpandedAlone(levels[0], m.index, sel); }
      return Chosen(m.level, target.value, sel);
    }

    /** The first of a list of marked files that can start a compaction: PickExpiredTtlFiles and the
        bottommost files in SetupInitialFiles. */
    method PickFirstMarked(w: Agenda, why: Reason, marks: seq<Marked>) returns (choice: Choice)
      requires Valid() && AgendaOk(Now(), w) && MarksOk(Now(), marks)
      requires forall k :: 0 <= k < |marks| && Target(w, why, marks[k]).Some? ==> Target(w, why, marks[k]).value < |levels|
      ensures ChoiceOk(choice)
      ensures if choice.Chosen? then FirstMark(Now(), w, why, marks, choice) else NoMark(Now(), w, why, marks)
    {
      hide Inv, Seed, CannotMark, MarkChoice, Target;
      for k := 0 to |marks|
        invariant NoMark(Now(), w, why, marks[..k])
      {
        choice := TryMarked(w, why, marks[k]);
        if choice.Chosen? { return; }
      }
      assert marks[..|marks|] == marks;
      return Nothing;
    }

    /** PickFilesMarkedForCompaction: a random file first, then all in order. */
    method PickFilesMarkedForCompaction(w: Agenda) returns (choice: Choice)
      requires Valid() && AgendaOk(Now(), w)
      ensures ChoiceOk(choice)
      ensures if choice.Chosen? then MarkedChoice(Now(), w, choice) else NoMark(Now(), w, ByMark, w.marked)
    {
      hide Inv, Seed, CannotMark, MarkChoice;
      if w.marked == [] { return Nothing; }
      choice := TryMarked(w, ByMark, w.marked[w.random]);
      if choice.Chosen? { return; }
      choice := PickFirstMarked(w, ByMark, w.marked);
    }

    /** SetupInitialFiles. */
    method SetupInitialFiles(w: Agenda) returns (choice: Choice)
      requires Valid() && AgendaOk(Now(), w)
      ensures ChoiceOk(choice)
      ensures if choice.Chosen? then Chooses(Now(), w, choice) else NothingToDo(Now(), w)
      ensures running == [] && (exists k :: 0 <= k < |w.scored| && !Skipped(w, k) && w.orders[w.scored[k]] != []) ==> choice.Chosen?
    {
      hide Inv, Seed, ScoreChoice, PassesBefore, MarkedChoice, NoMark, FirstMark, ChoiceOk;
      choice := PickByScore(w);
      if choice.Nothing? { choice := PickFilesMarkedForCompaction(w); } else { return; }
      if choice.Nothing? { choice := PickFirstMarked(w, ByBottommost, w.bottommost); } else { return; }
      if choice.Nothing? { choice := PickFirstMarked(w, ByTtl, w.expired); }
    }

    /** PickCompaction. The compaction is the choice that the priorities call for. There is none only if
        nothing is called for that could start, or a running compaction is in the way of the choice;
        so without a running compaction, a level whose score calls for one gets it. */
    method PickCompaction(w: Agenda, limit: nat) returns (c: Option<Comp>)
      requires Valid() && AgendaOk(Now(), w)
      modifies `running, `busy
      ensures Valid()
      ensures c.Some? ==> Started(old(levels), old(running), old(busy), c.value)
      ensures c.Some? ==> exists choice :: Chooses(old(Now()), w, choice) && Completes(old(Now()), choice, limit, c.value)
      ensures c.None? ==> running == old(running) && busy == old(busy) && (NothingToDo(old(Now()), w) || running != [])
      ensures old(running) == [] && (exists k :: 0 <= k < |w.scored| && !Skipped(w, k) && w.orders[w.scored[k]] != []) ==> c.Some?
    {
      hide Inv, Seed, Started, Chooses, NothingToDo, AgendaOk, AllIn;
      var choice := SetupInitialFiles(w);
      if choice.Nothing? { return None; }
      if choice.output == 0 {
        var comp := RegisterInL0(choice.sel);
        AllInItself(choice.sel);
        assert BuiltFrom(old(Now()), 0, 0, choice.sel, limit, comp);
        assert Completes(old(Now()), choice, limit, comp);
        return Some(comp);
      }
      var ok, sel := SetupOtherL0FilesIfNeeded(choice.start, choice.output, choice.sel);
      if !ok { return None; }
      c := FinishPick(choice.start, choice.output, sel, limit);
      if c.Some? {
        AllInTwice(choice.sel, sel, c.value.startFiles);
        assert BuiltFrom(old(Now()), choice.start, choice.output, sel, limit, c.value);
        assert Completes(old(Now()), choice, limit, c.value);
      }
    }

    /** The files of the input level for a manual compaction; no `sel` and no `conflict` if there are
        none. */
    method SelectRange(input: nat, begin: Option<int>, end: Option<int>, limit: nat) returns (sel: Option<seq<File>>, conflict: bool)
      requires Valid() && input < |levels|
      ensures sel.None? && !conflict <==> NoneMeets(levels[input], begin, end)
      ensures conflict ==> sel.None? && running != []
      ensures sel.Some? ==> StartInputs(levels[input], input, sel.value) && !AreFilesInCompaction(sel.value, busy)
      ensures sel.Some? ==> RangeInputs(levels[input], input, begin, end, limit, sel.value)
    {
      hide MinLo, MaxHi, SortedLevel, AreFilesInCompaction, IdsOk, RunningOk, StartInputs, NoneMeets, RangeInputs, Select, Meeting, ClosedRange;
      var files := levels[input];
      NoneMeetsNothing(files, begin, end);
      if files == [] { return None, false; }
      var lo, hi := From(files, begin), To(files, end);
      if input == 0 {
        var found, x, y := OverlappingInLevel0(files, lo, hi);
        MeetingIsEmpty(files, begin, end, x, y);
        if found == [] { return None, false; }
        if Level0InProgress(running) { return None, true; }
        Level0Start(files, found, x, y);
        Level0IsFree(levels, running, busy, next, found);
        assert RangeInputs(files, input, begin, end, limit, found) by { Level0Range(files, begin, end, limit, found); }
        return Some(found), false;
      }
      SelectIsEmpty(files, begin, end);
      if Select(files, lo, hi) == [] { return None, false; }
      var ok, wider := FirstOfRange(files, input, begin, end, limit, busy);
      if !ok {
        IdleMeansFree(levels, running, busy, next, wider);
        return None, true;
      }
      return Some(wider), false;
    }

    /** CompactRange, with its output level decided: a manual compaction of the files that meet a range,
        or of the first of them if they are too large together. It returns nothing if no file meets
        the range, and `conflict` if running compactions are in the way. */
    method CompactRange(input: nat, output: nat, begin: Option<int>, end: Option<int>, limit: nat)
      returns (c: Option<Comp>, conflict: bool)
      requires Valid() && input <= output < |levels|
      modifies `running, `busy
      ensures Valid()
      ensures c.None? ==> running == old(running) && busy == old(busy)
      ensures c.None? && !conflict <==> NoneMeets(old(levels[input]), begin, end)
      ensures conflict ==> c.None? && old(running) != []
      ensures c.Some? ==> Started(old(levels), old(running), old(busy), c.value)
      ensures c.Some? ==> exists sel :: && RangeInputs(old(levels[input]), input, begin, end, limit, sel)
                                        && BuiltFrom(old(Now()), input, output, sel, limit, c.value)
      ensures c.Some? ==> TakesRange(old(levels[input]), input, begin, end, limit, c.value.startFiles)
    {
      hide Inv, MinLo, MaxHi, AreFilesInCompaction, StartInputs, Started, NoneMeets, TakesRange, AllIn, OverlapsRunning, RangeInputs;
      var sel;
      sel, conflict := SelectRange(input, begin, end, limit);
      if sel == None { return None, conflict; }
      StartFilesIn(levels[input], input, sel.value);
      PositiveAt(levels, running, busy, next, input);
      RangeIsTaken(levels[input], input, begin, end, limit, sel.value);
      if output == 0 {
        var overlap := RangeOverlapWithCompaction(MinLo(sel.value), MaxHi(sel.value), 0);
        if overlap {
          OverlapMeansRunning(running, MinLo(sel.value), MaxHi(sel.value), 0);
          return None, true;
        }
        var comp := RegisterInL0(sel.value);
        assert BuiltFrom(old(Now()), 0, 0, sel.value, limit, comp);
        return Some(comp), false;
      }
      c := FinishPick(input, output, sel.value, limit);
      conflict := c.None?;
      if c.Some? { TakesRangeStill(levels[input], input, begin, end, limit, sel.value, c.value.startFiles); }
    }

    /** The compaction with index i completes with these outputs. */
    method Finish(i: nat, outputs: seq<File>, newNext: nat)
      requires Valid() && i < |running|
      requires GoodOutputs(outputs, running[i].lo, running[i].hi) && NewIds(outputs, next, newNext)
      modifies this
      ensures Valid() && next == newNext
      ensures running == old(running[..i] + running[i + 1..]) && busy == old(busy) - Ids(old(running[i]))
      ensures levels == Finished(old(levels), old(running[i]), outputs)
    {
      hide Inv, Ids, Finished;
      FinishKeeps(levels, running, busy, next, i, outputs, newNext);
      RunningLevels(i);
      levels := Finished(levels, running[i], outputs);
      busy := busy - Ids(running[i]);
      running := running[..i] + running[i + 1..];
      next := newNext;
    }

    /** The compaction with index i fails: ReleaseCompactionFiles. */
    method Release(i: nat)
      requires Valid() && i < |running|
      modifies `running, `busy
      ensures Valid() && running == old(running[..i] + running[i + 1..]) && busy == old(busy) - Ids(old(running[i]))
    {
      hide LevelsOk, IdsOk, RunningOk, Ids;
      WithoutOne(running, i, levels, busy);
      busy := busy - Ids(running[i]);
      running := running[..i] + running[i + 1..];
    }

    /** A flush. */
    method Flush(lo: int, hi: int, size: nat)
      requires Valid() && lo <= hi
      modifies `levels, `next
      ensures Valid() && next == old(next) + 1
      ensures levels == old(levels[0 := [File(next, lo, hi, size)] + levels[0]])
    {
      FlushKeeps(levels, running, busy, next, File(next, lo, hi, size));
      hide Inv;
      levels := levels[0 := [File(next, lo, hi, size)] + levels[0]];
      next := next + 1;
    }

    lemma RunningLevels(i: nat)
      requires Valid() && i < |running|
      ensures running[i].startLevel < |levels| && running[i].outputLevel < |levels|
    {
      assert CompOk(levels, running[i]);
    }

    lemma SeedFacts(start: nat, sel: seq<File>)
      requires Valid() && Seed(start, sel)
      ensures sel != [] && MinLo(sel) <= MaxHi(sel) && (start > 0 ==> SortedLevel(sel))
    {
      hide MinLo, MaxHi, IdsOk, RunningOk;
      PositiveIn(sel, levels[start]);
      PositiveRange(sel);
      if start > 0 { SelectionFacts(levels[start], start, sel); }
    }
  }

  // ---- Manual compactions ----

  predicate Meets(f: File, begin: Option<int>, end: Option<int>) {
    (begin.Some? ==> f.hi >= begin.value) && (end.Some? ==> f.lo <= end.value)
  }

  predicate NoneMeets(files: seq<File>, begin: Option<int>, end: Option<int>) {
    forall i :: 0 <= i < |files| ==> !Meets(files[i], begin, end)
  }

  function From(files: seq<File>, begin: Option<int>): int
    requires files != []
  {
    if begin.Some? then begin.value else MinLo(files)
  }

  function To(files: seq<File>, end: Option<int>): int
    requires files != []
  {
    if end.Some? then end.value else MaxHi(files)
  }

  /** In level 0 all files that meet the range; below it the first of them, as long as those before add
      up to less than the limit. */
  ghost predicate TakesRange(files: seq<File>, level: nat, begin: Option<int>, end: Option<int>, limit: nat, sel: seq<File>) {
    files != [] &&
    if level == 0 then forall i :: 0 <= i < |files| && Meets(files[i], begin, end) ==> files[i] in sel
    else TakesFirst(Select(files, From(files, begin), To(files, end)), limit, sel)
  }

  // The first n of the files found: as long as they add up to less than the limit, and at least one.
  predicate FirstFit(found: seq<File>, limit: nat, n: nat) {
    && 0 < n <= |found|
    && (n == |found| || TotalSize(found[..n]) >= limit)
    && (n > 1 ==> TotalSize(found[..n - 1]) < limit)
  }

  /** The files of the input level that CompactRange starts from: in level 0 those that meet the smallest
      closed range around the one asked for; below it the first of those that meet it, as many as fit,
      expanded to the smallest clean cut. */
  ghost predicate RangeInputs(files: seq<File>, level: nat, begin: Option<int>, end: Option<int>, limit: nat, sel: seq<File>) {
    files != [] &&
    if level == 0 then MeetsClosed(files, From(files, begin), To(files, end), sel)
    else exists n: nat, a: nat, b: nat ::
           && FirstFit(Select(files, From(files, begin), To(files, end)), limit, n) && IsSlice(files, sel, a, b)
           && ExpandsFrom(files, From(files, begin), n, a, b)
  }

  ghost predicate ExpandsFrom(files: seq<File>, lo: int, n: nat, a: nat, b: nat) {
    ExpandsTo(files, Lower(files, lo), Lower(files, lo) + n, a, b)
  }

  lemma Level0Range(files: seq<File>, begin: Option<int>, end: Option<int>, limit: nat, sel: seq<File>)
    requires files != [] && MeetsClosed(files, From(files, begin), To(files, end), sel)
    ensures RangeInputs(files, 0, begin, end, limit, sel)
  {
  }

  // Below level 0: the first files that meet the range, expanded.
  method FirstOfRange(files: seq<File>, level: nat, begin: Option<int>, end: Option<int>, limit: nat, busy: set<nat>)
    returns (ok: bool, sel: seq<File>)
    requires level > 0 && files != [] && SortedLevel(files) && Select(files, From(files, begin), To(files, end)) != []
    ensures StartInputs(files, level, sel) && RangeInputs(files, level, begin, end, limit, sel)
    ensures ok <==> !AreFilesInCompaction(sel, busy)
  {
    hide MinLo, MaxHi, SortedLevel, AreFilesInCompaction, StartInputs, Lower, Upper, CleanCut, FirstFit;
    var lo := From(files, begin);
    var found := Select(files, lo, To(files, end));
    var n := Cut(found, limit);
    FitsWithin(found, limit, n);
    ghost var a, b: nat := Lower(files, lo), Lower(files, lo) + n;
    assert found[..n] == files[a..b];
    ghost var x: nat, y: nat;
    ok, sel, x, y := ExpandInputsToCleanCut(files, level, found[..n], busy, a, b);
    CutIsStart(files, level, sel, x, y);
    assert ExpandsFrom(files, lo, n, x, y);
  }

  lemma FitsWithin(found: seq<File>, limit: nat, n: nat)
    requires FirstFit(found, limit, n)
    ensures 0 < n <= |found|
  {
  }

  /** So nothing that fits is left out. */
  lemma RangeIsTaken(files: seq<File>, level: nat, begin: Option<int>, end: Option<int>, limit: nat, sel: seq<File>)
    requires RangeInputs(files, level, begin, end, limit, sel) && Positive(files)
    ensures TakesRange(files, level, begin, end, limit, sel)
  {
    hide Meeting, MinLo, MaxHi, Lower, Upper, CleanCut, TotalSize;
    if level == 0 {
      var x, y :| GrowsTo(files, From(files, begin), To(files, end), x, y) && sel == Meeting(files, x, y);
      MeetingIsEmpty(files, begin, end, x, y);
    } else {
      var found := Select(files, From(files, begin), To(files, end));
      var n: nat, a: nat, b: nat :| FirstFit(found, limit, n) && IsSlice(files, sel, a, b) && ExpandsFrom(files, From(files, begin), n, a, b);
      var l := Lower(files, From(files, begin));
      assert found[..n] == files[l..l + n];
      SliceHas(files, l, l + n, a, b);
      FirstOnesTaken(found, n, limit, sel);
    }
  }

  ghost predicate TakesFirst(found: seq<File>, limit: nat, sel: seq<File>) {
    forall i :: 0 <= i < |found| && (i == 0 || TotalSize(found[..i]) < limit) ==> found[i] in sel
  }

  lemma NoneMeetsNothing(files: seq<File>, begin: Option<int>, end: Option<int>)
    ensures files == [] ==> NoneMeets(files, begin, end)
  {
  }

  lemma MeetsIsOverlaps(files: seq<File>, begin: Option<int>, end: Option<int>, i: nat)
    requires i < |files| && Positive(files)
    ensures Meets(files[i], begin, end) <==> Overlaps(files[i], From(files, begin), To(files, end))
  {
  }

  lemma SelectIsEmpty(files: seq<File>, begin: Option<int>, end: Option<int>)
    requires files != [] && Positive(files) && SortedLevel(files)
    ensures Select(files, From(files, begin), To(files, end)) == [] <==> NoneMeets(files, begin, end)
  {
    hide Lower, Upper, SortedLevel;
    var lo, hi := From(files, begin), To(files, end);
    forall i: nat | i < |files| ensures Meets(files[i], begin, end) <==> Overlaps(files[i], lo, hi) {
      MeetsIsOverlaps(files, begin, end, i);
    }
    if Lower(files, lo) < Upper(files, hi) { assert Overlaps(files[Lower(files, lo)], lo, hi); }
    forall i: nat | i < |files| && Overlaps(files[i], lo, hi) ensures Lower(files, lo) <= i < Upper(files, hi) {
      if Upper(files, hi) <= i { SortedEnds(files, Upper(files, hi), i); }
    }
  }

  lemma MeetingIsEmpty(files: seq<File>, begin: Option<int>, end: Option<int>, x: int, y: int)
    requires files != [] && Positive(files) && GrowsTo(files, From(files, begin), To(files, end), x, y)
    ensures Meeting(files, x, y) == [] <==> NoneMeets(files, begin, end)
    ensures forall i :: 0 <= i < |files| && Meets(files[i], begin, end) ==> files[i] in Meeting(files, x, y)
  {
    hide Meeting;
    var lo, hi := From(files, begin), To(files, end);
    forall i: nat | i < |files| ensures Meets(files[i], begin, end) <==> Overlaps(files[i], lo, hi) {
      MeetsIsOverlaps(files, begin, end, i);
    }
    forall f { MeetingIsFilter(files, x, y, f); }
    HasFirst(Meeting(files, x, y));
    if NoneMeets(files, begin, end) { assert ClosedRange(files, lo, hi); }
  }

  lemma HasFirst(files: seq<File>)
    ensures files == [] || exists f :: f in files
  {
    if files != [] { assert files[0] in files; }
  }

  lemma {:induction false} TotalGrows(files: seq<File>, n: nat, i: nat)
    requires n <= i <= |files|
    ensures TotalSize(files[..n]) <= TotalSize(files[..i])
    decreases i - n
  {
    if n < i {
      TotalOfPrefix(files, n);
      TotalGrows(files, n + 1, i);
    }
  }

  lemma FirstOnesTaken(found: seq<File>, n: nat, limit: nat, sel: seq<File>)
    requires 0 < n <= |found| && (n == |found| || TotalSize(found[..n]) >= limit) && AllIn(found[..n], sel)
    ensures TakesFirst(found, limit, sel)
  {
    forall i | 0 <= i < |found| && (i == 0 || TotalSize(found[..i]) < limit) ensures found[i] in sel {
      if i >= n { TotalGrows(found, n, i); }
      assert found[..n][i] == found[i];
    }
  }

  lemma TakesRangeStill(files: seq<File>, level: nat, begin: Option<int>, end: Option<int>, limit: nat, sel: seq<File>, more: seq<File>)
    requires TakesRange(files, level, begin, end, limit, sel) && AllIn(sel, more)
    ensures TakesRange(files, level, begin, end, limit, more)
  {
    hide Select, TotalSize;
    forall f | f in sel ensures f in more {
      var i :| 0 <= i < |sel| && sel[i] == f;
    }
  }

  // How many of the files to take so that they are not too large together: at least one.
  method Cut(files: seq<File>, limit: nat) returns (n: nat)
    requires files != []
    ensures FirstFit(files, limit, n)
  {
    hide TotalSize;
    var total := 0;
    NoBytes(files);
    for i := 0 to |files| - 1
      invariant total == TotalSize(files[..i]) && (i > 0 ==> total < limit)
    {
      TotalOfPrefix(files, i);
      total := total + files[i].size;
      if total >= limit { return i + 1; }
    }
    return |files|;
  }

  lemma Level0Start(files: seq<File>, sel: seq<File>, lo: int, hi: int)
    requires ClosedRange(files, lo, hi) && sel == Meeting(files, lo, hi) && sel != []
    ensures StartInputs(files, 0, sel) && AllIn(sel, files)
  {
    MeetingHasAll(files, [], lo, hi);
  }

  lemma StartFilesIn(files: seq<File>, level: nat, sel: seq<File>)
    requires StartInputs(files, level, sel)
    ensures sel != [] && AllIn(sel, files)
  {
  }

  lemma AllInTwice(x: seq<File>, y: seq<File>, z: seq<File>)
    requires AllIn(x, y) && AllIn(y, z)
    ensures AllIn(x, z)
  {
    forall i | 0 <= i < |x| ensures x[i] in z {
      var j :| 0 <= j < |y| && y[j] == x[i];
    }
  }

  lemma OverlapMeansRunning(running: seq<Comp>, lo: int, hi: int, level: nat)
    requires OverlapsRunning(running, lo, hi, level)
    ensures running != []
  {
  }

  lemma Level0Passes(v: View, output: nat, order: seq<nat>)
    requires Level0InProgress(v.running)
    ensures NoFile(v, 0, output, order) && v.running != []
  {
  }

  lemma BusyCannotStart(v: View, start: nat, output: nat, i: nat, next: nat)
    requires start < |v.levels| && i < |v.levels[start]| && v.levels[start][i].id in v.busy && Inv(v.levels, v.running, v.busy, next)
    ensures CannotStart(v, start, output, i) && v.running != []
  {
    assert Registered(v.running, v.levels[start][i].id);
  }

  // In level 0 a file is expanded to itself only.
  lemma ExpandedAlone(files: seq<File>, i: nat, sel: seq<File>)
    requires Expanded(files, 0, i, sel)
    ensures i < |files| && sel == [files[i]]
  {
  }

  lemma PositiveAt(levels: seq<seq<File>>, running: seq<Comp>, busy: set<nat>, next: nat, l: nat)
    requires Inv(levels, running, busy, next) && l < |levels|
    ensures Positive(levels[l])
  {
  }

  lemma SortedAt(levels: seq<seq<File>>, running: seq<Comp>, busy: set<nat>, next: nat, l: nat)
    requires Inv(levels, running, busy, next) && 0 < l < |levels|
    ensures SortedLevel(levels[l]) && Positive(levels[l])
  {
  }
}
