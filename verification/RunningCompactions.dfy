/**
 The compactions a level-style picker has running, and what they and the levels satisfy in every
 run of picks, completions and failures.
 */
module RunningCompactions {
  import opened LevelFiles
  import opened LevelInputs

  /** A registered compaction: its inputs in the start level and in the output level, and the range of
      its user keys. */
  datatype Comp = Comp(startLevel: nat, outputLevel: nat, startFiles: seq<File>, outputFiles: seq<File>, lo: int, hi: int)

  function Inputs(c: Comp): seq<File> {
    c.startFiles + c.outputFiles
  }

  function Ids(c: Comp): (ids: set<nat>)
    ensures forall i :: 0 <= i < |c.startFiles| ==> c.startFiles[i].id in ids
    ensures forall i :: 0 <= i < |c.outputFiles| ==> c.outputFiles[i].id in ids
  {
    var inputs := Inputs(c);
    assert forall i :: 0 <= i < |c.startFiles| ==> c.startFiles[i] == inputs[i];
    assert forall i :: 0 <= i < |c.outputFiles| ==> c.outputFiles[i] == inputs[|c.startFiles| + i];
    set i | 0 <= i < |inputs| :: inputs[i].id
  }

  /** Levels below 0 are sorted. */
  ghost predicate LevelsOk(levels: seq<seq<File>>) {
    && |levels| > 0
    && (forall l :: 0 <= l < |levels| ==> Positive(levels[l]))
    && (forall l :: 0 < l < |levels| ==> SortedLevel(levels[l]))
  }

  predicate HasFile(levels: seq<seq<File>>, l: nat, id: nat) {
    l < |levels| && exists i :: 0 <= i < |levels[l]| && levels[l][i].id == id
  }

  /** A file is in one level. */
  ghost predicate IdsOk(levels: seq<seq<File>>, next: nat) {
    && (forall l: nat, id: nat :: HasFile(levels, l, id) ==> id < next)
    && (forall l: nat, m: nat, id: nat :: HasFile(levels, l, id) && HasFile(levels, m, id) ==> l == m)
  }

  // The files of the output level that meet the compaction's range are its inputs.
  ghost predicate Exclusive(files: seq<File>, c: Comp) {
    forall i :: 0 <= i < |files| && Overlaps(files[i], c.lo, c.hi) ==> files[i].id in Ids(c)
  }

  ghost predicate CompOk(levels: seq<seq<File>>, c: Comp) {
    && c.startLevel <= c.outputLevel < |levels| && c.startFiles != []
    && AllIn(c.startFiles, levels[c.startLevel]) && AllIn(c.outputFiles, levels[c.outputLevel])
    && c.lo == MinLo(Inputs(c)) && c.hi == MaxHi(Inputs(c))
    && (c.outputLevel > 0 ==> Exclusive(levels[c.outputLevel], c))
  }

  /** Two compactions share no file, and if they write to the same level below 0, no user key. */
  predicate Apart(c: Comp, d: Comp) {
    Ids(c) !! Ids(d) && (c.outputLevel == d.outputLevel > 0 ==> c.hi < d.lo || d.hi < c.lo)
  }

  predicate Registered(running: seq<Comp>, id: nat) {
    exists k :: 0 <= k < |running| && id in Ids(running[k])
  }

  /** The files marked being_compacted are the inputs of the running compactions. */
  ghost predicate RunningOk(levels: seq<seq<File>>, running: seq<Comp>, busy: set<nat>) {
    && (forall k :: 0 <= k < |running| ==> CompOk(levels, running[k]))
    && (forall j, k :: 0 <= j < k < |running| ==> Apart(running[j], running[k]))
    && (forall id: nat :: id in busy <==> Registered(running, id))
  }

  ghost predicate Inv(levels: seq<seq<File>>, running: seq<Comp>, busy: set<nat>, next: nat) {
    LevelsOk(levels) && IdsOk(levels, next) && RunningOk(levels, running, busy)
  }

  // level0_compactions_in_progress_ is not empty.
  predicate Level0InProgress(running: seq<Comp>) {
    exists k :: 0 <= k < |running| && running[k].startLevel == 0
  }

  /** A file of level 0 can be an input only of a compaction that starts there: so it is enough to test
      whether there is one. */
  lemma Level0IsFree(levels: seq<seq<File>>, running: seq<Comp>, busy: set<nat>, next: nat, sel: seq<File>)
    requires Inv(levels, running, busy, next) && !Level0InProgress(running) && AllIn(sel, levels[0])
    ensures !AreFilesInCompaction(sel, busy)
  {
    forall i | 0 <= i < |sel| ensures sel[i].id !in busy {
      if Registered(running, sel[i].id) {
        var k :| 0 <= k < |running| && sel[i].id in Ids(running[k]);
        InputIsInLevel(levels, running[k], sel[i].id);
        assert sel[i] in levels[0] && HasFile(levels, 0, sel[i].id);
      }
    }
  }

  lemma InputIsInLevel(levels: seq<seq<File>>, c: Comp, id: nat)
    requires CompOk(levels, c) && id in Ids(c)
    ensures HasFile(levels, c.startLevel, id) || HasFile(levels, c.outputLevel, id)
  {
    var inputs := Inputs(c);
    var i :| 0 <= i < |inputs| && inputs[i].id == id;
    if i < |c.startFiles| {
      assert inputs[i] == c.startFiles[i] && inputs[i] in levels[c.startLevel];
    } else {
      assert inputs[i] == c.outputFiles[i - |c.startFiles|] && inputs[i] in levels[c.outputLevel];
    }
  }

  // ---- Registering ----

  /** What a pick has to satisfy. */
  ghost predicate Sound(levels: seq<seq<File>>, running: seq<Comp>, busy: set<nat>, c: Comp) {
    && CompOk(levels, c) && !AreFilesInCompaction(c.startFiles, busy) && !AreFilesInCompaction(c.outputFiles, busy)
    && (c.outputLevel > 0 ==> forall k :: 0 <= k < |running| && running[k].outputLevel == c.outputLevel ==>
                                running[k].hi < c.lo || c.hi < running[k].lo)
  }

  lemma FreshIds(c: Comp, busy: set<nat>)
    requires !AreFilesInCompaction(c.startFiles, busy) && !AreFilesInCompaction(c.outputFiles, busy)
    ensures Ids(c) !! busy
  {
    var inputs := Inputs(c);
    forall i | 0 <= i < |inputs| ensures inputs[i].id !in busy {
      assert inputs[i] == if i < |c.startFiles| then c.startFiles[i] else c.outputFiles[i - |c.startFiles|];
    }
  }

  lemma RegisterKeeps(levels: seq<seq<File>>, running: seq<Comp>, busy: set<nat>, c: Comp)
    requires RunningOk(levels, running, busy) && Sound(levels, running, busy, c)
    ensures RunningOk(levels, running + [c], busy + Ids(c))
    ensures Ids(c) !! busy
  {
    FreshIds(c, busy);
    hide Ids, CompOk, Exclusive;
    var running' := running + [c];
    forall id: nat ensures id in busy + Ids(c) <==> Registered(running', id) {
      if Registered(running, id) {
        var k :| 0 <= k < |running| && id in Ids(running[k]);
        assert running'[k] == running[k];
      }
      assert running'[|running|] == c;
    }
    forall j | 0 <= j < |running| ensures Apart(running[j], c) {
      assert forall id :: id in Ids(running[j]) ==> Registered(running, id);
    }
  }

  // ---- Failing ----

  lemma {:induction false} WithoutOne(running: seq<Comp>, i: nat, levels: seq<seq<File>>, busy: set<nat>)
    requires RunningOk(levels, running, busy) && i < |running|
    ensures RunningOk(levels, running[..i] + running[i + 1..], busy - Ids(running[i]))
  {
    hide Ids, CompOk, Exclusive;
    var rest := running[..i] + running[i + 1..];
    assert forall k :: 0 <= k < |rest| ==> rest[k] == running[if k < i then k else k + 1];
    forall id: nat ensures id in busy - Ids(running[i]) <==> Registered(rest, id) {
      if Registered(running, id) && id !in Ids(running[i]) {
        var k :| 0 <= k < |running| && id in Ids(running[k]);
        assert rest[if k < i then k else k - 1] == running[k];
      }
      if Registered(rest, id) {
        var k :| 0 <= k < |rest| && id in Ids(rest[k]);
        var k' := if k < i then k else k + 1;
        assert id in Ids(running[k']) && (k' < i ==> Apart(running[k'], running[i])) && (i < k' ==> Apart(running[i], running[k']));
      }
    }
  }

  // ---- Completing ----

  function Remove(files: seq<File>, ids: set<nat>): seq<File> {
    if files == [] then []
    else (if files[0].id in ids then [] else [files[0]]) + Remove(files[1..], ids)
  }

  // Where the outputs go: by key below level 0, and in place of the newest input in level 0.
  function Place(files: seq<File>, level: nat, first: nat, outputs: seq<File>): nat {
    if level == 0 || outputs == [] then (if first <= |files| then first else |files|) else Below(files, outputs[0].lo)
  }

  function Below(files: seq<File>, lo: int): (k: nat)
    ensures k <= |files| && (forall i :: 0 <= i < k ==> files[i].lo < lo) && (k < |files| ==> files[k].lo >= lo)
  {
    if files == [] || files[0].lo >= lo then 0 else 1 + Below(files[1..], lo)
  }

  function FirstOf(files: seq<File>, ids: set<nat>): nat {
    if files == [] || files[0].id in ids then 0 else 1 + FirstOf(files[1..], ids)
  }

  function Insert(files: seq<File>, k: nat, outputs: seq<File>): seq<File>
    requires k <= |files|
  {
    files[..k] + outputs + files[k..]
  }

  /** The new version: the inputs are gone, the outputs are in the output level. */
  function Finished(levels: seq<seq<File>>, c: Comp, outputs: seq<File>): seq<seq<File>>
    requires c.startLevel < |levels| && c.outputLevel < |levels|
  {
    var ids := Ids(c);
    var kept := Remove(levels[c.outputLevel], ids);
    var k := Place(kept, c.outputLevel, FirstOf(levels[c.outputLevel], ids), outputs);
    levels[c.startLevel := Remove(levels[c.startLevel], ids)][c.outputLevel := Insert(kept, k, outputs)]
  }

  lemma {:induction false} RemoveHas(files: seq<File>, ids: set<nat>, f: File)
    ensures f in Remove(files, ids) <==> f in files && f.id !in ids
  {
    if files != [] {
      RemoveHas(files[1..], ids, f);
      assert f in files <==> f == files[0] || f in files[1..];
    }
  }

  lemma SortedCons(f: File, rest: seq<File>)
    ensures SortedLevel([f] + rest) <==> f.lo <= f.hi && SortedLevel(rest) && forall i :: 0 <= i < |rest| ==> f.hi <= rest[i].lo
  {
    var all := [f] + rest;
    if SortedLevel(all) {
      forall i | 0 <= i < |rest| ensures rest[i] == all[i + 1] {}
      assert all[0] == f;
      forall i, j | 0 <= i < j < |rest| ensures rest[i].hi <= rest[j].lo { assert all[i + 1].hi <= all[j + 1].lo; }
      forall i | 0 <= i < |rest| ensures rest[i].lo <= rest[i].hi { assert all[i + 1].lo <= all[i + 1].hi; }
    }
  }

  lemma {:induction false} RemoveKeepsSorted(files: seq<File>, ids: set<nat>)
    requires SortedLevel(files)
    ensures SortedLevel(Remove(files, ids))
  {
    hide SortedLevel;
    if files == [] {
      assert Remove(files, ids) == files;
    } else {
      var f, rest := files[0], files[1..];
      assert files == [f] + rest;
      SortedCons(f, rest);
      RemoveKeepsSorted(rest, ids);
      var kept := Remove(rest, ids);
      forall i | 0 <= i < |kept| ensures f.hi <= kept[i].lo {
        RemoveHas(rest, ids, kept[i]);
        assert kept[i] in rest;
      }
      SortedCons(f, kept);
      assert [] + kept == kept;
    }
  }

  lemma RemoveKeepsPositive(files: seq<File>, ids: set<nat>)
    requires Positive(files)
    ensures Positive(Remove(files, ids))
  {
    var kept := Remove(files, ids);
    forall i | 0 <= i < |kept| ensures kept[i].lo <= kept[i].hi {
      RemoveHas(files, ids, kept[i]);
      assert kept[i] in files;
    }
  }

  // The outputs of a compaction: sorted, within its range.
  predicate GoodOutputs(outputs: seq<File>, lo: int, hi: int) {
    SortedLevel(outputs) && forall i :: 0 <= i < |outputs| ==> lo <= outputs[i].lo && outputs[i].hi <= hi
  }

  /** Outputs fit in where the inputs were taken out. */
  lemma InsertKeepsSorted(files: seq<File>, lo: int, hi: int, outputs: seq<File>)
    requires SortedLevel(files) && GoodOutputs(outputs, lo, hi) && outputs != []
    requires forall i :: 0 <= i < |files| ==> !Overlaps(files[i], lo, hi)
    ensures SortedLevel(Insert(files, Below(files, outputs[0].lo), outputs))
  {
    hide Below;
    var k := Below(files, outputs[0].lo);
    assert lo <= outputs[0].lo <= outputs[0].hi <= hi;
    forall i | k <= i < |files| ensures files[i].lo > hi { SortedEnds(files, k, i); }
    forall i | 0 <= i < k ensures files[i].hi < lo {}
    SliceIsSorted(files, 0, k);
    SliceIsSorted(files, k, |files|);
    hide SortedLevel, Overlaps;
    OutsideParts(files, lo, hi, k, outputs);
    SortedParts(files[0..k], outputs, files[k..|files|]);
    assert files[0..k] == files[..k] && files[k..|files|] == files[k..];
  }

  lemma OutsideParts(files: seq<File>, lo: int, hi: int, k: nat, outputs: seq<File>)
    requires SortedLevel(files) && k <= |files| && GoodOutputs(outputs, lo, hi)
    requires forall i :: 0 <= i < k ==> files[i].hi < lo
    requires forall i :: k <= i < |files| ==> files[i].lo > hi
    ensures forall i, j :: 0 <= i < k && 0 <= j < |outputs| ==> files[0..k][i].hi <= outputs[j].lo
    ensures forall i, j :: 0 <= i < k && 0 <= j < |files| - k ==> files[0..k][i].hi <= files[k..|files|][j].lo
    ensures forall i, j :: 0 <= i < |outputs| && 0 <= j < |files| - k ==> outputs[i].hi <= files[k..|files|][j].lo
  {
  }

  lemma SortedParts(x: seq<File>, y: seq<File>, z: seq<File>)
    requires SortedLevel(x) && SortedLevel(y) && SortedLevel(z)
    requires forall i, j :: 0 <= i < |x| && 0 <= j < |y| ==> x[i].hi <= y[j].lo
    requires forall i, j :: 0 <= i < |x| && 0 <= j < |z| ==> x[i].hi <= z[j].lo
    requires forall i, j :: 0 <= i < |y| && 0 <= j < |z| ==> y[i].hi <= z[j].lo
    ensures SortedLevel(x + y + z)
  {
  }

  lemma KeptIsOutside(files: seq<File>, c: Comp)
    requires Exclusive(files, c)
    ensures forall i :: 0 <= i < |Remove(files, Ids(c))| ==> !Overlaps(Remove(files, Ids(c))[i], c.lo, c.hi)
  {
    hide Ids, Remove;
    var kept := Remove(files, Ids(c));
    forall i | 0 <= i < |kept| ensures !Overlaps(kept[i], c.lo, c.hi) {
      RemoveHas(files, Ids(c), kept[i]);
      var k :| 0 <= k < |files| && files[k] == kept[i];
    }
  }

  lemma FinishedIsSorted(levels: seq<seq<File>>, c: Comp, outputs: seq<File>)
    requires LevelsOk(levels) && CompOk(levels, c) && GoodOutputs(outputs, c.lo, c.hi)
    ensures LevelsOk(Finished(levels, c, outputs))
  {
    hide Ids, Remove, Below, FirstOf, MinLo, MaxHi;
    var levels': seq<seq<File>> := Finished(levels, c, outputs);
    var kept := Remove(levels[c.outputLevel], Ids(c));
    RemoveKeepsPositive(levels[c.outputLevel], Ids(c));
    RemoveKeepsPositive(levels[c.startLevel], Ids(c));
    if c.startLevel > 0 { RemoveKeepsSorted(levels[c.startLevel], Ids(c)); }
    if c.outputLevel > 0 {
      RemoveKeepsSorted(levels[c.outputLevel], Ids(c));
      KeptIsOutside(levels[c.outputLevel], c);
      if outputs == [] {
        NothingInserted(kept, Place(kept, c.outputLevel, FirstOf(levels[c.outputLevel], Ids(c)), outputs));
      } else {
        InsertKeepsSorted(kept, c.lo, c.hi, outputs);
      }
    }
    forall l | 0 <= l < |levels'| ensures Positive(levels'[l]) {}
  }

  lemma NothingInserted(files: seq<File>, k: nat)
    requires k <= |files|
    ensures Insert(files, k, []) == files
  {
  }

  lemma FinishedHas(levels: seq<seq<File>>, c: Comp, outputs: seq<File>, l: nat, f: File)
    requires c.startLevel < |levels| && c.outputLevel < |levels| && l < |levels|
    ensures f in Finished(levels, c, outputs)[l] <==>
            || (f in levels[l] && (l == c.startLevel || l == c.outputLevel ==> f.id !in Ids(c)))
            || (l == c.outputLevel && f in outputs)
  {
    hide Ids, Remove, Below, FirstOf;
    RemoveHas(levels[l], Ids(c), f);
    if l == c.outputLevel {
      var kept := Remove(levels[c.outputLevel], Ids(c));
      InsertHas(kept, Place(kept, c.outputLevel, FirstOf(levels[c.outputLevel], Ids(c)), outputs), outputs, f);
    }
  }

  lemma InsertHas(files: seq<File>, k: nat, outputs: seq<File>, f: File)
    requires k <= |files|
    ensures f in Insert(files, k, outputs) <==> f in files || f in outputs
  {
    assert files == files[..k] + files[k..];
  }

  lemma {:induction false} HasFileIn(levels: seq<seq<File>>, l: nat, f: File)
    requires l < |levels| && f in levels[l]
    ensures HasFile(levels, l, f.id)
  {
  }

  predicate NewIds(outputs: seq<File>, next: nat, next': nat) {
    next <= next' && forall i :: 0 <= i < |outputs| ==> next <= outputs[i].id < next'
  }

  lemma FinishedHasFile(levels: seq<seq<File>>, c: Comp, outputs: seq<File>, l: nat, id: nat)
    requires c.startLevel < |levels| && c.outputLevel < |levels|
    requires HasFile(Finished(levels, c, outputs), l, id)
    ensures HasFile(levels, l, id) || (l == c.outputLevel && exists i :: 0 <= i < |outputs| && outputs[i].id == id)
  {
    hide Finished, Ids;
    var levels': seq<seq<File>> := Finished(levels, c, outputs);
    assert |levels'| == |levels| by { FinishedLength(levels, c, outputs); }
    var i :| 0 <= i < |levels'[l]| && levels'[l][i].id == id;
    var f := levels'[l][i];
    FinishedHas(levels, c, outputs, l, f);
    if f in levels[l] { HasFileIn(levels, l, f); }
  }

  lemma FinishedLength(levels: seq<seq<File>>, c: Comp, outputs: seq<File>)
    requires c.startLevel < |levels| && c.outputLevel < |levels|
    ensures |Finished(levels, c, outputs)| == |levels|
  {
  }

  lemma FinishedIds(levels: seq<seq<File>>, c: Comp, outputs: seq<File>, next: nat, next': nat)
    requires IdsOk(levels, next) && c.startLevel < |levels| && c.outputLevel < |levels| && NewIds(outputs, next, next')
    ensures IdsOk(Finished(levels, c, outputs), next')
  {
    hide Finished, HasFile;
    var levels': seq<seq<File>> := Finished(levels, c, outputs);
    forall l: nat, id: nat | HasFile(levels', l, id) ensures id < next' {
      FinishedHasFile(levels, c, outputs, l, id);
    }
    forall l: nat, m: nat, id: nat | HasFile(levels', l, id) && HasFile(levels', m, id) ensures l == m {
      FinishedHasFile(levels, c, outputs, l, id);
      FinishedHasFile(levels, c, outputs, m, id);
    }
  }

  lemma OtherStays(levels: seq<seq<File>>, c: Comp, outputs: seq<File>, d: Comp)
    requires CompOk(levels, c) && CompOk(levels, d) && Apart(c, d) && GoodOutputs(outputs, c.lo, c.hi)
    ensures CompOk(Finished(levels, c, outputs), d)
  {
    hide Finished, MinLo, MaxHi, Ids;
    var levels': seq<seq<File>> := Finished(levels, c, outputs);
    FinishedLength(levels, c, outputs);
    InputsStay(levels, c, outputs, d.startLevel, d.startFiles, Ids(d));
    InputsStay(levels, c, outputs, d.outputLevel, d.outputFiles, Ids(d));
    if d.outputLevel > 0 { ExclusiveStays(levels, c, outputs, d); }
  }

  lemma InputsStay(levels: seq<seq<File>>, c: Comp, outputs: seq<File>, l: nat, sel: seq<File>, ids: set<nat>)
    requires c.startLevel < |levels| && c.outputLevel < |levels| && l < |levels|
    requires AllIn(sel, levels[l]) && ids !! Ids(c) && forall i :: 0 <= i < |sel| ==> sel[i].id in ids
    ensures |Finished(levels, c, outputs)| == |levels| && AllIn(sel, Finished(levels, c, outputs)[l])
  {
    hide Finished, Ids;
    FinishedLength(levels, c, outputs);
    forall i | 0 <= i < |sel| ensures sel[i] in Finished(levels, c, outputs)[l] {
      FinishedHas(levels, c, outputs, l, sel[i]);
    }
  }

  lemma ExclusiveStays(levels: seq<seq<File>>, c: Comp, outputs: seq<File>, d: Comp)
    requires c.startLevel < |levels| && c.outputLevel < |levels| && 0 < d.outputLevel < |levels|
    requires Exclusive(levels[d.outputLevel], d) && Apart(c, d) && GoodOutputs(outputs, c.lo, c.hi)
    ensures |Finished(levels, c, outputs)| == |levels| && Exclusive(Finished(levels, c, outputs)[d.outputLevel], d)
  {
    hide Finished, Ids;
    FinishedLength(levels, c, outputs);
    var l := d.outputLevel;
    var files := Finished(levels, c, outputs)[l];
    forall i | 0 <= i < |files| && Overlaps(files[i], d.lo, d.hi) ensures files[i].id in Ids(d) {
      FinishedHas(levels, c, outputs, l, files[i]);
      if files[i] in levels[l] {
        var k :| 0 <= k < |levels[l]| && levels[l][k] == files[i];
      }
    }
  }

  /** A compaction completes. */
  lemma FinishKeeps(levels: seq<seq<File>>, running: seq<Comp>, busy: set<nat>, next: nat, i: nat, outputs: seq<File>, next': nat)
    requires Inv(levels, running, busy, next) && i < |running|
    requires GoodOutputs(outputs, running[i].lo, running[i].hi) && NewIds(outputs, next, next')
    ensures Inv(Finished(levels, running[i], outputs), running[..i] + running[i + 1..], busy - Ids(running[i]), next')
  {
    hide Finished, Ids, LevelsOk, IdsOk, CompOk, GoodOutputs;
    var c := running[i];
    assert CompOk(levels, c);
    CompLevels(levels, c);
    FinishedIsSorted(levels, c, outputs);
    FinishedIds(levels, c, outputs, next, next');
    WithoutOne(running, i, levels, busy);
    var rest := running[..i] + running[i + 1..];
    forall k | 0 <= k < |rest| ensures CompOk(Finished(levels, c, outputs), rest[k]) {
      var k' := if k < i then k else k + 1;
      assert rest[k] == running[k'] && (k' < i ==> Apart(running[k'], c)) && (k' > i ==> Apart(c, running[k']));
      ApartBothWays(c, running[k']);
      OtherStays(levels, c, outputs, running[k']);
    }
  }

  lemma ApartBothWays(c: Comp, d: Comp)
    ensures Apart(c, d) <==> Apart(d, c)
  {
  }

  lemma CompLevels(levels: seq<seq<File>>, c: Comp)
    requires CompOk(levels, c)
    ensures c.startLevel < |levels| && c.outputLevel < |levels|
  {
  }

  /** A flush adds a file to level 0. */
  lemma FlushKeeps(levels: seq<seq<File>>, running: seq<Comp>, busy: set<nat>, next: nat, f: File)
    requires Inv(levels, running, busy, next) && f.id == next && f.lo <= f.hi
    ensures Inv(levels[0 := [f] + levels[0]], running, busy, next + 1)
  {
    hide Ids, MinLo, MaxHi;
    var levels' := levels[0 := [f] + levels[0]];
    forall k | 0 <= k < |running| ensures CompOk(levels', running[k]) {
      var c := running[k];
      assert CompOk(levels, c);
      FlushedHas(levels, f, c.startLevel, c.startFiles);
      FlushedHas(levels, f, c.outputLevel, c.outputFiles);
    }
    FlushedIds(levels, f, next);
  }

  lemma FlushedHas(levels: seq<seq<File>>, f: File, l: nat, sel: seq<File>)
    requires l < |levels| && AllIn(sel, levels[l])
    ensures AllIn(sel, levels[0 := [f] + levels[0]][l])
  {
  }

  lemma FlushedIds(levels: seq<seq<File>>, f: File, next: nat)
    requires |levels| > 0 && IdsOk(levels, next) && f.id == next
    ensures IdsOk(levels[0 := [f] + levels[0]], next + 1)
  {
    var levels' := levels[0 := [f] + levels[0]];
    forall l: nat, id: nat | HasFile(levels', l, id) ensures HasFile(levels, l, id) || (l == 0 && id == next) {
      var i :| 0 <= i < |levels'[l]| && levels'[l][i].id == id;
      if l == 0 && i > 0 { assert levels[0][i - 1] == levels'[0][i]; }
    }
  }
}
