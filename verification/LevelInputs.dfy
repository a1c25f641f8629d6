/**
 How the level compaction picker computes the inputs of a compaction from the first files it chose:
 GetRange, GetOverlappingInputs, ExpandInputsToCleanCut, SetupOtherInputs and FindIntraL0Compaction.

 `busy` has the ids of the files that are inputs of running compactions.
 */
module LevelInputs {
  import opened LevelFiles

  predicate AreFilesInCompaction(files: seq<File>, busy: set<nat>) {
    exists i :: 0 <= i < |files| && files[i].id in busy
  }

  // The selection is the files from a to b of a level below 0.
  predicate IsSlice(files: seq<File>, sel: seq<File>, a: nat, b: nat) {
    a < b <= |files| && sel == files[a..b]
  }

  /** GetRange: level 0 takes the ends of all files, deeper levels those of the first and the last. */
  method GetRange(level: nat, sel: seq<File>) returns (lo: int, hi: int)
    requires sel != [] && (level > 0 ==> SortedLevel(sel))
    ensures lo == MinLo(sel) && hi == MaxHi(sel)
  {
    hide SortedLevel, MinLo, MaxHi;
    if level == 0 {
      lo, hi := sel[0].lo, sel[0].hi;
      RangeOfOne(sel[0]);
      assert sel[..1] == [sel[0]];
      for i := 1 to |sel|
        invariant lo == MinLo(sel[..i]) && hi == MaxHi(sel[..i])
      {
        assert sel[..i + 1] == sel[..i] + [sel[i]];
        RangeOfBoth(sel[..i], [sel[i]]);
        RangeOfOne(sel[i]);
        if sel[i].lo < lo { lo := sel[i].lo; }
        if sel[i].hi > hi { hi := sel[i].hi; }
      }
      assert sel[..|sel|] == sel;
    } else {
      SortedRange(sel);
      lo, hi := sel[0].lo, sel[|sel| - 1].hi;
    }
  }

  lemma RangeOfOne(f: File)
    ensures MinLo([f]) == f.lo && MaxHi([f]) == f.hi
  {
  }

  // ---- Level 0 ----

  // The files that meet a range, in order.
  function Meeting(files: seq<File>, lo: int, hi: int): seq<File> {
    if files == [] then []
    else (if Overlaps(files[0], lo, hi) then [files[0]] else []) + Meeting(files[1..], lo, hi)
  }

  /** No file that meets the range reaches out of it. */
  predicate ClosedRange(files: seq<File>, lo: int, hi: int) {
    forall i :: 0 <= i < |files| && Overlaps(files[i], lo, hi) ==> lo <= files[i].lo && files[i].hi <= hi
  }

  /** The smallest closed range around a range. */
  ghost predicate GrowsTo(files: seq<File>, lo: int, hi: int, lo': int, hi': int) {
    && lo' <= lo && hi <= hi' && ClosedRange(files, lo', hi')
    && forall x, y :: x <= lo && hi <= y && ClosedRange(files, x, y) ==> x <= lo' && hi' <= y
  }

  /** The files that meet the smallest closed range around a range. */
  ghost predicate MeetsClosed(files: seq<File>, lo: int, hi: int, sel: seq<File>) {
    exists lo', hi' :: GrowsTo(files, lo, hi, lo', hi') && sel == Meeting(files, lo', hi')
  }

  // How much a range can still grow.
  function Outside(files: seq<File>, lo: int, hi: int): nat {
    if files == [] then 0
    else Outside(files[1..], lo, hi) + (if files[0].lo < lo then 1 else 0) + (if files[0].hi > hi then 1 else 0)
  }

  lemma {:induction false} OutsideShrinks(files: seq<File>, lo: int, hi: int, lo': int, hi': int)
    requires lo' <= lo && hi <= hi'
    ensures Outside(files, lo', hi') <= Outside(files, lo, hi)
    ensures (exists i :: 0 <= i < |files| && ((lo' <= files[i].lo < lo) || (hi < files[i].hi <= hi'))) ==>
              Outside(files, lo', hi') < Outside(files, lo, hi)
  {
    if files != [] {
      OutsideShrinks(files[1..], lo, hi, lo', hi');
      if exists i :: 0 <= i < |files| && ((lo' <= files[i].lo < lo) || (hi < files[i].hi <= hi')) {
        var i :| 0 <= i < |files| && ((lo' <= files[i].lo < lo) || (hi < files[i].hi <= hi'));
        assert i > 0 ==> files[1..][i - 1] == files[i];
      }
    }
  }

  lemma {:induction false} MeetingConcat(x: seq<File>, y: seq<File>, lo: int, hi: int)
    ensures Meeting(x + y, lo, hi) == Meeting(x, lo, hi) + Meeting(y, lo, hi)
  {
    if x == [] {
      assert x + y == y;
    } else {
      assert (x + y)[0] == x[0] && (x + y)[1..] == x[1..] + y;
      var first := if Overlaps(x[0], lo, hi) then [x[0]] else [];
      assert Meeting(x + y, lo, hi) == first + Meeting(x[1..] + y, lo, hi) && Meeting(x, lo, hi) == first + Meeting(x[1..], lo, hi);
      MeetingConcat(x[1..], y, lo, hi);
    }
  }

  /** GetOverlappingInputs for level 0: when a file reaches out of the range, the range grows and the
      search starts again. */
  method OverlappingInLevel0(files: seq<File>, begin: int, end: int) returns (sel: seq<File>, ghost lo: int, ghost hi: int)
    ensures GrowsTo(files, begin, end, lo, hi) && sel == Meeting(files, lo, hi)
    ensures MeetsClosed(files, begin, end, sel)
  {
    var from, to := begin, end;
    sel := [];
    var i := 0;
    while i < |files|
      invariant 0 <= i <= |files| && from <= begin && end <= to
      invariant sel == Meeting(files[..i], from, to)
      invariant forall k :: 0 <= k < i && Overlaps(files[k], from, to) ==> from <= files[k].lo && files[k].hi <= to
      invariant forall x, y :: x <= begin && end <= y && ClosedRange(files, x, y) ==> x <= from && to <= y
      decreases Outside(files, from, to), |files| - i
    {
      var f := files[i];
      assert files[..i + 1] == files[..i] + [f];
      MeetingConcat(files[..i], [f], from, to);
      i := i + 1;
      if f.hi < from {
      } else if f.lo > to {
      } else {
        sel := sel + [f];
        if f.lo < from {
          OutsideShrinks(files, from, to, f.lo, to);
          from := f.lo;
          sel := [];
          i := 0;
        } else if f.hi > to {
          OutsideShrinks(files, from, to, from, f.hi);
          to := f.hi;
          sel := [];
          i := 0;
        }
      }
    }
    lo, hi := from, to;
    assert files[..|files|] == files;
  }

  // ---- Clean cuts ----

  /** ExpandInputsToCleanCut: grows a selection until no neighbour shares a user key with it; fails if
      that takes in a file being compacted. Level 0 needs no expansion. */
  method ExpandInputsToCleanCut(files: seq<File>, level: nat, sel: seq<File>, busy: set<nat>, ghost a: nat, ghost b: nat)
    returns (ok: bool, wider: seq<File>, ghost a': nat, ghost b': nat)
    requires level > 0 ==> SortedLevel(files) && IsSlice(files, sel, a, b)
    ensures level == 0 ==> ok && wider == sel
    ensures level > 0 ==> && IsSlice(files, wider, a', b') && ExpandsTo(files, a, b, a', b')
                          && (ok <==> !AreFilesInCompaction(wider, busy))
  {
    hide Lower, Upper, MinLo, MaxHi, SortedLevel, CleanCut, Select, AreFilesInCompaction;
    wider, a', b' := sel, a, b;
    if level == 0 { return true, sel, a, b; }
    var size := 0;
    while |wider| > size
      invariant IsSlice(files, wider, a', b') && a' <= a && b <= b' && size <= |wider|
      invariant size == |wider| ==> CleanCut(files, a', b')
      invariant Contained(files, a, b, a', b')
      decreases |files| - size
    {
      size := |wider|;
      SliceIsSorted(files, a', b');
      var lo, hi := GetRange(level, wider);
      SortedRange(wider);
      assert lo == files[a'].lo && hi == files[b' - 1].hi;
      GrowOnce(files, a', b');
      ContainedStays(files, a, b, a', b', Lower(files, lo), Upper(files, hi));
      wider := Select(files, lo, hi);
      a', b' := Lower(files, lo), Upper(files, hi);
    }
    ok := !AreFilesInCompaction(wider, busy);
    assert ExpandsTo(files, a, b, a', b') by { assert Contained(files, a, b, a', b'); }
  }

  // The files from a' to b' are within every clean cut around those from a to b.
  ghost predicate Contained(files: seq<File>, a: nat, b: nat, a': nat, b': nat) {
    forall x: nat, y: nat :: CleanCut(files, x, y) && x <= a && b <= y ==> x <= a' && b' <= y
  }

  lemma ContainedStays(files: seq<File>, a: nat, b: nat, a': nat, b': nat, a'': nat, b'': nat)
    requires Contained(files, a, b, a', b') && Contained(files, a', b', a'', b'')
    ensures Contained(files, a, b, a'', b'')
  {
  }

  // One round: the files that meet the range of those from a to b.
  lemma GrowOnce(files: seq<File>, a: nat, b: nat)
    requires SortedLevel(files) && a < b <= |files|
    ensures var a', b' := Lower(files, files[a].lo), Upper(files, files[b - 1].hi);
            && a' <= a && b <= b' <= |files| && Select(files, files[a].lo, files[b - 1].hi) == files[a'..b']
            && (b' - a' == b - a ==> CleanCut(files, a', b'))
            && Contained(files, a, b, a', b')
  {
    hide Lower, Upper;
    CleanCutIsClosed(files, a, b);
    forall x: nat, y: nat | CleanCut(files, x, y) && x <= a && b <= y
      ensures x <= Lower(files, files[a].lo) && Upper(files, files[b - 1].hi) <= y
    {
      WithinCleanCut(files, a, b, x, y);
    }
  }

  // What a selection's range meets stays within every clean cut around it.
  lemma WithinCleanCut(files: seq<File>, a: nat, b: nat, x: nat, y: nat)
    requires SortedLevel(files) && a < b <= |files| && CleanCut(files, x, y) && x <= a && b <= y
    ensures x <= Lower(files, files[a].lo) && Upper(files, files[b - 1].hi) <= y
  {
    hide Lower, Upper;
    SortedEnds(files, x, a);
    SortedEnds(files, b - 1, y - 1);
  }

  // ---- Ranges of two selections ----

  lemma RangeOfBoth(x: seq<File>, y: seq<File>)
    requires x != [] && y != []
    ensures MinLo(x + y) == (if MinLo(x) < MinLo(y) then MinLo(x) else MinLo(y))
    ensures MaxHi(x + y) == (if MaxHi(x) > MaxHi(y) then MaxHi(x) else MaxHi(y))
  {
    hide MinLo, MaxHi;
    var both := x + y;
    var i :| 0 <= i < |both| && both[i].lo == MinLo(both);
    var j :| 0 <= j < |both| && both[j].hi == MaxHi(both);
    var ix :| 0 <= ix < |x| && x[ix].lo == MinLo(x);
    var iy :| 0 <= iy < |y| && y[iy].lo == MinLo(y);
    var jx :| 0 <= jx < |x| && x[jx].hi == MaxHi(x);
    var jy :| 0 <= jy < |y| && y[jy].hi == MaxHi(y);
    assert both[ix] == x[ix] && both[|x| + iy] == y[iy] && both[jx] == x[jx] && both[|x| + jy] == y[jy];
    assert both[i] == if i < |x| then x[i] else y[i - |x|];
    assert both[j] == if j < |x| then x[j] else y[j - |x|];
  }

  // A selection with more files has at least the range.
  lemma RangeGrows(x: seq<File>, y: seq<File>)
    requires x != [] && y != [] && forall i :: 0 <= i < |x| ==> x[i] in y
    ensures MinLo(y) <= MinLo(x) && MaxHi(x) <= MaxHi(y)
  {
    hide MinLo, MaxHi;
    var i :| 0 <= i < |x| && x[i].lo == MinLo(x);
    var j :| 0 <= j < |x| && x[j].hi == MaxHi(x);
    assert x[i] in y && x[j] in y;
  }

  lemma RangeWithin(x: seq<File>, lo: int, hi: int)
    requires x != [] && forall i :: 0 <= i < |x| ==> lo <= x[i].lo && x[i].hi <= hi
    ensures lo <= MinLo(x) && MaxHi(x) <= hi
  {
    hide MinLo, MaxHi;
    var i :| 0 <= i < |x| && x[i].lo == MinLo(x);
    var j :| 0 <= j < |x| && x[j].hi == MaxHi(x);
  }

  // ---- GetCleanInputsWithinInterval ----

  predicate Within(files: seq<File>, a: nat, b: nat, lo: int, hi: int) {
    a <= b <= |files| && forall i :: a <= i < b ==> lo <= files[i].lo && files[i].hi <= hi
  }

  // Every clean cut within the range lies between a and b.
  ghost predicate CutsBetween(files: seq<File>, lo: int, hi: int, a: nat, b: nat) {
    forall x: nat, y: nat :: CleanCut(files, x, y) && Within(files, x, y, lo, hi) ==> a <= x && y <= b
  }

  /** The widest clean cut within a range; none for level 0. */
  method GetCleanInputsWithinInterval(files: seq<File>, level: nat, lo: int, hi: int)
    returns (sel: seq<File>, ghost a: nat, ghost b: nat)
    requires level > 0 ==> SortedLevel(files)
    ensures level == 0 ==> sel == []
    ensures sel != [] ==> IsSlice(files, sel, a, b) && CleanCut(files, a, b) && Within(files, a, b, lo, hi)
    ensures level > 0 ==> CutsBetween(files, lo, hi, a, b) && (sel == [] ==> a >= b)
  {
    hide Lower, Upper, CutsBetween, Within, CleanCut, SortedLevel;
    a, b := 0, 0;
    if level == 0 { return [], 0, 0; }
    var left: nat, right: nat := Lower(files, lo), Upper(files, hi);
    CutsOverlap(files, lo, hi);
    while left < right && (files[left].lo < lo || (left > 0 && files[left].lo == files[left - 1].hi))
      invariant left <= |files| && CutsBetween(files, lo, hi, left, right)
    {
      ShrinkLeft(files, lo, hi, left, right);
      left := left + 1;
    }
    while left < right && (files[right - 1].hi > hi || (right < |files| && files[right - 1].hi == files[right].lo))
      invariant left <= |files| && right <= |files| && CutsBetween(files, lo, hi, left, right)
      invariant left < right ==> files[left].lo >= lo && (left > 0 ==> files[left].lo != files[left - 1].hi)
    {
      ShrinkRight(files, lo, hi, left, right);
      right := right - 1;
    }
    a, b := left, right;
    if left >= right { return [], a, b; }
    sel := files[left..right];
    EndsMakeCut(files, lo, hi, left, right);
  }

  lemma CutsOverlap(files: seq<File>, lo: int, hi: int)
    requires SortedLevel(files)
    ensures CutsBetween(files, lo, hi, Lower(files, lo), Upper(files, hi))
  {
    hide Lower, Upper;
    forall x: nat, y: nat | CleanCut(files, x, y) && Within(files, x, y, lo, hi)
      ensures Lower(files, lo) <= x && y <= Upper(files, hi)
    {
      assert files[x].hi >= lo && files[y - 1].lo <= hi;
    }
  }

  lemma ShrinkLeft(files: seq<File>, lo: int, hi: int, left: nat, right: nat)
    requires CutsBetween(files, lo, hi, left, right) && left < |files|
    requires files[left].lo < lo || (left > 0 && files[left].lo == files[left - 1].hi)
    ensures CutsBetween(files, lo, hi, left + 1, right)
  {
  }

  lemma ShrinkRight(files: seq<File>, lo: int, hi: int, left: nat, right: nat)
    requires CutsBetween(files, lo, hi, left, right) && 0 < right <= |files|
    requires files[right - 1].hi > hi || (right < |files| && files[right - 1].hi == files[right].lo)
    ensures CutsBetween(files, lo, hi, left, right - 1)
  {
  }

  lemma EndsMakeCut(files: seq<File>, lo: int, hi: int, a: nat, b: nat)
    requires SortedLevel(files) && a < b <= |files| && files[a].lo >= lo && files[b - 1].hi <= hi
    requires a > 0 ==> files[a].lo != files[a - 1].hi
    requires b < |files| ==> files[b - 1].hi != files[b].lo
    ensures CleanCut(files, a, b) && Within(files, a, b, lo, hi)
  {
    forall i | a <= i < b ensures lo <= files[i].lo && files[i].hi <= hi {
      SortedEnds(files, a, i);
      SortedEnds(files, i, b - 1);
    }
  }

  // ---- The files of the output level ----

  /** Every file of the output level that meets the range of the inputs, or of the files already
      chosen there, is chosen. */
  lemma ChosenIsClosed(files: seq<File>, lo: int, hi: int, x: nat, y: nat, i: nat)
    requires SortedLevel(files) && CleanCut(files, x, y) && x <= Lower(files, lo) < Upper(files, hi) <= y && i < |files|
    requires Overlaps(files[i], if lo < files[x].lo then lo else files[x].lo, if hi > files[y - 1].hi then hi else files[y - 1].hi)
    ensures x <= i < y
  {
    hide Lower, Upper;
  }

  function TotalSize(files: seq<File>): nat {
    if files == [] then 0 else files[0].size + TotalSize(files[1..])
  }

  predicate AllIn(sel: seq<File>, files: seq<File>) {
    forall i :: 0 <= i < |sel| ==> sel[i] in files
  }

  /** All files of the output level that meet the range of the inputs are among them. */
  ghost predicate InputsClosed(files: seq<File>, sel: seq<File>, out: seq<File>)
    requires sel != []
  {
    forall i :: 0 <= i < |files| && Overlaps(files[i], MinLo(sel + out), MaxHi(sel + out)) ==> files[i] in out
  }

  /** The files GetOverlappingInputs and ExpandInputsToCleanCut take from the output level for a range,
      from x to y: none, or the smallest clean cut around those that meet the range. */
  ghost predicate TakesFrom(files: seq<File>, lo: int, hi: int, x: nat, y: nat) {
    if Lower(files, lo) < Upper(files, hi) then ExpandsTo(files, Lower(files, lo), Upper(files, hi), x, y)
    else x == y == 0
  }

  ghost predicate Taken(files: seq<File>, lo: int, hi: int, out: seq<File>) {
    exists x: nat, y: nat :: TakesFrom(files, lo, hi, x, y) && x <= y <= |files| && out == files[x..y]
  }

  // What holds of the inputs in the start level.
  ghost predicate StartInputs(files: seq<File>, level: nat, sel: seq<File>) {
    && sel != [] && AllIn(sel, files)
    && (level > 0 ==> exists a: nat, b: nat :: IsSlice(files, sel, a, b) && CleanCut(files, a, b))
    && (level == 0 ==> exists lo, hi :: ClosedRange(files, lo, hi) && sel == Meeting(files, lo, hi))
  }

  // Whatever clean cut is taken around the files from l to u, one of them is being compacted.
  ghost predicate Blocked(files: seq<File>, l: nat, u: nat, busy: set<nat>) {
    forall x: nat, y: nat :: CleanCut(files, x, y) && x <= l && u <= y ==> AreFilesInCompaction(files[x..y], busy)
  }

  // ---- Which files of the start level go with them ----

  // The files of the start level that meet a range.
  ghost predicate Overlapping(files: seq<File>, level: nat, lo: int, hi: int, sel: seq<File>) {
    if level == 0 then MeetsClosed(files, lo, hi, sel) else sel == Select(files, lo, hi)
  }

  // The same, expanded to a clean cut.
  ghost predicate OverlapExpansion(files: seq<File>, level: nat, lo: int, hi: int, wider: seq<File>) {
    if level == 0 then MeetsClosed(files, lo, hi, wider)
    else exists a: nat, b: nat :: ExpandsTo(files, Lower(files, lo), Upper(files, hi), a, b) && IsSlice(files, wider, a, b)
  }

  // The widest clean cut within a range.
  ghost predicate WidestCut(files: seq<File>, lo: int, hi: int, wider: seq<File>) {
    exists a: nat, b: nat :: IsSlice(files, wider, a, b) && CleanCut(files, a, b) && Within(files, a, b, lo, hi) && CutsBetween(files, lo, hi, a, b)
  }

  // The wider selection takes the same free files of the output level.
  ghost predicate SameTaken(outputFiles: seq<File>, wider: seq<File>, out: seq<File>, busy: set<nat>)
    requires wider != []
  {
    !RangeBlocked(outputFiles, MinLo(wider), MaxHi(wider), busy) && Taken(outputFiles, MinLo(wider), MaxHi(wider), out)
  }

  ghost predicate SmallEnough(files: seq<File>, level: nat, lo: int, hi: int, out: seq<File>, limit: nat) {
    exists sel :: Overlapping(files, level, lo, hi, sel) && TotalSize(out) + TotalSize(sel) < limit
  }

  /** First choice: all files that meet the range of the inputs, expanded to a clean cut, if they are more,
      free, not too large, and take the same files of the output level. */
  ghost predicate FirstExpansion(startFiles: seq<File>, outputFiles: seq<File>, start: nat, sel: seq<File>, out: seq<File>,
                                 busy: set<nat>, limit: nat, wider: seq<File>)
    requires sel != []
  {
    && wider != [] && OverlapExpansion(startFiles, start, MinLo(sel + out), MaxHi(sel + out), wider) && |wider| > |sel|
    && !AreFilesInCompaction(wider, busy) && SameTaken(outputFiles, wider, out, busy)
    && SmallEnough(startFiles, start, MinLo(sel + out), MaxHi(sel + out), out, limit)
  }

  /** Second choice, below level 0: the widest clean cut within that range, if it is more, free and not too
      large. */
  ghost predicate SecondExpansion(startFiles: seq<File>, start: nat, sel: seq<File>, out: seq<File>, busy: set<nat>, limit: nat, wider: seq<File>)
    requires sel != []
  {
    && start > 0 && WidestCut(startFiles, MinLo(sel + out), MaxHi(sel + out), wider) && |wider| > |sel|
    && !AreFilesInCompaction(wider, busy) && TotalSize(out) + TotalSize(wider) < limit
  }

  /** What SetupOtherInputs makes of the files of the start level: the first choice, failing that the second,
      failing that nothing more; and nothing more if the output level gives no files. */
  ghost predicate ExpandedInputs(startFiles: seq<File>, outputFiles: seq<File>, start: nat, sel: seq<File>, out: seq<File>,
                                 busy: set<nat>, limit: nat, inputs: seq<File>)
    requires sel != []
  {
    if out == [] then inputs == sel
    else if exists w :: FirstExpansion(startFiles, outputFiles, start, sel, out, busy, limit, w)
    then FirstExpansion(startFiles, outputFiles, start, sel, out, busy, limit, inputs)
    else if exists w :: SecondExpansion(startFiles, start, sel, out, busy, limit, w)
    then SecondExpansion(startFiles, start, sel, out, busy, limit, inputs)
    else inputs == sel
  }

  lemma ExpansionIsUnique(files: seq<File>, level: nat, lo: int, hi: int, x: seq<File>, y: seq<File>)
    ensures OverlapExpansion(files, level, lo, hi, x) && OverlapExpansion(files, level, lo, hi, y) ==> x == y
    ensures Overlapping(files, level, lo, hi, x) && Overlapping(files, level, lo, hi, y) ==> x == y
  {
    hide Lower, Upper, CleanCut, Meeting, ClosedRange;
    if level > 0 && OverlapExpansion(files, level, lo, hi, x) && OverlapExpansion(files, level, lo, hi, y) {
      var a: nat, b: nat :| ExpandsTo(files, Lower(files, lo), Upper(files, hi), a, b) && IsSlice(files, x, a, b);
      var c: nat, d: nat :| ExpandsTo(files, Lower(files, lo), Upper(files, hi), c, d) && IsSlice(files, y, c, d);
    }
  }

  lemma WidestIsUnique(files: seq<File>, lo: int, hi: int, x: seq<File>, a: nat, b: nat)
    requires WidestCut(files, lo, hi, x) && CutsBetween(files, lo, hi, a, b)
    ensures a < b
    ensures CleanCut(files, a, b) && Within(files, a, b, lo, hi) ==> x == files[a..b]
  {
    var c: nat, d: nat :| IsSlice(files, x, c, d) && CleanCut(files, c, d) && Within(files, c, d, lo, hi) && CutsBetween(files, lo, hi, c, d);
  }

  // Files meet the range, and no clean cut around them is free.
  ghost predicate RangeBlocked(files: seq<File>, lo: int, hi: int, busy: set<nat>) {
    Lower(files, lo) < Upper(files, hi) && Blocked(files, Lower(files, lo), Upper(files, hi), busy)
  }

  lemma BlockedBy(files: seq<File>, l: nat, u: nat, a: nat, b: nat, busy: set<nat>)
    requires a < b <= |files| && AreFilesInCompaction(files[a..b], busy) && Contained(files, l, u, a, b)
    ensures Blocked(files, l, u, busy)
  {
    var i :| 0 <= i < |files[a..b]| && files[a..b][i].id in busy;
    forall x: nat, y: nat | CleanCut(files, x, y) && x <= l && u <= y ensures AreFilesInCompaction(files[x..y], busy) {
      assert files[x..y][a + i - x] == files[a + i];
    }
  }

  /** The inputs from the output level: those that meet the range, expanded to a clean cut. */
  method TakeOutputFiles(files: seq<File>, lo: int, hi: int, busy: set<nat>) returns (ok: bool, out: seq<File>, ghost x: nat, ghost y: nat)
    requires SortedLevel(files)
    ensures ok ==> TakesFrom(files, lo, hi, x, y) && x <= y <= |files| && out == files[x..y] && !AreFilesInCompaction(out, busy)
    ensures ok <==> !RangeBlocked(files, lo, hi, busy)
  {
    hide Lower, Upper, SortedLevel, CleanCut, AreFilesInCompaction, Blocked;
    out, x, y := Select(files, lo, hi), 0, 0;
    ghost var a, b := Lower(files, lo), Upper(files, hi);
    NothingInCompaction(busy);
    if AreFilesInCompaction(out, busy) {
      assert Contained(files, a, b, a, b);
      BlockedBy(files, a, b, a, b, busy);
      return false, [], 0, 0;
    }
    ok := true;
    if out != [] {
      ok, out, x, y := ExpandInputsToCleanCut(files, 1, out, busy, a, b);
      if ok {
        NotBlocked(files, a, b, x, y, busy);
      } else {
        assert Contained(files, a, b, x, y);
        BlockedBy(files, a, b, x, y, busy);
      }
    }
  }

  lemma NotBlocked(files: seq<File>, l: nat, u: nat, x: nat, y: nat, busy: set<nat>)
    requires ExpandsTo(files, l, u, x, y) && !AreFilesInCompaction(files[x..y], busy)
    ensures !Blocked(files, l, u, busy)
  {
  }

  lemma NothingInCompaction(busy: set<nat>)
    ensures !AreFilesInCompaction([], busy)
  {
  }

  /** With what is taken from the output level, the inputs are closed; so they stay if the start level
      gives other files within the same range. */
  lemma TakenIsClosed(files: seq<File>, sel: seq<File>, x: nat, y: nat)
    requires SortedLevel(files) && sel != [] && MinLo(sel) <= MaxHi(sel)
    requires TakesFrom(files, MinLo(sel), MaxHi(sel), x, y) && x <= y <= |files|
    ensures InputsClosed(files, sel, files[x..y])
  {
    hide Lower, Upper, MinLo, MaxHi, SortedLevel;
    if x < y {
      TakenSome(files, sel, MinLo(sel), MaxHi(sel), x, y);
    } else {
      SelectIsExact(files, MinLo(sel), MaxHi(sel));
      assert sel + files[x..y] == sel;
    }
  }

  lemma InSlice(files: seq<File>, x: nat, y: nat, i: nat)
    requires x <= i < y <= |files|
    ensures files[i] in files[x..y]
  {
    assert files[x..y][i - x] == files[i];
  }

  lemma RangeWithSlice(files: seq<File>, sel: seq<File>, x: nat, y: nat)
    requires SortedLevel(files) && sel != [] && x < y <= |files|
    ensures MinLo(sel + files[x..y]) == (if MinLo(sel) < files[x].lo then MinLo(sel) else files[x].lo)
    ensures MaxHi(sel + files[x..y]) == (if MaxHi(sel) > files[y - 1].hi then MaxHi(sel) else files[y - 1].hi)
  {
    hide MinLo, MaxHi, SortedLevel;
    var out := files[x..y];
    SliceIsSorted(files, x, y);
    SortedRange(out);
    RangeOfBoth(sel, out);
    assert out[0] == files[x] && out[|out| - 1] == files[y - 1];
  }

  lemma TakenSome(files: seq<File>, sel: seq<File>, lo: int, hi: int, x: nat, y: nat)
    requires SortedLevel(files) && sel != [] && lo == MinLo(sel) && hi == MaxHi(sel)
    requires CleanCut(files, x, y) && x <= Lower(files, lo) < Upper(files, hi) <= y <= |files|
    ensures InputsClosed(files, sel, files[x..y])
  {
    hide Lower, Upper, MinLo, MaxHi, SortedLevel, CleanCut, Overlaps;
    var out := files[x..y];
    var allLo, allHi := MinLo(sel + out), MaxHi(sel + out);
    RangeWithSlice(files, sel, x, y);
    forall i: nat | i < |files| && Overlaps(files[i], allLo, allHi) ensures files[i] in out {
      ChosenIsClosed(files, lo, hi, x, y, i);
      InSlice(files, x, y, i);
    }
  }

  lemma ClosedForFewer(files: seq<File>, sel: seq<File>, out: seq<File>, other: seq<File>)
    requires sel != [] && other != [] && InputsClosed(files, sel, out)
    requires forall i :: 0 <= i < |other| ==> MinLo(sel + out) <= other[i].lo && other[i].hi <= MaxHi(sel + out)
    ensures InputsClosed(files, other, out)
  {
    hide MinLo, MaxHi;
    if out == [] {
      assert other + out == other;
      RangeWithin(other, MinLo(sel + out), MaxHi(sel + out));
    } else {
      RangeOfBoth(sel, out);
      RangeOfBoth(other, out);
      RangeWithin(other, MinLo(sel + out), MaxHi(sel + out));
    }
  }

  // A wider range that takes as many files takes the same.
  lemma TakesTheSame(files: seq<File>, lo: int, hi: int, x: nat, y: nat, lo': int, hi': int, x': nat, y': nat)
    requires SortedLevel(files) && lo' <= lo && hi <= hi'
    requires TakesFrom(files, lo, hi, x, y) && TakesFrom(files, lo', hi', x', y')
    requires y - x == y' - x' && x < y
    ensures x == x' && y == y'
  {
    hide Lower, Upper;
    BoundsWiden(files, lo, hi, lo', hi');
    assert x' <= Lower(files, lo) && Upper(files, hi) <= y';
  }

  lemma BoundsWiden(files: seq<File>, lo: int, hi: int, lo': int, hi': int)
    requires lo' <= lo && hi <= hi'
    ensures Lower(files, lo') <= Lower(files, lo) && Upper(files, hi) <= Upper(files, hi')
  {
    hide Lower, Upper;
  }

  // ---- SetupOtherInputs ----

  // The selection is within the files GetOverlappingInputs returns for a range around it.
  lemma OverlappingHasAll(files: seq<File>, sel: seq<File>, a: nat, b: nat, lo: int, hi: int)
    requires SortedLevel(files) && IsSlice(files, sel, a, b) && lo <= files[a].lo && files[b - 1].hi <= hi
    ensures Lower(files, lo) <= a && b <= Upper(files, hi) && Select(files, lo, hi) == files[Lower(files, lo)..Upper(files, hi)]
  {
    hide Lower, Upper;
    assert files[a].hi >= lo && files[b - 1].lo <= hi;
  }

  lemma {:induction false} MeetingIsFilter(files: seq<File>, lo: int, hi: int, f: File)
    ensures f in Meeting(files, lo, hi) <==> f in files && Overlaps(f, lo, hi)
  {
    if files != [] {
      MeetingIsFilter(files[1..], lo, hi, f);
      assert f in files <==> f == files[0] || f in files[1..];
    }
  }

  lemma MeetingHasAll(files: seq<File>, sel: seq<File>, lo: int, hi: int)
    requires AllIn(sel, files) && forall i :: 0 <= i < |sel| ==> Overlaps(sel[i], lo, hi)
    ensures AllIn(sel, Meeting(files, lo, hi)) && AllIn(Meeting(files, lo, hi), files)
  {
    forall i | 0 <= i < |sel| ensures sel[i] in Meeting(files, lo, hi) { MeetingIsFilter(files, lo, hi, sel[i]); }
    var all := Meeting(files, lo, hi);
    forall i | 0 <= i < |all| ensures all[i] in files { MeetingIsFilter(files, lo, hi, all[i]); }
  }

  predicate Positive(sel: seq<File>) {
    forall i :: 0 <= i < |sel| ==> sel[i].lo <= sel[i].hi
  }

  lemma PositiveRange(sel: seq<File>)
    requires sel != [] && Positive(sel)
    ensures MinLo(sel) <= MaxHi(sel)
    ensures forall i :: 0 <= i < |sel| ==> Overlaps(sel[i], MinLo(sel), MaxHi(sel))
  {
    hide MinLo, MaxHi;
    assert MinLo(sel) <= sel[0].lo <= sel[0].hi <= MaxHi(sel);
  }

  /** Tries more files of the start level: all that meet the range [lo, hi], expanded to a clean cut.
      The result has all files of the selection. */
  method WidenStart(files: seq<File>, level: nat, sel: seq<File>, lo: int, hi: int, busy: set<nat>)
    returns (ok: bool, wider: seq<File>, overlapping: seq<File>)
    requires (level > 0 ==> SortedLevel(files)) && Positive(files) && StartInputs(files, level, sel)
    requires lo <= MinLo(sel) && MaxHi(sel) <= hi
    ensures StartInputs(files, level, wider) && AllIn(sel, wider)
    ensures OverlapExpansion(files, level, lo, hi, wider) && Overlapping(files, level, lo, hi, overlapping)
    ensures ok <==> level == 0 || !AreFilesInCompaction(wider, busy)
  {
    hide StartInputs, AllIn, MeetsClosed, OverlapExpansion, MinLo, MaxHi, SortedLevel, Positive, AreFilesInCompaction, Select;
    if level > 0 {
      ok, wider := WidenBelow(files, level, sel, lo, hi, busy);
      overlapping := Select(files, lo, hi);
    } else {
      overlapping := WidenInLevel0(files, sel, lo, hi);
      ok, wider := true, overlapping;
      MeetsIsExpansion(files, lo, hi, wider);
    }
  }

  lemma MeetsIsExpansion(files: seq<File>, lo: int, hi: int, sel: seq<File>)
    requires MeetsClosed(files, lo, hi, sel)
    ensures OverlapExpansion(files, 0, lo, hi, sel)
  {
  }

  method WidenBelow(files: seq<File>, level: nat, sel: seq<File>, lo: int, hi: int, busy: set<nat>) returns (ok: bool, wider: seq<File>)
    requires level > 0 && SortedLevel(files) && StartInputs(files, level, sel) && lo <= MinLo(sel) && MaxHi(sel) <= hi
    ensures StartInputs(files, level, wider) && AllIn(sel, wider) && OverlapExpansion(files, level, lo, hi, wider)
    ensures ok <==> !AreFilesInCompaction(wider, busy)
  {
    hide Lower, Upper, MinLo, MaxHi, SortedLevel, CleanCut, AreFilesInCompaction, AllIn;
    ghost var a: nat, b: nat :| IsSlice(files, sel, a, b) && CleanCut(files, a, b);
    SliceIsSorted(files, a, b);
    SortedRange(sel);
    OverlappingHasAll(files, sel, a, b, lo, hi);
    ghost var c: nat, d: nat;
    ok, wider, c, d := ExpandInputsToCleanCut(files, level, Select(files, lo, hi), busy, Lower(files, lo), Upper(files, hi));
    SliceHas(files, a, b, c, d);
  }

  method WidenInLevel0(files: seq<File>, sel: seq<File>, lo: int, hi: int) returns (wider: seq<File>)
    requires Positive(files) && StartInputs(files, 0, sel) && lo <= MinLo(sel) && MaxHi(sel) <= hi
    ensures StartInputs(files, 0, wider) && AllIn(sel, wider) && MeetsClosed(files, lo, hi, wider)
  {
    hide MinLo, MaxHi, Meeting, ClosedRange;
    ghost var x, y;
    wider, x, y := OverlappingInLevel0(files, lo, hi);
    PositiveIn(sel, files);
    InRangeMeets(sel, x, y);
    MeetingHasAll(files, sel, x, y);
    assert sel[0] in wider;
  }

  lemma SliceHas(files: seq<File>, a: nat, b: nat, c: nat, d: nat)
    requires c <= a < b <= d <= |files|
    ensures AllIn(files[a..b], files[c..d]) && AllIn(files[c..d], files)
  {
    forall i | 0 <= i < b - a ensures files[a..b][i] in files[c..d] { InSlice(files, c, d, a + i); }
  }

  lemma PositiveIn(sel: seq<File>, files: seq<File>)
    requires AllIn(sel, files) && Positive(files)
    ensures Positive(sel)
  {
    forall i | 0 <= i < |sel| ensures sel[i].lo <= sel[i].hi {
      var k :| 0 <= k < |files| && files[k] == sel[i];
    }
  }

  lemma InRangeMeets(sel: seq<File>, lo: int, hi: int)
    requires sel != [] && Positive(sel) && lo <= MinLo(sel) && MaxHi(sel) <= hi
    ensures forall i :: 0 <= i < |sel| ==> Overlaps(sel[i], lo, hi)
  {
    hide MinLo, MaxHi;
  }

  /** SetupOtherInputs: the files of the output level that go with the inputs, and more files of the
      start level if that takes no more of the output level. Fails if a file of the output level that
      has to be taken is being compacted. */
  method SetupOtherInputs(startFiles: seq<File>, outputFiles: seq<File>, start: nat, output: nat, sel: seq<File>,
                          busy: set<nat>, limit: nat)
    returns (ok: bool, inputs: seq<File>, out: seq<File>)
    requires start <= output && (start > 0 ==> SortedLevel(startFiles)) && (output > 0 ==> SortedLevel(outputFiles))
    requires Positive(startFiles) && StartInputs(startFiles, start, sel) && !AreFilesInCompaction(sel, busy)
    ensures start == output ==> ok && inputs == sel && out == []
    ensures ok ==> StartInputs(startFiles, start, inputs) && AllIn(sel, inputs) && !AreFilesInCompaction(inputs, busy)
    ensures ok ==> AllIn(out, outputFiles) && !AreFilesInCompaction(out, busy)
    ensures ok && start < output ==> InputsClosed(outputFiles, inputs, out) && Taken(outputFiles, MinLo(sel), MaxHi(sel), out)
    ensures ok <==> start == output || !RangeBlocked(outputFiles, MinLo(sel), MaxHi(sel), busy)
    ensures ok && start < output ==> ExpandedInputs(startFiles, outputFiles, start, sel, out, busy, limit, inputs)
  {
    hide Lower, Upper, MinLo, MaxHi, SortedLevel, CleanCut, AreFilesInCompaction, Meeting, ClosedRange, Blocked,
         InputsClosed, StartInputs, TakesFrom, Positive, AllIn, TotalSize, RangeBlocked, OverlapExpansion, SameTaken, SmallEnough,
         WidestCut, Taken;
    inputs, out := sel, [];
    AllInItself(sel);
    NothingIn(busy, outputFiles);
    SelectionFacts(startFiles, start, sel);
    if start == output { return true, sel, []; }
    var lo, hi := GetRange(start, sel);
    ghost var x: nat, y: nat;
    ok, out, x, y := TakeOutputFiles(outputFiles, lo, hi, busy);
    if !ok { return; }
    SliceHas0(outputFiles, x, y);
    IsTaken(outputFiles, lo, hi, out, out, x, y);
    TakenIsClosed(outputFiles, sel, x, y);
    if out != [] {
      var outLo, outHi := GetRange(output, out) by { SliceIsSorted(outputFiles, x, y); }
      var allLo := if lo < outLo then lo else outLo;
      var allHi := if hi < outHi then outHi else hi;
      RangeOfBoth(sel, out);
      var expand, wider := TryOverlapping(startFiles, outputFiles, start, sel, out, allLo, allHi, busy, limit, x, y);
      if !expand {
        expand, wider := TryWithin(startFiles, outputFiles, start, sel, out, allLo, allHi, busy, limit);
      }
      if expand { inputs := wider; }
    }
  }

  // All files of the start level that meet the range of the inputs, [lo, hi].
  method TryOverlapping(startFiles: seq<File>, outputFiles: seq<File>, start: nat, sel: seq<File>, out: seq<File>, lo: int, hi: int,
                        busy: set<nat>, limit: nat, ghost x: nat, ghost y: nat) returns (expand: bool, wider: seq<File>)
    requires SortedLevel(outputFiles) && Positive(startFiles) && (start > 0 ==> SortedLevel(startFiles))
    requires sel != [] && StartInputs(startFiles, start, sel) && lo == MinLo(sel + out) && hi == MaxHi(sel + out)
    requires TakesFrom(outputFiles, MinLo(sel), MaxHi(sel), x, y) && x < y <= |outputFiles| && out == outputFiles[x..y]
    ensures expand ==> FirstExpansion(startFiles, outputFiles, start, sel, out, busy, limit, wider)
    ensures expand ==> StartInputs(startFiles, start, wider) && AllIn(sel, wider) && InputsClosed(outputFiles, wider, out)
    ensures !expand ==> forall w :: !FirstExpansion(startFiles, outputFiles, start, sel, out, busy, limit, w)
  {
    hide Lower, Upper, MinLo, MaxHi, SortedLevel, AreFilesInCompaction, InputsClosed, StartInputs, TakesFrom, Positive, AllIn, TotalSize,
         OverlapExpansion, Overlapping, SameTaken;
    expand := false;
    RangeOfBoth(sel, out);
    var canWiden, overlapping;
    canWiden, wider, overlapping := WidenStart(startFiles, start, sel, lo, hi, busy);
    SelectionFacts(startFiles, start, wider);
    if canWiden && |wider| > |sel| && TotalSize(out) + TotalSize(overlapping) < limit && !AreFilesInCompaction(wider, busy) {
      expand := SameOutput(startFiles, outputFiles, start, sel, out, wider, busy, x, y);
    }
    if expand {
      assert SmallEnough(startFiles, start, lo, hi, out, limit);
    } else {
      forall w ensures !FirstExpansion(startFiles, outputFiles, start, sel, out, busy, limit, w) {
        NoFirstExpansion(startFiles, outputFiles, start, sel, out, busy, limit, wider, overlapping, w);
      }
    }
  }

  // The widest clean cut of the start level within the range of the inputs, [lo, hi].
  method TryWithin(startFiles: seq<File>, outputFiles: seq<File>, start: nat, sel: seq<File>, out: seq<File>, lo: int, hi: int,
                   busy: set<nat>, limit: nat) returns (expand: bool, wider: seq<File>)
    requires Positive(startFiles) && (start > 0 ==> SortedLevel(startFiles))
    requires sel != [] && out != [] && StartInputs(startFiles, start, sel) && lo == MinLo(sel + out) && hi == MaxHi(sel + out)
    requires InputsClosed(outputFiles, sel, out)
    ensures expand ==> SecondExpansion(startFiles, start, sel, out, busy, limit, wider)
    ensures expand ==> StartInputs(startFiles, start, wider) && AllIn(sel, wider) && InputsClosed(outputFiles, wider, out)
    ensures !expand ==> forall w :: !SecondExpansion(startFiles, start, sel, out, busy, limit, w)
  {
    hide MinLo, MaxHi, SortedLevel, AreFilesInCompaction, InputsClosed, StartInputs, Positive, AllIn, TotalSize, CleanCut, CutsBetween, Within;
    RangeOfBoth(sel, out);
    ghost var a: nat, b: nat;
    wider, a, b := GetCleanInputsWithinInterval(startFiles, start, lo, hi);
    expand := |wider| > |sel| && TotalSize(out) + TotalSize(wider) < limit && !AreFilesInCompaction(wider, busy);
    if expand {
      CutIsStart(startFiles, start, wider, a, b);
      ClosedForFewer(outputFiles, sel, out, wider);
      WidestHasAll(startFiles, start, sel, wider, lo, hi, a, b);
      assert WidestCut(startFiles, lo, hi, wider);
    } else {
      forall w ensures !SecondExpansion(startFiles, start, sel, out, busy, limit, w) {
        NoSecondExpansion(startFiles, start, sel, out, busy, limit, wider, a, b, w);
      }
    }
  }

  lemma AllInItself(sel: seq<File>)
    ensures AllIn(sel, sel)
  {
  }

  // The widest clean cut within a range has every clean cut within it.
  lemma WidestHasAll(files: seq<File>, level: nat, sel: seq<File>, wider: seq<File>, lo: int, hi: int, a: nat, b: nat)
    requires level > 0 && StartInputs(files, level, sel) && lo <= MinLo(sel) && MaxHi(sel) <= hi
    requires IsSlice(files, wider, a, b) && CutsBetween(files, lo, hi, a, b)
    ensures AllIn(sel, wider)
  {
    hide MinLo, MaxHi, SortedLevel, CleanCut, AllIn;
    var x: nat, y: nat :| IsSlice(files, sel, x, y) && CleanCut(files, x, y);
    forall i | x <= i < y ensures lo <= files[i].lo && files[i].hi <= hi { assert sel[i - x] == files[i]; }
    assert Within(files, x, y, lo, hi);
    SliceHas(files, x, y, a, b);
  }

  lemma NothingIn(busy: set<nat>, files: seq<File>)
    ensures !AreFilesInCompaction([], busy) && AllIn([], files)
  {
  }

  lemma SliceHas0(files: seq<File>, x: nat, y: nat)
    requires x <= y <= |files|
    ensures AllIn(files[x..y], files)
  {
  }

  lemma SelectionFacts(files: seq<File>, level: nat, sel: seq<File>)
    requires StartInputs(files, level, sel) && Positive(files) && (level > 0 ==> SortedLevel(files))
    ensures sel != [] && AllIn(sel, files) && MinLo(sel) <= MaxHi(sel) && (level > 0 ==> SortedLevel(sel))
  {
    hide MinLo, MaxHi;
    PositiveIn(sel, files);
    PositiveRange(sel);
    if level > 0 {
      var a: nat, b: nat :| IsSlice(files, sel, a, b) && CleanCut(files, a, b);
      SliceIsSorted(files, a, b);
    }
  }

  lemma CutIsStart(files: seq<File>, level: nat, sel: seq<File>, a: nat, b: nat)
    requires sel != [] && level > 0 && IsSlice(files, sel, a, b) && CleanCut(files, a, b)
    ensures StartInputs(files, level, sel)
    ensures forall lo, hi :: Within(files, a, b, lo, hi) ==> forall i :: 0 <= i < |sel| ==> lo <= sel[i].lo && sel[i].hi <= hi
  {
    SliceHas0(files, a, b);
  }

  // Whether a wider selection of the start level takes the same files of the output level.
  method SameOutput(startFiles: seq<File>, outputFiles: seq<File>, start: nat, sel: seq<File>, out: seq<File>,
                    wider: seq<File>, busy: set<nat>, ghost x: nat, ghost y: nat) returns (same: bool)
    requires SortedLevel(outputFiles) && Positive(startFiles) && (start > 0 ==> SortedLevel(startFiles))
    requires sel != [] && StartInputs(startFiles, start, wider) && AllIn(sel, wider)
    requires TakesFrom(outputFiles, MinLo(sel), MaxHi(sel), x, y) && x < y <= |outputFiles| && out == outputFiles[x..y]
    ensures wider != [] && (same <==> SameTaken(outputFiles, wider, out, busy))
    ensures same ==> InputsClosed(outputFiles, wider, out)
  {
    hide Lower, Upper, MinLo, MaxHi, SortedLevel, CleanCut, AreFilesInCompaction, InputsClosed, StartInputs, TakesFrom,
         Positive, AllIn;
    SelectionFacts(startFiles, start, wider);
    var lo, hi := GetRange(start, wider);
    var ok, expanded, x', y' := TakeOutputFiles(outputFiles, lo, hi, busy);
    same := ok && |expanded| == |out|;
    if ok { IsTaken(outputFiles, lo, hi, expanded, out, x', y'); }
    if same {
      Wider(sel, wider);
      TakesTheSame(outputFiles, MinLo(sel), MaxHi(sel), x, y, lo, hi, x', y');
      TakenIsClosed(outputFiles, wider, x, y);
    }
  }

  lemma IsTaken(files: seq<File>, lo: int, hi: int, sel: seq<File>, other: seq<File>, x: nat, y: nat)
    requires TakesFrom(files, lo, hi, x, y) && x <= y <= |files| && sel == files[x..y]
    ensures Taken(files, lo, hi, sel) && (Taken(files, lo, hi, other) ==> other == sel)
  {
    hide Lower, Upper, CleanCut;
    if Taken(files, lo, hi, other) {
      var a: nat, b: nat :| TakesFrom(files, lo, hi, a, b) && a <= b <= |files| && other == files[a..b];
    }
  }

  lemma NoFirstExpansion(startFiles: seq<File>, outputFiles: seq<File>, start: nat, sel: seq<File>, out: seq<File>, busy: set<nat>,
                         limit: nat, wider: seq<File>, overlapping: seq<File>, w: seq<File>)
    requires sel != [] && wider != [] && OverlapExpansion(startFiles, start, MinLo(sel + out), MaxHi(sel + out), wider)
    requires Overlapping(startFiles, start, MinLo(sel + out), MaxHi(sel + out), overlapping)
    requires !(|wider| > |sel| && TotalSize(out) + TotalSize(overlapping) < limit && !AreFilesInCompaction(wider, busy)
               && SameTaken(outputFiles, wider, out, busy))
    ensures !FirstExpansion(startFiles, outputFiles, start, sel, out, busy, limit, w)
  {
    hide OverlapExpansion, Overlapping, SameTaken, AreFilesInCompaction, TotalSize, MinLo, MaxHi;
    if FirstExpansion(startFiles, outputFiles, start, sel, out, busy, limit, w) {
      ExpansionIsUnique(startFiles, start, MinLo(sel + out), MaxHi(sel + out), w, wider);
      var o :| Overlapping(startFiles, start, MinLo(sel + out), MaxHi(sel + out), o) && TotalSize(out) + TotalSize(o) < limit;
      ExpansionIsUnique(startFiles, start, MinLo(sel + out), MaxHi(sel + out), o, overlapping);
    }
  }

  lemma NoSecondExpansion(startFiles: seq<File>, start: nat, sel: seq<File>, out: seq<File>, busy: set<nat>, limit: nat,
                          wider: seq<File>, a: nat, b: nat, w: seq<File>)
    requires sel != [] && (start > 0 ==> CutsBetween(startFiles, MinLo(sel + out), MaxHi(sel + out), a, b))
    requires start > 0 && wider == [] ==> a >= b
    requires start > 0 && wider != [] ==> IsSlice(startFiles, wider, a, b) && CleanCut(startFiles, a, b)
                                          && Within(startFiles, a, b, MinLo(sel + out), MaxHi(sel + out))
    requires !(|wider| > |sel| && TotalSize(out) + TotalSize(wider) < limit && !AreFilesInCompaction(wider, busy))
    ensures !SecondExpansion(startFiles, start, sel, out, busy, limit, w)
  {
    hide AreFilesInCompaction, TotalSize, MinLo, MaxHi, CleanCut, Within, CutsBetween, WidestCut;
    if SecondExpansion(startFiles, start, sel, out, busy, limit, w) {
      WidestIsUnique(startFiles, MinLo(sel + out), MaxHi(sel + out), w, a, b);
    }
  }

  lemma Wider(sel: seq<File>, wider: seq<File>)
    requires sel != [] && wider != [] && AllIn(sel, wider)
    ensures MinLo(wider) <= MinLo(sel) && MaxHi(sel) <= MaxHi(wider)
  {
    hide MinLo, MaxHi;
    RangeGrows(sel, wider);
  }

  // ---- Compactions within level 0 ----

  // The bytes to rewrite for each file that goes, if the first k + 1 files become one.
  function Cost(files: seq<File>, k: nat): nat
    requires 0 < k < |files|
  {
    TotalSize(files[..k + 1]) / k
  }

  /** The newest files of level 0 up to `span`: none but perhaps the first is being compacted, and the
      cost per file does not rise within the span. It is as long as that allows. */
  ghost predicate IsSpan(files: seq<File>, span: nat, busy: set<nat>) {
    && 0 < span <= |files|
    && (forall i :: 0 < i < span ==> files[i].id !in busy)
    && (forall k :: 1 < k < span ==> Cost(files, k) <= Cost(files, k - 1))
    && (span < |files| ==> files[span].id in busy || (span > 1 && Cost(files, span) > Cost(files, span - 1)))
  }

  lemma {:induction false} TotalOfPrefix(files: seq<File>, k: nat)
    requires k < |files|
    ensures TotalSize(files[..k + 1]) == TotalSize(files[..k]) + files[k].size
  {
    if k == 0 {
      assert files[..1] == [files[0]] && files[..1][1..] == [];
    } else {
      TotalOfPrefix(files[1..], k - 1);
      assert files[..k + 1][1..] == files[1..][..k] && files[..k][1..] == files[1..][..k - 1];
    }
  }

  /** FindIntraL0Compaction. */
  method FindIntraL0Compaction(files: seq<File>, minFiles: nat, maxCost: nat, busy: set<nat>) returns (found: bool, sel: seq<File>)
    requires files != [] && minFiles > 1
    ensures found ==> |sel| >= minFiles && IsSpan(files, |sel|, busy) && sel == files[..|sel|] && Cost(files, |sel| - 1) < maxCost
    ensures !found ==> forall span: nat :: IsSpan(files, span, busy) ==> span < minFiles || Cost(files, span - 1) >= maxCost
  {
    hide TotalSize;
    var bytes := files[0].size;
    TotalOfPrefix(files, 0);
    NoBytes(files);
    var cost := 0;
    var span := 1;
    while span < |files|
      invariant 1 <= span <= |files| && bytes == TotalSize(files[..span])
      invariant span > 1 ==> cost == Cost(files, span - 1)
      invariant forall i :: 0 < i < span ==> files[i].id !in busy
      invariant forall k :: 1 < k < span ==> Cost(files, k) <= Cost(files, k - 1)
    {
      TotalOfPrefix(files, span);
      bytes := bytes + files[span].size;
      var newCost := bytes / span;
      if files[span].id in busy || (span > 1 && newCost > cost) { break; }
      cost := newCost;
      span := span + 1;
    }
    assert IsSpan(files, span, busy);
    forall other: nat | IsSpan(files, other, busy) ensures other == span { SpanIsUnique(files, span, other, busy); }
    found := span >= minFiles && cost < maxCost;
    sel := if found then files[..span] else [];
  }

  lemma NoBytes(files: seq<File>)
    ensures TotalSize(files[..0]) == 0
  {
  }

  lemma SpanIsUnique(files: seq<File>, a: nat, b: nat, busy: set<nat>)
    requires IsSpan(files, a, busy) && IsSpan(files, b, busy)
    ensures a == b
  {
    hide Cost;
  }
}
