/**
 Table files of one level and the selections the level compaction picker makes among them:
 key ranges, overlap and clean cuts.

 A file has the user keys (as ranks) at its two ends. Below level 0, files are sorted, but two
 neighbours may share the user key at their border.
 */
module LevelFiles {
  datatype File = File(id: nat, lo: int, hi: int, size: nat)

  predicate Overlaps(f: File, lo: int, hi: int) {
    f.hi >= lo && f.lo <= hi
  }

  predicate SortedLevel(files: seq<File>) {
    && (forall i :: 0 <= i < |files| ==> files[i].lo <= files[i].hi)
    && (forall i, j :: 0 <= i < j < |files| ==> files[i].hi <= files[j].lo)
  }

  // The first file that does not end before `lo`.
  function Lower(files: seq<File>, lo: int): (a: nat)
    ensures a <= |files| && (forall i :: 0 <= i < a ==> files[i].hi < lo) && (a < |files| ==> files[a].hi >= lo)
  {
    if files == [] || files[0].hi >= lo then 0 else 1 + Lower(files[1..], lo)
  }

  // The first file that begins after `hi`.
  function Upper(files: seq<File>, hi: int): (b: nat)
    ensures b <= |files| && (forall i :: 0 <= i < b ==> files[i].lo <= hi) && (b < |files| ==> files[b].lo > hi)
  {
    if files == [] || files[0].lo > hi then 0 else 1 + Upper(files[1..], hi)
  }

  /** GetOverlappingInputs below level 0: the files that meet the range, which are neighbours. */
  function Select(files: seq<File>, lo: int, hi: int): seq<File> {
    var a, b := Lower(files, lo), Upper(files, hi);
    if a < b then files[a..b] else []
  }

  lemma SortedEnds(files: seq<File>, i: nat, j: nat)
    requires SortedLevel(files) && i <= j < |files|
    ensures files[i].lo <= files[j].lo && files[i].hi <= files[j].hi
  {
  }

  lemma SelectIsExact(files: seq<File>, lo: int, hi: int)
    requires SortedLevel(files) && lo <= hi
    ensures forall i :: 0 <= i < |files| ==> (Overlaps(files[i], lo, hi) <==> Lower(files, lo) <= i < Upper(files, hi))
  {
    hide Lower, Upper;
    var a, b := Lower(files, lo), Upper(files, hi);
    forall i | 0 <= i < |files| ensures Overlaps(files[i], lo, hi) <==> a <= i < b {
      if i >= a { SortedEnds(files, a, i); }
      if i >= b { SortedEnds(files, b, i); }
    }
  }

  // ---- The range of a selection ----

  function MinLo(sel: seq<File>): (lo: int)
    requires sel != []
    ensures (forall i :: 0 <= i < |sel| ==> lo <= sel[i].lo) && exists i :: 0 <= i < |sel| && sel[i].lo == lo
  {
    if |sel| == 1 then sel[0].lo
    else
      var rest := MinLo(sel[1..]);
      assert forall i :: 0 < i < |sel| ==> sel[i] == sel[1..][i - 1];
      assert exists i :: 0 < i < |sel| && sel[i].lo == rest by {
        var i :| 0 <= i < |sel[1..]| && sel[1..][i].lo == rest;
        assert sel[i + 1].lo == rest;
      }
      if sel[0].lo < rest then sel[0].lo else rest
  }

  function MaxHi(sel: seq<File>): (hi: int)
    requires sel != []
    ensures (forall i :: 0 <= i < |sel| ==> hi >= sel[i].hi) && exists i :: 0 <= i < |sel| && sel[i].hi == hi
  {
    if |sel| == 1 then sel[0].hi
    else
      var rest := MaxHi(sel[1..]);
      assert forall i :: 0 < i < |sel| ==> sel[i] == sel[1..][i - 1];
      assert exists i :: 0 < i < |sel| && sel[i].hi == rest by {
        var i :| 0 <= i < |sel[1..]| && sel[1..][i].hi == rest;
        assert sel[i + 1].hi == rest;
      }
      if sel[0].hi > rest then sel[0].hi else rest
  }

  /** In a sorted level the range is that of the first and the last file. */
  lemma SortedRange(sel: seq<File>)
    requires SortedLevel(sel) && sel != []
    ensures MinLo(sel) == sel[0].lo && MaxHi(sel) == sel[|sel| - 1].hi
  {
    hide MinLo, MaxHi;
    var i :| 0 <= i < |sel| && sel[i].lo == MinLo(sel);
    SortedEnds(sel, 0, i);
    var j :| 0 <= j < |sel| && sel[j].hi == MaxHi(sel);
    SortedEnds(sel, j, |sel| - 1);
  }

  lemma SliceIsSorted(files: seq<File>, a: nat, b: nat)
    requires SortedLevel(files) && a <= b <= |files|
    ensures SortedLevel(files[a..b])
  {
  }

  // ---- Clean cuts ----

  /** No user key of the files from a to b is in a file next to them. */
  predicate CleanCut(files: seq<File>, a: nat, b: nat) {
    && a < b <= |files|
    && (a > 0 ==> files[a - 1].hi < files[a].lo)
    && (b < |files| ==> files[b].lo > files[b - 1].hi)
  }

  /** A clean cut is what the overlap query for its own range returns, and conversely. */
  lemma CleanCutIsClosed(files: seq<File>, a: nat, b: nat)
    requires SortedLevel(files) && a < b <= |files|
    ensures CleanCut(files, a, b) <==> Lower(files, files[a].lo) == a && Upper(files, files[b - 1].hi) == b
    ensures Lower(files, files[a].lo) <= a && b <= Upper(files, files[b - 1].hi)
  {
    hide Lower, Upper;
    var l, u := Lower(files, files[a].lo), Upper(files, files[b - 1].hi);
    if l < a { SortedEnds(files, l, a - 1); }
    if u > b { SortedEnds(files, b, u - 1); }
    if b <= |files| && u < b { SortedEnds(files, u, b - 1); }
  }

  lemma CleanCutContains(files: seq<File>, a: nat, b: nat, i: nat)
    requires SortedLevel(files) && CleanCut(files, a, b) && i < |files| && Overlaps(files[i], files[a].lo, files[b - 1].hi)
    ensures a <= i < b
  {
  }

  /** The smallest clean cut around the files from a to b, as ExpandInputsToCleanCut finds it. */
  ghost predicate ExpandsTo(files: seq<File>, a: nat, b: nat, a': nat, b': nat) {
    && CleanCut(files, a', b') && a' <= a && b <= b'
    && forall x: nat, y: nat :: CleanCut(files, x, y) && x <= a && b <= y ==> x <= a' && b' <= y
  }
}
