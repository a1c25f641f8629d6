/**
 SanitizeCompactionInputFilesForAllLevels: completes the files a caller wants compacted so that no
 older data of the same keys is left behind.
 */
module SanitizeInputs {
  import opened LevelFiles

  predicate In(levels: seq<seq<File>>, t: set<nat>, l: nat, i: nat) {
    l < |levels| && i < |levels[l]| && levels[l][i].id in t
  }

  // A file of t in the levels up to m begins at or before the key; one ends at or after it.
  ghost predicate BeginsBy(levels: seq<seq<File>>, t: set<nat>, m: nat, key: int) {
    exists l: nat, i: nat :: In(levels, t, l, i) && l <= m && levels[l][i].lo <= key
  }

  ghost predicate EndsFrom(levels: seq<seq<File>>, t: set<nat>, m: nat, key: int) {
    exists l: nat, i: nat :: In(levels, t, l, i) && l <= m && levels[l][i].hi >= key
  }

  // A file of level m that meets the key range of the files of t in the levels up to m.
  ghost predicate MeetsSet(levels: seq<seq<File>>, t: set<nat>, m: nat, k: nat) {
    && 1 <= m < |levels| && k < |levels[m]|
    && BeginsBy(levels, t, m, levels[m][k].hi) && EndsFrom(levels, t, m, levels[m][k].lo)
  }

  // A file of level 0 older than a file of t, or between two, if the output stays in level 0.
  ghost predicate FollowsInLevel0(levels: seq<seq<File>>, t: set<nat>, output: nat, k: nat) {
    && |levels| > 0 && k < |levels[0]|
    && (exists i: nat :: i <= k && In(levels, t, 0, i))
    && (output > 0 || exists j: nat :: k <= j && In(levels, t, 0, j))
  }

  /** A set of files that can be compacted to the output level: below level 0 it has every file that
      meets the key range of its files in the same level and above; in level 0, it has every file
      older than one of its files if the output goes deeper, and otherwise every file between two. */
  ghost predicate Closed(levels: seq<seq<File>>, t: set<nat>, output: nat) {
    && (forall m: nat, k: nat :: m <= output && MeetsSet(levels, t, m, k) ==> In(levels, t, m, k))
    && (forall k: nat :: FollowsInLevel0(levels, t, output, k) ==> In(levels, t, 0, k))
  }

  ghost predicate UniqueIds(levels: seq<seq<File>>) {
    forall l: nat, i: nat, m: nat, j: nat {:trigger At(levels, l, i), At(levels, m, j)} ::
      (At(levels, l, i) && At(levels, m, j) && levels[l][i].id == levels[m][j].id) ==> l == m && i == j
  }

  predicate At(levels: seq<seq<File>>, l: nat, i: nat) {
    l < |levels| && i < |levels[l]|
  }

  ghost predicate LevelsSorted(levels: seq<seq<File>>) {
    && (forall l, i :: 0 <= l < |levels| && 0 <= i < |levels[l]| ==> levels[l][i].lo <= levels[l][i].hi)
    && (forall l :: 0 < l < |levels| ==> SortedLevel(levels[l]))
  }

  /** The promise in terms of single files: what meets an included file in its level (below 0) or deeper
      is included. */
  lemma ClosedForEachFile(levels: seq<seq<File>>, t: set<nat>, output: nat, l: nat, i: nat, m: nat, k: nat)
    requires Closed(levels, t, output) && In(levels, t, l, i) && l <= m <= output && 1 <= m < |levels| && k < |levels[m]|
    requires Overlaps(levels[m][k], levels[l][i].lo, levels[l][i].hi)
    ensures In(levels, t, m, k)
  {
    assert MeetsSet(levels, t, m, k);
  }

  /** HaveOverlappingKeyRanges. */
  predicate HaveOverlappingKeyRanges(a: File, b: File)
  {
    if a.lo >= b.lo && a.lo <= b.hi then true
    else if a.lo < b.lo && a.hi >= b.lo then true
    else if a.hi <= b.hi && a.hi >= b.lo then true
    else a.hi > b.hi && a.lo <= b.hi
  }

  lemma OverlapTestIsExact(a: File, b: File)
    requires a.lo <= a.hi && b.lo <= b.hi
    ensures HaveOverlappingKeyRanges(a, b) <==> Overlaps(a, b.lo, b.hi)
  {
  }

  // ---- One level ----

  function IdsOf(files: seq<File>, a: nat, b: nat): set<nat> {
    set k | a <= k < b && k < |files| :: files[k].id
  }

  /** The first and the last file of a level that are in t. */
  method FindIncluded(files: seq<File>, t: set<nat>) returns (first: nat, last: int)
    ensures last == -1 ==> forall k :: 0 <= k < |files| ==> files[k].id !in t
    ensures last != -1 ==> && 0 <= first <= last < |files| && files[first].id in t && files[last].id in t
                           && forall k :: 0 <= k < |files| && files[k].id in t ==> first <= k <= last
  {
    first, last := |files|, -1;
    for f := 0 to |files|
      invariant last == -1 ==> first == |files| && forall k :: 0 <= k < f ==> files[k].id !in t
      invariant last != -1 ==> && 0 <= first <= last < f && files[first].id in t && files[last].id in t
                               && forall k :: 0 <= k < f && files[k].id in t ==> first <= k <= last
    {
      if files[f].id in t {
        if f < first { first := f; }
        if last < f { last := f; }
      }
    }
  }

  /** Grows a range of files of a sorted level to both sides while neighbours share a user key. */
  method Grow(files: seq<File>, first: nat, last: nat) returns (a: nat, b: nat)
    requires SortedLevel(files) && first <= last < |files|
    ensures a <= first && last < b && CleanCut(files, a, b)
    ensures forall k :: a <= k < first ==> files[k].hi >= files[k + 1].lo
    ensures forall k :: last < k < b ==> files[k].lo <= files[k - 1].hi
  {
    a, b := first, last + 1;
    while a > 0 && files[a - 1].hi >= files[a].lo
      invariant a <= first && forall k :: a <= k < first ==> files[k].hi >= files[k + 1].lo
    {
      a := a - 1;
    }
    while b < |files| && files[b].lo <= files[b - 1].hi
      invariant last < b <= |files| && forall k :: last < k < b ==> files[k].lo <= files[k - 1].hi
    {
      b := b + 1;
    }
  }

  /** Adds the files from a to b, unless one is being compacted. */
  method AddFiles(files: seq<File>, a: nat, b: nat, t: set<nat>, busy: set<nat>) returns (ok: bool, wider: set<nat>)
    requires a <= b <= |files|
    ensures ok ==> wider == t + IdsOf(files, a, b) && IdsOf(files, a, b) !! busy
    ensures !ok ==> exists k :: a <= k < b && files[k].id in busy
  {
    wider := t;
    for f := a to b
      invariant wider == t + IdsOf(files, a, f) && IdsOf(files, a, f) !! busy
    {
      if files[f].id in busy { return false, wider; }
      wider := wider + {files[f].id};
      assert IdsOf(files, a, f + 1) == IdsOf(files, a, f) + {files[f].id};
    }
    ok := true;
  }

  function Meeting(files: seq<File>, lo: int, hi: int): set<nat> {
    set k | 0 <= k < |files| && Overlaps(files[k], lo, hi) :: files[k].id
  }

  /** Adds the files of a level that meet the range, unless one is being compacted. */
  method AddMeeting(files: seq<File>, lo: int, hi: int, t: set<nat>, busy: set<nat>) returns (ok: bool, wider: set<nat>)
    requires lo <= hi && forall k :: 0 <= k < |files| ==> files[k].lo <= files[k].hi
    ensures ok ==> wider == t + Meeting(files, lo, hi) && Meeting(files, lo, hi) !! busy
    ensures !ok ==> exists k :: 0 <= k < |files| && Overlaps(files[k], lo, hi) && files[k].id in busy
  {
    wider := t;
    assert files[..0] == [];
    for f := 0 to |files|
      invariant wider == t + Meeting(files[..f], lo, hi) && Meeting(files[..f], lo, hi) !! busy
    {
      var range := File(0, lo, hi, 0);
      OverlapTestIsExact(range, files[f]);
      assert Meeting(files[..f + 1], lo, hi)
          == Meeting(files[..f], lo, hi) + (if Overlaps(files[f], lo, hi) then {files[f].id} else {}) by { MeetingGrows(files, f, lo, hi); }
      if HaveOverlappingKeyRanges(range, files[f]) {
        if files[f].id in busy { return false, wider; }
        wider := wider + {files[f].id};
      }
    }
    assert files[..|files|] == files;
    ok := true;
  }

  lemma MeetingGrows(files: seq<File>, f: nat, lo: int, hi: int)
    requires f < |files|
    ensures Meeting(files[..f + 1], lo, hi)
         == Meeting(files[..f], lo, hi) + (if Overlaps(files[f], lo, hi) then {files[f].id} else {})
  {
    var x, y := files[..f + 1], files[..f];
    assert x[f] == files[f] && forall k :: 0 <= k < f ==> x[k] == y[k] == files[k];
    forall id | id in Meeting(x, lo, hi)
      ensures id in Meeting(y, lo, hi) + (if Overlaps(files[f], lo, hi) then {files[f].id} else {})
    {
      var k :| 0 <= k < |x| && Overlaps(x[k], lo, hi) && x[k].id == id;
      if k < f { assert y[k].id == id; }
    }
    forall id | id in Meeting(y, lo, hi) ensures id in Meeting(x, lo, hi) {
      var k :| 0 <= k < |y| && Overlaps(y[k], lo, hi) && y[k].id == id;
      assert x[k].id == id;
    }
  }

  // ---- All levels ----

  // The range of the files of t in the levels before l.
  ghost predicate RangeIs(levels: seq<seq<File>>, t: set<nat>, l: nat, started: bool, lo: int, hi: int) {
    && (!started ==> forall a: nat, i: nat :: a < l ==> !In(levels, t, a, i))
    && (started ==> && l > 0 && lo <= hi && BeginsBy(levels, t, l - 1, lo) && EndsFrom(levels, t, l - 1, hi)
                    && forall a: nat, i: nat :: a < l && In(levels, t, a, i) ==> lo <= levels[a][i].lo && levels[a][i].hi <= hi)
  }

  // All files from level l on that meet the range are in t.
  ghost predicate Ahead(levels: seq<seq<File>>, t: set<nat>, l: nat, output: nat, lo: int, hi: int) {
    forall m: nat, k: nat :: l <= m <= output && At(levels, m, k) && Overlaps(levels[m][k], lo, hi) ==> In(levels, t, m, k)
  }

  // t is closed as far as the levels before l are concerned.
  ghost predicate ClosedBefore(levels: seq<seq<File>>, t: set<nat>, l: nat, output: nat) {
    && (forall m: nat, k: nat :: m < l && MeetsSet(levels, t, m, k) ==> In(levels, t, m, k))
    && (l > 0 ==> forall k: nat :: FollowsInLevel0(levels, t, output, k) ==> In(levels, t, 0, k))
  }

  // Every closed set that has the files asked for has those of t.
  ghost predicate Forced(levels: seq<seq<File>>, asked: set<nat>, t: set<nat>, output: nat) {
    forall c: set<nat> :: asked <= c && Closed(levels, c, output) ==> t <= c
  }

  // None of the files of t in the levels before l is being compacted.
  ghost predicate Idle(levels: seq<seq<File>>, t: set<nat>, l: nat, busy: set<nat>) {
    forall a: nat, i: nat :: a < l && In(levels, t, a, i) ==> levels[a][i].id !in busy
  }

  // Every closed set that has the files asked for has one that is being compacted.
  ghost predicate Impossible(levels: seq<seq<File>>, asked: set<nat>, output: nat, busy: set<nat>) {
    forall c: set<nat> :: asked <= c && Closed(levels, c, output) ==> !(c !! busy)
  }

  lemma BeginsByMore(levels: seq<seq<File>>, t: set<nat>, c: set<nat>, m: nat, m': nat, key: int, key': int)
    requires t <= c && m <= m'
    ensures BeginsBy(levels, t, m, key) && key <= key' ==> BeginsBy(levels, c, m', key')
    ensures EndsFrom(levels, t, m, key) && key' <= key ==> EndsFrom(levels, c, m', key')
  {
    if BeginsBy(levels, t, m, key) && key <= key' {
      var l: nat, i: nat :| In(levels, t, l, i) && l <= m && levels[l][i].lo <= key;
      assert In(levels, c, l, i);
    }
    if EndsFrom(levels, t, m, key) && key' <= key {
      var l: nat, i: nat :| In(levels, t, l, i) && l <= m && levels[l][i].hi >= key;
      assert In(levels, c, l, i);
    }
  }

  // A file that meets the range of t up to level l is in every closed set around t.
  lemma MeetingIsForced(levels: seq<seq<File>>, t: set<nat>, c: set<nat>, l: nat, output: nat, lo: int, hi: int, m: nat, k: nat)
    requires t <= c && Closed(levels, c, output) && l <= m <= output && 1 <= m && At(levels, m, k)
    requires BeginsBy(levels, t, l, lo) && EndsFrom(levels, t, l, hi) && Overlaps(levels[m][k], lo, hi)
    ensures In(levels, c, m, k)
  {
    hide BeginsBy, EndsFrom;
    BeginsByMore(levels, t, c, l, m, lo, levels[m][k].hi);
    BeginsByMore(levels, t, c, l, m, hi, levels[m][k].lo);
    assert MeetsSet(levels, c, m, k);
  }

  // Level 0 is not searched by range.
  function Deeper(l: nat): nat {
    if l == 0 then 1 else l
  }

  // The file with this id is in a level from `from` up to before `to` and meets the range.
  ghost predicate FromMeeting(levels: seq<seq<File>>, from: nat, to: nat, lo: int, hi: int, id: nat) {
    exists m: nat, k: nat :: At(levels, m, k) && from <= m < to && Overlaps(levels[m][k], lo, hi) && levels[m][k].id == id
  }

  // `wider` is t and the files that meet the range, in these levels.
  ghost predicate MeetingAdded(levels: seq<seq<File>>, t: set<nat>, wider: set<nat>, from: nat, to: nat, lo: int, hi: int) {
    && t <= wider
    && (forall m: nat, k: nat :: At(levels, m, k) && from <= m < to && Overlaps(levels[m][k], lo, hi) ==> In(levels, wider, m, k))
    && (forall id: nat :: id in wider ==> id in t || FromMeeting(levels, from, to, lo, hi, id))
  }

  /** The files of all deeper levels that meet the range. */
  method AddAllMeeting(levels: seq<seq<File>>, from: nat, output: nat, lo: int, hi: int, t: set<nat>, busy: set<nat>)
    returns (ok: bool, wider: set<nat>)
    requires LevelsSorted(levels) && from <= output + 1 <= |levels| && lo <= hi
    ensures ok ==> MeetingAdded(levels, t, wider, from, output + 1, lo, hi)
    ensures ok ==> (forall id: nat :: id in wider && id !in t ==> id !in busy)
    ensures !ok ==> exists m: nat, k: nat :: At(levels, m, k) && from <= m <= output && Overlaps(levels[m][k], lo, hi) && levels[m][k].id in busy
  {
    wider := t;
    for m := from to output + 1
      invariant MeetingAdded(levels, t, wider, from, m, lo, hi) && (forall id: nat :: id in wider && id !in t ==> id !in busy)
    {
      var before := wider;
      ok, wider := AddMeeting(levels[m], lo, hi, before, busy);
      if !ok {
        var k: nat :| k < |levels[m]| && Overlaps(levels[m][k], lo, hi) && levels[m][k].id in busy;
        assert At(levels, m, k);
        return;
      }
      LevelAdded(levels, t, before, wider, from, m, lo, hi);
    }
    ok := true;
  }

  lemma LevelAdded(levels: seq<seq<File>>, t: set<nat>, before: set<nat>, wider: set<nat>, from: nat, m: nat, lo: int, hi: int)
    requires MeetingAdded(levels, t, before, from, m, lo, hi) && from <= m < |levels|
    requires wider == before + Meeting(levels[m], lo, hi)
    ensures MeetingAdded(levels, t, wider, from, m + 1, lo, hi)
  {
    forall x: nat, k: nat | At(levels, x, k) && from <= x < m + 1 && Overlaps(levels[x][k], lo, hi) ensures In(levels, wider, x, k) {
      if x < m { assert In(levels, before, x, k); } else { assert levels[m][k].id in Meeting(levels[m], lo, hi); }
    }
    forall id: nat | id in wider ensures id in t || FromMeeting(levels, from, m + 1, lo, hi, id) {
      if id in before {
        if id !in t {
          var x: nat, k: nat :| At(levels, x, k) && from <= x < m && Overlaps(levels[x][k], lo, hi) && levels[x][k].id == id;
        }
      } else {
        var k: nat :| k < |levels[m]| && Overlaps(levels[m][k], lo, hi) && levels[m][k].id == id;
        assert At(levels, m, k);
      }
    }
  }

  // ---- What one level contributes ----

  // Level l gave its files from a to b, and then all files from there on that meet the range were added.
  ghost predicate Processed(levels: seq<seq<File>>, t: set<nat>, wider: set<nat>, l: nat, a: nat, b: nat, output: nat, lo: int, hi: int) {
    && l < |levels| && a < b <= |levels[l]|
    && MeetingAdded(levels, t + IdsOf(levels[l], a, b), wider, Deeper(l), output + 1, lo, hi)
    && forall k: nat :: In(levels, t, l, k) ==> a <= k < b
  }

  lemma SameBefore(levels: seq<seq<File>>, t: set<nat>, wider: set<nat>, l: nat, a: nat, b: nat, output: nat, lo: int, hi: int, x: nat, i: nat)
    requires UniqueIds(levels) && Processed(levels, t, wider, l, a, b, output, lo, hi) && x < l
    ensures In(levels, wider, x, i) <==> In(levels, t, x, i)
  {
    if At(levels, x, i) {
      var id := levels[x][i].id;
      assert id !in IdsOf(levels[l], a, b) by {
        forall k: nat | a <= k < b ensures levels[l][k].id != id { assert At(levels, l, k); }
      }
      assert !FromMeeting(levels, Deeper(l), output + 1, lo, hi, id);
    }
  }

  // What is included in level l afterwards.
  lemma IncludedHere(levels: seq<seq<File>>, t: set<nat>, wider: set<nat>, l: nat, a: nat, b: nat, output: nat, lo: int, hi: int, i: nat)
    requires UniqueIds(levels) && Processed(levels, t, wider, l, a, b, output, lo, hi) && In(levels, wider, l, i)
    ensures a <= i < b || (l > 0 && Overlaps(levels[l][i], lo, hi))
  {
    var id := levels[l][i].id;
    assert At(levels, l, i);
    if id in t {
      assert In(levels, t, l, i);
    } else if id in IdsOf(levels[l], a, b) {
      var k: nat :| a <= k < b && levels[l][k].id == id;
      assert At(levels, l, k);
    } else {
      var m: nat, k: nat :| At(levels, m, k) && Deeper(l) <= m < output + 1 && Overlaps(levels[m][k], lo, hi) && levels[m][k].id == id;
    }
  }

  // The range of the files from a to b and the range so far.
  ghost predicate RangeOfAll(files: seq<File>, a: nat, b: nat, started: bool, lo: int, hi: int, lo': int, hi': int)
    requires a < b <= |files|
  {
    && (forall k :: a <= k < b ==> lo' <= files[k].lo && files[k].hi <= hi')
    && (started ==> lo' <= lo && hi <= hi')
    && ((started && lo' == lo) || exists k :: a <= k < b && files[k].lo == lo')
    && ((started && hi' == hi) || exists k :: a <= k < b && files[k].hi == hi')
  }

  /** A file of level l that meets the range and is not among those from a to b lies inside the range:
      what meets the range so far had been included before. */
  lemma SideFileIsInside(files: seq<File>, a: nat, b: nat, started: bool, lo: int, hi: int, lo': int, hi': int, i: nat)
    requires SortedLevel(files) && CleanCut(files, a, b) && RangeOfAll(files, a, b, started, lo, hi, lo', hi') && i < |files|
    requires started ==> lo <= hi && (Overlaps(files[i], lo, hi) ==> a <= i < b)
    requires Overlaps(files[i], lo', hi')
    ensures lo' <= files[i].lo && files[i].hi <= hi'
  {
    if i < a {
      SortedEnds(files, i, a - 1);
      forall k | a <= k < b ensures files[i].hi < files[k].lo { SortedEnds(files, a, k); }
    } else if i >= b {
      SortedEnds(files, b, i);
      forall k | a <= k < b ensures files[k].hi < files[i].lo { SortedEnds(files, k, b - 1); }
    }
  }

  // What is known before level l is processed, of the files included so far.
  ghost predicate Progress(levels: seq<seq<File>>, t: set<nat>, l: nat, output: nat, started: bool, lo: int, hi: int) {
    && RangeIs(levels, t, l, started, lo, hi)
    && (started ==> Ahead(levels, t, Deeper(l), output, lo, hi))
    && ClosedBefore(levels, t, l, output)
  }

  lemma RangeAfter(levels: seq<seq<File>>, t: set<nat>, wider: set<nat>, l: nat, a: nat, b: nat, output: nat, started: bool, lo: int, hi: int, lo': int, hi': int)
    requires UniqueIds(levels) && LevelsSorted(levels) && l <= output && Processed(levels, t, wider, l, a, b, output, lo', hi')
    requires Progress(levels, t, l, output, started, lo, hi) && RangeOfAll(levels[l], a, b, started, lo, hi, lo', hi')
    requires l > 0 ==> CleanCut(levels[l], a, b)
    ensures RangeIs(levels, wider, l + 1, true, lo', hi')
  {
    forall x: nat, i: nat | x < l + 1 && In(levels, wider, x, i) ensures lo' <= levels[x][i].lo && levels[x][i].hi <= hi' {
      if x < l {
        SameBefore(levels, t, wider, l, a, b, output, lo', hi', x, i);
        assert In(levels, t, x, i);
      } else {
        IncludedInside(levels, t, wider, l, a, b, output, started, lo, hi, lo', hi', i);
      }
    }
    RangeReached(levels, t, wider, l, a, b, output, started, lo, hi, lo', hi');
  }

  lemma IncludedInside(levels: seq<seq<File>>, t: set<nat>, wider: set<nat>, l: nat, a: nat, b: nat, output: nat, started: bool, lo: int, hi: int, lo': int, hi': int, i: nat)
    requires UniqueIds(levels) && LevelsSorted(levels) && l <= output && Processed(levels, t, wider, l, a, b, output, lo', hi')
    requires Progress(levels, t, l, output, started, lo, hi) && RangeOfAll(levels[l], a, b, started, lo, hi, lo', hi')
    requires (l > 0 ==> CleanCut(levels[l], a, b)) && In(levels, wider, l, i)
    ensures lo' <= levels[l][i].lo && levels[l][i].hi <= hi'
  {
    IncludedHere(levels, t, wider, l, a, b, output, lo', hi', i);
    if !(a <= i < b) {
      assert started && Overlaps(levels[l][i], lo, hi) ==> In(levels, t, l, i) by { assert At(levels, l, i); }
      SideFileIsInside(levels[l], a, b, started, lo, hi, lo', hi', i);
    }
  }

  lemma RangeReached(levels: seq<seq<File>>, t: set<nat>, wider: set<nat>, l: nat, a: nat, b: nat, output: nat, started: bool, lo: int, hi: int, lo': int, hi': int)
    requires LevelsSorted(levels) && Processed(levels, t, wider, l, a, b, output, lo', hi')
    requires RangeIs(levels, t, l, started, lo, hi) && RangeOfAll(levels[l], a, b, started, lo, hi, lo', hi')
    ensures lo' <= hi' && BeginsBy(levels, wider, l, lo') && EndsFrom(levels, wider, l, hi')
  {
    assert lo' <= levels[l][a].lo <= levels[l][a].hi <= hi';
    if started && l > 0 {
      BeginsByMore(levels, t, wider, l - 1, l, lo, lo');
      BeginsByMore(levels, t, wider, l - 1, l, hi, hi');
    }
    forall k: nat | a <= k < b ensures In(levels, wider, l, k) { assert levels[l][k].id in IdsOf(levels[l], a, b); }
  }

  lemma MeetsSame(levels: seq<seq<File>>, t: set<nat>, wider: set<nat>, m: nat, k: nat)
    requires forall x: nat, i: nat :: x <= m ==> (In(levels, wider, x, i) <==> In(levels, t, x, i))
    ensures MeetsSet(levels, wider, m, k) <==> MeetsSet(levels, t, m, k)
  {
  }

  lemma FollowsSame(levels: seq<seq<File>>, t: set<nat>, wider: set<nat>, output: nat, k: nat)
    requires forall i: nat :: In(levels, wider, 0, i) <==> In(levels, t, 0, i)
    ensures FollowsInLevel0(levels, wider, output, k) <==> FollowsInLevel0(levels, t, output, k)
  {
  }

  // What meets the files included up to level l meets their range.
  lemma MeetsRange(levels: seq<seq<File>>, t: set<nat>, l: nat, lo: int, hi: int, k: nat)
    requires RangeIs(levels, t, l + 1, true, lo, hi) && MeetsSet(levels, t, l, k)
    ensures Overlaps(levels[l][k], lo, hi)
  {
    var x: nat, i: nat :| In(levels, t, x, i) && x <= l && levels[x][i].lo <= levels[l][k].hi;
    var y: nat, j: nat :| In(levels, t, y, j) && y <= l && levels[y][j].hi >= levels[l][k].lo;
    assert lo <= levels[x][i].lo && levels[y][j].hi <= hi;
  }

  lemma Level0Follows(levels: seq<seq<File>>, t: set<nat>, wider: set<nat>, a: nat, b: nat, output: nat, lo: int, hi: int, k: nat)
    requires UniqueIds(levels) && Processed(levels, t, wider, 0, a, b, output, lo, hi) && (output > 0 ==> b == |levels[0]|)
    requires FollowsInLevel0(levels, wider, output, k)
    ensures In(levels, wider, 0, k)
  {
    var i: nat :| i <= k && In(levels, wider, 0, i);
    IncludedHere(levels, t, wider, 0, a, b, output, lo, hi, i);
    if output == 0 {
      var j: nat :| k <= j && In(levels, wider, 0, j);
      IncludedHere(levels, t, wider, 0, a, b, output, lo, hi, j);
    }
    assert levels[0][k].id in IdsOf(levels[0], a, b);
  }

  lemma ClosedAfter(levels: seq<seq<File>>, t: set<nat>, wider: set<nat>, l: nat, a: nat, b: nat, output: nat, lo: int, hi: int)
    requires UniqueIds(levels) && l <= output && Processed(levels, t, wider, l, a, b, output, lo, hi)
    requires ClosedBefore(levels, t, l, output) && RangeIs(levels, wider, l + 1, true, lo, hi)
    requires l == 0 && output > 0 ==> b == |levels[0]|
    ensures ClosedBefore(levels, wider, l + 1, output)
  {
    forall x: nat, i: nat | x < l ensures In(levels, wider, x, i) <==> In(levels, t, x, i) {
      SameBefore(levels, t, wider, l, a, b, output, lo, hi, x, i);
    }
    forall m: nat, k: nat | m < l + 1 && MeetsSet(levels, wider, m, k) ensures In(levels, wider, m, k) {
      if m < l {
        MeetsSame(levels, t, wider, m, k);
      } else {
        MeetsRange(levels, wider, l, lo, hi, k);
        assert At(levels, l, k);
      }
    }
    forall k: nat | FollowsInLevel0(levels, wider, output, k) ensures In(levels, wider, 0, k) {
      if l == 0 {
        Level0Follows(levels, t, wider, a, b, output, lo, hi, k);
      } else {
        FollowsSame(levels, t, wider, output, k);
      }
    }
  }

  lemma ProgressAfter(levels: seq<seq<File>>, t: set<nat>, wider: set<nat>, l: nat, a: nat, b: nat, output: nat, started: bool, lo: int, hi: int, lo': int, hi': int)
    requires UniqueIds(levels) && LevelsSorted(levels) && l <= output && Processed(levels, t, wider, l, a, b, output, lo', hi')
    requires Progress(levels, t, l, output, started, lo, hi) && RangeOfAll(levels[l], a, b, started, lo, hi, lo', hi')
    requires (l > 0 ==> CleanCut(levels[l], a, b)) && (l == 0 && output > 0 ==> b == |levels[0]|)
    ensures Progress(levels, wider, l + 1, output, true, lo', hi')
  {
    hide LevelsSorted, UniqueIds, RangeIs, RangeOfAll, CleanCut, ClosedBefore;
    RangeAfter(levels, t, wider, l, a, b, output, started, lo, hi, lo', hi');
    ClosedAfter(levels, t, wider, l, a, b, output, lo', hi');
  }

  lemma ProgressSkips(levels: seq<seq<File>>, t: set<nat>, l: nat, output: nat, started: bool, lo: int, hi: int)
    requires Progress(levels, t, l, output, started, lo, hi) && l <= output && forall i: nat :: !In(levels, t, l, i)
    ensures Progress(levels, t, l + 1, output, started, lo, hi)
  {
    if started {
      BeginsByMore(levels, t, t, l - 1, l, lo, lo);
      BeginsByMore(levels, t, t, l - 1, l, hi, hi);
    }
    assert RangeIs(levels, t, l + 1, started, lo, hi);
    forall m: nat, k: nat | m < l + 1 && MeetsSet(levels, t, m, k) ensures In(levels, t, m, k) {
      if m == l && started {
        MeetsRange(levels, t, l, lo, hi, k);
        assert At(levels, l, k);
      }
    }
  }

  // ---- Nothing is added without need ----

  lemma {:induction false} LeftIsForced(levels: seq<seq<File>>, c: set<nat>, l: nat, output: nat, first: nat, k: nat)
    requires LevelsSorted(levels) && Closed(levels, c, output) && 1 <= l <= output && k <= first && In(levels, c, l, first)
    requires forall i :: k <= i < first ==> levels[l][i].hi >= levels[l][i + 1].lo
    ensures In(levels, c, l, k)
    decreases first - k
  {
    if k < first {
      LeftIsForced(levels, c, l, output, first, k + 1);
      SortedEnds(levels[l], k, first);
      assert BeginsBy(levels, c, l, levels[l][k].hi) && EndsFrom(levels, c, l, levels[l][k].lo);
      assert MeetsSet(levels, c, l, k);
    }
  }

  lemma {:induction false} RightIsForced(levels: seq<seq<File>>, c: set<nat>, l: nat, output: nat, last: nat, k: nat)
    requires LevelsSorted(levels) && Closed(levels, c, output) && 1 <= l <= output && In(levels, c, l, last) && last <= k < |levels[l]|
    requires forall i :: last < i <= k ==> levels[l][i].lo <= levels[l][i - 1].hi
    ensures In(levels, c, l, k)
    decreases k - last
  {
    if last < k {
      RightIsForced(levels, c, l, output, last, k - 1);
      SortedEnds(levels[l], last, k);
      assert BeginsBy(levels, c, l, levels[l][k].hi) && EndsFrom(levels, c, l, levels[l][k].lo);
      assert MeetsSet(levels, c, l, k);
    }
  }

  lemma BetweenIsForced(levels: seq<seq<File>>, c: set<nat>, l: nat, output: nat, first: nat, last: nat, k: nat)
    requires LevelsSorted(levels) && Closed(levels, c, output) && 1 <= l <= output && In(levels, c, l, first) && In(levels, c, l, last)
    requires first <= k <= last
    ensures In(levels, c, l, k)
  {
    SortedEnds(levels[l], first, k);
    SortedEnds(levels[l], k, last);
    assert BeginsBy(levels, c, l, levels[l][k].hi) && EndsFrom(levels, c, l, levels[l][k].lo);
    assert MeetsSet(levels, c, l, k);
  }

  /** The files a level gives are in every closed set that has those included. */
  lemma GivenIsForced(levels: seq<seq<File>>, c: set<nat>, l: nat, output: nat, first: nat, last: nat, a: nat, b: nat, k: nat)
    requires LevelsSorted(levels) && Closed(levels, c, output) && l <= output && l < |levels| && a <= first <= last < b <= |levels[l]|
    requires In(levels, c, l, first) && In(levels, c, l, last) && a <= k < b
    requires l > 0 ==> forall i :: a <= i < first ==> levels[l][i].hi >= levels[l][i + 1].lo
    requires l > 0 ==> forall i :: last < i < b ==> levels[l][i].lo <= levels[l][i - 1].hi
    requires l == 0 ==> a == first && (output == 0 ==> b == last + 1)
    ensures In(levels, c, l, k)
  {
    if l == 0 {
      assert FollowsInLevel0(levels, c, output, k);
    } else if k < first {
      LeftIsForced(levels, c, l, output, first, k);
    } else if k > last {
      RightIsForced(levels, c, l, output, last, k);
    } else {
      BetweenIsForced(levels, c, l, output, first, last, k);
    }
  }

  // ---- The algorithm ----

  /** The key range so far, with the files from a to b. */
  method UpdateRange(files: seq<File>, level: nat, a: nat, b: nat, first: nat, started: bool, lo: int, hi: int) returns (lo': int, hi': int)
    requires a <= first < b <= |files| && (level > 0 ==> SortedLevel(files))
    ensures RangeOfAll(files, a, b, started, lo, hi, lo', hi')
  {
    lo' := if started then lo else files[first].lo;
    hi' := if started then hi else files[first].hi;
    if level == 0 {
      for f := a to b
        invariant forall k :: a <= k < f ==> lo' <= files[k].lo && files[k].hi <= hi'
        invariant started ==> lo' <= lo && hi <= hi'
        invariant (started && lo' == lo) || exists k :: a <= k < b && files[k].lo == lo'
        invariant (started && hi' == hi) || exists k :: a <= k < b && files[k].hi == hi'
      {
        if lo' > files[f].lo { lo' := files[f].lo; }
        if hi' < files[f].hi { hi' := files[f].hi; }
      }
    } else {
      forall k | a <= k < b ensures files[a].lo <= files[k].lo && files[k].hi <= files[b - 1].hi {
        SortedEnds(files, a, k);
        SortedEnds(files, k, b - 1);
      }
      if lo' > files[a].lo { lo' := files[a].lo; }
      if hi' < files[b - 1].hi { hi' := files[b - 1].hi; }
    }
  }

  // Every closed set that has the files asked for has the files of level l from a to b.
  ghost predicate Required(levels: seq<seq<File>>, asked: set<nat>, l: nat, output: nat, a: nat, b: nat)
    requires l < |levels|
  {
    forall c: set<nat> :: asked <= c && Closed(levels, c, output) ==> IdsOf(levels[l], a, b) <= c
  }

  /** Completes the files of t in level l: in level 0 by the older ones, if the output goes deeper, and
      below it by neighbours that share a user key. */
  method CompleteLevel(levels: seq<seq<File>>, l: nat, output: nat, first: nat, last: nat, t: set<nat>, ghost asked: set<nat>)
    returns (a: nat, b: nat)
    requires LevelsSorted(levels) && l <= output < |levels| && first <= last < |levels[l]|
    requires Forced(levels, asked, t, output) && In(levels, t, l, first) && In(levels, t, l, last)
    ensures a <= first <= last < b <= |levels[l]| && Required(levels, asked, l, output, a, b)
    ensures (l > 0 ==> CleanCut(levels[l], a, b)) && (l == 0 && output > 0 ==> b == |levels[0]|)
  {
    hide LevelsSorted, Forced, SortedLevel, Closed, In, IdsOf;
    a, b := first, last + 1;
    LevelIsSorted(levels, l);
    if l != 0 {
      a, b := Grow(levels[l], first, last);
    } else if output > 0 {
      b := |levels[0]|;
    }
    forall c: set<nat> | asked <= c && Closed(levels, c, output) ensures IdsOf(levels[l], a, b) <= c {
      GivenIdsForced(levels, asked, t, c, l, output, first, last, a, b);
    }
  }

  /** One level that has files of t: they are completed, and the files of this and deeper levels that
      meet the key range are added. */
  method ProcessLevel(levels: seq<seq<File>>, l: nat, output: nat, first: nat, last: nat, t: set<nat>, busy: set<nat>,
                      started: bool, lo: int, hi: int, ghost asked: set<nat>)
    returns (ok: bool, wider: set<nat>, lo': int, hi': int)
    requires LevelsSorted(levels) && UniqueIds(levels) && l <= output < |levels| && first <= last < |levels[l]|
    requires asked <= t && Progress(levels, t, l, output, started, lo, hi) && Forced(levels, asked, t, output) && Idle(levels, t, l, busy)
    requires In(levels, t, l, first) && In(levels, t, l, last) && forall k: nat :: In(levels, t, l, k) ==> first <= k <= last
    ensures ok ==> && t <= wider && Progress(levels, wider, l + 1, output, true, lo', hi') && Forced(levels, asked, wider, output)
                   && Idle(levels, wider, l + 1, busy)
    ensures !ok ==> Impossible(levels, asked, output, busy)
  {
    hide Progress, LevelsSorted, UniqueIds, Forced, Idle, Impossible, MeetingAdded, RangeOfAll, SortedLevel, Required, BeginsBy,
         EndsFrom, CleanCut, IdsOf;
    lo', hi' := lo, hi;
    LevelIsSorted(levels, l);
    var a, b := CompleteLevel(levels, l, output, first, last, t, asked);
    var given;
    ok, given := AddFiles(levels[l], a, b, t, busy);
    if !ok {
      BusyIsGiven(levels, asked, l, output, a, b, busy);
      return false, given, lo', hi';
    }
    lo', hi' := UpdateRange(levels[l], l, a, b, first, started, lo, hi);
    GivenRange(levels, t, given, l, output, a, b, started, lo, hi, lo', hi');
    GivenForced(levels, asked, t, given, l, output, a, b);
    ok, wider := AddAllMeeting(levels, Deeper(l), output, lo', hi', given, busy);
    if !ok {
      BusyIsMet(levels, asked, given, l, output, lo', hi', busy);
      return;
    }
    MetForced(levels, asked, given, wider, l, output, lo', hi');
    AddedContains(levels, given, wider, Deeper(l), output + 1, lo', hi');
    assert Processed(levels, t, wider, l, a, b, output, lo', hi');
    ProgressAfter(levels, t, wider, l, a, b, output, started, lo, hi, lo', hi');
    IdleAfter(levels, t, given, wider, l, a, b, output, lo', hi', busy);
  }

  lemma LevelIsSorted(levels: seq<seq<File>>, l: nat)
    requires LevelsSorted(levels) && l < |levels|
    ensures l > 0 ==> SortedLevel(levels[l])
  {
  }

  lemma AddedContains(levels: seq<seq<File>>, t: set<nat>, wider: set<nat>, from: nat, to: nat, lo: int, hi: int)
    requires MeetingAdded(levels, t, wider, from, to, lo, hi)
    ensures t <= wider
  {
  }

  lemma GivenIdsForced(levels: seq<seq<File>>, asked: set<nat>, t: set<nat>, c: set<nat>, l: nat, output: nat, first: nat, last: nat, a: nat, b: nat)
    requires LevelsSorted(levels) && Closed(levels, c, output) && asked <= c && Forced(levels, asked, t, output)
    requires l <= output && l < |levels| && a <= first <= last < b <= |levels[l]| && In(levels, t, l, first) && In(levels, t, l, last)
    requires l > 0 ==> forall i :: a <= i < first ==> levels[l][i].hi >= levels[l][i + 1].lo
    requires l > 0 ==> forall i :: last < i < b ==> levels[l][i].lo <= levels[l][i - 1].hi
    requires l == 0 ==> a == first && (output == 0 ==> b == last + 1)
    ensures IdsOf(levels[l], a, b) <= c
  {
    hide LevelsSorted, Closed;
    forall k: nat | a <= k < b ensures levels[l][k].id in c {
      GivenIsForced(levels, c, l, output, first, last, a, b, k);
    }
  }

  lemma BusyIsGiven(levels: seq<seq<File>>, asked: set<nat>, l: nat, output: nat, a: nat, b: nat, busy: set<nat>)
    requires l < |levels| && a <= b <= |levels[l]|
    requires Required(levels, asked, l, output, a, b)
    requires exists k :: a <= k < b && levels[l][k].id in busy
    ensures Impossible(levels, asked, output, busy)
  {
    hide Closed;
    var k :| a <= k < b && levels[l][k].id in busy;
    assert levels[l][k].id in IdsOf(levels[l], a, b);
  }

  lemma GivenForced(levels: seq<seq<File>>, asked: set<nat>, t: set<nat>, given: set<nat>, l: nat, output: nat, a: nat, b: nat)
    requires l < |levels| && Forced(levels, asked, t, output) && given == t + IdsOf(levels[l], a, b)
    requires Required(levels, asked, l, output, a, b)
    ensures Forced(levels, asked, given, output)
  {
    hide Closed;
  }

  lemma GivenRange(levels: seq<seq<File>>, t: set<nat>, given: set<nat>, l: nat, output: nat, a: nat, b: nat, started: bool, lo: int, hi: int, lo': int, hi': int)
    requires LevelsSorted(levels) && l < |levels| && a < b <= |levels[l]| && given == t + IdsOf(levels[l], a, b)
    requires Progress(levels, t, l, output, started, lo, hi) && RangeOfAll(levels[l], a, b, started, lo, hi, lo', hi')
    ensures lo' <= hi' && BeginsBy(levels, given, l, lo') && EndsFrom(levels, given, l, hi')
  {
    hide BeginsBy, EndsFrom;
    assert lo' <= levels[l][a].lo <= levels[l][a].hi <= hi';
    if started && lo' == lo {
      BeginsByMore(levels, t, given, l - 1, l, lo, lo');
    } else {
      var k: nat :| a <= k < b && levels[l][k].lo == lo';
      GivenBegins(levels, given, l, a, b, k);
    }
    if started && hi' == hi {
      BeginsByMore(levels, t, given, l - 1, l, hi, hi');
    } else {
      var k: nat :| a <= k < b && levels[l][k].hi == hi';
      GivenBegins(levels, given, l, a, b, k);
    }
  }

  lemma GivenBegins(levels: seq<seq<File>>, given: set<nat>, l: nat, a: nat, b: nat, k: nat)
    requires l < |levels| && a <= k < b <= |levels[l]| && IdsOf(levels[l], a, b) <= given
    ensures BeginsBy(levels, given, l, levels[l][k].lo) && EndsFrom(levels, given, l, levels[l][k].hi)
  {
    assert levels[l][k].id in IdsOf(levels[l], a, b);
    assert In(levels, given, l, k);
  }

  lemma BusyIsMet(levels: seq<seq<File>>, asked: set<nat>, given: set<nat>, l: nat, output: nat, lo: int, hi: int, busy: set<nat>)
    requires Forced(levels, asked, given, output) && l <= output
    requires BeginsBy(levels, given, l, lo) && EndsFrom(levels, given, l, hi)
    requires exists m: nat, k: nat :: At(levels, m, k) && Deeper(l) <= m <= output && Overlaps(levels[m][k], lo, hi) && levels[m][k].id in busy
    ensures Impossible(levels, asked, output, busy)
  {
    var m: nat, k: nat :| At(levels, m, k) && Deeper(l) <= m <= output && Overlaps(levels[m][k], lo, hi) && levels[m][k].id in busy;
    hide BeginsBy, EndsFrom, Closed;
    forall c: set<nat> | asked <= c && Closed(levels, c, output) ensures !(c !! busy) {
      MeetingIsForced(levels, given, c, l, output, lo, hi, m, k);
      assert levels[m][k].id in c * busy;
    }
  }

  lemma MetForced(levels: seq<seq<File>>, asked: set<nat>, given: set<nat>, wider: set<nat>, l: nat, output: nat, lo: int, hi: int)
    requires Forced(levels, asked, given, output) && l <= output && MeetingAdded(levels, given, wider, Deeper(l), output + 1, lo, hi)
    requires BeginsBy(levels, given, l, lo) && EndsFrom(levels, given, l, hi)
    ensures Forced(levels, asked, wider, output)
  {
    hide BeginsBy, EndsFrom, Closed;
    forall c: set<nat> | asked <= c && Closed(levels, c, output) ensures wider <= c {
      forall id | id in wider ensures id in c {
        if id !in given {
          var m: nat, k: nat :| At(levels, m, k) && Deeper(l) <= m < output + 1 && Overlaps(levels[m][k], lo, hi) && levels[m][k].id == id;
          MeetingIsForced(levels, given, c, l, output, lo, hi, m, k);
        }
      }
    }
  }

  lemma IdleAfter(levels: seq<seq<File>>, t: set<nat>, given: set<nat>, wider: set<nat>, l: nat, a: nat, b: nat, output: nat, lo: int, hi: int, busy: set<nat>)
    requires UniqueIds(levels) && Processed(levels, t, wider, l, a, b, output, lo, hi) && Idle(levels, t, l, busy)
    requires given == t + IdsOf(levels[l], a, b) && IdsOf(levels[l], a, b) !! busy && (forall id: nat :: id in wider && id !in given ==> id !in busy)
    ensures Idle(levels, wider, l + 1, busy)
  {
    forall x: nat, i: nat | x < l + 1 && In(levels, wider, x, i) ensures levels[x][i].id !in busy {
      var id := levels[x][i].id;
      if x < l {
        SameBefore(levels, t, wider, l, a, b, output, lo, hi, x, i);
        assert In(levels, t, x, i);
      } else if id in t {
        assert In(levels, t, l, i) && id in IdsOf(levels[l], a, b);
      }
    }
  }

  /** SanitizeCompactionInputFilesForAllLevels. OK means the result is the smallest closed set with the
      files asked for, and none of it is being compacted; an error means that every closed set with
      these files has one that is being compacted. */
  method SanitizeCompactionInputFilesForAllLevels(asked: set<nat>, levels: seq<seq<File>>, output: nat, busy: set<nat>)
    returns (ok: bool, t: set<nat>)
    requires LevelsSorted(levels) && UniqueIds(levels) && output < |levels|
    ensures ok ==> asked <= t && Closed(levels, t, output) && Forced(levels, asked, t, output) && Idle(levels, t, output + 1, busy)
    ensures !ok ==> Impossible(levels, asked, output, busy)
  {
    hide LevelsSorted, UniqueIds, Forced, Idle, Impossible, Progress;
    t := asked;
    var started, lo, hi := false, 0, 0;
    Start(levels, asked, output, busy);
    for l := 0 to output + 1
      invariant asked <= t && Progress(levels, t, l, output, started, lo, hi) && Forced(levels, asked, t, output)
      invariant Idle(levels, t, l, busy)
    {
      var first, last := FindIncluded(levels[l], t);
      if last == -1 {
        ProgressSkips(levels, t, l, output, started, lo, hi);
        IdleSkips(levels, t, l, busy);
        continue;
      }
      ok, t, lo, hi := ProcessLevel(levels, l, output, first, last, t, busy, started, lo, hi, asked);
      if !ok { return; }
      started := true;
    }
    ok := true;
    AllClosed(levels, t, output, started, lo, hi);
  }

  lemma Start(levels: seq<seq<File>>, asked: set<nat>, output: nat, busy: set<nat>)
    ensures Progress(levels, asked, 0, output, false, 0, 0) && Forced(levels, asked, asked, output) && Idle(levels, asked, 0, busy)
  {
  }

  lemma IdleSkips(levels: seq<seq<File>>, t: set<nat>, l: nat, busy: set<nat>)
    requires Idle(levels, t, l, busy) && forall i: nat :: !In(levels, t, l, i)
    ensures Idle(levels, t, l + 1, busy)
  {
  }

  lemma AllClosed(levels: seq<seq<File>>, t: set<nat>, output: nat, started: bool, lo: int, hi: int)
    requires Progress(levels, t, output + 1, output, started, lo, hi)
    ensures Closed(levels, t, output)
  {
  }
}
