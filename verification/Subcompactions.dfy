/**
 Splitting a compaction into subcompactions that each run the iterator over a range of user keys:
 how the boundaries are chosen, and that the pieces together do what one run would do.
 */
module Subcompactions {
  import opened Options
  import opened Records
  import opened CompactionRules
  import opened CompactionIteration
  import opened DeeperLevels
  import opened ReadPreservation
  import opened OutputShape
  import opened UnnotedOutput
  import opened SubcompactionBoundaries

  /** Where Seek leaves the input iterator; None is SeekToFirst. */
  function SeekPosition(input: seq<Record>, start: Option<UserKey>): (n: nat)
    ensures n <= |input|
    ensures start.None? ==> n == 0
    ensures start.Some? ==> forall i :: 0 <= i < n ==> input[i].key < start.value
    ensures start.Some? && n < |input| ==> input[n].key >= start.value
  {
    if start.None? || input == [] || input[0].key >= start.value then 0
    else 1 + SeekPosition(input[1..], start)
  }

  function TakeBelow(records: seq<Record>, end: Option<UserKey>): (r: seq<Record>) {
    if records == [] || (end.Some? && records[0].key >= end.value) then []
    else [records[0]] + TakeBelow(records[1..], end)
  }

  /** What the subcompaction of the range [start, end) writes. */
  function SubOutput(cfg: Config, input: seq<Record>, start: Option<UserKey>, end: Option<UserKey>): (out: seq<Record>) {
    TakeBelow(Output(cfg, START, input, SeekPosition(input, start)), end)
  }

  lemma {:induction false} TakeAll(records: seq<Record>)
    ensures TakeBelow(records, None) == records
  {
    if records != [] { TakeAll(records[1..]); }
  }

  lemma {:induction false} TakeBelowConcat(a: seq<Record>, b: seq<Record>, end: Option<UserKey>)
    requires AllBelow(a, end)
    ensures TakeBelow(a + b, end) == a + TakeBelow(b, end)
  {
    if a == [] {
      assert a + b == b;
    } else {
      assert (a + b)[1..] == a[1..] + b;
      TakeBelowConcat(a[1..], b, end);
    }
  }

  /** The key loop of a subcompaction. Without a range, every input record is written or counted
      as dropped. */
  method ProcessKeyValueCompaction(cfg: Config, input: seq<Record>, start: Option<UserKey>, end: Option<UserKey>)
    returns (out: seq<Record>, dropped: nat)
    requires cfg.Valid() && Sorted(input)
    ensures out == SubOutput(cfg, input, start, end)
    ensures start.None? && end.None? ==> out == Compact(cfg, input) && |out| + dropped == |input|
  {
    var iter := new CompactionIterator(cfg, input, SeekPosition(input, start));
    iter.SeekToFirst();
    ghost var all := iter.Remaining();
    out, dropped := Collect(iter, end);
    if start.None? && end.None? { TakeAll(all); }
  }

  method Collect(iter: CompactionIterator, end: Option<UserKey>) returns (out: seq<Record>, dropped: nat)
    requires iter.Valid() && (iter.valid ==> iter.returned)
    modifies iter, iter.levelPtrs
    ensures out == TakeBelow(old(iter.Remaining()), end)
    ensures end.None? ==>
              |out| + dropped - old(iter.Dropped()) == |iter.input| - old(if iter.valid then iter.NextPos() - 1 else |iter.input|)
  {
    hide Output, TakeBelow, PtrsBehind, Sorted, LevelsSorted, AllBelow;
    out := [];
    NoneBelow(end);
    ghost var rest := iter.Remaining();
    ghost var begin := if iter.valid then iter.NextPos() - 1 else |iter.input|;
    while iter.valid
      invariant iter.Valid() && (iter.valid ==> iter.returned)
      invariant rest == iter.Remaining() && old(iter.Remaining()) == out + rest
      invariant AllBelow(out, end)
      invariant |out| + iter.Dropped() - old(iter.Dropped()) == (if iter.valid then iter.NextPos() - 1 else |iter.input|) - begin
      decreases |rest|
    {
      if end.Some? && iter.current.key >= end.value {
        break;
      }
      BelowStill(out, iter.current, rest, end);
      out := out + [iter.current];
      iter.Next();
      rest := rest[1..];
    }
    CollectedBelow(old(iter.Remaining()), out, rest, end);
    dropped := iter.Dropped();
  }

  predicate AllBelow(records: seq<Record>, end: Option<UserKey>) {
    forall i :: 0 <= i < |records| ==> end.None? || records[i].key < end.value
  }

  lemma NoneBelow(end: Option<UserKey>)
    ensures AllBelow([], end)
  {
  }

  lemma BelowStill(out: seq<Record>, r: Record, rest: seq<Record>, end: Option<UserKey>)
    requires AllBelow(out, end) && (end.None? || r.key < end.value) && rest != [] && rest[0] == r
    ensures AllBelow(out + [r], end) && out + rest == out + [r] + rest[1..]
  {
  }

  lemma CollectedBelow(all: seq<Record>, out: seq<Record>, rest: seq<Record>, end: Option<UserKey>)
    requires all == out + rest && AllBelow(out, end)
    requires rest == [] || (end.Some? && rest[0].key >= end.value)
    ensures TakeBelow(all, end) == out
  {
    TakeBelowConcat(out, rest, end);
  }

  /** All subcompactions one after the other, the first starting at `start`. */
  function SplitOutput(cfg: Config, input: seq<Record>, start: Option<UserKey>, boundaries: seq<UserKey>): (out: seq<Record>)
    decreases |boundaries|
  {
    if boundaries == [] then SubOutput(cfg, input, start, None)
    else SubOutput(cfg, input, start, Some(boundaries[0])) + SplitOutput(cfg, input, Some(boundaries[0]), boundaries[1..])
  }

  predicate StartsBefore(start: Option<UserKey>, boundaries: seq<UserKey>) {
    start.Some? && boundaries != [] ==> start.value < boundaries[0]
  }

  lemma SeekIsBoundary(input: seq<Record>, start: Option<UserKey>)
    requires Sorted(input)
    ensures KeyBoundary(input, SeekPosition(input, start))
    ensures forall j :: SeekPosition(input, start) <= j < |input| && start.Some? ==> input[j].key >= start.value
  {
    var n := SeekPosition(input, start);
    forall j | n <= j < |input| && start.Some? ensures input[j].key >= start.value {
      if n < j { assert Before(input[n], input[j]); }
    }
  }

  lemma SeekLater(input: seq<Record>, start: Option<UserKey>, b: UserKey)
    requires Sorted(input) && (start.Some? ==> start.value < b)
    ensures SeekPosition(input, start) <= SeekPosition(input, Some(b))
  {
    SeekIsBoundary(input, Some(b));
  }

  /** A run splits at a boundary into what the first subcompaction writes and a run from there. */
  lemma CutAtBoundary(cfg: Config, input: seq<Record>, start: Option<UserKey>, b: UserKey) returns (reached: Scan)
    requires Sorted(input) && (start.Some? ==> start.value < b)
    ensures var i := SeekPosition(input, Some(b));
            && Fresh(cfg, reached, input, i) && reached.returned == (SubOutput(cfg, input, start, Some(b)) != [])
            && Output(cfg, START, input, SeekPosition(input, start))
               == SubOutput(cfg, input, start, Some(b)) + Output(cfg, reached, input, i)
    ensures AllBelow(SubOutput(cfg, input, start, Some(b)), Some(b))
  {
    var p, i := SeekPosition(input, start), SeekPosition(input, Some(b));
    SeekIsBoundary(input, Some(b));
    SeekLater(input, start, b);
    var prefix;
    prefix, reached := SplitAtKey(cfg, START, input, p, i);
    forall n | 0 <= n < |prefix| ensures prefix[n].key < b {
      assert KeyIn(input, p, i, prefix[n].key);
    }
    var tail := Output(cfg, reached, input, i);
    TakeBelowConcat(prefix, tail, Some(b));
    TailStartsAtBoundary(cfg, reached, input, b);
    assert prefix + [] == prefix;
  }

  predicate AllFrom(records: seq<Record>, low: UserKey) {
    forall i :: 0 <= i < |records| ==> records[i].key >= low
  }

  lemma TailStartsAtBoundary(cfg: Config, scan: Scan, input: seq<Record>, b: UserKey)
    requires Sorted(input)
    ensures var tail := Output(cfg, scan, input, SeekPosition(input, Some(b)));
            TakeBelow(tail, Some(b)) == [] && AllFrom(tail, b)
  {
    var i := SeekPosition(input, Some(b));
    var tail := Output(cfg, scan, input, i);
    SeekIsBoundary(input, Some(b));
    forall n | 0 <= n < |tail| ensures tail[n].key >= b {
      OutputComesFromInput(cfg, scan, input, i, n);
    }
  }

  /** At boundary b the split loses track: the range before it, from `start`, outputs something, and the
      key of the first record output from b on meets a pair that is kept because the key was not noted. */
  predicate LosesTrack(cfg: Config, input: seq<Record>, start: Option<UserKey>, b: UserKey) {
    SubOutput(cfg, input, start, Some(b)) != [] && FirstMeetsPair(cfg, START, input, SeekPosition(input, Some(b)))
  }

  /** How many boundaries do. */
  function LostTracks(cfg: Config, input: seq<Record>, start: Option<UserKey>, boundaries: seq<UserKey>): nat
    decreases |boundaries|
  {
    if boundaries == [] then 0
    else (if LosesTrack(cfg, input, start, boundaries[0]) then 1 else 0)
         + LostTracks(cfg, input, Some(boundaries[0]), boundaries[1..])
  }

  // A run from a boundary, and the subcompaction's run from it.
  lemma RunFromBoundary(cfg: Config, input: seq<Record>, b: UserKey, reached: Scan)
    requires cfg.Valid() && Sorted(input) && Fresh(cfg, reached, input, SeekPosition(input, Some(b)))
    ensures var i := SeekPosition(input, Some(b));
            if reached.returned && FirstMeetsPair(cfg, START, input, i)
            then |Output(cfg, START, input, i)| == |Output(cfg, reached, input, i)| + 2
            else Output(cfg, START, input, i) == Output(cfg, reached, input, i)
  {
    hide Output, FirstMeetsPair;
    var i := SeekPosition(input, Some(b));
    SameAtNewKey(cfg, reached, START.(returned := reached.returned), input, i);
    if reached.returned { UnnotedDiffers(cfg, START.(returned := true), START, input, i); }
  }

  /** The subcompactions write the records of one run, and two more for every boundary at which the split
      loses track; so they write the same if and only if it never does. */
  lemma {:induction false} SplitEqualsWhole(cfg: Config, input: seq<Record>, start: Option<UserKey>, boundaries: seq<UserKey>)
    requires cfg.Valid() && Sorted(input) && Increasing(boundaries) && StartsBefore(start, boundaries)
    ensures var split, whole := SplitOutput(cfg, input, start, boundaries), Output(cfg, START, input, SeekPosition(input, start));
            && |split| == |whole| + 2 * LostTracks(cfg, input, start, boundaries)
            && (split == whole <==> LostTracks(cfg, input, start, boundaries) == 0)
    decreases |boundaries|
  {
    hide Output, FirstMeetsPair, TakeBelow, SeekPosition;
    if boundaries == [] {
      TakeAll(Output(cfg, START, input, SeekPosition(input, start)));
    } else {
      var b := boundaries[0];
      var reached := CutAtBoundary(cfg, input, start, b);
      RunFromBoundary(cfg, input, b, reached);
      SplitEqualsWhole(cfg, input, Some(b), boundaries[1..]);
    }
  }

  /** It never does if there is no pair of a SingleDelete and a version below it, written after the
      write-conflict snapshot and seen by the same readers; in particular without SingleDelete. */
  lemma {:induction false} NeverLosesTrack(cfg: Config, input: seq<Record>, start: Option<UserKey>, boundaries: seq<UserKey>)
    requires forall m: nat :: !KeptPair(cfg, input, m)
    ensures LostTracks(cfg, input, start, boundaries) == 0
    decreases |boundaries|
  {
    if boundaries != [] {
      NoPairNoDifference(cfg, START, input, SeekPosition(input, Some(boundaries[0])));
      NeverLosesTrack(cfg, input, Some(boundaries[0]), boundaries[1..]);
    }
  }

  predicate NoSingleDeleteFrom(input: seq<Record>, i: nat) {
    forall j :: i <= j < |input| ==> input[j].kind != SingleDelete
  }

  // A compaction of two keys to level 1; the second has a SingleDelete with its Put below a newer Put.
  const EXAMPLE_CFG := Config([3], 3, Some(Compaction(false, true, 1, [[], [], []], 1, 2, false, false)), 0)
  const EXAMPLE := [Record(1, 9, Put, "a"), Record(2, 8, Put, "b"), Record(2, 7, SingleDelete, ""), Record(2, 6, Put, "c")]

  lemma ExampleIsValid()
    ensures ValidInput(EXAMPLE_CFG, EXAMPLE)
  {
    assert EXAMPLE[0] == Record(1, 9, Put, "a");
  }

  /** Split at the second key, the pair is kept that one whole run drops. */
  lemma SplitWithSingleDeleteDiffers()
    ensures ValidInput(EXAMPLE_CFG, EXAMPLE)
    ensures Compact(EXAMPLE_CFG, EXAMPLE) == [EXAMPLE[0], EXAMPLE[1]]
    ensures SplitOutput(EXAMPLE_CFG, EXAMPLE, None, [2]) == [EXAMPLE[0], EXAMPLE[1], EXAMPLE[2], Record(2, 6, Put, "")]
  {
    hide Output, Compact, Step, SubOutput, ValidInput;
    ExampleIsValid();
    WholeRunDropsPair(EXAMPLE_CFG, EXAMPLE);
    FirstPiece();
    SecondPiece();
    assert [2][1..] == [];
  }

  lemma FirstPiece()
    ensures SubOutput(EXAMPLE_CFG, EXAMPLE, None, Some(2)) == [EXAMPLE[0]]
  {
    hide Output, Step;
    WholeRunDropsPair(EXAMPLE_CFG, EXAMPLE);
    var out := [EXAMPLE[0], EXAMPLE[1]];
    assert out[1..] == [EXAMPLE[1]];
    assert TakeBelow([EXAMPLE[1]], Some(2)) == [];
    assert TakeBelow(out, Some(2)) == [EXAMPLE[0]] + [];
  }

  lemma SecondPiece()
    ensures SubOutput(EXAMPLE_CFG, EXAMPLE, Some(2), None) == [EXAMPLE[1], EXAMPLE[2], Record(2, 6, Put, "")]
  {
    hide Output, Step;
    SecondHalfKeepsPair(EXAMPLE_CFG, EXAMPLE);
    assert EXAMPLE[1..][0] == EXAMPLE[1];
    TakeAll(Output(EXAMPLE_CFG, START, EXAMPLE, 1));
  }

  lemma WholeRunDropsPair(cfg: Config, input: seq<Record>)
    requires cfg == EXAMPLE_CFG && input == EXAMPLE
    ensures Compact(cfg, input) == [input[0], input[1]]
  {
    var s1 := Step(cfg, START, input, 0);
    assert s1.emitted == Some(input[0]) && s1.next == 1;
    var s2 := Step(cfg, s1.scan, input, 1);
    assert s2.emitted == Some(input[1]) && s2.next == 2 && s2.scan.outputtedKey;
    var s3 := Step(cfg, s2.scan, input, 2);
    assert s3.emitted.None? && s3.next == 4;
    assert Output(cfg, s2.scan, input, 2) == Output(cfg, s3.scan, input, 4) == [];
    assert Output(cfg, s1.scan, input, 1) == [input[1]];
  }

  lemma SecondHalfKeepsPair(cfg: Config, input: seq<Record>)
    requires cfg == EXAMPLE_CFG && input == EXAMPLE
    ensures Output(cfg, START, input, 1) == [input[1], input[2], Record(2, 6, Put, "")]
  {
    var s2 := Step(cfg, START, input, 1);
    assert s2.emitted == Some(input[1]) && s2.next == 2 && !s2.scan.outputtedKey;
    var s3 := Step(cfg, s2.scan, input, 2);
    assert s3.emitted == Some(input[2]) && s3.next == 3 && s3.scan.clearNext;
    var s4 := Step(cfg, s3.scan, input, 3);
    assert s4.emitted == Some(Record(2, 6, Put, "")) && s4.next == 4;
    assert Output(cfg, s3.scan, input, 3) == [Record(2, 6, Put, "")] + Output(cfg, s4.scan, input, 4);
    assert Output(cfg, s2.scan, input, 2) == [input[2]] + Output(cfg, s3.scan, input, 3);
  }

  /** SingleDelete or not, the subcompactions together preserve every read. */
  lemma {:induction false} SplitPreservesReads(cfg: Config, input: seq<Record>, start: Option<UserKey>, boundaries: seq<UserKey>,
                                               deeper: seq<Record>, key: UserKey, s: SeqNo)
    requires ValidInput(cfg, input) && cfg.Live(s) && DeeperAgrees(cfg, deeper, key)
    requires Disciplined(input[SeekPosition(input, start)..], deeper, key)
    requires Increasing(boundaries) && StartsBefore(start, boundaries) && (start.Some? ==> start.value <= key)
    ensures Read(SplitOutput(cfg, input, start, boundaries) + deeper, key, s)
            == Read(input[SeekPosition(input, start)..] + deeper, key, s)
    decreases |boundaries|
  {
    if boundaries == [] {
      TakeAll(Output(cfg, START, input, SeekPosition(input, start)));
      RunFromBoundaryPreservesReads(cfg, input, start, deeper, key, s);
    } else if key < boundaries[0] {
      RunFromBoundaryPreservesReads(cfg, input, start, deeper, key, s);
      ReadInFirstPiece(cfg, input, start, boundaries, deeper, key, s);
    } else {
      var b := boundaries[0];
      SeekLater(input, start, b);
      DisciplinedTail(input, SeekPosition(input, start), SeekPosition(input, Some(b)), deeper, key);
      SplitPreservesReads(cfg, input, Some(b), boundaries[1..], deeper, key, s);
      ReadAfterFirstPiece(cfg, input, start, boundaries, deeper, key, s);
    }
  }

  lemma RunFromBoundaryPreservesReads(cfg: Config, input: seq<Record>, start: Option<UserKey>,
                                      deeper: seq<Record>, key: UserKey, s: SeqNo)
    requires ValidInput(cfg, input) && cfg.Live(s) && DeeperAgrees(cfg, deeper, key)
    requires Disciplined(input[SeekPosition(input, start)..], deeper, key) && (start.Some? ==> start.value <= key)
    ensures var p := SeekPosition(input, start);
            Read(Output(cfg, START, input, p) + deeper, key, s) == Read(input[p..] + deeper, key, s)
  {
    SeekIsBoundary(input, start);
    SeekStartsUnanswered(input, start, key);
    ReadsPreservedFrom(cfg, START, input, SeekPosition(input, start), deeper, key, s);
  }

  lemma ReadInFirstPiece(cfg: Config, input: seq<Record>, start: Option<UserKey>, boundaries: seq<UserKey>,
                         deeper: seq<Record>, key: UserKey, s: SeqNo)
    requires Sorted(input) && Increasing(boundaries) && StartsBefore(start, boundaries)
    requires boundaries != [] && key < boundaries[0]
    ensures Visible(SplitOutput(cfg, input, start, boundaries) + deeper, key, s)
            == Visible(Output(cfg, START, input, SeekPosition(input, start)) + deeper, key, s)
  {
    var b := boundaries[0];
    var reached := CutAtBoundary(cfg, input, start, b);
    var sub, rest := SubOutput(cfg, input, start, Some(b)), SplitOutput(cfg, input, Some(b), boundaries[1..]);
    RestAboveBoundary(cfg, input, b, boundaries[1..]);
    TailStartsAtBoundary(cfg, reached, input, b);
    ReadSkipsMiddle(sub, rest, deeper, key, s, b);
    ReadSkipsMiddle(sub, Output(cfg, reached, input, SeekPosition(input, Some(b))), deeper, key, s, b);
  }

  lemma ReadAfterFirstPiece(cfg: Config, input: seq<Record>, start: Option<UserKey>, boundaries: seq<UserKey>,
                            deeper: seq<Record>, key: UserKey, s: SeqNo)
    requires Sorted(input) && Increasing(boundaries) && StartsBefore(start, boundaries)
    requires boundaries != [] && key >= boundaries[0]
    ensures Visible(SplitOutput(cfg, input, start, boundaries) + deeper, key, s)
            == Visible(SplitOutput(cfg, input, Some(boundaries[0]), boundaries[1..]) + deeper, key, s)
    ensures Visible(input[SeekPosition(input, start)..] + deeper, key, s)
            == Visible(input[SeekPosition(input, Some(boundaries[0]))..] + deeper, key, s)
  {
    hide Output, TakeBelow, SeekPosition, Sorted, Visible;
    var b := boundaries[0];
    SeekLater(input, start, b);
    PassOver(input, SeekPosition(input, start), SeekPosition(input, Some(b)), deeper, key, s);
    var reached := CutAtBoundary(cfg, input, start, b);
    var sub, rest := SubOutput(cfg, input, start, Some(b)), SplitOutput(cfg, input, Some(b), boundaries[1..]);
    UnmentionedKey(sub, key, s);
    assert sub + rest + deeper == sub + (rest + deeper);
    VisibleConcat(sub, rest + deeper, key, s);
  }

  lemma SeekStartsUnanswered(input: seq<Record>, start: Option<UserKey>, key: UserKey)
    requires Sorted(input) && (start.Some? ==> start.value <= key)
    ensures var p := SeekPosition(input, start); p > 0 ==> input[p - 1].key != key
  {
  }

  lemma ReadSkipsMiddle(a: seq<Record>, b: seq<Record>, c: seq<Record>, key: UserKey, s: SeqNo, low: UserKey)
    requires key < low && AllFrom(b, low)
    ensures Visible(a + b + c, key, s) == Visible(a + c, key, s)
  {
    assert !Mentions(b, key);
    UnmentionedKey(b, key, s);
    assert a + b + c == a + (b + c);
    VisibleConcat(a, b + c, key, s);
    VisibleConcat(b, c, key, s);
    VisibleConcat(a, c, key, s);
  }

  lemma {:induction false} RestAboveBoundary(cfg: Config, input: seq<Record>, b: UserKey, boundaries: seq<UserKey>)
    requires Sorted(input) && Increasing(boundaries) && StartsBefore(Some(b), boundaries)
    ensures var rest := SplitOutput(cfg, input, Some(b), boundaries); AllFrom(rest, b)
    decreases |boundaries|
  {
    TailStartsAtBoundary(cfg, START, input, b);
    var out := Output(cfg, START, input, SeekPosition(input, Some(b)));
    if boundaries == [] {
      TakeAll(out);
    } else {
      var reached := CutAtBoundary(cfg, input, Some(b), boundaries[0]);
      RestAboveBoundary(cfg, input, boundaries[0], boundaries[1..]);
      var sub := SubOutput(cfg, input, Some(b), Some(boundaries[0]));
      var rest := SplitOutput(cfg, input, Some(boundaries[0]), boundaries[1..]);
      var both: seq<Record> := sub + rest;
      forall n | 0 <= n < |both| ensures both[n].key >= b {
        if n < |sub| { assert sub[n] == out[n]; } else { assert rest[n - |sub|].key >= boundaries[0]; }
      }
    }
  }

  /** Choosing the boundaries and running every subcompaction writes the records of one run, exactly if no
      boundary loses track; without SingleDelete always. */
  method RunSubcompactions(cfg: Config, input: seq<Record>, inputs: seq<InputLevel>, startLevel: nat, outputLevel: nat,
                           sizeBetween: (UserKey, UserKey) -> nat, maxFileSize: nat, maxSubcompactions: nat)
    returns (out: seq<Record>, ghost boundaries: seq<UserKey>)
    requires cfg.Valid() && Sorted(input) && maxFileSize > 0 && maxSubcompactions > 1
    requires Candidates(inputs, startLevel, outputLevel) != []
    ensures out == SplitOutput(cfg, input, None, boundaries) && Increasing(boundaries)
    ensures out == Compact(cfg, input) <==> LostTracks(cfg, input, None, boundaries) == 0
    ensures NoSingleDeleteFrom(input, 0) ==> out == Compact(cfg, input)
  {
    var candidates := Candidates(inputs, startLevel, outputLevel);
    var bounds := SortedUnique(candidates);
    assert candidates[0] in bounds;
    var cuts, sizes, rangeSizes, places := GenSubcompactionBoundaries(bounds, sizeBetween, maxFileSize, maxSubcompactions);
    boundaries := cuts;
    out := RunEachRange(cfg, input, cuts);
    SplitEqualsWhole(cfg, input, None, boundaries);
    if NoSingleDeleteFrom(input, 0) { NeverLosesTrack(cfg, input, None, boundaries); }
  }

  method RunEachRange(cfg: Config, input: seq<Record>, boundaries: seq<UserKey>) returns (out: seq<Record>)
    requires cfg.Valid() && Sorted(input)
    ensures out == SplitOutput(cfg, input, None, boundaries)
  {
    hide SubOutput, Output, TakeBelow, SeekPosition, Sorted;
    out := [];
    var start: Option<UserKey> := None;
    var i := 0;
    while i < |boundaries|
      invariant 0 <= i <= |boundaries|
      invariant out + SplitOutput(cfg, input, start, boundaries[i..]) == SplitOutput(cfg, input, None, boundaries)
    {
      var b := boundaries[i];
      assert boundaries[i..][1..] == boundaries[i + 1..];
      var piece, _ := ProcessKeyValueCompaction(cfg, input, start, Some(b));
      assert out + piece + SplitOutput(cfg, input, Some(b), boundaries[i + 1..])
          == out + (piece + SplitOutput(cfg, input, Some(b), boundaries[i + 1..]));
      out := out + piece;
      start := Some(b);
      i := i + 1;
    }
    var last, _ := ProcessKeyValueCompaction(cfg, input, start, None);
    assert boundaries[i..] == [];
    out := out + last;
  }
}
