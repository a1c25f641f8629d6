/**
 How CompactionJob::GenSubcompactionBoundaries picks the user keys at which a compaction is cut.
 */
module SubcompactionBoundaries {
  import opened Records
  import opened CompactionRules

  predicate Increasing(keys: seq<UserKey>) {
    forall i, j :: 0 <= i < j < |keys| ==> keys[i] < keys[j]
  }

  lemma AppendIncreasing(keys: seq<UserKey>, key: UserKey)
    requires Increasing(keys) && forall k :: k in keys ==> k < key
    ensures Increasing(keys + [key])
  {
    forall i | 0 <= i < |keys| ensures keys[i] < key { assert keys[i] in keys; }
  }

  lemma PrependIncreasing(key: UserKey, keys: seq<UserKey>)
    requires Increasing(keys) && forall k :: k in keys ==> key < k
    ensures Increasing([key] + keys)
  {
    forall i | 0 <= i < |keys| ensures key < keys[i] { assert keys[i] in keys; }
  }

  // User keys a compaction input contributes as candidate boundaries: one entry per input level.
  datatype InputLevel = InputLevel(level: nat, files: seq<TableFile>)

  function FileEnds(files: seq<TableFile>): (keys: seq<UserKey>) {
    if files == [] then [] else [files[0].smallest, files[0].largest] + FileEnds(files[1..])
  }

  function FileStarts(files: seq<TableFile>): (keys: seq<UserKey>) {
    if files == [] then [] else [files[0].smallest] + FileStarts(files[1..])
  }

  function Candidates(inputs: seq<InputLevel>, startLevel: nat, outputLevel: nat): (keys: seq<UserKey>) {
    if inputs == [] then []
    else
      var l := inputs[0];
      (if !(startLevel <= l.level <= outputLevel) || l.files == [] then []
       else if l.level == 0 then FileEnds(l.files)
       else [l.files[0].smallest, l.files[|l.files| - 1].largest]
            + if l.level == outputLevel then FileStarts(l.files[1..]) else [])
      + Candidates(inputs[1..], startLevel, outputLevel)
  }

  // Sorting and removing duplicates, one key at a time.
  function InsertKey(keys: seq<UserKey>, key: UserKey): (r: seq<UserKey>)
    requires Increasing(keys)
    ensures Increasing(r)
    ensures forall k :: k in r <==> k in keys || k == key
  {
    if keys == [] || key < keys[0] then
      PrependIncreasing(key, keys);
      [key] + keys
    else if key == keys[0] then keys
    else
      var rest := InsertKey(keys[1..], key);
      assert forall k :: k in keys <==> k == keys[0] || k in keys[1..];
      PrependIncreasing(keys[0], rest);
      [keys[0]] + rest
  }

  function SortedUnique(keys: seq<UserKey>): (r: seq<UserKey>)
    ensures Increasing(r)
    ensures forall k :: k in r <==> k in keys
  {
    if keys == [] then []
    else
      assert forall k :: k in keys <==> k == keys[0] || k in keys[1..];
      InsertKey(SortedUnique(keys[1..]), keys[0])
  }

  function Sum(sizes: seq<nat>): nat {
    if sizes == [] then 0 else Sum(sizes[..|sizes| - 1]) + sizes[|sizes| - 1]
  }

  function Ceiling(x: real): (n: int)
    ensures n as real - 1.0 < x <= n as real
  {
    if x.Floor as real == x then x.Floor else x.Floor + 1
  }

  /** How many subcompactions to aim at: no more than ranges, than allowed, or than output files that are
      four fifths full. */
  function Planned(ranges: nat, total: nat, maxFileSize: nat, maxSubcompactions: nat): int
    requires maxFileSize > 0
  {
    var files := Ceiling(total as real / 0.8 / maxFileSize as real);
    var n := if maxSubcompactions < ranges then maxSubcompactions else ranges;
    if files < n then files else n
  }

  function Piece(ranges: seq<nat>, a: nat, b: nat): nat
    requires a <= b <= |ranges|
  {
    Sum(ranges[a..b])
  }

  // Where the piece after j cuts begins.
  function Begin(cuts: seq<nat>, j: nat): nat
    requires j <= |cuts|
  {
    if j == 0 then 0 else cuts[j - 1]
  }

  ghost predicate StaysBelow(ranges: seq<nat>, mean: real, a: nat, b: nat)
    requires b <= |ranges|
  {
    forall m: nat :: a < m < b ==> Piece(ranges, a, m) as real < mean
  }

  // A piece from a to b that ends with the range that brings it to the mean.
  ghost predicate FullPiece(ranges: seq<nat>, mean: real, a: nat, b: nat, size: nat) {
    a < b < |ranges| && size == Piece(ranges, a, b) && size as real >= mean && StaysBelow(ranges, mean, a, b)
  }

  ghost predicate FullPieces(ranges: seq<nat>, mean: real, cuts: seq<nat>, sizes: seq<nat>) {
    |cuts| <= |sizes| && forall j: nat :: j < |cuts| ==> FullPiece(ranges, mean, Begin(cuts, j), cuts[j], sizes[j])
  }

  /** Each piece but the last ends with the range that brings it to the mean, and there are as many cuts
      as that and the plan allow. */
  ghost predicate GreedyCuts(ranges: seq<nat>, mean: real, planned: int, cuts: seq<nat>, sizes: seq<nat>) {
    && |cuts| < planned && |sizes| == |cuts| + 1 && FullPieces(ranges, mean, cuts, sizes)
    && Begin(cuts, |cuts|) <= |ranges| && sizes[|cuts|] == Piece(ranges, Begin(cuts, |cuts|), |ranges|)
    && (|cuts| + 1 < planned ==> StaysBelow(ranges, mean, Begin(cuts, |cuts|), |ranges|))
  }

  lemma StaysBelowStill(ranges: seq<nat>, mean: real, a: nat, b: nat)
    requires b < |ranges| && StaysBelow(ranges, mean, a, b) && (a < b ==> Piece(ranges, a, b) as real < mean)
    ensures StaysBelow(ranges, mean, a, b + 1)
  {
  }

  lemma PieceGrows(ranges: seq<nat>, a: nat, b: nat)
    requires a <= b < |ranges|
    ensures Piece(ranges, a, b + 1) == Piece(ranges, a, b) + ranges[b]
  {
    assert ranges[a..b + 1][..b - a] == ranges[a..b];
  }

  lemma CutHere(ranges: seq<nat>, mean: real, cuts: seq<nat>, sizes: seq<nat>, i: nat, sum: nat)
    requires FullPieces(ranges, mean, cuts, sizes) && |sizes| == |cuts| && FullPiece(ranges, mean, Begin(cuts, |cuts|), i, sum)
    ensures FullPieces(ranges, mean, cuts + [i], sizes + [sum]) && Piece(ranges, i, i) == 0 && StaysBelow(ranges, mean, i, i + 1)
  {
    hide FullPiece;
    assert Piece(ranges, i, i) == 0 && StaysBelow(ranges, mean, i, i + 1) by { EmptyPiece(ranges, mean, Begin(cuts, |cuts|), i, sum); }
    var more := cuts + [i];
    forall j: nat | j < |more| ensures FullPiece(ranges, mean, Begin(more, j), more[j], (sizes + [sum])[j]) {
      assert Begin(more, j) == Begin(cuts, j);
    }
  }

  lemma EmptyPiece(ranges: seq<nat>, mean: real, a: nat, i: nat, sum: nat)
    requires FullPiece(ranges, mean, a, i, sum)
    ensures i < |ranges| && Piece(ranges, i, i) == 0 && StaysBelow(ranges, mean, i, i + 1)
  {
    assert ranges[i..i] == [];
  }

  /** Greedy grouping of the ranges between consecutive candidate keys. The boundaries are strictly
      increasing candidate keys strictly inside the covered range, there are fewer of them than
      `maxSubcompactions`, and the sizes are those of the pieces and add up to the estimated total. */
  method GenSubcompactionBoundaries(bounds: seq<UserKey>, sizeBetween: (UserKey, UserKey) -> nat,
                                    maxFileSize: nat, maxSubcompactions: nat)
    returns (boundaries: seq<UserKey>, sizes: seq<nat>, ghost rangeSizes: seq<nat>, ghost cuts: seq<nat>)
    requires Increasing(bounds) && bounds != [] && maxFileSize > 0 && maxSubcompactions > 1
    ensures |sizes| == |boundaries| + 1 && |boundaries| < maxSubcompactions
    ensures Increasing(boundaries)
    ensures forall k :: k in boundaries ==> k in bounds && bounds[0] < k < bounds[|bounds| - 1]
    ensures |rangeSizes| == |bounds| - 1
    ensures forall i :: 0 <= i < |rangeSizes| ==> rangeSizes[i] == sizeBetween(bounds[i], bounds[i + 1])
    ensures Sum(sizes) == Sum(rangeSizes)
    ensures |boundaries| == |cuts| && forall j :: 0 <= j < |cuts| ==> cuts[j] < |bounds| && boundaries[j] == bounds[cuts[j]]
    ensures var planned := Planned(|rangeSizes|, Sum(rangeSizes), maxFileSize, maxSubcompactions);
            if planned > 1 then GreedyCuts(rangeSizes, Sum(rangeSizes) as real / planned as real, planned, cuts, sizes) else cuts == []
  {
    hide Ceiling, Sum;
    var total, ranges := MeasureRanges(bounds, sizeBetween);
    rangeSizes, cuts := ranges, [];
    boundaries, sizes := [], [];
    var planned := Planned(|ranges|, total, maxFileSize, maxSubcompactions);
    assert ranges[0..|ranges|] == ranges;
    if planned <= 1 {
      SumOfOne(total);
      return [], [total], ranges, [];
    }
    boundaries, sizes, cuts := Group(bounds, ranges, total as real / planned as real, planned);
  }

  // The grouping loop.
  method Group(bounds: seq<UserKey>, ranges: seq<nat>, mean: real, planned: int)
    returns (boundaries: seq<UserKey>, sizes: seq<nat>, ghost cuts: seq<nat>)
    requires Increasing(bounds) && 0 < |ranges| == |bounds| - 1 && planned > 1
    ensures |boundaries| == |cuts| && forall j :: 0 <= j < |cuts| ==> cuts[j] < |bounds| && boundaries[j] == bounds[cuts[j]]
    ensures Increasing(boundaries) && Sum(sizes) == Sum(ranges)
    ensures forall k :: k in boundaries ==> k in bounds && bounds[0] < k < bounds[|bounds| - 1]
    ensures GreedyCuts(ranges, mean, planned, cuts, sizes)
  {
    hide Sum, Piece, FullPieces, StaysBelow;
    boundaries, sizes, cuts := [], [], [];
    var subcompactions := planned;
    var sum, i := 0, 0;
    NothingYet(ranges, mean);
    while i < |ranges| - 1
      invariant 0 <= Begin(cuts, |cuts|) <= i <= |ranges| - 1 && sum == Piece(ranges, Begin(cuts, |cuts|), i)
      invariant FullPieces(ranges, mean, cuts, sizes) && |sizes| == |cuts|
      invariant |boundaries| == |cuts| == planned - subcompactions && subcompactions >= 1
      invariant Sum(sizes) + sum == Sum(ranges[..i])
      invariant Increasing(boundaries)
      invariant forall k :: k in boundaries ==> k in bounds && bounds[0] < k <= bounds[i]
      invariant forall j :: 0 <= j < |cuts| ==> cuts[j] < |bounds| && boundaries[j] == bounds[cuts[j]]
      invariant subcompactions > 1 ==> StaysBelow(ranges, mean, Begin(cuts, |cuts|), i + 1)
    {
      PieceGrows(ranges, Begin(cuts, |cuts|), i);
      SumGrows(ranges, i);
      sum := sum + ranges[i];
      if subcompactions != 1 && sum as real >= mean {
        CutHere(ranges, mean, cuts, sizes, i + 1, sum);
        SumOfMore(sizes, sum);
        AppendIncreasing(boundaries, bounds[i + 1]);
        boundaries := boundaries + [bounds[i + 1]];
        sizes, cuts := sizes + [sum], cuts + [i + 1];
        subcompactions := subcompactions - 1;
        sum := 0;
      } else if subcompactions > 1 {
        StaysBelowStill(ranges, mean, Begin(cuts, |cuts|), i + 1);
      }
      i := i + 1;
    }
    PieceGrows(ranges, Begin(cuts, |cuts|), i);
    SumGrows(ranges, i);
    assert ranges[..i + 1] == ranges;
    SumOfMore(sizes, sum + ranges[i]);
    PiecesAndRest(ranges, mean, cuts, sizes, sum + ranges[i]);
    sizes := sizes + [sum + ranges[i]];
  }

  lemma NothingYet(ranges: seq<nat>, mean: real)
    requires ranges != []
    ensures Piece(ranges, 0, 0) == 0 && Sum([]) == 0 && ranges[..0] == []
    ensures FullPieces(ranges, mean, [], []) && StaysBelow(ranges, mean, 0, 1)
  {
  }

  lemma PiecesAndRest(ranges: seq<nat>, mean: real, cuts: seq<nat>, sizes: seq<nat>, rest: nat)
    requires FullPieces(ranges, mean, cuts, sizes)
    ensures FullPieces(ranges, mean, cuts, sizes + [rest])
  {
    hide FullPiece;
  }

  lemma SumOfOne(x: nat)
    ensures Sum([x]) == x
  {
    assert [x][..0] == [];
  }

  lemma SumOfMore(sizes: seq<nat>, x: nat)
    ensures Sum(sizes + [x]) == Sum(sizes) + x
  {
    assert (sizes + [x])[..|sizes|] == sizes;
  }

  lemma SumGrows(ranges: seq<nat>, i: nat)
    requires i < |ranges|
    ensures Sum(ranges[..i + 1]) == Sum(ranges[..i]) + ranges[i]
  {
    assert ranges[..i + 1][..i] == ranges[..i];
  }

  method MeasureRanges(bounds: seq<UserKey>, sizeBetween: (UserKey, UserKey) -> nat) returns (total: nat, ranges: seq<nat>)
    requires bounds != []
    ensures |ranges| == |bounds| - 1 && total == Sum(ranges)
    ensures forall i :: 0 <= i < |ranges| ==> ranges[i] == sizeBetween(bounds[i], bounds[i + 1])
  {
    total, ranges := 0, [];
    var i := 0;
    while i + 1 < |bounds|
      invariant 0 <= i == |ranges| < |bounds| && total == Sum(ranges)
      invariant forall j :: 0 <= j < |ranges| ==> ranges[j] == sizeBetween(bounds[j], bounds[j + 1])
    {
      var size := sizeBetween(bounds[i], bounds[i + 1]);
      assert (ranges + [size])[..|ranges|] == ranges;
      ranges := ranges + [size];
      total := total + size;
      i := i + 1;
    }
  }
}
