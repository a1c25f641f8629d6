/**
 The universal compaction picker (UniversalCompactionPicker::PickCompaction): which adjacent sorted
 runs to merge, and at which level to put the result.

 Sorted runs are listed as CalculateSortedRuns lists them: the files of level 0, newest first, then
 one run for each deeper level that has files. Sizes are exact; the source compares them as doubles.
 */
module UniversalPicker {
  import opened Options

  // `newest` and `oldest` are the flushes whose writes a run covers; `job` is the compaction that has
  // it as an input (being_compacted).
  datatype Run = Run(level: nat, newest: nat, oldest: nat, size: nat, compensated: nat, job: Option<nat>)

  datatype StopStyle = SimilarSize | TotalSize

  datatype Config = Config(trigger: nat, sizeRatio: nat, minMergeWidth: nat, maxMergeWidth: nat, stopStyle: StopStyle,
                           maxSizeAmp: nat, numLevels: nat)

  const UINT_MAX: nat := 0xFFFF_FFFF

  datatype Pick = Pick(start: nat, count: nat, outputLevel: nat)

  predicate Busy(run: Run) {
    run.job.Some?
  }

  // The size rule: the runs picked so far, `candidate` large, may take in the next one.
  predicate MayTakeIn(candidate: nat, next: Run, ratio: nat, style: StopStyle) {
    && !Busy(next)
    && candidate * (100 + ratio) >= 100 * next.size
    && (style.SimilarSize? ==> next.size * (100 + ratio) >= 100 * candidate)
  }

  /** How many runs a series of `count` candidates grows to. */
  function Widen(runs: seq<Run>, next: nat, count: nat, candidate: nat, ratio: nat, maxFiles: nat, style: StopStyle): nat
    decreases |runs| - next
  {
    if count >= maxFiles || next >= |runs| || !MayTakeIn(candidate, runs[next], ratio, style) then count
    else
      var taken := runs[next].compensated;
      Widen(runs, next + 1, count + 1, if style.SimilarSize? then taken else candidate + taken, ratio, maxFiles, style)
  }

  /** The width of the series that begins at run i; none begins at a run being compacted. */
  function Width(runs: seq<Run>, i: nat, ratio: nat, maxFiles: nat, style: StopStyle): nat
    requires i < |runs|
  {
    if Busy(runs[i]) then 0 else Widen(runs, i + 1, 1, runs[i].compensated, ratio, maxFiles, style)
  }

  function Max(a: nat, b: nat): nat {
    if a < b then b else a
  }

  function Min(a: nat, b: nat): nat {
    if a < b then a else b
  }

  // The level just above the next older run; the last level if there is none.
  function OutputLevel(runs: seq<Run>, after: nat, numLevels: nat): nat
    requires numLevels > 0
  {
    if after >= |runs| then numLevels - 1
    else if runs[after].level == 0 then 0
    else runs[after].level - 1
  }

  /** What PickCompactionToReduceSortedRuns chooses: the first series that is wide enough. */
  ghost predicate ReducesRuns(runs: seq<Run>, ratio: nat, limit: nat, config: Config, pick: Option<Pick>)
    requires config.numLevels > 0
  {
    var width := i requires 0 <= i < |runs| => Width(runs, i, ratio, Min(config.maxMergeWidth, limit), config.stopStyle);
    var least := Max(config.minMergeWidth, 2);
    match pick
    case None => forall i :: 0 <= i < |runs| ==> width(i) < least
    case Some(Pick(start, count, outputLevel)) =>
      && start < |runs| && count == width(start) >= least
      && (forall i :: 0 <= i < start ==> width(i) < least)
      && outputLevel == OutputLevel(runs, start + count, config.numLevels)
  }

  function TotalCompensated(runs: seq<Run>): nat {
    if runs == [] then 0 else TotalCompensated(runs[..|runs| - 1]) + runs[|runs| - 1].compensated
  }

  // All runs from `start` on, which the size amplification test looks at: the last is not tested.
  ghost predicate AmpCandidates(runs: seq<Run>, start: nat) {
    && start + 1 < |runs|
    && (forall i :: 0 <= i < start ==> Busy(runs[i]))
    && (forall i :: start <= i < |runs| - 1 ==> !Busy(runs[i]))
  }

  predicate AmpExceeded(runs: seq<Run>, start: nat, ratio: nat)
    requires start + 1 < |runs|
  {
    TotalCompensated(runs[start..|runs| - 1]) * 100 >= ratio * runs[|runs| - 1].size
  }

  /** What PickCompactionToReduceSizeAmp chooses. */
  ghost predicate ReducesSizeAmp(runs: seq<Run>, config: Config, pick: Option<Pick>)
    requires config.numLevels > 0
  {
    match pick
    case None => forall start :: AmpCandidates(runs, start) ==> !AmpExceeded(runs, start, config.maxSizeAmp)
    case Some(Pick(start, count, outputLevel)) =>
      && AmpCandidates(runs, start) && AmpExceeded(runs, start, config.maxSizeAmp)
      && count == |runs| - start && outputLevel == config.numLevels - 1
  }

  lemma AmpStartIsUnique(runs: seq<Run>, a: nat, b: nat)
    requires AmpCandidates(runs, a) && AmpCandidates(runs, b)
    ensures a == b
  {
    assert !Busy(runs[a]) && !Busy(runs[b]);
  }

  function FreeRuns(runs: seq<Run>): nat {
    if runs == [] then 0 else FreeRuns(runs[..|runs| - 1]) + if Busy(runs[|runs| - 1]) then 0 else 1
  }

  /** What PickCompaction chooses: size amplification first, then size ratio, then the number of runs. */
  ghost predicate Picks(runs: seq<Run>, config: Config, pick: Option<Pick>)
    requires config.numLevels > 0
  {
    if runs == [] || |runs| < config.trigger then pick == None
    else if !ReducesSizeAmp(runs, config, None) then ReducesSizeAmp(runs, config, pick)
    else if !ReducesRuns(runs, config.sizeRatio, UINT_MAX, config, None) then
      ReducesRuns(runs, config.sizeRatio, UINT_MAX, config, pick)
    else if FreeRuns(runs) > config.trigger then
      ReducesRuns(runs, UINT_MAX, FreeRuns(runs) - config.trigger + 1, config, pick)
    else pick == None
  }

  lemma {:induction false} WidenedAreFree(runs: seq<Run>, next: nat, count: nat, candidate: nat, ratio: nat, maxFiles: nat,
                                          style: StopStyle)
    requires next <= |runs|
    ensures var width := Widen(runs, next, count, candidate, ratio, maxFiles, style);
            && count <= width <= count + |runs| - next
            && forall i :: next <= i < next + width - count ==> !Busy(runs[i])
    decreases |runs| - next
  {
    if count < maxFiles && next < |runs| && MayTakeIn(candidate, runs[next], ratio, style) {
      var taken := runs[next].compensated;
      WidenedAreFree(runs, next + 1, count + 1, if style.SimilarSize? then taken else candidate + taken, ratio, maxFiles, style);
    }
  }

  /** A series consists of adjacent runs none of which is being compacted. */
  lemma SeriesAreFree(runs: seq<Run>, i: nat, ratio: nat, maxFiles: nat, style: StopStyle)
    requires i < |runs|
    ensures var width := Width(runs, i, ratio, maxFiles, style);
            i + width <= |runs| && forall k :: i <= k < i + width ==> !Busy(runs[k])
  {
    WidenedAreFree(runs, i + 1, 1, runs[i].compensated, ratio, maxFiles, style);
  }

  /** PickCompactionToReduceSortedRuns, without its choice of path and compression. */
  method PickCompactionToReduceSortedRuns(runs: seq<Run>, ratio: nat, limit: nat, config: Config) returns (pick: Option<Pick>)
    requires config.numLevels > 0
    ensures ReducesRuns(runs, ratio, limit, config, pick)
  {
    var maxFiles := Min(config.maxMergeWidth, limit);
    var least := Max(config.minMergeWidth, 2);
    var start := 0;
    while start < |runs|
      invariant 0 <= start <= |runs|
      invariant forall i :: 0 <= i < start ==> Width(runs, i, ratio, maxFiles, config.stopStyle) < least
    {
      while start < |runs| && Busy(runs[start])
        invariant 0 <= start <= |runs|
        invariant forall i :: 0 <= i < start ==> Width(runs, i, ratio, maxFiles, config.stopStyle) < least
      {
        start := start + 1;
      }
      if start == |runs| { break; }
      var count := GrowSeries(runs, start, ratio, maxFiles, config.stopStyle);
      if count >= least {
        return Some(Pick(start, count, OutputLevel(runs, start + count, config.numLevels)));
      }
      start := start + 1;
    }
    return None;
  }

  // The inner loop: candidates from run `start` on.
  method GrowSeries(runs: seq<Run>, start: nat, ratio: nat, maxFiles: nat, style: StopStyle) returns (count: nat)
    requires start < |runs| && !Busy(runs[start])
    ensures count == Width(runs, start, ratio, maxFiles, style)
  {
    var candidate: nat := runs[start].compensated;
    count := 1;
    var i := start + 1;
    while count < maxFiles && i < |runs|
      invariant start < i <= |runs|
      invariant Widen(runs, i, count, candidate, ratio, maxFiles, style) == Width(runs, start, ratio, maxFiles, style)
      decreases |runs| - i
    {
      if Busy(runs[i]) { break; }
      if candidate * (100 + ratio) < 100 * runs[i].size { break; }
      if style.SimilarSize? {
        if runs[i].size * (100 + ratio) < 100 * candidate { break; }
        candidate := runs[i].compensated;
      } else {
        candidate := candidate + runs[i].compensated;
      }
      count := count + 1;
      i := i + 1;
    }
  }

  /** PickCompactionToReduceSizeAmp, likewise. */
  method PickCompactionToReduceSizeAmp(runs: seq<Run>, config: Config) returns (pick: Option<Pick>)
    requires config.numLevels > 0 && runs != []
    ensures ReducesSizeAmp(runs, config, pick)
  {
    var start := 0;
    while start < |runs| - 1 && Busy(runs[start])
      invariant 0 <= start <= |runs| - 1
      invariant forall i :: 0 <= i < start ==> Busy(runs[i])
    {
      start := start + 1;
    }
    if start == |runs| - 1 { return None; }
    var size := 0;
    var i := start;
    while i < |runs| - 1
      invariant start <= i <= |runs| - 1
      invariant forall k :: start <= k < i ==> !Busy(runs[k])
      invariant size == TotalCompensated(runs[start..i])
    {
      if Busy(runs[i]) { return None; }
      assert runs[start..i + 1][..i - start] == runs[start..i];
      size := size + runs[i].compensated;
      i := i + 1;
    }
    assert AmpCandidates(runs, start);
    forall other | AmpCandidates(runs, other) ensures other == start { AmpStartIsUnique(runs, start, other); }
    if size * 100 < config.maxSizeAmp * runs[|runs| - 1].size { return None; }
    return Some(Pick(start, |runs| - start, config.numLevels - 1));
  }

  method CountFree(runs: seq<Run>) returns (free: nat)
    ensures free == FreeRuns(runs)
  {
    free := 0;
    for i := 0 to |runs|
      invariant free == FreeRuns(runs[..i])
    {
      assert runs[..i + 1][..i] == runs[..i];
      if !Busy(runs[i]) { free := free + 1; }
    }
    assert runs[..|runs|] == runs;
  }

  /** PickCompaction. */
  method PickCompaction(runs: seq<Run>, config: Config) returns (pick: Option<Pick>)
    requires config.numLevels > 0
    ensures Picks(runs, config, pick)
  {
    if |runs| == 0 || |runs| < config.trigger { return None; }
    pick := PickCompactionToReduceSizeAmp(runs, config);
    if pick.Some? { return; }
    pick := PickCompactionToReduceSortedRuns(runs, config.sizeRatio, UINT_MAX, config);
    if pick.Some? { return; }
    var free := CountFree(runs);
    if free > config.trigger {
      pick := PickCompactionToReduceSortedRuns(runs, UINT_MAX, free - config.trigger + 1, config);
    }
  }
}
