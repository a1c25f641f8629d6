/**
 What lies below a compaction: the cursor-based query for a key in the deeper files
 (Compaction::KeyNotExistsBeyondOutputLevel), the bottommost test, and the fact that both are
 right about the records stored there.
 */
module DeeperLevels {
  import opened Records
  import opened CompactionRules
  import opened ReadPreservation

  // Every file that a cursor has passed ends before `key`.
  predicate PtrsBehind(c: Compaction, ptrs: seq<nat>, key: UserKey) {
    && |ptrs| == |c.levels|
    && (forall lvl :: c.outputLevel < lvl < |c.levels| ==> ptrs[lvl] <= |c.levels[lvl]|)
    && (forall lvl, i :: c.outputLevel < lvl < |c.levels| && 0 <= i < ptrs[lvl] ==> c.levels[lvl][i].largest < key)
  }

  /** Cursors left by one query serve every later query for a key that is not smaller. */
  lemma PtrsServeLaterKeys(c: Compaction, ptrs: seq<nat>, key: UserKey, later: UserKey)
    requires PtrsBehind(c, ptrs, key) && key <= later
    ensures PtrsBehind(c, ptrs, later)
  {
    forall lvl, i | c.outputLevel < lvl < |c.levels| && 0 <= i < ptrs[lvl] ensures c.levels[lvl][i].largest < later {
      assert c.levels[lvl][i].largest < key;
    }
  }

  /** Advance the cursor of one level to the first file that does not end before `key`; the key is
      covered by that file or by none. */
  method SearchLevel(files: seq<TableFile>, start: nat, key: UserKey) returns (ptr: nat, covered: bool)
    requires FilesSorted(files) && start <= |files|
    requires forall i :: 0 <= i < start ==> files[i].largest < key
    ensures start <= ptr <= |files|
    ensures forall i :: 0 <= i < ptr ==> files[i].largest < key
    ensures covered == LevelCovers(files, key)
  {
    ptr := start;
    while ptr < |files|
      invariant start <= ptr <= |files|
      invariant forall i :: 0 <= i < ptr ==> files[i].largest < key
    {
      if key <= files[ptr].largest {
        covered := files[ptr].smallest <= key;
        if covered {
          assert FileCovers(files[ptr], key);
        } else {
          forall i | 0 <= i < |files| ensures !FileCovers(files[i], key) {
            if i > ptr { assert files[ptr].largest <= files[i].smallest; }
          }
        }
        return;
      }
      ptr := ptr + 1;
    }
    covered := false;
  }

  /** The cursor-based query answers exactly as a full scan of the deeper files would, and leaves
      the cursors fit for any later key. */
  method KeyNotExistsBeyondOutputLevel(c: Compaction, key: UserKey, levelPtrs: array<nat>) returns (absent: bool)
    requires LevelsSorted(c) && PtrsBehind(c, levelPtrs[..], key)
    modifies levelPtrs
    ensures PtrsBehind(c, levelPtrs[..], key)
    ensures absent == KeyAbsentBeyondOutput(c, key)
  {
    if c.bottommost {
      return true;
    }
    if c.outputLevel != 0 && c.levelStyle {
      var lvl := c.outputLevel + 1;
      while lvl < |c.levels|
        invariant c.outputLevel < lvl
        invariant PtrsBehind(c, levelPtrs[..], key)
        invariant forall l :: c.outputLevel < l < lvl && l < |c.levels| ==> !LevelCovers(c.levels[l], key)
      {
        var ptr, covered := SearchLevel(c.levels[lvl], levelPtrs[lvl], key);
        levelPtrs[lvl] := ptr;
        if covered {
          return false;
        }
        lvl := lvl + 1;
      }
      return true;
    }
    return false;
  }

  function FileRecords(files: seq<TableFile>): (r: seq<Record>) {
    if files == [] then [] else files[0].records + FileRecords(files[1..])
  }

  function LevelRecords(levels: seq<seq<TableFile>>): (r: seq<Record>) {
    if levels == [] then [] else FileRecords(levels[0]) + LevelRecords(levels[1..])
  }

  /** The records that a read searches after the compaction's output: the L0 files older than the
      output when it goes to L0, and all deeper levels. */
  function OlderRecords(c: Compaction, outputL0Index: nat): (r: seq<Record>)
    requires c.outputLevel < |c.levels|
    requires c.outputLevel == 0 ==> outputL0Index < |c.levels[0]|
  {
    (if c.outputLevel == 0 then FileRecords(c.levels[0][outputL0Index + 1..]) else [])
    + LevelRecords(c.levels[c.outputLevel + 1..])
  }

  predicate Overlaps(f: TableFile, smallest: UserKey, largest: UserKey) {
    f.smallest <= largest && smallest <= f.largest
  }

  /** VersionStorageInfo::RangeMightExistAfterSortedRun, which decides whether a compaction is
      bottommost. */
  predicate RangeMightExistAfterSortedRun(c: Compaction, outputL0Index: nat)
    requires c.outputLevel < |c.levels|
  {
    || (c.outputLevel == 0 && outputL0Index + 1 != |c.levels[0]|)
    || exists lvl :: c.outputLevel < lvl < |c.levels| && c.levels[lvl] != [] &&
         (c.outputLevel == 0 ||
          exists i :: 0 <= i < |c.levels[lvl]| && Overlaps(c.levels[lvl][i], c.smallestUserKey, c.largestUserKey))
  }

  predicate FileBoundsRecords(f: TableFile) {
    forall i :: 0 <= i < |f.records| ==> f.smallest <= f.records[i].key <= f.largest
  }

  ghost predicate BoundedLevels(c: Compaction) {
    forall lvl, i :: 0 <= lvl < |c.levels| && 0 <= i < |c.levels[lvl]| ==> FileBoundsRecords(c.levels[lvl][i])
  }

  lemma {:induction false} FilesMentioning(files: seq<TableFile>, key: UserKey)
    requires forall i :: 0 <= i < |files| ==> FileBoundsRecords(files[i])
    requires !LevelCovers(files, key)
    ensures !Mentions(FileRecords(files), key)
  {
    if files != [] {
      assert !FileCovers(files[0], key) && FileBoundsRecords(files[0]);
      forall i | 0 <= i < |files[1..]| ensures !FileCovers(files[1..][i], key) && FileBoundsRecords(files[1..][i]) {
        assert files[1..][i] == files[i + 1];
      }
      FilesMentioning(files[1..], key);
    }
  }

  lemma {:induction false} LevelsMentioning(levels: seq<seq<TableFile>>, key: UserKey)
    requires forall l, i :: 0 <= l < |levels| && 0 <= i < |levels[l]| ==> FileBoundsRecords(levels[l][i])
    requires forall l :: 0 <= l < |levels| ==> !LevelCovers(levels[l], key)
    ensures !Mentions(LevelRecords(levels), key)
  {
    if levels != [] {
      FilesMentioning(levels[0], key);
      LevelsMentioning(levels[1..], key);
    }
  }

  /** The compaction's view of the deeper levels is right: a key it takes for absent has no record
      there. */
  lemma CompactionAgreesWithDeeperLevels(cfg: Config, outputL0Index: nat, key: UserKey)
    requires cfg.compaction.Some? && cfg.compaction.value.outputLevel < |cfg.compaction.value.levels|
    requires var c := cfg.compaction.value;
             && BoundedLevels(c) && (c.outputLevel == 0 ==> outputL0Index < |c.levels[0]|)
             && c.bottommost == !RangeMightExistAfterSortedRun(c, outputL0Index)
             && c.smallestUserKey <= key <= c.largestUserKey
    ensures DeeperAgrees(cfg, OlderRecords(cfg.compaction.value, outputL0Index), key)
  {
    var c := cfg.compaction.value;
    if KeyAbsentBeyondOutput(c, key) {
      var below := c.levels[c.outputLevel + 1..];
      forall l | 0 <= l < |below| ensures !LevelCovers(below[l], key) {
        var lvl := c.outputLevel + 1 + l;
        assert below[l] == c.levels[lvl];
        if c.bottommost && LevelCovers(below[l], key) {
          var i :| 0 <= i < |below[l]| && FileCovers(below[l][i], key);
          assert Overlaps(c.levels[lvl][i], c.smallestUserKey, c.largestUserKey);
        }
      }
      forall l, i | 0 <= l < |below| && 0 <= i < |below[l]| ensures FileBoundsRecords(below[l][i]) {
        assert below[l] == c.levels[c.outputLevel + 1 + l];
      }
      LevelsMentioning(below, key);
    }
  }

  /** The whole statement over real files: whatever the key, the snapshot and the newer runs, a
      read answers the same before and after the compaction. */
  lemma CompactionPreservesReads(cfg: Config, outputL0Index: nat, input: seq<Record>, newer: seq<Record>,
                                 key: UserKey, s: SeqNo)
    requires ValidInput(cfg, input) && cfg.Live(s)
    requires cfg.compaction.Some? && cfg.compaction.value.outputLevel < |cfg.compaction.value.levels|
    requires var c := cfg.compaction.value;
             && BoundedLevels(c) && (c.outputLevel == 0 ==> outputL0Index < |c.levels[0]|)
             && c.bottommost == !RangeMightExistAfterSortedRun(c, outputL0Index)
             && (forall i :: 0 <= i < |input| ==> c.smallestUserKey <= input[i].key <= c.largestUserKey)
    requires Disciplined(input, OlderRecords(cfg.compaction.value, outputL0Index), key)
    ensures var older := OlderRecords(cfg.compaction.value, outputL0Index);
            Read(newer + (Compact(cfg, input) + older), key, s) == Read(newer + (input + older), key, s)
  {
    var older := OlderRecords(cfg.compaction.value, outputL0Index);
    if Mentions(input, key) {
      CompactionAgreesWithDeeperLevels(cfg, outputL0Index, key);
      ReadsPreserved(cfg, input, newer, older, key, s);
    } else {
      OutputSkipsKey(cfg, START, input, 0, key);
      UnmentionedKey(Compact(cfg, input), key, s);
      UnmentionedKey(input, key, s);
      VisibleConcat(Compact(cfg, input), older, key, s);
      VisibleConcat(input, older, key, s);
      ReadBelowNewerRuns(newer, Compact(cfg, input) + older, input + older, key, s);
    }
  }
}
