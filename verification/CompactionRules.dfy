/**
 What a compaction is told about its surroundings, and the record-by-record rules that
 CompactionIterator::NextFromInput and PrepareOutput apply.
 */
module CompactionRules {
  import opened Options
  import opened Records

  // One table file of a level: its user-key bounds and its records.
  datatype TableFile = TableFile(smallest: UserKey, largest: UserKey, records: seq<Record>)

  datatype Compaction = Compaction(
    bottommost: bool,
    levelStyle: bool,
    outputLevel: nat,
    levels: seq<seq<TableFile>>,
    smallestUserKey: UserKey,
    largestUserKey: UserKey,
    allowIngestBehind: bool,
    preserveDeletes: bool)

  // `compaction` is None for a flush.
  datatype Config = Config(
    snapshots: seq<SeqNo>,
    earliestWriteConflict: SeqNo,
    compaction: Option<Compaction>,
    preserveDeletesSeqno: SeqNo)
  {
    function EarliestSnapshot(): SeqNo {
      if snapshots == [] then MAX_SEQ else snapshots[0]
    }

    // A sequence number that some reader may still read at.
    predicate Live(s: SeqNo) {
      s in snapshots || s == MAX_SEQ
    }

    ghost predicate Valid() {
      && (forall i, j :: 0 <= i < j < |snapshots| ==> snapshots[i] <= snapshots[j])
      && (forall i :: 0 <= i < |snapshots| ==> snapshots[i] < MAX_SEQ)
      && EarliestSnapshot() <= earliestWriteConflict
      && (compaction.Some? ==> LevelsSorted(compaction.value))
    }

    predicate NotNeededForIncrementalSnapshot(seqno: SeqNo)
      requires compaction.Some?
    {
      !compaction.value.preserveDeletes || seqno < preserveDeletesSeqno
    }

    // Compaction that may drop the last trace of `key`.
    predicate CanDropTombstone(key: UserKey) {
      compaction.Some? && KeyAbsentBeyondOutput(compaction.value, key)
    }
  }

  // Files of a level above 0 are ordered; neighbours may share a boundary user key.
  ghost predicate FilesSorted(files: seq<TableFile>) {
    && (forall i :: 0 <= i < |files| ==> files[i].smallest <= files[i].largest)
    && (forall i, j :: 0 <= i < j < |files| ==> files[i].largest <= files[j].smallest)
  }

  ghost predicate LevelsSorted(c: Compaction) {
    forall lvl :: c.outputLevel < lvl < |c.levels| ==> FilesSorted(c.levels[lvl])
  }

  predicate FileCovers(f: TableFile, key: UserKey) {
    f.smallest <= key <= f.largest
  }

  predicate LevelCovers(files: seq<TableFile>, key: UserKey) {
    exists i :: 0 <= i < |files| && FileCovers(files[i], key)
  }

  /** The answer a full scan of every deeper file gives to KeyNotExistsBeyondOutputLevel. */
  predicate KeyAbsentBeyondOutput(c: Compaction, key: UserKey) {
    c.bottommost ||
    (c.outputLevel != 0 && c.levelStyle &&
     forall lvl :: c.outputLevel < lvl < |c.levels| ==> !LevelCovers(c.levels[lvl], key))
  }

  // Index of the first snapshot that is at least `seqno`.
  function FirstAtLeast(snapshots: seq<SeqNo>, seqno: SeqNo): (n: nat)
    ensures n <= |snapshots|
    ensures forall i :: 0 <= i < n ==> snapshots[i] < seqno
    ensures n < |snapshots| ==> seqno <= snapshots[n]
  {
    if snapshots == [] || seqno <= snapshots[0] then 0 else 1 + FirstAtLeast(snapshots[1..], seqno)
  }

  /** The earliest reader that sees a record: two records of a key with the same stripe are seen
      by the same readers. */
  function Stripe(cfg: Config, seqno: SeqNo): SeqNo {
    var n := FirstAtLeast(cfg.snapshots, seqno);
    if n < |cfg.snapshots| then cfg.snapshots[n] else MAX_SEQ
  }

  /** The last snapshot before a record; 0 stands for "no such snapshot". */
  function PrevSnapshot(cfg: Config, seqno: SeqNo): SeqNo {
    var n := FirstAtLeast(cfg.snapshots, seqno);
    if n == 0 then 0 else cfg.snapshots[n - 1]
  }

  // What the iterator remembers between two input records.
  datatype Scan = Scan(
    hasKey: bool,
    key: UserKey,
    stripe: SeqNo,
    outputtedKey: bool,
    clearNext: bool,
    returned: bool)

  const START := Scan(false, 0, 0, false, false, false)

  // Outcome of looking at one input record: the state and input position reached, and the
  // record handed out, if any.
  datatype Outcome = Outcome(scan: Scan, next: nat, emitted: Option<Record>)

  predicate IsNewKey(scan: Scan, r: Record) {
    !scan.hasKey || r.key != scan.key
  }

  function Look(cfg: Config, scan: Scan, r: Record): Scan {
    scan.(hasKey := true, key := r.key, stripe := Stripe(cfg, r.seqno),
          outputtedKey := if IsNewKey(scan, r) then false else scan.outputtedKey)
  }

  // Handing a record out. The very first record is handed out by SeekToFirst, which does not
  // record that the current key has been output; every later one by Next, which does.
  function Emit(scan: Scan, r: Record, next: nat): Outcome {
    Outcome(scan.(outputtedKey := scan.outputtedKey || scan.returned, returned := true), next, Some(r))
  }

  function Skip(scan: Scan, next: nat): Outcome {
    Outcome(scan, next, None)
  }

  predicate SharesStripe(cfg: Config, r: Record, next: Record) {
    PrevSnapshot(cfg, r.seqno) == 0 || next.seqno > PrevSnapshot(cfg, r.seqno)
  }

  function StepSingleDelete(cfg: Config, seen: Scan, input: seq<Record>, i: nat): (o: Outcome)
    requires i < |input|
    ensures i < o.next <= |input|
  {
    var r := input[i];
    if i + 1 < |input| && input[i + 1].key == r.key then
      if SharesStripe(cfg, r, input[i + 1]) then
        if input[i + 1].kind == SingleDelete then Skip(seen, i + 1)
        else if seen.outputtedKey || r.seqno <= cfg.earliestWriteConflict then Skip(seen, i + 2)
        else Emit(seen.(clearNext := true), r, i + 1)
      else Emit(seen, r, i + 1)
    else
      var gone := seen.(hasKey := false);
      if cfg.compaction.Some? && r.seqno <= cfg.EarliestSnapshot() && cfg.CanDropTombstone(r.key)
      then Skip(gone, i + 1)
      else Emit(gone, r, i + 1)
  }

  predicate ObsoleteDelete(cfg: Config, r: Record) {
    && cfg.compaction.Some?
    && r.kind == Delete
    && r.seqno <= cfg.EarliestSnapshot()
    && cfg.NotNeededForIncrementalSnapshot(r.seqno)
    && cfg.CanDropTombstone(r.key)
  }

  /** One turn of the NextFromInput loop. */
  function Step(cfg: Config, scan: Scan, input: seq<Record>, i: nat): (o: Outcome)
    requires i < |input|
    ensures i < o.next <= |input|
  {
    var r := input[i];
    var lastStripe := if IsNewKey(scan, r) then 0 else scan.stripe;
    var seen := Look(cfg, scan, r);
    if scan.clearNext then Emit(seen.(clearNext := false), r.(value := ""), i + 1)
    else if r.kind == SingleDelete then StepSingleDelete(cfg, seen, input, i)
    else if lastStripe == seen.stripe then Skip(seen, i + 1)
    else if ObsoleteDelete(cfg, r) then Skip(seen, i + 1)
    else Emit(seen, r, i + 1)
  }

  predicate CanZero(cfg: Config, r: Record) {
    && cfg.compaction.Some?
    && !cfg.compaction.value.allowIngestBehind
    && cfg.NotNeededForIncrementalSnapshot(r.seqno)
    && cfg.compaction.value.bottommost
    && r.seqno <= cfg.EarliestSnapshot()
    && r.key != cfg.compaction.value.largestUserKey
  }

  /** PrepareOutput: squash the sequence number of a record that every reader sees. */
  function Prepare(cfg: Config, r: Record): Record {
    if CanZero(cfg, r) then r.(seqno := 0) else r
  }

  /** Everything the iterator hands out from input position `i` on. */
  function Output(cfg: Config, scan: Scan, input: seq<Record>, i: nat): (out: seq<Record>)
    requires i <= |input|
    decreases |input| - i
  {
    if i == |input| then []
    else
      var o := Step(cfg, scan, input, i);
      var rest := Output(cfg, o.scan, input, o.next);
      if o.emitted.Some? then [Prepare(cfg, o.emitted.value)] + rest else rest
  }

  /** The output of a whole compaction. */
  function Compact(cfg: Config, input: seq<Record>): seq<Record> {
    Output(cfg, START, input, 0)
  }

  /** A stripe is the least live sequence number that sees the record. */
  lemma StripeIsLeastLive(cfg: Config, seqno: SeqNo, s: SeqNo)
    requires cfg.Valid() && seqno <= MAX_SEQ && cfg.Live(s)
    ensures cfg.Live(Stripe(cfg, seqno)) && seqno <= Stripe(cfg, seqno)
    ensures seqno <= s <==> Stripe(cfg, seqno) <= s
  {
    var n := FirstAtLeast(cfg.snapshots, seqno);
    if s in cfg.snapshots {
      var j :| 0 <= j < |cfg.snapshots| && cfg.snapshots[j] == s;
      if n < j { assert cfg.snapshots[n] <= cfg.snapshots[j]; }
    }
  }

  lemma PrevSnapshotIsGreatest(cfg: Config, seqno: SeqNo, s: SeqNo)
    requires cfg.Valid() && seqno <= MAX_SEQ && cfg.Live(s)
    ensures seqno > 0 ==> PrevSnapshot(cfg, seqno) < seqno
    ensures s < seqno ==> s <= PrevSnapshot(cfg, seqno)
    ensures PrevSnapshot(cfg, seqno) == 0 || cfg.Live(PrevSnapshot(cfg, seqno))
  {
    var n := FirstAtLeast(cfg.snapshots, seqno);
    if s < seqno && s in cfg.snapshots {
      var j :| 0 <= j < |cfg.snapshots| && cfg.snapshots[j] == s;
      assert n <= j ==> cfg.snapshots[n] <= cfg.snapshots[j];
      assert j < n - 1 ==> cfg.snapshots[j] <= cfg.snapshots[n - 1];
    }
  }
}
