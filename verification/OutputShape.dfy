/**
 The order of a compaction's output, the records whose sequence numbers survive, and the way the
 output splits at a user-key boundary.
 */
module OutputShape {
  import opened Options
  import opened Records
  import opened CompactionRules
  import opened ReadPreservation

  // The assertion in PrepareOutput.
  lemma ZeroedIsPut(cfg: Config, scan: Scan, input: seq<Record>, i: nat)
    requires ValidInput(cfg, input) && i < |input| && At(cfg, scan, input, i)
    ensures var o := Step(cfg, scan, input, i);
            o.emitted.Some? && CanZero(cfg, o.emitted.value) ==> o.emitted.value.kind == Put && !o.scan.clearNext
  {
    StepShape(cfg, scan, input, i);
    if input[i].seqno <= cfg.EarliestSnapshot() {
      InEarliestStripe(cfg, input[i].seqno);
      if i > 0 && scan.hasKey && input[i].key == input[i - 1].key { assert Before(input[i - 1], input[i]); }
    }
  }

  predicate SameVersion(a: Record, b: Record) {
    a.key == b.key && a.seqno == b.seqno && a.kind == b.kind
  }

  /** A Delete or SingleDelete in the output keeps its sequence number. */
  lemma {:induction false} TombstonesKeepSeqno(cfg: Config, scan: Scan, input: seq<Record>, i: nat, n: nat)
    requires ValidInput(cfg, input) && i < |input| && At(cfg, scan, input, i)
    requires n < |Output(cfg, scan, input, i)| && Output(cfg, scan, input, i)[n].kind != Put
    ensures var out := Output(cfg, scan, input, i)[n];
            exists j :: i <= j < |input| && SameVersion(input[j], out)
    decreases |input| - i
  {
    hide Step, Output, KeyAbsentBeyondOutput;
    OutputUnfolds(cfg, scan, input, i);
    StepShape(cfg, scan, input, i);
    StepKeepsAt(cfg, scan, input, i);
    ZeroedIsPut(cfg, scan, input, i);
    var o := Step(cfg, scan, input, i);
    if o.emitted.Some? && n == 0 {
      assert SameVersion(input[i], Output(cfg, scan, input, i)[n]);
    } else {
      TombstonesKeepSeqno(cfg, o.scan, input, o.next, if o.emitted.Some? then n - 1 else n);
    }
  }

  lemma FirstBeforeRest(cfg: Config, scan: Scan, input: seq<Record>, i: nat, o: Outcome, n: nat)
    requires ValidInput(cfg, input) && i < |input| && At(cfg, scan, input, i)
    requires o == Step(cfg, scan, input, i) && o.emitted.Some?
    requires n < |Output(cfg, o.scan, input, o.next)|
    ensures Before(Prepare(cfg, o.emitted.value), Output(cfg, o.scan, input, o.next)[n])
  {
    hide Step, Output, KeyAbsentBeyondOutput;
    var rest := Output(cfg, o.scan, input, o.next);
    OutputUnfolds(cfg, scan, input, i);
    StepShape(cfg, scan, input, i);
    StepKeepsAt(cfg, scan, input, i);
    ZeroedIsPut(cfg, scan, input, i);
    OutputComesFromInput(cfg, o.scan, input, o.next, n);
    var j :| o.next <= j < |input| && ComesFrom(cfg, rest[n], input[j]);
    assert Before(input[i], input[j]);
    if rest[n].key == input[i].key && CanZero(cfg, o.emitted.value) {
      assert cfg.CanDropTombstone(input[i].key) by { BottommostDrops(cfg, input[i].key); }
      NothingAfterSettled(cfg, o.scan, input, o.next, input[i].key);
    }
  }

  lemma BottommostDrops(cfg: Config, key: UserKey)
    requires cfg.compaction.Some? && cfg.compaction.value.bottommost
    ensures cfg.CanDropTombstone(key)
  {
  }

  lemma {:induction false} OutputSortedFrom(cfg: Config, scan: Scan, input: seq<Record>, i: nat)
    requires ValidInput(cfg, input) && At(cfg, scan, input, i)
    ensures Sorted(Output(cfg, scan, input, i))
    decreases |input| - i
  {
    if i < |input| {
      OutputUnfolds(cfg, scan, input, i);
      StepKeepsAt(cfg, scan, input, i);
      hide Step, KeyAbsentBeyondOutput, Output;
      var o := Step(cfg, scan, input, i);
      OutputSortedFrom(cfg, o.scan, input, o.next);
      if o.emitted.Some? {
        forall n | 0 <= n < |Output(cfg, o.scan, input, o.next)|
          ensures Before(Prepare(cfg, o.emitted.value), Output(cfg, o.scan, input, o.next)[n])
        {
          FirstBeforeRest(cfg, scan, input, i, o, n);
        }
      }
    }
  }

  /** The output is strictly sorted, so at most one record per key has sequence number 0 and
      nothing of its key follows it; and only Puts are ever zeroed. */
  lemma CompactIsSorted(cfg: Config, input: seq<Record>)
    requires ValidInput(cfg, input)
    ensures Sorted(Compact(cfg, input))
    ensures forall n :: 0 <= n < |Compact(cfg, input)| && Compact(cfg, input)[n].kind != Put ==>
              exists j :: 0 <= j < |input| && SameVersion(input[j], Compact(cfg, input)[n])
  {
    OutputSortedFrom(cfg, START, input, 0);
    forall n | 0 <= n < |Compact(cfg, input)| && Compact(cfg, input)[n].kind != Put
      ensures exists j :: 0 <= j < |input| && SameVersion(input[j], Compact(cfg, input)[n])
    {
      TombstonesKeepSeqno(cfg, START, input, 0, n);
    }
  }

  // Position i starts a user key, or is the end of the input.
  predicate KeyBoundary(input: seq<Record>, i: nat) {
    i <= |input| && (0 < i < |input| ==> input[i].key != input[i - 1].key)
  }

  // The scan state right before a new user key.
  ghost predicate Fresh(cfg: Config, scan: Scan, input: seq<Record>, i: nat) {
    && i <= |input| && !scan.clearNext
    && (i < |input| ==> IsNewKey(scan, input[i]))
  }

  // Weaker than At: holds of any sorted input.
  ghost predicate Near(scan: Scan, input: seq<Record>, i: nat) {
    && i <= |input|
    && (scan.hasKey ==> i > 0 && scan.key == input[i - 1].key)
    && (scan.clearNext ==> 0 < i < |input| && input[i - 1].key == input[i].key)
  }

  predicate KeyIn(input: seq<Record>, lo: nat, hi: nat, key: UserKey)
    requires hi <= |input|
  {
    exists j :: lo <= j < hi && input[j].key == key
  }

  predicate KeysFrom(input: seq<Record>, lo: nat, hi: nat, records: seq<Record>)
    requires hi <= |input|
  {
    forall n :: 0 <= n < |records| ==> KeyIn(input, lo, hi, records[n].key)
  }

  /** The output up to a key boundary is produced before the boundary is looked at, from the
      records before it only. */
  lemma {:induction false} SplitAtKey(cfg: Config, scan: Scan, input: seq<Record>, p: nat, i: nat)
    returns (prefix: seq<Record>, reached: Scan)
    requires p <= i <= |input| && KeyBoundary(input, i) && Near(scan, input, p)
    ensures Output(cfg, scan, input, p) == prefix + Output(cfg, reached, input, i)
    ensures Fresh(cfg, reached, input, i) && Near(reached, input, i)
    ensures KeysFrom(input, p, i, prefix) && reached.returned == (scan.returned || prefix != [])
    decreases i - p
  {
    if p == i {
      prefix, reached := [], scan;
    } else {
      var o := NearStep(cfg, scan, input, p, i);
      var rest: seq<Record>;
      rest, reached := SplitAtKey(cfg, o.scan, input, o.next, i);
      prefix := PrependEmitted(cfg, input, p, o, i, rest);
      OutputPrepends(cfg, scan, input, p, o, rest, Output(cfg, reached, input, i));
    }
  }

  // A step never jumps over the start of a key.
  lemma NearStep(cfg: Config, scan: Scan, input: seq<Record>, p: nat, i: nat) returns (o: Outcome)
    requires p < i <= |input| && KeyBoundary(input, i) && Near(scan, input, p)
    ensures o == Step(cfg, scan, input, p)
    ensures p < o.next <= i && Near(o.scan, input, o.next)
    ensures o.emitted.Some? ==> o.emitted.value.key == input[p].key
    ensures o.scan.returned == (scan.returned || o.emitted.Some?)
  {
    o := Step(cfg, scan, input, p);
    StepShape(cfg, scan, input, p);
  }

  lemma OutputPrepends(cfg: Config, scan: Scan, input: seq<Record>, p: nat, o: Outcome, rest: seq<Record>, tail: seq<Record>)
    requires p < |input| && o == Step(cfg, scan, input, p)
    requires Output(cfg, o.scan, input, o.next) == rest + tail
    ensures Output(cfg, scan, input, p)
            == (if o.emitted.Some? then [Prepare(cfg, o.emitted.value)] else []) + rest + tail
  {
    hide Output, Step, Prepare;
    OutputUnfolds(cfg, scan, input, p);
    if o.emitted.Some? {
      assert [Prepare(cfg, o.emitted.value)] + rest + tail == [Prepare(cfg, o.emitted.value)] + (rest + tail);
    } else {
      assert [] + rest + tail == rest + tail;
    }
  }

  lemma PrependEmitted(cfg: Config, input: seq<Record>, p: nat, o: Outcome, i: nat, rest: seq<Record>)
    returns (prefix: seq<Record>)
    requires p < o.next <= i <= |input| && KeysFrom(input, o.next, i, rest)
    requires o.emitted.Some? ==> o.emitted.value.key == input[p].key
    ensures prefix == (if o.emitted.Some? then [Prepare(cfg, o.emitted.value)] else []) + rest
    ensures KeysFrom(input, p, i, prefix)
  {
    prefix := (if o.emitted.Some? then [Prepare(cfg, o.emitted.value)] else []) + rest;
    forall n | 0 <= n < |prefix| ensures KeyIn(input, p, i, prefix[n].key) {
      if o.emitted.Some? && n == 0 {
        assert input[p].key == prefix[n].key;
      } else {
        var m := if o.emitted.Some? then n - 1 else n;
        assert KeyIn(input, o.next, i, rest[m].key);
      }
    }
  }

  lemma EarlierKeysDiffer(input: seq<Record>, i: nat, key: UserKey)
    requires Sorted(input) && i < |input| && KeyBoundary(input, i) && KeyIn(input, 0, i, key)
    ensures key != input[i].key
  {
    var j :| 0 <= j < i && input[j].key == key;
    assert Before(input[i - 1], input[i]);
    if j < i - 1 { assert Before(input[j], input[i - 1]); }
  }

  // Two SingleDeletes in a row with the same readers: the first is taken for a misuse.
  predicate SingleDeletePair(cfg: Config, input: seq<Record>, i: nat)
    requires i < |input|
  {
    && input[i].kind == SingleDelete && i + 1 < |input|
    && input[i + 1].key == input[i].key && input[i + 1].kind == SingleDelete
    && Stripe(cfg, input[i].seqno) == Stripe(cfg, input[i + 1].seqno)
  }

  predicate HasVersion(records: seq<Record>, key: UserKey, seqno: SeqNo) {
    exists n :: 0 <= n < |records| && records[n].key == key && records[n].seqno == seqno
  }

  lemma NewestStep(cfg: Config, scan: Scan, input: seq<Record>, i: nat)
    requires ValidInput(cfg, input) && i < |input| && Fresh(cfg, scan, input, i)
    requires input[i].seqno > cfg.earliestWriteConflict
    ensures var o := Step(cfg, scan, input, i);
            if SingleDeletePair(cfg, input, i) then o.emitted.None? else o.emitted == Some(input[i])
  {
    var r := input[i];
    StripeIsLeastLive(cfg, r.seqno, MAX_SEQ);
    if r.kind == SingleDelete && i + 1 < |input| && input[i + 1].key == r.key {
      assert Before(r, input[i + 1]) && FollowsVersion(input, i + 1) && !LostAtZero(cfg, input, i + 1);
      SharesStripeMeansSameReaders(cfg, r, input[i + 1]);
    }
  }

  /** Write-conflict checks rely on finding the newest write of a key that is newer than the
      earliest write-conflict snapshot. The output keeps a record with exactly that sequence
      number if and only if the key does not start with two SingleDeletes in one stripe. */
  lemma NewestWriteKept(cfg: Config, input: seq<Record>, i: nat)
    requires ValidInput(cfg, input) && i < |input| && KeyBoundary(input, i)
    requires input[i].seqno > cfg.earliestWriteConflict
    ensures HasVersion(Compact(cfg, input), input[i].key, input[i].seqno) <==> !SingleDeletePair(cfg, input, i)
  {
    var prefix, scan := SplitAtKey(cfg, START, input, 0, i);
    NewestStep(cfg, scan, input, i);
    OutputUnfolds(cfg, scan, input, i);
    var o := Step(cfg, scan, input, i);
    if SingleDeletePair(cfg, input, i) {
      VersionIsGone(cfg, input, i, prefix, o);
    } else {
      assert Compact(cfg, input)[|prefix|] == input[i];
    }
  }

  // The output when nothing is handed out for the newest record of a key.
  lemma VersionIsGone(cfg: Config, input: seq<Record>, i: nat, prefix: seq<Record>, o: Outcome)
    requires Sorted(input) && i < |input| && KeyBoundary(input, i) && input[i].seqno > 0
    requires KeysFrom(input, 0, i, prefix) && i < o.next <= |input|
    ensures !HasVersion(prefix + Output(cfg, o.scan, input, o.next), input[i].key, input[i].seqno)
  {
    var tail := Output(cfg, o.scan, input, o.next);
    forall n | 0 <= n < |prefix + tail|
      ensures (prefix + tail)[n].key != input[i].key || (prefix + tail)[n].seqno != input[i].seqno
    {
      if n < |prefix| {
        EarlierKeysDiffer(input, i, prefix[n].key);
      } else {
        OutputComesFromInput(cfg, o.scan, input, o.next, n - |prefix|);
        var j :| o.next <= j < |input| && ComesFrom(cfg, tail[n - |prefix|], input[j]);
        assert Before(input[i], input[j]);
      }
    }
  }
}
