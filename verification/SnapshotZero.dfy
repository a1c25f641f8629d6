/**
 Sequence number 0 stands for "no snapshot" in the iterator. This tells exactly when a snapshot that
 was taken at 0 makes a compaction lose a read.
 */
module SnapshotZero {
  import opened Options
  import opened Records
  import opened CompactionRules
  import opened ReadPreservation
  import opened OutputShape

  /** With a snapshot at 0, a lone record written at 0 is taken for hidden and dropped. */
  lemma LoneRecordIsLost(cfg: Config, input: seq<Record>, i: nat)
    requires cfg.Valid() && Sorted(input) && 0 in cfg.snapshots
    requires i < |input| && !FollowsVersion(input, i) && input[i].seqno == 0 && input[i].kind != SingleDelete
    ensures !Mentions(Compact(cfg, input), input[i].key)
  {
    var prefix, scan := SplitAtKey(cfg, START, input, 0, i);
    assert Stripe(cfg, 0) == 0;
    var o := Step(cfg, scan, input, i);
    assert o.emitted.None? && o.next == i + 1;
    OutputUnfolds(cfg, scan, input, i);
    KeyIsGone(cfg, input, i, prefix, o);
  }

  lemma ZeroIsLast(input: seq<Record>, i: nat)
    requires Sorted(input) && i < |input| && input[i].seqno == 0
    ensures forall j :: i < j < |input| ==> input[j].key != input[i].key
  {
    forall j | i < j < |input| ensures input[j].key != input[i].key {
      assert Before(input[i], input[j]);
    }
  }

  lemma KeyIsGone(cfg: Config, input: seq<Record>, i: nat, prefix: seq<Record>, o: Outcome)
    requires Sorted(input) && i < |input| && KeyBoundary(input, i) && input[i].seqno == 0
    requires KeysFrom(input, 0, i, prefix) && o.next == i + 1
    ensures !Mentions(prefix + Output(cfg, o.scan, input, o.next), input[i].key)
  {
    var tail := Output(cfg, o.scan, input, o.next);
    ZeroIsLast(input, i);
    OutputSkipsKey(cfg, o.scan, input, i + 1, input[i].key);
    forall n | 0 <= n < |prefix + tail| ensures (prefix + tail)[n].key != input[i].key {
      if n < |prefix| {
        EarlierKeysDiffer(input, i, prefix[n].key);
      }
    }
  }

  ghost predicate Preserved(cfg: Config, input: seq<Record>, deeper: seq<Record>, key: UserKey, s: SeqNo) {
    Read(Compact(cfg, input) + deeper, key, s) == Read(input + deeper, key, s)
  }

  /** Every live read of every key is preserved, over all deeper levels that the compaction's answers are
      true of and with which SingleDelete is used as documented. */
  ghost predicate AllPreserved(cfg: Config, input: seq<Record>) {
    forall deeper: seq<Record>, key: UserKey, s: SeqNo ::
      cfg.Live(s) && DeeperAgrees(cfg, deeper, key) && Disciplined(input, deeper, key) ==> Preserved(cfg, input, deeper, key, s)
  }

  // Deeper content that shows the loss of a lone record.
  lemma LossShows(cfg: Config, input: seq<Record>, i: nat)
    requires cfg.Valid() && Sorted(input) && i < |input| && LostAtZero(cfg, input, i) && !FollowsVersion(input, i)
    ensures !AllPreserved(cfg, input)
  {
    hide Step, Output;
    var r := input[i];
    var deeper := if r.kind == Put then [] else [Record(r.key, 0, Put, "")];
    assert r.kind != Put ==> deeper[0].key == r.key;
    LoneRecordIsLost(cfg, input, i);
    UnmentionedKey(Compact(cfg, input), r.key, 0);
    VisibleConcat(Compact(cfg, input), deeper, r.key, 0);
    VisibleConcat(input, deeper, r.key, 0);
    VisibleAtZero(input, i);
    assert !Preserved(cfg, input, deeper, r.key, 0);
    LoneHasNoSingleDelete(input, i);
  }

  lemma LoneHasNoSingleDelete(input: seq<Record>, i: nat)
    requires Sorted(input) && i < |input| && input[i].seqno == 0 && !FollowsVersion(input, i) && input[i].kind != SingleDelete
    ensures NoSingleDelete(input, input[i].key)
  {
    forall j | 0 <= j < |input| && input[j].key == input[i].key ensures j == i {
      ZeroIsLast(input, i);
      if j < i { EarlierKeysDiffer(input, i, input[j].key); }
    }
  }

  lemma VisibleAtZero(input: seq<Record>, i: nat)
    requires Sorted(input) && i < |input| && input[i].seqno == 0
    ensures Visible(input, input[i].key, 0) == Some(input[i])
  {
    var before := input[..i];
    assert input == before + input[i..];
    forall n | 0 <= n < |before| ensures before[n].key != input[i].key || before[n].seqno > 0 {
      assert Before(input[n], input[i]);
    }
    VisibleConcat(before, input[i..], input[i].key, 0);
  }

  // ---- A SingleDelete over a record at 0 ----

  // Every record of the key at sequence number 0 is an emptied Put.
  predicate Emptied(records: seq<Record>, key: UserKey) {
    forall n :: 0 <= n < |records| && records[n].key == key && records[n].seqno == 0 ==> records[n].value == ""
  }

  lemma PairStep(cfg: Config, scan: Scan, input: seq<Record>, i: nat)
    requires 0 < i < |input| && FollowsVersion(input, i) && input[i - 1].kind == SingleDelete && input[i].kind == Put
    requires SharesStripe(cfg, input[i - 1], input[i]) && !scan.clearNext
    ensures var o := Step(cfg, scan, input, i - 1);
            if o.next == i + 1 then o.emitted.None?
            else o.next == i && Step(cfg, o.scan, input, i).next == i + 1
                 && Step(cfg, o.scan, input, i).emitted == Some(input[i].(value := ""))
  {
  }

  lemma PairEnds(cfg: Config, scan: Scan, input: seq<Record>, i: nat)
    requires Sorted(input) && 0 < i < |input| && FollowsVersion(input, i) && input[i - 1].kind == SingleDelete && input[i].kind == Put
    requires input[i].seqno == 0 && SharesStripe(cfg, input[i - 1], input[i]) && !scan.clearNext
    requires cfg.EarliestSnapshot() == 0
    ensures Emptied(Output(cfg, scan, input, i - 1), input[i].key)
  {
    hide Output, Step, KeyAbsentBeyondOutput, SharesStripe;
    var o := Step(cfg, scan, input, i - 1);
    StepShape(cfg, scan, input, i - 1);
    OutputUnfolds(cfg, scan, input, i - 1);
    PairStep(cfg, scan, input, i);
    ZeroIsLast(input, i);
    assert Before(input[i - 1], input[i]);
    if o.next == i + 1 {
      OutputSkipsKey(cfg, o.scan, input, i + 1, input[i].key);
    } else {
      OutputUnfolds(cfg, o.scan, input, i);
      OutputSkipsKey(cfg, Step(cfg, o.scan, input, i).scan, input, i + 1, input[i].key);
    }
  }

  /** The pair is dropped, or handed out with an emptied value. */
  lemma {:induction false} PairIsLost(cfg: Config, scan: Scan, input: seq<Record>, p: nat, i: nat)
    requires cfg.Valid() && Sorted(input) && i < |input| && LostAtZero(cfg, input, i) && FollowsVersion(input, i)
    requires input[i].kind == Put && p < i && (scan.clearNext ==> p < i - 1)
    ensures Emptied(Output(cfg, scan, input, p), input[i].key)
    decreases i - p
  {
    hide Output, Step, KeyAbsentBeyondOutput, SharesStripe;
    EarliestIsLeast(cfg, 0);
    if p < i - 1 {
      var o := Step(cfg, scan, input, p);
      StepShape(cfg, scan, input, p);
      OutputUnfolds(cfg, scan, input, p);
      PairIsLost(cfg, o.scan, input, o.next, i);
      assert Before(input[p], input[i]);
    } else {
      PairEnds(cfg, scan, input, i);
    }
  }

  /** A snapshot at 0 that saw a value under a SingleDelete does not see it any more. */
  lemma PairLosesValue(cfg: Config, input: seq<Record>, i: nat)
    requires cfg.Valid() && Sorted(input) && i < |input| && LostAtZero(cfg, input, i) && FollowsVersion(input, i)
    requires input[i].kind == Put && input[i].value != ""
    ensures cfg.Live(0) && Read(input, input[i].key, 0) == Some(input[i].value)
    ensures Read(Compact(cfg, input), input[i].key, 0) != Some(input[i].value)
  {
    PairIsLost(cfg, START, input, 0, i);
    VisibleAtZero(input, i);
  }

  // ---- Exactly when ----

  // The version under a SingleDelete is a Put, in a history that alternates.
  lemma UnderSingleDelete(input: seq<Record>, i: nat)
    requires i < |input| && FollowsVersion(input, i) && input[i - 1].kind == SingleDelete && Disciplined(input, [], input[i].key)
    ensures input[i].kind == Put
  {
    var key := input[i].key;
    assert input[0..] == input;
    DisciplinedTail(input, 0, i - 1, [], key);
    assert !NoSingleDelete(input[i - 1..], key) by { assert input[i - 1..][0] == input[i - 1]; }
    PairHistory(input, [], i - 1, key);
  }

  // A SingleDelete over an empty value at 0 makes no difference to a read there when both are kept.
  predicate NoEmptyValueUnderSingleDelete(input: seq<Record>) {
    forall i: nat :: i < |input| && FollowsVersion(input, i) && input[i - 1].kind == SingleDelete && input[i].seqno == 0 ==>
      input[i].value != ""
  }

  lemma PairShows(cfg: Config, input: seq<Record>, i: nat)
    requires cfg.Valid() && Sorted(input) && i < |input| && LostAtZero(cfg, input, i) && FollowsVersion(input, i)
    requires Disciplined(input, [], input[i].key) && input[i].value != ""
    ensures !AllPreserved(cfg, input)
  {
    hide Step, Compact, Read, Disciplined, Visible;
    UnderSingleDelete(input, i);
    PairLosesValue(cfg, input, i);
    assert Compact(cfg, input) + [] == Compact(cfg, input) && input + [] == input;
    assert !Preserved(cfg, input, [], input[i].key, 0);
  }

  /** The condition is exact: where SingleDelete is used as documented, every live read is preserved if and
      only if no record is lost at snapshot 0. */
  lemma PreservedExactly(cfg: Config, input: seq<Record>)
    requires cfg.Valid() && Sorted(input) && SeqNosInRange(input)
    requires (forall key :: Disciplined(input, [], key)) && NoEmptyValueUnderSingleDelete(input)
    ensures AllPreserved(cfg, input) <==> NoneLostAtZero(cfg, input)
  {
    hide Step, Compact, Read, DeeperAgrees, SharesStripe, Sorted, Disciplined;
    if NoneLostAtZero(cfg, input) {
      forall deeper: seq<Record>, key: UserKey, s: SeqNo
        | cfg.Live(s) && DeeperAgrees(cfg, deeper, key) && Disciplined(input, deeper, key)
        ensures Preserved(cfg, input, deeper, key, s)
      {
        ReadsPreserved(cfg, input, [], deeper, key, s);
        assert [] + (Compact(cfg, input) + deeper) == Compact(cfg, input) + deeper && [] + (input + deeper) == input + deeper;
      }
    } else {
      var i: nat :| i < |input| && LostAtZero(cfg, input, i);
      if FollowsVersion(input, i) { PairShows(cfg, input, i); } else { LossShows(cfg, input, i); }
    }
  }

  // A compaction to level 1 of one record, as an ingested file has it.
  const LOST_CFG := Config([0], 0, Some(Compaction(false, true, 1, [[], [], []], 7, 7, false, false)), 0)

  lemma LostReadExample()
    ensures var input := [Record(7, 0, Put, "v")];
            && LOST_CFG.Valid() && Sorted(input) && LOST_CFG.Live(0)
            && Read(input, 7, 0) == Some("v") && Read(Compact(LOST_CFG, input), 7, 0) == None
  {
    var input := [Record(7, 0, Put, "v")];
    LoneRecordIsLost(LOST_CFG, input, 0);
    UnmentionedKey(Compact(LOST_CFG, input), 7, 0);
  }
}
