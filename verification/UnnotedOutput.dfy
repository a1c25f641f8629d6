/**
 SeekToFirst does not note that the current key has been output. This tells exactly when that changes
 what is written: the two runs from one position that differ in whether a record was handed out before.
 */
module UnnotedOutput {
  import opened Options
  import opened Records
  import opened CompactionRules
  import opened ReadPreservation

  /** A SingleDelete and a version below it with the same readers, written after the write-conflict
      snapshot: both are dropped if the key was noted as output, and kept otherwise. */
  predicate KeptPair(cfg: Config, input: seq<Record>, i: nat) {
    && i + 1 < |input| && input[i].kind == SingleDelete
    && input[i + 1].key == input[i].key && input[i + 1].kind != SingleDelete
    && SharesStripe(cfg, input[i], input[i + 1]) && input[i].seqno > cfg.earliestWriteConflict
  }

  /** From position i, the current key meets such a pair before it is output again. */
  predicate MeetsPair(cfg: Config, scan: Scan, input: seq<Record>, i: nat)
    requires i <= |input|
    decreases |input| - i
  {
    && i < |input| && !IsNewKey(scan, input[i]) && !scan.clearNext
    && (KeptPair(cfg, input, i)
        || (Step(cfg, scan, input, i).emitted.None?
            && MeetsPair(cfg, Step(cfg, scan, input, i).scan, input, Step(cfg, scan, input, i).next)))
  }

  /** The key of the first record that is output from position i on does. */
  predicate FirstMeetsPair(cfg: Config, scan: Scan, input: seq<Record>, i: nat)
    requires i <= |input|
    decreases |input| - i
  {
    i < |input| &&
    var o := Step(cfg, scan, input, i);
    if o.emitted.None? then FirstMeetsPair(cfg, o.scan, input, o.next) else MeetsPair(cfg, o.scan, input, o.next)
  }

  // One run noted the current key as output, the other did not.
  predicate NotedOnly(a: Scan, b: Scan) {
    a == b.(outputtedKey := true) && !b.outputtedKey && b.returned
  }

  lemma NotedStep(cfg: Config, a: Scan, b: Scan, input: seq<Record>, i: nat)
    requires i < |input| && NotedOnly(a, b)
    ensures var x, y := Step(cfg, a, input, i), Step(cfg, b, input, i);
            if IsNewKey(b, input[i]) || b.clearNext then x == y
            else if KeptPair(cfg, input, i) then
              && x.emitted.None? && x.next == i + 2 && x.scan == Look(cfg, a, input[i])
              && y == Outcome(x.scan.(clearNext := true), i + 1, Some(input[i]))
            else
              x.emitted == y.emitted && x.next == y.next && if y.emitted.Some? then x.scan == y.scan else NotedOnly(x.scan, y.scan)
  {
  }

  lemma SharedStripe(cfg: Config, r: Record, next: Record)
    requires cfg.Valid() && SharesStripe(cfg, r, next) && 0 < next.seqno <= r.seqno
    ensures Stripe(cfg, next.seqno) == Stripe(cfg, r.seqno)
  {
  }

  // The run that keeps the pair outputs two records more, and then both runs are the same again.
  lemma PairKept(cfg: Config, a: Scan, b: Scan, input: seq<Record>, i: nat)
    requires cfg.Valid() && Sorted(input) && NotedOnly(a, b) && KeptPair(cfg, input, i) && !IsNewKey(b, input[i]) && !b.clearNext
    ensures |Output(cfg, b, input, i)| == |Output(cfg, a, input, i)| + 2
  {
    NotedStep(cfg, a, b, input, i);
    OutputUnfolds(cfg, a, input, i);
    OutputUnfolds(cfg, b, input, i);
    var x, y := Step(cfg, a, input, i), Step(cfg, b, input, i);
    ClearedStep(cfg, y.scan, input, i + 1);
    OutputUnfolds(cfg, y.scan, input, i + 1);
    var z := Step(cfg, y.scan, input, i + 1);
    hide Step, Output;
    assert Before(input[i], input[i + 1]);
    if input[i + 1].seqno > 0 {
      SharedStripe(cfg, input[i], input[i + 1]);
      assert z.scan == x.scan;
    } else {
      if i + 2 < |input| { assert Before(input[i + 1], input[i + 2]); }
      SameAtNewKey(cfg, x.scan, z.scan, input, i + 2);
    }
  }

  lemma ClearedStep(cfg: Config, scan: Scan, input: seq<Record>, i: nat)
    requires i < |input| && scan.clearNext && scan.hasKey && scan.key == input[i].key && scan.outputtedKey
    ensures Step(cfg, scan, input, i) ==
            Outcome(scan.(stripe := Stripe(cfg, input[i].seqno), clearNext := false, returned := true), i + 1, Some(input[i].(value := "")))
  {
  }

  // A new key is treated the same whatever came before, but for whether something was handed out.
  lemma SameAtNewKey(cfg: Config, a: Scan, b: Scan, input: seq<Record>, i: nat)
    requires i <= |input| && !a.clearNext && !b.clearNext && a.returned == b.returned
    requires i < |input| ==> IsNewKey(a, input[i]) && IsNewKey(b, input[i])
    ensures Output(cfg, a, input, i) == Output(cfg, b, input, i)
    ensures FirstMeetsPair(cfg, a, input, i) == FirstMeetsPair(cfg, b, input, i)
  {
    if i < |input| { assert Step(cfg, a, input, i) == Step(cfg, b, input, i); }
  }

  lemma {:induction false} NotedDiffers(cfg: Config, a: Scan, b: Scan, input: seq<Record>, i: nat)
    requires cfg.Valid() && Sorted(input) && i <= |input| && NotedOnly(a, b)
    ensures if MeetsPair(cfg, b, input, i) then |Output(cfg, b, input, i)| == |Output(cfg, a, input, i)| + 2
            else Output(cfg, b, input, i) == Output(cfg, a, input, i)
    decreases |input| - i
  {
    if i < |input| {
      NotedStep(cfg, a, b, input, i);
      OutputUnfolds(cfg, a, input, i);
      OutputUnfolds(cfg, b, input, i);
      hide Step, Output, KeptPair;
      if IsNewKey(b, input[i]) || b.clearNext {
      } else if KeptPair(cfg, input, i) {
        PairKept(cfg, a, b, input, i);
      } else if Step(cfg, b, input, i).emitted.None? {
        NotedDiffers(cfg, Step(cfg, a, input, i).scan, Step(cfg, b, input, i).scan, input, Step(cfg, b, input, i).next);
      }
    }
  }

  lemma UnnotedStep(cfg: Config, a: Scan, b: Scan, input: seq<Record>, i: nat)
    requires i < |input| && a == b.(returned := true) && !b.returned && !b.outputtedKey
    ensures var x, y := Step(cfg, a, input, i), Step(cfg, b, input, i);
            && x.emitted == y.emitted && x.next == y.next
            && if y.emitted.Some? then NotedOnly(x.scan, y.scan)
               else x.scan == y.scan.(returned := true) && !y.scan.returned && !y.scan.outputtedKey
  {
  }

  /** Two runs from one position, of which only the first has handed out a record before, write the same,
      or the second writes exactly two records more. */
  lemma {:induction false} UnnotedDiffers(cfg: Config, a: Scan, b: Scan, input: seq<Record>, i: nat)
    requires cfg.Valid() && Sorted(input) && i <= |input| && a == b.(returned := true) && !b.returned && !b.outputtedKey
    ensures if FirstMeetsPair(cfg, b, input, i) then |Output(cfg, b, input, i)| == |Output(cfg, a, input, i)| + 2
            else Output(cfg, b, input, i) == Output(cfg, a, input, i)
    decreases |input| - i
  {
    if i < |input| {
      UnnotedStep(cfg, a, b, input, i);
      OutputUnfolds(cfg, a, input, i);
      OutputUnfolds(cfg, b, input, i);
      hide Step, Output;
      var x, y := Step(cfg, a, input, i), Step(cfg, b, input, i);
      if y.emitted.None? {
        UnnotedDiffers(cfg, x.scan, y.scan, input, y.next);
      } else {
        NotedDiffers(cfg, x.scan, y.scan, input, y.next);
      }
    }
  }

  /** Without such pairs there is no difference. */
  lemma {:induction false} NoPairNoDifference(cfg: Config, scan: Scan, input: seq<Record>, i: nat)
    requires i <= |input| && forall m: nat :: i <= m ==> !KeptPair(cfg, input, m)
    ensures !MeetsPair(cfg, scan, input, i) && !FirstMeetsPair(cfg, scan, input, i)
    decreases |input| - i
  {
    if i < |input| {
      NoPairNoDifference(cfg, Step(cfg, scan, input, i).scan, input, Step(cfg, scan, input, i).next);
    }
  }
}
