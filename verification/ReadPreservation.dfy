/**
 A compaction preserves meaning: every read at every live sequence number gives the same answer
 over the compaction's output as over its input.
 */
module ReadPreservation {
  import opened Options
  import opened Records
  import opened CompactionRules

  predicate FollowsVersion(input: seq<Record>, i: nat)
    requires i < |input|
  {
    i > 0 && input[i - 1].key == input[i].key
  }

  /** Sequence number 0 doubles as "no snapshot" in the iterator. With a snapshot taken at 0, a record
      at 0 is lost if it is the only version of its key, or if it follows a SingleDelete that no other
      snapshot separates from it. A lone Delete may be lost if nothing of its key lies deeper. */
  predicate LostAtZero(cfg: Config, input: seq<Record>, i: nat)
    requires i < |input|
  {
    && 0 in cfg.snapshots && input[i].seqno == 0
    && if FollowsVersion(input, i)
       then input[i - 1].kind == SingleDelete && SharesStripe(cfg, input[i - 1], input[i])
       else input[i].kind == Put || (input[i].kind == Delete && !cfg.CanDropTombstone(input[i].key))
  }

  predicate NoneLostAtZero(cfg: Config, input: seq<Record>) {
    forall i: nat :: i < |input| ==> !LostAtZero(cfg, input, i)
  }

  ghost predicate ValidInput(cfg: Config, input: seq<Record>) {
    cfg.Valid() && Sorted(input) && SeqNosInRange(input) && NoneLostAtZero(cfg, input)
  }

  // What the scan state says about the input position it stands at.
  ghost predicate At(cfg: Config, scan: Scan, input: seq<Record>, i: nat) {
    && i <= |input|
    && (scan.hasKey ==> i > 0 && scan.key == input[i - 1].key && scan.stripe == Stripe(cfg, input[i - 1].seqno))
    && (!scan.hasKey && 0 < i < |input| ==> input[i].key != input[i - 1].key)
    && (scan.clearNext ==> i < |input| && scan.hasKey && scan.key == input[i].key
                           && scan.stripe == Stripe(cfg, input[i].seqno)
                           && scan.stripe > cfg.EarliestSnapshot()
                           && input[i].kind != SingleDelete)
  }

  lemma SharesStripeMeansSameReaders(cfg: Config, r: Record, next: Record)
    requires cfg.Valid() && r.key == next.key && Before(r, next) && r.seqno <= MAX_SEQ
    requires 0 in cfg.snapshots && next.seqno == 0 ==> !SharesStripe(cfg, r, next)
    ensures SharesStripe(cfg, r, next) <==> Stripe(cfg, r.seqno) == Stripe(cfg, next.seqno)
  {
    var s, t := Stripe(cfg, r.seqno), Stripe(cfg, next.seqno);
    StripeIsLeastLive(cfg, r.seqno, MAX_SEQ);
    StripeIsLeastLive(cfg, next.seqno, s);
    StripeIsLeastLive(cfg, r.seqno, t);
    PrevSnapshotIsGreatest(cfg, r.seqno, t);
    var p := PrevSnapshot(cfg, r.seqno);
    if p != 0 { StripeIsLeastLive(cfg, next.seqno, p); }
  }

  // The shape of one step, without the rules that led to it.
  lemma StepShape(cfg: Config, scan: Scan, input: seq<Record>, i: nat)
    requires i < |input|
    ensures var o := Step(cfg, scan, input, i);
            && (o.next == i + 1 || (o.next == i + 2 <= |input| && o.emitted.None? && !scan.clearNext
                                    && input[i].kind == SingleDelete && input[i + 1].key == input[i].key
                                    && input[i + 1].kind != SingleDelete && SharesStripe(cfg, input[i], input[i + 1])))
            && o.scan.key == input[i].key && o.scan.stripe == Stripe(cfg, input[i].seqno)
            && (!o.scan.hasKey ==> i + 1 < |input| ==> input[i + 1].key != input[i].key)
            && (o.emitted.Some? ==> o.emitted.value == if scan.clearNext then input[i].(value := "") else input[i])
            && (o.scan.clearNext ==> o.scan.hasKey && i + 1 < |input| && input[i + 1].key == input[i].key
                                     && SharesStripe(cfg, input[i], input[i + 1])
                                     && input[i].seqno > cfg.earliestWriteConflict
                                     && input[i + 1].kind != SingleDelete && o.next == i + 1)
  {
  }

  lemma StepKeepsAt(cfg: Config, scan: Scan, input: seq<Record>, i: nat)
    requires ValidInput(cfg, input) && i < |input| && At(cfg, scan, input, i)
    ensures At(cfg, Step(cfg, scan, input, i).scan, input, Step(cfg, scan, input, i).next)
  {
    StepShape(cfg, scan, input, i);
    var r := input[i];
    if r.kind == SingleDelete && i + 1 < |input| && input[i + 1].key == r.key && SharesStripe(cfg, r, input[i + 1]) {
      assert Before(r, input[i + 1]) && FollowsVersion(input, i + 1) && !LostAtZero(cfg, input, i + 1);
      SharesStripeMeansSameReaders(cfg, r, input[i + 1]);
      StripeIsLeastLive(cfg, r.seqno, cfg.EarliestSnapshot());
    }
  }

  lemma OutputUnfolds(cfg: Config, scan: Scan, input: seq<Record>, i: nat)
    requires i < |input|
    ensures var o := Step(cfg, scan, input, i);
            var rest := Output(cfg, o.scan, input, o.next);
            Output(cfg, scan, input, i)
            == (if o.emitted.Some? then [Prepare(cfg, o.emitted.value)] + rest else rest)
            && (o.next == |input| ==> rest == [])
  {
  }

  /** Every output record is an input record, with its sequence number kept or zeroed. */
  lemma {:induction false} OutputComesFromInput(cfg: Config, scan: Scan, input: seq<Record>, i: nat, n: nat)
    requires i < |input| && n < |Output(cfg, scan, input, i)|
    ensures exists j :: i <= j < |input| && ComesFrom(cfg, Output(cfg, scan, input, i)[n], input[j])
    decreases |input| - i
  {
    OutputUnfolds(cfg, scan, input, i);
    StepShape(cfg, scan, input, i);
    hide Step, Output, KeyAbsentBeyondOutput;
    var o := Step(cfg, scan, input, i);
    if o.emitted.Some? && n == 0 {
      assert ComesFrom(cfg, Output(cfg, scan, input, i)[n], input[i]);
    } else {
      OutputComesFromInput(cfg, o.scan, input, o.next, if o.emitted.Some? then n - 1 else n);
    }
  }

  predicate ComesFrom(cfg: Config, out: Record, r: Record) {
    && out.key == r.key && out.kind == r.kind
    && (out.seqno == r.seqno || (out.seqno == 0 && CanZero(cfg, r)))
    && (out.value == r.value || out.value == "")
  }

  lemma OutputSkipsKey(cfg: Config, scan: Scan, input: seq<Record>, i: nat, key: UserKey)
    requires i <= |input| && forall j :: i <= j < |input| ==> input[j].key != key
    ensures !Mentions(Output(cfg, scan, input, i), key)
  {
    forall n | 0 <= n < |Output(cfg, scan, input, i)| ensures Output(cfg, scan, input, i)[n].key != key {
      OutputComesFromInput(cfg, scan, input, i, n);
    }
  }

  // The iterator has passed a record of `key`, so the key's remaining records follow directly.
  lemma KeyEnds(input: seq<Record>, i: nat, key: UserKey)
    requires Sorted(input) && 0 < i <= |input| && input[i - 1].key == key
    requires i < |input| ==> input[i].key != key
    ensures forall j :: i <= j < |input| ==> input[j].key != key
  {
    forall j | i <= j < |input| ensures input[j].key != key {
      assert Before(input[i - 1], input[j]) && Before(input[i - 1], input[i]);
      if i < j { assert Before(input[i], input[j]); }
    }
  }

  /** Once a key that is absent below has been settled in the earliest stripe, nothing more is
      handed out for it. */
  lemma {:induction false} NothingAfterSettled(cfg: Config, scan: Scan, input: seq<Record>, i: nat, key: UserKey)
    requires ValidInput(cfg, input) && 0 < i <= |input| && At(cfg, scan, input, i)
    requires input[i - 1].key == key && input[i - 1].seqno <= cfg.EarliestSnapshot()
    requires !scan.clearNext && cfg.CanDropTombstone(key)
    ensures !Mentions(Output(cfg, scan, input, i), key)
    decreases |input| - i
  {
    if i == |input| || input[i].key != key {
      KeyEnds(input, i, key);
      OutputSkipsKey(cfg, scan, input, i, key);
    } else {
      SettledStepEmitsNothing(cfg, scan, input, i, key);
      StepKeepsAt(cfg, scan, input, i);
      StepShape(cfg, scan, input, i);
      hide Step, KeyAbsentBeyondOutput;
      var o := Step(cfg, scan, input, i);
      assert Before(input[i - 1], input[i]);
      if o.next == i + 2 { assert Before(input[i], input[i + 1]); }
      NothingAfterSettled(cfg, o.scan, input, o.next, key);
    }
  }

  lemma InEarliestStripe(cfg: Config, seqno: SeqNo)
    requires cfg.Valid() && seqno <= cfg.EarliestSnapshot()
    ensures Stripe(cfg, seqno) == cfg.EarliestSnapshot() && PrevSnapshot(cfg, seqno) == 0
  {
  }

  lemma SettledStepEmitsNothing(cfg: Config, scan: Scan, input: seq<Record>, i: nat, key: UserKey)
    requires ValidInput(cfg, input) && 0 < i < |input| && At(cfg, scan, input, i)
    requires input[i - 1].key == input[i].key == key && input[i - 1].seqno <= cfg.EarliestSnapshot()
    requires !scan.clearNext && cfg.CanDropTombstone(key)
    ensures var o := Step(cfg, scan, input, i); o.emitted.None? && !o.scan.clearNext
  {
    assert Before(input[i - 1], input[i]);
    InEarliestStripe(cfg, input[i].seqno);
    InEarliestStripe(cfg, input[i - 1].seqno);
  }

  lemma EarliestIsLeast(cfg: Config, s: SeqNo)
    requires cfg.Valid() && cfg.Live(s)
    ensures cfg.Live(cfg.EarliestSnapshot()) && cfg.EarliestSnapshot() <= s
  {
    if s in cfg.snapshots {
      var j :| 0 <= j < |cfg.snapshots| && cfg.snapshots[j] == s;
      assert j > 0 ==> cfg.snapshots[0] <= cfg.snapshots[j];
    } else if cfg.snapshots != [] {
      assert cfg.snapshots[0] in cfg.snapshots;
    }
  }

  /** The contract of the deeper levels: a key the compaction takes for absent is absent. */
  ghost predicate DeeperAgrees(cfg: Config, deeper: seq<Record>, key: UserKey) {
    cfg.CanDropTombstone(key) ==> !Mentions(deeper, key)
  }

  // The documented use of SingleDelete, newest version first: every SingleDelete removes exactly
  // one Put, and Delete is not mixed in.
  predicate Alternates(h: seq<Record>) {
    && (forall i :: 0 <= i < |h| ==> h[i].kind != Delete)
    && (forall i :: 0 <= i < |h| - 1 ==> h[i].kind != h[i + 1].kind && h[i].seqno > h[i + 1].seqno)
    && (h != [] ==> h[|h| - 1].kind == Put)
  }

  predicate NoSingleDelete(records: seq<Record>, key: UserKey) {
    forall i :: 0 <= i < |records| && records[i].key == key ==> records[i].kind != SingleDelete
  }

  predicate Disciplined(input: seq<Record>, deeper: seq<Record>, key: UserKey) {
    NoSingleDelete(input, key) || Alternates(History(input + deeper, key))
  }

  lemma AlternatesTail(h: seq<Record>, n: nat)
    requires Alternates(h) && n <= |h|
    ensures Alternates(h[n..])
  {
    var t := h[n..];
    forall i | 0 <= i < |t| - 1 ensures t[i].kind != t[i + 1].kind && t[i].seqno > t[i + 1].seqno {
      assert t[i] == h[n + i] && t[i + 1] == h[n + i + 1];
    }
  }

  // History of the input from position i on, one record at a time.
  lemma HistoryUnfolds(input: seq<Record>, deeper: seq<Record>, i: nat, key: UserKey)
    requires i < |input|
    ensures History(input[i..] + deeper, key)
            == (if input[i].key == key then [input[i]] else []) + History(input[i + 1..] + deeper, key)
  {
    assert (input[i..] + deeper)[1..] == input[i + 1..] + deeper;
  }

  lemma HistoryOfRest(input: seq<Record>, deeper: seq<Record>, i: nat, key: UserKey)
    requires i <= |input| && forall j :: i <= j < |input| ==> input[j].key != key
    ensures History(input[i..] + deeper, key) == History(deeper, key)
  {
    HistoryConcat(input[i..], deeper, key);
    assert !Mentions(input[i..], key);
    UnmentionedKey(input[i..], key, 0);
  }

  /** After a SingleDelete and its Put were dropped, the key still reads as absent. */
  lemma {:induction false} AbsentAfterPair(cfg: Config, scan: Scan, input: seq<Record>, i: nat,
                                           deeper: seq<Record>, key: UserKey, s: SeqNo)
    requires ValidInput(cfg, input) && 0 < i <= |input| && At(cfg, scan, input, i) && !scan.clearNext
    requires cfg.Live(s) && DeeperAgrees(cfg, deeper, key)
    requires input[i - 1].key == key && input[i - 1].seqno <= s
    requires var h := History(input[i..] + deeper, key);
             Alternates(h) && (h != [] ==> h[0].kind == SingleDelete && h[0].seqno <= s)
    ensures Read(Output(cfg, scan, input, i) + deeper, key, s) == None
    decreases |input| - i
  {
    var h := History(input[i..] + deeper, key);
    var out := Output(cfg, scan, input, i);
    VisibleConcat(out, deeper, key, s);
    if i == |input| || input[i].key != key {
      KeyEnds(input, i, key);
      OutputSkipsKey(cfg, scan, input, i, key);
      UnmentionedKey(out, key, s);
      HistoryOfRest(input, deeper, i, key);
      VisibleInHistory(deeper, key, s);
    } else {
      HistoryUnfolds(input, deeper, i, key);
      assert input[i] == h[0];
      SingleDeleteReadsAbsent(cfg, scan, input, i, deeper, key, s);
    }
  }

  // The three ways to treat a SingleDelete in a history that alternates.
  lemma SingleDeleteShape(cfg: Config, scan: Scan, input: seq<Record>, i: nat)
    requires i < |input| && input[i].kind == SingleDelete && !scan.clearNext
    ensures var o := Step(cfg, scan, input, i);
            || o.emitted == Some(input[i])
            || (o.emitted.None? && i + 1 < |input| && input[i + 1].key == input[i].key
                && !o.scan.clearNext && o.next == if input[i + 1].kind == SingleDelete then i + 1 else i + 2)
            || (o.emitted.None? && (i + 1 < |input| ==> input[i + 1].key != input[i].key)
                && o.next == i + 1 && cfg.CanDropTombstone(input[i].key))
  {
  }

  /** A visible SingleDelete makes the key absent, whichever way the iterator treats it. */
  lemma {:induction false} SingleDeleteReadsAbsent(cfg: Config, scan: Scan, input: seq<Record>, i: nat,
                                                   deeper: seq<Record>, key: UserKey, s: SeqNo)
    requires ValidInput(cfg, input) && i < |input| && At(cfg, scan, input, i) && !scan.clearNext
    requires cfg.Live(s) && DeeperAgrees(cfg, deeper, key)
    requires input[i].key == key && input[i].kind == SingleDelete && input[i].seqno <= s
    requires Alternates(History(input[i..] + deeper, key))
    ensures Read(Output(cfg, scan, input, i) + deeper, key, s) == None
    decreases |input| - i, 1
  {
    var out := Output(cfg, scan, input, i);
    var o := Step(cfg, scan, input, i);
    SingleDeleteShape(cfg, scan, input, i);
    OutputUnfolds(cfg, scan, input, i);
    StepKeepsAt(cfg, scan, input, i);
    if o.emitted.Some? {
      assert (out + deeper)[0] == Prepare(cfg, input[i]);
    } else if i + 1 < |input| && input[i + 1].key == key {
      PairHistory(input, deeper, i, key);
      AbsentAfterPair(cfg, o.scan, input, i + 2, deeper, key, s);
    } else {
      KeyEnds(input, i + 1, key);
      OutputSkipsKey(cfg, o.scan, input, o.next, key);
      VisibleConcat(out, deeper, key, s);
      UnmentionedKey(out, key, s);
      UnmentionedKey(deeper, key, s);
    }
  }

  lemma PairHistory(input: seq<Record>, deeper: seq<Record>, i: nat, key: UserKey)
    requires i + 1 < |input| && input[i].key == key && input[i + 1].key == key
    requires input[i].kind == SingleDelete && Alternates(History(input[i..] + deeper, key))
    ensures input[i + 1].kind == Put && input[i].seqno > input[i + 1].seqno
    ensures var t := History(input[i + 2..] + deeper, key);
            Alternates(t) && (t != [] ==> t[0].kind == SingleDelete && t[0].seqno < input[i + 1].seqno)
  {
    var h := History(input[i..] + deeper, key);
    HistoryUnfolds(input, deeper, i, key);
    HistoryUnfolds(input, deeper, i + 1, key);
    assert h[0] == input[i] && h[1] == input[i + 1] && h[0].kind != h[0 + 1].kind;
    assert History(input[i + 2..] + deeper, key) == h[2..];
    if |h| > 2 { assert h[1].kind != h[1 + 1].kind; }
    AlternatesTail(h, 2);
  }

  /** The induction behind ReadsPreserved: `s` has not been answered by the records passed so far. */
  lemma {:induction false} ReadsPreservedFrom(cfg: Config, scan: Scan, input: seq<Record>, i: nat,
                                              deeper: seq<Record>, key: UserKey, s: SeqNo)
    requires ValidInput(cfg, input) && At(cfg, scan, input, i)
    requires cfg.Live(s) && DeeperAgrees(cfg, deeper, key)
    requires Disciplined(input[i..], deeper, key)
    requires i > 0 && input[i - 1].key == key ==> input[i - 1].seqno > s
    ensures Read(Output(cfg, scan, input, i) + deeper, key, s) == Read(input[i..] + deeper, key, s)
    decreases |input| - i
  {
    hide Step, Visible, Disciplined, KeyAbsentBeyondOutput;
    if i < |input| {
      StepKeepsAt(cfg, scan, input, i);
      if input[i].key == key && input[i].seqno <= s {
        NewestVisible(cfg, scan, input, i, deeper, key, s);
      } else {
        var o := Step(cfg, scan, input, i);
        NotVisibleYet(cfg, scan, input, i, deeper, key, s, o);
        ReadsPreservedFrom(cfg, o.scan, input, o.next, deeper, key, s);
        OutputPassesOver(cfg, scan, input, i, deeper, key, s, o);
      }
    } else {
      assert input[i..] == [];
    }
  }

  lemma DisciplinedTail(input: seq<Record>, i: nat, j: nat, deeper: seq<Record>, key: UserKey)
    requires i <= j <= |input| && Disciplined(input[i..], deeper, key)
    ensures Disciplined(input[j..], deeper, key)
  {
    var a, b := input[i..j], input[j..];
    assert input[i..] == a + b;
    assert a + b + deeper == a + (b + deeper);
    HistoryConcat(a, b + deeper, key);
    var h := History(a + b + deeper, key);
    assert h[|History(a, key)|..] == History(b + deeper, key);
    if Alternates(h) { AlternatesTail(h, |History(a, key)|); }
    if NoSingleDelete(a + b, key) {
      forall n | 0 <= n < |b| && b[n].key == key ensures b[n].kind != SingleDelete {
        assert (a + b)[|a| + n] == b[n];
      }
    }
  }

  // Passing over records that `s` does not see.
  lemma {:induction false} PassOver(input: seq<Record>, i: nat, j: nat, deeper: seq<Record>, key: UserKey, s: SeqNo)
    requires i <= j <= |input|
    requires forall n :: i <= n < j ==> input[n].key != key || input[n].seqno > s
    ensures Visible(input[i..] + deeper, key, s) == Visible(input[j..] + deeper, key, s)
    decreases j - i
  {
    if i < j {
      assert (input[i..] + deeper)[1..] == input[i + 1..] + deeper;
      PassOver(input, i + 1, j, deeper, key, s);
    }
  }

  lemma PassOverOne(p: Record, rest: seq<Record>, deeper: seq<Record>, key: UserKey, s: SeqNo)
    requires p.key != key || p.seqno > s
    ensures Visible([p] + rest + deeper, key, s) == Visible(rest + deeper, key, s)
  {
    assert ([p] + rest + deeper)[1..] == rest + deeper;
  }

  lemma OutputPassesOver(cfg: Config, scan: Scan, input: seq<Record>, i: nat,
                         deeper: seq<Record>, key: UserKey, s: SeqNo, o: Outcome)
    requires i < |input| && o == Step(cfg, scan, input, i)
    requires o.emitted.Some? && o.emitted.value.key == key ==> Prepare(cfg, o.emitted.value).seqno > s
    ensures Visible(Output(cfg, scan, input, i) + deeper, key, s)
            == Visible(Output(cfg, o.scan, input, o.next) + deeper, key, s)
  {
    OutputUnfolds(cfg, scan, input, i);
    if o.emitted.Some? {
      PassOverOne(Prepare(cfg, o.emitted.value), Output(cfg, o.scan, input, o.next), deeper, key, s);
    }
  }

  // A step over records that `s` does not see changes neither answer.
  lemma NotVisibleYet(cfg: Config, scan: Scan, input: seq<Record>, i: nat,
                      deeper: seq<Record>, key: UserKey, s: SeqNo, o: Outcome)
    requires ValidInput(cfg, input) && i < |input| && cfg.Live(s)
    requires Disciplined(input[i..], deeper, key)
    requires input[i].key != key || input[i].seqno > s
    requires o == Step(cfg, scan, input, i)
    ensures Disciplined(input[o.next..], deeper, key)
    ensures input[o.next - 1].key == key ==> input[o.next - 1].seqno > s
    ensures Visible(input[i..] + deeper, key, s) == Visible(input[o.next..] + deeper, key, s)
    ensures o.emitted.Some? && o.emitted.value.key == key ==> Prepare(cfg, o.emitted.value).seqno > s
  {
    StepShape(cfg, scan, input, i);
    DisciplinedTail(input, i, o.next, deeper, key);
    if o.next == i + 2 {
      assert Before(input[i], input[i + 1]) && FollowsVersion(input, i + 1) && !LostAtZero(cfg, input, i + 1);
      SharesStripeMeansSameReaders(cfg, input[i], input[i + 1]);
      StripeIsLeastLive(cfg, input[i].seqno, s);
      StripeIsLeastLive(cfg, input[i + 1].seqno, s);
    }
    PassOver(input, i, o.next, deeper, key, s);
    EarliestIsLeast(cfg, s);
  }

  // A Delete that every reader sees, with nothing below it.
  predicate SettledDelete(cfg: Config, r: Record) {
    r.kind == Delete && r.seqno <= cfg.EarliestSnapshot() && cfg.CanDropTombstone(r.key)
  }

  // A record of a new key or a new stripe is handed out unless it is a Delete that is not needed.
  lemma NewStripeIsKept(cfg: Config, scan: Scan, input: seq<Record>, i: nat)
    requires i < |input| && input[i].kind != SingleDelete && !scan.clearNext
    requires SettledDelete(cfg, input[i]) || Stripe(cfg, input[i].seqno) != if IsNewKey(scan, input[i]) then 0 else scan.stripe
    ensures var o := Step(cfg, scan, input, i);
            o.next == i + 1 && !o.scan.clearNext &&
            (o.emitted == Some(input[i]) || (o.emitted.None? && SettledDelete(cfg, input[i])))
  {
  }

  // The first record of `key` that `s` sees decides the answer.
  lemma NewestVisible(cfg: Config, scan: Scan, input: seq<Record>, i: nat,
                      deeper: seq<Record>, key: UserKey, s: SeqNo)
    requires ValidInput(cfg, input) && i < |input| && At(cfg, scan, input, i)
    requires cfg.Live(s) && DeeperAgrees(cfg, deeper, key)
    requires Disciplined(input[i..], deeper, key)
    requires i > 0 && input[i - 1].key == key ==> input[i - 1].seqno > s
    requires input[i].key == key && input[i].seqno <= s
    ensures Read(Output(cfg, scan, input, i) + deeper, key, s) == Read(input[i..] + deeper, key, s)
  {
    var r := input[i];
    StripeIsLeastLive(cfg, r.seqno, s);
    if scan.hasKey { StripeIsLeastLive(cfg, input[i - 1].seqno, s); }
    assert (input[i..] + deeper)[0] == r && input[i..][0] == r;
    if r.kind == SingleDelete {
      SingleDeleteReadsAbsent(cfg, scan, input, i, deeper, key, s);
    } else {
      assert !LostAtZero(cfg, input, i);
      NewStripeIsKept(cfg, scan, input, i);
      NewStripeReads(cfg, scan, input, i, deeper, key, s, Step(cfg, scan, input, i));
    }
  }

  lemma NewStripeReads(cfg: Config, scan: Scan, input: seq<Record>, i: nat,
                       deeper: seq<Record>, key: UserKey, s: SeqNo, o: Outcome)
    requires ValidInput(cfg, input) && i < |input| && At(cfg, scan, input, i)
    requires cfg.Live(s) && DeeperAgrees(cfg, deeper, key)
    requires input[i].key == key && input[i].seqno <= s
    requires o == Step(cfg, scan, input, i) && o.next == i + 1 && !o.scan.clearNext
    requires o.emitted == Some(input[i]) || (o.emitted.None? && SettledDelete(cfg, input[i]))
    ensures Read(Output(cfg, scan, input, i) + deeper, key, s)
            == if input[i].kind == Put then Some(input[i].value) else None
  {
    var out := Output(cfg, scan, input, i);
    OutputUnfolds(cfg, scan, input, i);
    if o.emitted.Some? {
      assert (out + deeper)[0] == Prepare(cfg, input[i]);
    } else {
      StepKeepsAt(cfg, scan, input, i);
      NothingAfterSettled(cfg, o.scan, input, i + 1, key);
      VisibleConcat(out, deeper, key, s);
      UnmentionedKey(out, key, s);
      UnmentionedKey(deeper, key, s);
    }
  }

  /** Main result. For every input, every snapshot list and every content of the deeper levels, a
      read of a key at any live snapshot or at the tip answers the same after the compaction,
      searched below any newer runs. */
  lemma ReadsPreserved(cfg: Config, input: seq<Record>, newer: seq<Record>, deeper: seq<Record>,
                       key: UserKey, s: SeqNo)
    requires ValidInput(cfg, input) && cfg.Live(s)
    requires DeeperAgrees(cfg, deeper, key) && Disciplined(input, deeper, key)
    ensures Read(newer + (Compact(cfg, input) + deeper), key, s) == Read(newer + (input + deeper), key, s)
  {
    assert input[0..] == input;
    ReadsPreservedFrom(cfg, START, input, 0, deeper, key, s);
    ReadBelowNewerRuns(newer, Compact(cfg, input) + deeper, input + deeper, key, s);
  }
}
