/**
 The compaction iterator itself, and the key loop that drives it.

 The iterator is an object updated in place; each method is tied to the record rules of
 CompactionRules, so the results about Output hold of what the loop collects.
 */
module CompactionIteration {
  import opened Records
  import opened CompactionRules
  import opened DeeperLevels

  class CompactionIterator {
    const cfg: Config
    const input: seq<Record>
    // Position of the underlying iterator.
    var pos: nat
    var valid: bool
    var atNext: bool
    var hasCurrentUserKey: bool
    var currentUserKey: UserKey
    var currentUserKeySnapshot: SeqNo
    var hasOutputtedKey: bool
    var clearAndOutputNextKey: bool
    // Key and value of the current output, when valid.
    var current: Record
    const levelPtrs: array<nat>
    var numRecordDropHidden: nat
    var numRecordDropObsolete: nat
    // Whether a record has been handed out before.
    ghost var returned: bool

    ghost function State(): Scan
      reads this
    {
      Scan(hasCurrentUserKey, currentUserKey, currentUserKeySnapshot, hasOutputtedKey, clearAndOutputNextKey, returned)
    }

    // The state from which the search for the record after `current` starts.
    ghost function Resumed(): Scan
      reads this
    {
      State().(outputtedKey := hasOutputtedKey || returned, returned := true)
    }

    ghost function NextPos(): nat
      reads this
    {
      if atNext then pos else pos + 1
    }

    ghost predicate CursorsBehind(key: UserKey)
      reads levelPtrs
    {
      cfg.compaction.Some? ==> PtrsBehind(cfg.compaction.value, levelPtrs[..], key)
    }

    // The input position is in range and the cursors serve the record at it.
    ghost predicate Placed()
      reads this, levelPtrs
    {
      && cfg.Valid() && Sorted(input) && pos <= |input|
      && (pos < |input| ==> CursorsBehind(input[pos].key))
    }

    ghost predicate Valid()
      reads this, levelPtrs
    {
      Placed() && (valid ==> NextPos() <= |input|)
    }

    /** What is still to be handed out, the current record first. */
    ghost function Remaining(): seq<Record>
      reads this, levelPtrs
      requires Valid()
    {
      if valid then [current] + Output(cfg, State(), input, NextPos()) else []
    }

    // Records accounted for so far.
    function Dropped(): nat
      reads this
    {
      numRecordDropHidden + numRecordDropObsolete
    }

    constructor (cfg: Config, input: seq<Record>, start: nat)
      requires cfg.Valid() && Sorted(input) && start <= |input|
      ensures Valid() && !valid && State() == START && pos == start && Dropped() == 0
      ensures this.cfg == cfg && this.input == input && fresh(levelPtrs)
    {
      this.cfg, this.input, pos := cfg, input, start;
      valid, atNext := false, false;
      hasCurrentUserKey, currentUserKey, currentUserKeySnapshot := false, 0, 0;
      hasOutputtedKey, clearAndOutputNextKey := false, false;
      current := Record(0, 0, Put, "");
      levelPtrs := new nat[if cfg.compaction.Some? then |cfg.compaction.value.levels| else 0](_ => 0);
      numRecordDropHidden, numRecordDropObsolete := 0, 0;
      returned := false;
    }

    /** Sequential search of the snapshots, with the tip standing in when there are none. */
    method FindEarliestVisibleSnapshot(seqno: SeqNo) returns (visible: SeqNo, prev: SeqNo)
      ensures visible == Stripe(cfg, seqno) && prev == PrevSnapshot(cfg, seqno)
    {
      var i := 0;
      prev := 0;
      while i < |cfg.snapshots|
        invariant 0 <= i <= |cfg.snapshots|
        invariant forall j :: 0 <= j < i ==> cfg.snapshots[j] < seqno
        invariant prev == if i == 0 then 0 else cfg.snapshots[i - 1]
      {
        if seqno <= cfg.snapshots[i] {
          return cfg.snapshots[i], prev;
        }
        prev := cfg.snapshots[i];
        i := i + 1;
      }
      return MAX_SEQ, prev;
    }

    method KeyAbsent(key: UserKey) returns (absent: bool)
      requires cfg.Valid() && cfg.compaction.Some? && CursorsBehind(key)
      modifies levelPtrs
      ensures CursorsBehind(key) && absent == cfg.CanDropTombstone(key)
    {
      absent := KeyNotExistsBeyondOutputLevel(cfg.compaction.value, key, levelPtrs);
    }

    // Step the underlying iterator; the cursors still serve the key it arrives at.
    method Advance()
      requires pos < |input| && Sorted(input) && CursorsBehind(input[pos].key)
      modifies this`pos
      ensures pos == old(pos) + 1
      ensures pos < |input| ==> CursorsBehind(input[pos].key)
    {
      if pos + 1 < |input| && cfg.compaction.Some? {
        assert Before(input[pos], input[pos + 1]);
        PtrsServeLaterKeys(cfg.compaction.value, levelPtrs[..], input[pos].key, input[pos + 1].key);
      }
      pos := pos + 1;
    }

    // Leave the record handed out.
    method StepOver()
      requires Valid() && valid && !atNext
      modifies this`pos
      ensures Placed() && pos == old(pos) + 1
    {
      Advance();
    }

    // The SingleDelete branch: peek at the next record.
    method ProcessSingleDelete(prev: SeqNo)
      requires Placed() && !valid && !atNext && pos < |input| && hasCurrentUserKey
      requires input[pos].kind == SingleDelete && prev == PrevSnapshot(cfg, input[pos].seqno)
      requires current == input[pos]
      modifies this, levelPtrs
      ensures Valid() && returned == old(returned)
      ensures Follows(StepSingleDelete(cfg, old(State()), input, old(pos)), old(pos), old(Dropped()))
    {
      Advance();
      if pos < |input| && input[pos].key == current.key {
        SingleDeleteThenVersion(prev);
      } else {
        LoneSingleDelete();
      }
      if valid {
        atNext := true;
      }
    }

    method SingleDeleteThenVersion(prev: SeqNo)
      requires Placed() && !valid && !atNext && 0 < pos < |input| && input[pos].key == current.key
      requires current == input[pos - 1] && current.kind == SingleDelete && prev == PrevSnapshot(cfg, current.seqno)
      modifies this`pos, this`valid, this`clearAndOutputNextKey, this`numRecordDropHidden, this`numRecordDropObsolete
      ensures Placed()
      ensures var o := StepSingleDelete(cfg, old(State()), input, old(pos) - 1);
              && pos == o.next && valid == o.emitted.Some? && (valid ==> pos == old(pos) && o.emitted.value == current)
              && (if valid then Resumed() == o.scan else State() == o.scan)
              && Dropped() == old(Dropped()) + if valid then 0 else pos - (old(pos) - 1)
    {
      if prev == 0 || input[pos].seqno > prev {
        if input[pos].kind == SingleDelete {
          numRecordDropObsolete := numRecordDropObsolete + 1;
        } else if hasOutputtedKey || current.seqno <= cfg.earliestWriteConflict {
          numRecordDropHidden := numRecordDropHidden + 1;
          numRecordDropObsolete := numRecordDropObsolete + 1;
          Advance();
        } else {
          valid := true;
          clearAndOutputNextKey := true;
        }
      } else {
        valid := true;
      }
    }

    method LoneSingleDelete()
      requires Placed() && !valid && !atNext && 0 < pos && CursorsBehind(current.key)
      requires pos < |input| ==> input[pos].key != current.key
      requires current == input[pos - 1] && current.kind == SingleDelete && hasCurrentUserKey
      modifies this`valid, this`hasCurrentUserKey, this`numRecordDropObsolete, levelPtrs
      ensures Placed()
      ensures var o := StepSingleDelete(cfg, old(State()), input, pos - 1);
              && pos == o.next && valid == o.emitted.Some? && (valid ==> o.emitted.value == current)
              && (if valid then Resumed() == o.scan else State() == o.scan)
              && Dropped() == old(Dropped()) + if valid then 0 else 1
    {
      hasCurrentUserKey := false;
      var drop := false;
      if cfg.compaction.Some? && current.seqno <= cfg.EarliestSnapshot() {
        drop := KeyAbsentHere(current.key);
      }
      if drop {
        numRecordDropObsolete := numRecordDropObsolete + 1;
      } else {
        valid := true;
      }
    }

    // Query the deeper levels for the key just passed.
    method KeyAbsentHere(key: UserKey) returns (absent: bool)
      requires Placed() && cfg.compaction.Some? && 0 < pos && input[pos - 1].key == key && CursorsBehind(key)
      modifies levelPtrs
      ensures Placed() && absent == cfg.CanDropTombstone(key)
    {
      absent := KeyAbsent(key);
      if pos < |input| {
        assert Before(input[pos - 1], input[pos]);
        PtrsServeLaterKeys(cfg.compaction.value, levelPtrs[..], key, input[pos].key);
      }
    }

    // Note the user key and the snapshot stripe of the record at the input position.
    method LookAtRecord() returns (lastSnapshot: SeqNo, prev: SeqNo)
      requires pos < |input|
      modifies this`current, this`currentUserKey, this`hasCurrentUserKey, this`hasOutputtedKey, this`currentUserKeySnapshot
      ensures current == input[pos] && State() == Look(cfg, old(State()), input[pos])
      ensures lastSnapshot == if IsNewKey(old(State()), input[pos]) then 0 else old(currentUserKeySnapshot)
      ensures prev == PrevSnapshot(cfg, input[pos].seqno)
    {
      current := input[pos];
      if !hasCurrentUserKey || current.key != currentUserKey {
        currentUserKey := current.key;
        hasCurrentUserKey := true;
        hasOutputtedKey := false;
        currentUserKeySnapshot := 0;
      }
      lastSnapshot := currentUserKeySnapshot;
      currentUserKeySnapshot, prev := FindEarliestVisibleSnapshot(current.seqno);
    }

    // One turn of the NextFromInput loop.
    method ExamineRecord()
      requires Placed() && !valid && !atNext && pos < |input|
      modifies this, levelPtrs
      ensures Valid() && returned == old(returned)
      ensures Follows(Step(cfg, old(State()), input, old(pos)), old(pos), old(Dropped()))
    {
      var lastSnapshot, prev := LookAtRecord();
      if clearAndOutputNextKey {
        current := current.(value := "");
        valid := true;
        clearAndOutputNextKey := false;
      } else if current.kind == SingleDelete {
        ProcessSingleDelete(prev);
      } else {
        ProcessVersion(lastSnapshot);
      }
    }

    // A Put or Delete: hidden, obsolete or handed out.
    method ProcessVersion(lastSnapshot: SeqNo)
      requires Placed() && !valid && !atNext && pos < |input| && current == input[pos]
      modifies this`pos, this`valid, this`numRecordDropHidden, this`numRecordDropObsolete, levelPtrs
      ensures Placed()
      ensures valid == !(lastSnapshot == currentUserKeySnapshot || ObsoleteDelete(cfg, current))
      ensures pos == old(pos) + (if valid then 0 else 1) && Dropped() == old(Dropped()) + (if valid then 0 else 1)
    {
      if lastSnapshot == currentUserKeySnapshot {
        numRecordDropHidden := numRecordDropHidden + 1;
        Advance();
      } else {
        var obsolete := IsObsoleteDelete();
        if obsolete {
          numRecordDropObsolete := numRecordDropObsolete + 1;
          Advance();
        } else {
          valid := true;
        }
      }
    }

    method IsObsoleteDelete() returns (obsolete: bool)
      requires Placed() && pos < |input| && current == input[pos]
      modifies levelPtrs
      ensures Placed() && obsolete == ObsoleteDelete(cfg, current)
    {
      obsolete := false;
      if cfg.compaction.Some? && current.kind == Delete && current.seqno <= cfg.EarliestSnapshot() &&
         cfg.NotNeededForIncrementalSnapshot(current.seqno)
      {
        obsolete := KeyAbsent(current.key);
      }
    }

    /** Search the input for the next record to hand out. */
    method NextFromInput()
      requires Placed()
      modifies this, levelPtrs
      ensures Valid() && returned == old(returned)
      ensures Output(cfg, old(State()), input, old(pos))
              == if valid then [Prepare(cfg, current)] + Output(cfg, Resumed(), input, NextPos()) else []
      ensures Dropped() - old(Dropped()) == (if valid then NextPos() - 1 else |input|) - old(pos)
    {
      atNext := false;
      valid := false;
      ghost var all := Output(cfg, State(), input, pos);
      while !valid && pos < |input|
        invariant Valid() && returned == old(returned) && (!valid ==> !atNext)
        invariant !valid ==> Output(cfg, State(), input, pos) == all
        invariant valid ==> all == [Prepare(cfg, current)] + Output(cfg, Resumed(), input, NextPos())
        invariant Dropped() - old(Dropped()) == (if valid then NextPos() - 1 else pos) - old(pos)
        decreases !valid, |input| - pos
      {
        ExamineRecord();
      }
    }

    method PrepareOutput()
      requires Valid()
      modifies this`current
      ensures current == if valid then Prepare(cfg, old(current)) else old(current)
    {
      if cfg.compaction.Some? && !cfg.compaction.value.allowIngestBehind &&
         cfg.NotNeededForIncrementalSnapshot(current.seqno) &&
         cfg.compaction.value.bottommost && valid && current.seqno <= cfg.EarliestSnapshot() &&
         current.key != cfg.compaction.value.largestUserKey
      {
        current := current.(seqno := 0);
      }
    }

    /** Position at the first record of the output; to be called once. */
    method SeekToFirst()
      requires Valid() && !valid && State() == START
      modifies this, levelPtrs
      ensures Valid() && returned == valid
      ensures Remaining() == Output(cfg, START, input, old(pos))
      ensures Dropped() == old(Dropped()) + (if valid then NextPos() - 1 else |input|) - old(pos)
    {
      NextFromInput();
      PrepareOutput();
      returned := valid;
    }

    /** Move to the next record of the output. */
    method Next()
      requires Valid() && valid && returned
      modifies this, levelPtrs
      ensures Valid() && returned
      ensures Remaining() == old(Remaining())[1..]
      ensures Dropped() == old(Dropped()) + (if valid then NextPos() - 1 else |input|) - old(NextPos())
    {
      hide Output, Sorted, CanZero, CursorsBehind;
      if !atNext {
        StepOver();
      }
      NextFromInput();
      if valid {
        hasOutputtedKey := true;
      }
      PrepareOutput();
    }

    // The iterator's fields agree with an outcome of the record rules.
    ghost predicate Follows(o: Outcome, i: nat, dropped: nat)
      reads this
    {
      && (o.emitted.None? ==> !valid && !atNext && State() == o.scan && pos == o.next && Dropped() == dropped + (o.next - i))
      && (o.emitted.Some? ==> valid && current == o.emitted.value && Resumed() == o.scan && NextPos() == o.next
                              && o.next == i + 1 && Dropped() == dropped)
    }
  }
}
