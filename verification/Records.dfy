/**
 Versioned records as they are stored in a table file, and what a read sees in them.

 User keys are represented by their rank under the column family's comparator: a comparator is
 a total order and only finitely many keys occur in any one run.
 */
module Records {
  import opened Options

  type UserKey = int
  type SeqNo = nat
  type Value = string

  // kMaxSequenceNumber: 56 bits, the low 8 bits of the packed word hold the record kind.
  const MAX_SEQ: SeqNo := 0xFF_FFFF_FFFF_FFFF

  datatype Kind = Put | Delete | SingleDelete

  datatype Record = Record(key: UserKey, seqno: SeqNo, kind: Kind, value: Value)

  // Internal key order: user key ascending, then sequence number descending.
  predicate Before(a: Record, b: Record) {
    a.key < b.key || (a.key == b.key && a.seqno > b.seqno)
  }

  predicate Sorted(run: seq<Record>) {
    forall i, j :: 0 <= i < j < |run| ==> Before(run[i], run[j])
  }

  predicate SeqNosInRange(run: seq<Record>) {
    forall i :: 0 <= i < |run| ==> run[i].seqno <= MAX_SEQ
  }

  predicate Mentions(records: seq<Record>, key: UserKey) {
    exists i :: 0 <= i < |records| && records[i].key == key
  }

  /** The version of `key` that a read at `snapshot` stops at: `records` holds the runs in the
      order in which a read searches them, newest run first. */
  function Visible(records: seq<Record>, key: UserKey, snapshot: SeqNo): (r: Option<Record>)
    ensures r.Some? ==> r.value in records && r.value.key == key && r.value.seqno <= snapshot
  {
    if records == [] then None
    else if records[0].key == key && records[0].seqno <= snapshot then Some(records[0])
    else Visible(records[1..], key, snapshot)
  }

  /** What a read of `key` at `snapshot` returns. */
  function Read(records: seq<Record>, key: UserKey, snapshot: SeqNo): (r: Option<Value>) {
    match Visible(records, key, snapshot)
    case Some(Record(_, _, Put, value)) => Some(value)
    case _ => None
  }

  /** All versions of `key`, in search order. */
  function History(records: seq<Record>, key: UserKey): (h: seq<Record>)
    ensures forall i :: 0 <= i < |h| ==> h[i].key == key
  {
    if records == [] then []
    else (if records[0].key == key then [records[0]] else []) + History(records[1..], key)
  }

  lemma {:induction false} VisibleConcat(a: seq<Record>, b: seq<Record>, key: UserKey, snapshot: SeqNo)
    ensures Visible(a + b, key, snapshot) ==
            if Visible(a, key, snapshot).Some? then Visible(a, key, snapshot) else Visible(b, key, snapshot)
  {
    if a == [] {
      assert a + b == b;
    } else {
      assert (a + b)[1..] == a[1..] + b;
      VisibleConcat(a[1..], b, key, snapshot);
    }
  }

  lemma {:induction false} HistoryConcat(a: seq<Record>, b: seq<Record>, key: UserKey)
    ensures History(a + b, key) == History(a, key) + History(b, key)
  {
    if a == [] {
      assert a + b == b;
    } else {
      assert (a + b)[1..] == a[1..] + b;
      HistoryConcat(a[1..], b, key);
    }
  }

  lemma {:induction false} VisibleInHistory(records: seq<Record>, key: UserKey, snapshot: SeqNo)
    ensures Visible(records, key, snapshot) == Visible(History(records, key), key, snapshot)
  {
    if records != [] {
      VisibleInHistory(records[1..], key, snapshot);
      var h := History(records, key);
      if records[0].key == key {
        assert h[1..] == History(records[1..], key);
      } else {
        assert h == History(records[1..], key);
      }
    }
  }

  lemma {:induction false} UnmentionedKey(records: seq<Record>, key: UserKey, snapshot: SeqNo)
    requires !Mentions(records, key)
    ensures Visible(records, key, snapshot) == None
    ensures History(records, key) == []
  {
    if records != [] {
      assert records[0].key != key;
      forall i | 0 <= i < |records[1..]| ensures records[1..][i].key != key {
        assert records[1..][i] == records[i + 1];
      }
      UnmentionedKey(records[1..], key, snapshot);
    }
  }

  /** Reads that agree over two groups of runs still agree once newer runs are searched first. */
  lemma ReadBelowNewerRuns(newer: seq<Record>, a: seq<Record>, b: seq<Record>, key: UserKey, snapshot: SeqNo)
    requires Read(a, key, snapshot) == Read(b, key, snapshot)
    ensures Read(newer + a, key, snapshot) == Read(newer + b, key, snapshot)
  {
    VisibleConcat(newer, a, key, snapshot);
    VisibleConcat(newer, b, key, snapshot);
  }
}
