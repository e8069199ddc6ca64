/** Append-only revision logs and the governance records kept in them. */
module Records {
  import opened Collections
  import opened Hashes

  type Timestamp = int

  datatype RecordType = Decision | Constraint
  datatype RecordStatus = Active | ReviewRequired | Stale | Orphaned | Inactive
  datatype Severity = Must | Should | Info
  datatype PersistenceMode = Persistent | ScopeBound | SourceBound | Temporary
  datatype Author = Agent | Human | SystemStaleness | SystemLifecycle

  datatype MemoryRevision = MemoryRevision(
    recordId: string, revision: nat, rtype: RecordType, status: RecordStatus,
    content: string, rationale: string, scopes: seq<string>, files: seq<string>, symbols: seq<string>,
    severity: Option<Severity>, mode: Option<PersistenceMode>,
    sourceHashes: map<string, Digest>, scopeHashes: map<string, Digest>, expiresAt: Option<Timestamp>,
    critical: bool, sourceDocument: Option<string>, sourceSection: Option<string>, machineCheckHint: Option<string>,
    createdBy: Author, approvedBy: Option<string>, createdAt: Timestamp)

  datatype ProposalStatus = Pending | Approved | Rejected | Edited

  datatype Proposal = Proposal(
    proposalId: string, revision: nat, rtype: RecordType, recordId: string, payload: MemoryRevision,
    status: ProposalStatus, createdBy: Author, createdAt: Timestamp, resolvedAt: Option<Timestamp>,
        resolvedBy: Option<string>)

  datatype NoteStatus = NoteActive | NoteStale | NoteExpired | NoteOrphaned | NoteArchived

  datatype Note = Note(
    id: string, revision: nat, content: string, scopes: seq<string>, files: seq<string>, symbols: seq<string>,
    source: Author, createdAt: Timestamp, lastVerifiedAt: Timestamp, expiresAt: Option<Timestamp>,
    sourceHashes: map<string, Digest>, status: NoteStatus)

  datatype Members = Members(files: seq<string>, symbols: seq<string>)

  /** What approval and staleness detection look at: file hashes, each symbol's file, and the scopes. */
  datatype Snapshot = Snapshot(files: map<string, Digest>, owner: map<string, string>, scopes: map<string, Members>)

  // ------------------------------------------------------------ generic logs

  /** A line's logical id and revision number. */
  type Key = (string, nat)

  function RecordKey(r: MemoryRevision): Key { (r.recordId, r.revision) }
  function ProposalKey(p: Proposal): Key { (p.proposalId, p.revision) }
  function NoteKey(n: Note): Key { (n.id, n.revision) }

  function Count<T>(log: seq<T>, key: T -> Key, id: string): nat {
    if log == [] then 0 else Count(log[..|log| - 1], key, id) + if key(log[|log| - 1]).0 == id then 1 else 0
  }

  /** Each record's revisions are 1, 2, 3, ... in log order. */
  ghost predicate Numbered<T>(log: seq<T>, key: T -> Key) {
    forall i :: 0 <= i < |log| ==> key(log[i]).1 == Count(log[..i], key, key(log[i]).0) + 1
  }

  predicate Duplicate<T>(log: seq<T>, key: T -> Key) {
    exists i, j :: 0 <= i < j < |log| && key(log[i]) == key(log[j])
  }

  /** The revision with the greatest number, whatever its status. */
  function Current<T>(log: seq<T>, key: T -> Key, id: string): (r: Option<T>)
    ensures r.Some? ==> r.value in log && key(r.value).0 == id
  {
    if log == [] then None
    else
      var front, x := Current(log[..|log| - 1], key, id), log[|log| - 1];
      if key(x).0 == id && (front.None? || key(front.value).1 < key(x).1) then Some(x) else front
  }

  lemma {:induction false} CurrentIsGreatest<T>(log: seq<T>, key: T -> Key, id: string, x: T)
    requires x in log && key(x).0 == id
    ensures Current(log, key, id).Some? && key(x).1 <= key(Current(log, key, id).value).1
  {
    if x in log[..|log| - 1] {
      CurrentIsGreatest(log[..|log| - 1], key, id, x);
    }
  }

  lemma NumberedAppend<T>(log: seq<T>, key: T -> Key, x: T)
    requires Numbered(log, key) && key(x).1 == Count(log, key, key(x).0) + 1
    ensures Numbered(log + [x], key)
  {
    forall i | 0 <= i < |log + [x]|
        ensures key((log + [x])[i]).1 == Count((log + [x])[..i], key, key((log + [x])[i]).0) + 1 {
      if i < |log| {
        assert (log + [x])[..i] == log[..i];
      } else {
        assert (log + [x])[..i] == log;
      }
    }
  }

  lemma CountAppend<T>(log: seq<T>, key: T -> Key, x: T, id: string)
    ensures Count(log + [x], key, id) == Count(log, key, id) + if key(x).0 == id then 1 else 0
  {
    assert (log + [x])[..|log|] == log;
  }

  lemma NumberedLast<T>(log: seq<T>, key: T -> Key)
    requires Numbered(log, key) && log != []
    ensures Numbered(log[..|log| - 1], key)
    ensures var x := log[|log| - 1]; key(x).1 == Count(log[..|log| - 1], key, key(x).0) + 1
  {
    NumberedPrefix(log, key, |log| - 1);
  }

  /** The current revision's number is the count of the record's lines. */
  ghost predicate CurrentIsCount<T>(log: seq<T>, key: T -> Key, id: string) {
    match Current(log, key, id)
    case None => Count(log, key, id) == 0
    case Some(r) => key(r) == (id, Count(log, key, id)) && Count(log, key, id) > 0
  }

  lemma CurrentIsCountSnoc<T>(front: seq<T>, key: T -> Key, x: T, id: string)
    requires CurrentIsCount(front, key, id) && key(x).1 == Count(front, key, key(x).0) + 1
    ensures CurrentIsCount(front + [x], key, id)
  {
    CurrentAppend(front, key, x, id);
    CountAppend(front, key, x, id);
  }

  lemma {:induction false} NumberedCurrent<T>(log: seq<T>, key: T -> Key, id: string)
    requires Numbered(log, key)
    ensures Current(log, key, id).None? <==> Count(log, key, id) == 0
    ensures Current(log, key, id).Some? ==> key(Current(log, key, id).value) == (id, Count(log, key, id))
  {
    if log != [] {
      var front, x := log[..|log| - 1], log[|log| - 1];
      NumberedLast(log, key);
      NumberedCurrent(front, key, id);
      assert log == front + [x];
      CurrentIsCountSnoc(front, key, x, id);
    }
  }

  lemma NumberedPrefix<T>(log: seq<T>, key: T -> Key, n: nat)
    requires Numbered(log, key) && n <= |log|
    ensures Numbered(log[..n], key)
  {
    forall i | 0 <= i < n ensures key(log[..n][i]).1 == Count(log[..n][..i], key, key(log[..n][i]).0) + 1 {
      assert log[..n][..i] == log[..i];
    }
  }

  lemma {:induction false} CountMonotone<T>(log: seq<T>, key: T -> Key, i: nat, j: nat, id: string)
    requires i <= j <= |log|
    ensures Count(log[..i], key, id) <= Count(log[..j], key, id)
    decreases j
  {
    if i < j {
      TakeSnoc(log, j - 1);
      CountMonotone(log, key, i, j - 1, id);
      CountAppend(log[..j - 1], key, log[j - 1], id);
    }
  }

  lemma SameKeySameRow<T>(log: seq<T>, key: T -> Key, x: T, y: T)
    requires !Duplicate(log, key) && x in log && y in log && key(x) == key(y)
    ensures x == y
  {
    var i :| 0 <= i < |log| && log[i] == x;
    var j :| 0 <= j < |log| && log[j] == y;
    assert key(log[i]) == key(log[j]);
  }

  /** Later lines of a record carry greater numbers. */
  lemma NumberedIncreasing<T>(log: seq<T>, key: T -> Key, i: nat, j: nat)
    requires Numbered(log, key) && i < j < |log| && key(log[i]).0 == key(log[j]).0
    ensures key(log[i]).1 < key(log[j]).1
  {
    TakeSnoc(log, i);
    CountAppend(log[..i], key, log[i], key(log[i]).0);
    CountMonotone(log, key, i + 1, j, key(log[i]).0);
  }

  lemma NumberedNoDuplicate<T>(log: seq<T>, key: T -> Key)
    requires Numbered(log, key)
    ensures !Duplicate(log, key)
  {
    forall i, j | 0 <= i < j < |log| ensures key(log[i]) != key(log[j]) {
      if key(log[i]).0 == key(log[j]).0 { NumberedIncreasing(log, key, i, j); }
    }
  }

  /** The lines of one record are numbered like the whole log and have the same current revision. */
  lemma {:induction false} NumberedOfId<T>(log: seq<T>, key: T -> Key, id: string, keep: T -> bool)
    requires Numbered(log, key) && forall x :: keep(x) <==> key(x).0 == id
    ensures Numbered(Filter(log, keep), key)
    ensures Count(Filter(log, keep), key, id) == Count(log, key, id)
    ensures Current(Filter(log, keep), key, id) == Current(log, key, id)
  {
    if log != [] {
      var n := |log| - 1;
      NumberedPrefix(log, key, n);
      NumberedOfId(log[..n], key, id, keep);
      if keep(log[n]) {
        NumberedAppend(Filter(log[..n], keep), key, log[n]);
        CurrentAppend(Filter(log[..n], keep), key, log[n], id);
        CountAppend(Filter(log[..n], keep), key, log[n], id);
      }
    }
  }

  lemma CurrentAppend<T>(log: seq<T>, key: T -> Key, x: T, id: string)
    ensures Current(log + [x], key, id)
         == if key(x).0 == id && (Current(log, key, id).None? || key(Current(log, key, id).value).1 < key(x).1)
           then Some(x) else Current(log, key, id)
  {
    assert (log + [x])[..|log|] == log;
  }

  /** The logical ids of a log, in the order they first appear. */
  function Ids<T>(log: seq<T>, key: T -> Key): (r: seq<string>)
    ensures Distinct(r) && forall id :: id in r ==> Current(log, key, id).Some?
  {
    if log == [] then []
    else
      var front, id := Ids(log[..|log| - 1], key), key(log[|log| - 1]).0;
      if id in front then front else front + [id]
  }

  lemma {:induction false} IdsComplete<T>(log: seq<T>, key: T -> Key, id: string)
    ensures id in Ids(log, key) <==> Current(log, key, id).Some?
  {
    if log != [] { IdsComplete(log[..|log| - 1], key, id); }
  }

  /** The record that comes first in the log comes first in the list. */
  lemma {:induction false} IdsInOrder<T>(log: seq<T>, key: T -> Key, i: nat, j: nat)
    requires i < j < |Ids(log, key)|
    ensures exists k: nat :: k < |log| && key(log[k]).0 == Ids(log, key)[i]
                             && forall m :: 0 <= m <= k ==> key(log[m]).0 != Ids(log, key)[j]
  {
    var n := |log| - 1;
    var front := Ids(log[..n], key);
    if j < |front| {
      IdsInOrder(log[..n], key, i, j);
      var k: nat :| k < n && key(log[..n][k]).0 == front[i]
          && forall m :: 0 <= m <= k ==> key(log[..n][m]).0 != front[j];
      assert forall m :: 0 <= m <= k ==> log[m] == log[..n][m];
      assert key(log[k]).0 == Ids(log, key)[i];
    } else {
      assert front[i] in front;
      IdsComplete(log[..n], key, front[i]);
      var r := Current(log[..n], key, front[i]).value;
      var k: nat :| k < n && log[..n][k] == r;
      forall m | 0 <= m <= k ensures key(log[m]).0 != Ids(log, key)[j] {
        assert log[..n][m] == log[m];
        CurrentIsGreatest(log[..n], key, key(log[m]).0, log[m]);
        IdsComplete(log[..n], key, key(log[m]).0);
      }
    }
  }

  /** The current revision of every record, in order of first appearance. */
  function Currents<T>(log: seq<T>, key: T -> Key): (r: seq<T>)
    ensures |r| == |Ids(log, key)|
    ensures forall i :: 0 <= i < |r| ==>
        Current(log, key, Ids(log, key)[i]) == Some(r[i]) && key(r[i]).0 == Ids(log, key)[i]
  {
    var ids := Ids(log, key);
    seq(|ids|, i requires 0 <= i < |ids| => Current(log, key, ids[i]).value)
  }

  ghost predicate HoldsCurrents<T>(m: map<string, T>, log: seq<T>, key: T -> Key) {
    forall id :: Current(log, key, id) == if id in m then Some(m[id]) else None
  }

  lemma HoldsCurrentsSnoc<T>(m: map<string, T>, log: seq<T>, key: T -> Key, x: T)
    requires HoldsCurrents(m, log, key)
    ensures HoldsCurrents(if key(x).0 !in m || key(m[key(x).0]).1 < key(x).1 then m[key(x).0 := x] else m, log + [x],
        key)
  {
    assert (log + [x])[..|log|] == log;
    assert Current(log, key, key(x).0) == if key(x).0 in m then Some(m[key(x).0]) else None;
    forall id ensures Current(log + [x], key, id)
        == (if key(x).0 == id && (Current(log, key, id).None?
          || key(Current(log, key, id).value).1 < key(x).1) then Some(x) else Current(log, key, id))
    {}
  }

  lemma DuplicateSnoc<T>(log: seq<T>, key: T -> Key, x: T)
    ensures Duplicate(log + [x], key) <==> Duplicate(log, key) || exists j :: 0 <= j < |log| && key(log[j]) == key(x)
  {
    if Duplicate(log, key) {
      var i, j :| 0 <= i < j < |log| && key(log[i]) == key(log[j]);
      assert key((log + [x])[i]) == key((log + [x])[j]);
    }
    if j :| 0 <= j < |log| && key(log[j]) == key(x) {
      assert key((log + [x])[j]) == key((log + [x])[|log|]);
    }
  }

  lemma DuplicateGrows<T>(log: seq<T>, key: T -> Key, n: nat)
    requires n <= |log| && Duplicate(log[..n], key)
    ensures Duplicate(log, key)
  {
    var i, j :| 0 <= i < j < n && key(log[..n][i]) == key(log[..n][j]);
    assert key(log[i]) == key(log[j]);
  }

  lemma {:induction false} CountAbsent<T>(log: seq<T>, key: T -> Key, id: string)
    requires forall x :: x in log ==> key(x).0 != id
    ensures Count(log, key, id) == 0
  {
    if log != [] {
      CountAbsent(log[..|log| - 1], key, id);
    }
  }

  ghost predicate DistinctIds<T>(rows: seq<T>, key: T -> Key) {
    forall i, j :: 0 <= i < j < |rows| ==> key(rows[i]).0 != key(rows[j]).0
  }

  lemma {:induction false} CountUntouched<T>(log: seq<T>, rows: seq<T>, key: T -> Key, id: string)
    requires forall x :: x in rows ==> key(x).0 != id
    ensures Count(log + rows, key, id) == Count(log, key, id)
  {
    if rows == [] {
      assert log + rows == log;
    } else {
      var n := |rows| - 1;
      assert log + rows == (log + rows[..n]) + [rows[n]];
      CountUntouched(log, rows[..n], key, id);
      CountAppend(log + rows[..n], key, rows[n], id);
    }
  }

  ghost predicate IsNext<T>(log: seq<T>, key: T -> Key, x: T) { key(x).1 == Count(log, key, key(x).0) + 1 }

  lemma NumberedAppendLater<T>(log: seq<T>, front: seq<T>, key: T -> Key, x: T)
    requires Numbered(log + front, key) && IsNext(log, key, x) && forall y :: y in front ==> key(y).0 != key(x).0
    ensures Numbered((log + front) + [x], key)
  {
    CountUntouched(log, front, key, key(x).0);
    NumberedAppend(log + front, key, x);
  }

  /** Appending one next revision for each of several different records keeps the numbering. */
  lemma {:induction false} NumberedAppendMany<T>(log: seq<T>, key: T -> Key, rows: seq<T>)
    requires Numbered(log, key) && DistinctIds(rows, key)
    requires forall x :: x in rows ==> IsNext(log, key, x)
    ensures Numbered(log + rows, key)
  {
    if rows == [] {
      assert log + rows == log;
    } else {
      var n := |rows| - 1;
      var front, last := rows[..n], rows[n];
      assert last in rows && forall x :: x in front ==> x in rows;
      FrontDistinct(rows, key);
      NumberedAppendMany(log, key, front);
      NumberedAppendLater(log, front, key, last);
      assert log + rows == (log + front) + [last];
    }
  }

  lemma FrontDistinct<T>(rows: seq<T>, key: T -> Key)
    requires DistinctIds(rows, key) && rows != []
    ensures DistinctIds(rows[..|rows| - 1], key)
    ensures forall x :: x in rows[..|rows| - 1] ==> key(x).0 != key(rows[|rows| - 1]).0
  {
  }

  lemma CurrentsDistinct<T>(log: seq<T>, key: T -> Key)
    ensures DistinctIds(Currents(log, key), key)
  {
  }

  lemma {:induction false} NoRowNoChange<T>(log: seq<T>, key: T -> Key, rows: seq<T>, id: string)
    requires forall x :: x in rows ==> key(x).0 != id
    ensures Current(log + rows, key, id) == Current(log, key, id)
  {
    if rows == [] {
      assert log + rows == log;
    } else {
      var front, x := rows[..|rows| - 1], rows[|rows| - 1];
      assert log + rows == (log + front) + [x];
      NoRowNoChange(log, key, front, id);
      CurrentAppend(log + front, key, x, id);
    }
  }

  /** Of several appended revisions of different records, each becomes its record's current one. */
  lemma {:induction false} RowBecomesCurrent<T>(log: seq<T>, key: T -> Key, rows: seq<T>, x: T)
    requires x in rows && DistinctIds(rows, key)
    requires var before := Current(log, key, key(x).0); before.None? || key(before.value).1 < key(x).1
    ensures Current(log + rows, key, key(x).0) == Some(x)
  {
    var front, last := rows[..|rows| - 1], rows[|rows| - 1];
    assert rows == front + [last] && log + rows == (log + front) + [last];
    FrontDistinct(rows, key);
    CurrentAppend(log + front, key, last, key(x).0);
    if x == last {
      NoRowNoChange(log, key, front, key(x).0);
    } else {
      RowBecomesCurrent(log, key, front, x);
    }
  }

  lemma {:induction false} CountSame<T>(rows: seq<T>, key: T -> Key, id: string)
    requires forall x :: x in rows ==> key(x).0 == id
    ensures Count(rows, key, id) == |rows|
  {
    if rows != [] {
      assert rows[|rows| - 1] in rows;
      CountSame(rows[..|rows| - 1], key, id);
    }
  }

  /** The lines of one record, on their own, carry the numbers 1, 2, 3, ... */
  lemma RevisionsAreLine<T>(rows: seq<T>, key: T -> Key, id: string)
    requires Numbered(rows, key) && forall x :: x in rows ==> key(x).0 == id
    ensures forall i :: 0 <= i < |rows| ==> key(rows[i]).1 == i + 1
  {
    forall i | 0 <= i < |rows| ensures key(rows[i]).1 == i + 1 {
      assert rows[i] in rows;
      CountSame(rows[..i], key, id);
    }
  }

  /** Exactly the current revisions are listed. */
  lemma CurrentsAre<T>(log: seq<T>, key: T -> Key, r: T)
    ensures r in Currents(log, key) <==> Current(log, key, key(r).0) == Some(r)
  {
    IdsComplete(log, key, key(r).0);
    var ids, current := Ids(log, key), Currents(log, key);
    if Current(log, key, key(r).0) == Some(r) {
      var i :| 0 <= i < |ids| && ids[i] == key(r).0;
      assert current[i] == r;
    }
  }

  /** Groups a log by id and keeps each id's current revision; None when two lines carry the same id and number. */
  method CurrentBy<T>(log: seq<T>, key: T -> Key) returns (r: Option<map<string, T>>)
    ensures r.None? <==> Duplicate(log, key)
    ensures r.Some? ==> HoldsCurrents(r.value, log, key)
  {
    var current: map<string, T> := map[];
    var seen: set<Key> := {};
    for i := 0 to |log|
      invariant seen == set x | x in log[..i] :: key(x)
      invariant !Duplicate(log[..i], key)
      invariant HoldsCurrents(current, log[..i], key)
    {
      var x := log[i];
      TakeSnoc(log, i);
      DuplicateSnoc(log[..i], key, x);
      if key(x) in seen {
        DuplicateGrows(log, key, i + 1);
        return None;
      }
      seen := seen + {key(x)};
      HoldsCurrentsSnoc(current, log[..i], key, x);
      if key(x).0 !in current || key(current[key(x).0]).1 < key(x).1 {
        current := current[key(x).0 := x];
      }
    }
    TakeAll(log);
    return Some(current);
  }
}
