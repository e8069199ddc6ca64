/** Constraints relevant to the working tree's changes, looked up in batches. */
module Check {
  import opened Collections
  import opened CodeIndex
  import opened Update
  import R = Records

  datatype RevisionRow = RevisionRow(content: string, severity: R.Severity, status: R.RecordStatus)

  /** A row of `constraint_scopes`, `constraint_files` or `constraint_symbols`. */
  datatype Reference = Reference(recordId: string, revision: nat, target: string)

  /** The cache tables the lookup reads. */
  datatype Db = Db(
    index: Index, scopeFiles: set<(string, Path)>, scopeSymbols: set<(string, string)>, owner: map<string, Path>,
    current: map<string, nat>, revisions: map<(string, nat), RevisionRow>,
    scopes: seq<Reference>, files: seq<Reference>, symbols: seq<Reference>)

  datatype RelevantConstraint = RelevantConstraint(
    recordId: string, content: string, severity: R.Severity, status: R.RecordStatus, scopeIds: seq<string>)

  datatype CheckResult = CheckResult(changed: seq<Path>, affected: seq<string>, constraints: seq<RelevantConstraint>)

  // -------------------------------------------------- what is relevant, unbatched

  type Pair = (string, string)

  /** First components of the pairs whose second component is asked for. */
  function Select(pairs: set<Pair>, values: set<string>): set<string> { set p | p in pairs && p.1 in values :: p.0 }

  function ScopeTouches(db: Db): set<Pair> {
    db.scopeFiles + set p | p in db.scopeSymbols && p.1 in db.owner :: (p.0, db.owner[p.1])
  }

  predicate IsCurrent(db: Db, r: Reference) { r.recordId in db.current && r.revision == db.current[r.recordId] }

  function ByTarget(db: Db, rows: seq<Reference>): set<Pair> {
    set r | r in rows && IsCurrent(db, r) :: (r.recordId, r.target)
  }

  function ByOwner(db: Db, rows: seq<Reference>): set<Pair> {
    set r | r in rows && IsCurrent(db, r) && r.target in db.owner :: (r.recordId, db.owner[r.target])
  }

  predicate Visible(status: R.RecordStatus) { status in {R.Active, R.ReviewRequired, R.Stale} }

  predicate HasRow(db: Db, id: string) { id in db.current && (id, db.current[id]) in db.revisions }

  function RowOf(db: Db, id: string): RevisionRow
    requires HasRow(db, id)
  {
    db.revisions[(id, db.current[id])]
  }

  /** A visible MUST without scopes applies to every change. */
  function GlobalMusts(db: Db): set<string> {
    set id | id in db.current && HasRow(db, id) && RowOf(db, id).severity == R.Must && Visible(RowOf(db, id).status)
             && !exists r :: r in db.scopes && r.recordId == id && IsCurrent(db, r)
  }

  function Affected(db: Db, changed: set<Path>): set<string> { Select(ScopeTouches(db), changed) }

  function Relevant(db: Db, changed: set<Path>): set<string> {
    Select(ByTarget(db, db.scopes), Affected(db, changed)) + Select(ByTarget(db, db.files), changed)
      + Select(ByOwner(db, db.symbols), changed) + GlobalMusts(db)
  }

  function OfRecordScopes(db: Db, id: string): Reference -> bool {
    (r: Reference) => r.recordId == id && IsCurrent(db, r)
  }

  function Targets(rows: seq<Reference>): seq<string> { seq(|rows|, i requires 0 <= i < |rows| => rows[i].target) }

  function Described(db: Db, id: string): RelevantConstraint
    requires HasRow(db, id)
  {
    var row := RowOf(db, id);
    RelevantConstraint(id, row.content, row.severity, row.status,
        SortStrings(Targets(Filter(db.scopes, OfRecordScopes(db, id)))))
  }

  /** Exactly the current, visible constraint of a relevant record. */
  ghost predicate Reported(db: Db, ids: set<string>, c: RelevantConstraint) {
    c.recordId in ids && HasRow(db, c.recordId) && Visible(RowOf(db, c.recordId).status)
        && c == Described(db, c.recordId)
  }

  // -------------------------------------------------------------------- ordering

  function Priority(status: R.RecordStatus): nat {
    match status
    case Active => 0
    case ReviewRequired => 1
    case Stale => 2
    case _ => 99
  }

  /** MUST first, then by status, then by record id. */
  predicate KeyLeq(a: RelevantConstraint, b: RelevantConstraint) {
    if (a.severity == R.Must) != (b.severity == R.Must) then a.severity == R.Must
    else if Priority(a.status) != Priority(b.status) then Priority(a.status) < Priority(b.status)
    else Leq(a.recordId, b.recordId)
  }

  ghost predicate KeySorted(s: seq<RelevantConstraint>) { forall i, j :: 0 <= i < j < |s| ==> KeyLeq(s[i], s[j]) }

  ghost predicate OncePerRecord(s: seq<RelevantConstraint>) {
    forall i, j :: 0 <= i < j < |s| ==> s[i].recordId != s[j].recordId
  }

  lemma KeyTotal(a: RelevantConstraint, b: RelevantConstraint)
    ensures KeyLeq(a, b) || KeyLeq(b, a)
  {
    LeqTotal(a.recordId, b.recordId);
  }

  lemma KeyTransitive(a: RelevantConstraint, b: RelevantConstraint, c: RelevantConstraint)
    requires KeyLeq(a, b) && KeyLeq(b, c)
    ensures KeyLeq(a, c)
  {
    if Leq(a.recordId, b.recordId) && Leq(b.recordId, c.recordId) { LeqTransitive(a.recordId, b.recordId, c.recordId); }
  }

  lemma KeyAntisymmetric(a: RelevantConstraint, b: RelevantConstraint)
    requires KeyLeq(a, b) && KeyLeq(b, a)
    ensures a.recordId == b.recordId
  {
    LeqAntisymmetric(a.recordId, b.recordId);
  }

  lemma KeyLeqAll(x: RelevantConstraint, s: seq<RelevantConstraint>)
    requires KeySorted(s) && (s != [] ==> KeyLeq(x, s[0]))
    ensures KeySorted([x] + s)
  {
    forall i | 0 <= i < |s| ensures KeyLeq(x, s[i]) { if i > 0 { KeyTransitive(x, s[0], s[i]); } }
  }

  lemma KeyAfterHead(h: RelevantConstraint, tail: seq<RelevantConstraint>, x: RelevantConstraint,
      rest: seq<RelevantConstraint>)
    requires KeySorted([h] + tail) && KeyLeq(h, x) && KeySorted(rest) && multiset(rest) == multiset(tail) + multiset{x}
    ensures KeySorted([h] + rest)
  {
    if rest != [] {
      assert rest[0] in multiset(rest);
      if rest[0] != x {
        assert rest[0] in multiset(tail);
        var i :| 0 <= i < |tail| && tail[i] == rest[0];
        assert ([h] + tail)[0] == h && ([h] + tail)[i + 1] == rest[0];
      }
    }
    KeyLeqAll(h, rest);
  }

  function InsertByKey(x: RelevantConstraint, s: seq<RelevantConstraint>): (r: seq<RelevantConstraint>)
    requires KeySorted(s)
    ensures KeySorted(r) && multiset(r) == multiset(s) + multiset{x}
  {
    if s == [] then [x]
    else if KeyLeq(x, s[0]) then
      KeyLeqAll(x, s);
      [x] + s
    else
      var rest := InsertByKey(x, s[1..]);
      assert s == [s[0]] + s[1..];
      KeyTotal(x, s[0]);
      KeyAfterHead(s[0], s[1..], x, rest);
      [s[0]] + rest
  }

  function SortByKey(s: seq<RelevantConstraint>): (r: seq<RelevantConstraint>)
    ensures KeySorted(r) && multiset(r) == multiset(s)
  {
    if s == [] then [] else
      assert s == [s[0]] + s[1..];
      InsertByKey(s[0], SortByKey(s[1..]))
  }

  ghost predicate SameMembers<T(!new)>(a: seq<T>, b: seq<T>) { forall x :: x in a <==> x in b }

  lemma SameHead(a: seq<RelevantConstraint>, b: seq<RelevantConstraint>)
    requires KeySorted(a) && KeySorted(b) && OncePerRecord(a) && OncePerRecord(b) && SameMembers(a, b) && a != []
        && b != []
    ensures a[0] == b[0]
  {
    assert a[0] in b && b[0] in a;
    var i :| 0 <= i < |a| && a[i] == b[0];
    var j :| 0 <= j < |b| && b[j] == a[0];
    if i > 0 && j > 0 { KeyAntisymmetric(a[0], b[0]); }
  }

  /** Sorted by a key that ends in the record id, a list of distinct records is determined by its members. */
  lemma {:induction false} SortedUnique(a: seq<RelevantConstraint>, b: seq<RelevantConstraint>)
    requires KeySorted(a) && KeySorted(b) && OncePerRecord(a) && OncePerRecord(b) && SameMembers(a, b)
    ensures a == b
  {
    assert a == [] <==> b == [] by { SameEmptiness(a, b); }
    if a != [] {
      SameHead(a, b);
      SameTail(a, b);
      SortedUnique(a[1..], b[1..]);
      assert a == [a[0]] + a[1..] && b == [b[0]] + b[1..];
    }
  }

  lemma SameEmptiness<T(!new)>(a: seq<T>, b: seq<T>)
    requires SameMembers(a, b)
    ensures a == [] <==> b == []
  {
    if a != [] { assert a[0] in a && a[0] in b; }
    if b != [] { assert b[0] in b && b[0] in a; }
  }

  lemma SameTail(a: seq<RelevantConstraint>, b: seq<RelevantConstraint>)
    requires OncePerRecord(a) && OncePerRecord(b) && SameMembers(a, b) && a != [] && b != [] && a[0] == b[0]
    ensures SameMembers(a[1..], b[1..])
  {
    forall x ensures x in a[1..] <==> x in b[1..] {
      HeadOnce(a, x);
      HeadOnce(b, x);
    }
  }

  lemma HeadOnce(a: seq<RelevantConstraint>, x: RelevantConstraint)
    requires OncePerRecord(a) && a != []
    ensures x in a[1..] <==> x in a && x != a[0]
  {
    assert a == [a[0]] + a[1..];
    assert forall i :: 1 <= i < |a| ==> a[i].recordId != a[0].recordId;
  }

  // -------------------------------------------------------------------- batches

  function Batches(ordered: seq<string>, size: nat): (r: seq<seq<string>>)
    requires size > 0
    ensures forall b :: b in r ==> 0 < |b| <= size
    decreases |ordered|
  {
    if ordered == [] then []
    else if |ordered| <= size then [ordered]
    else [ordered[..size]] + Batches(ordered[size..], size)
  }

  function Joined(bs: seq<seq<string>>): seq<string> {
    if bs == [] then [] else bs[0] + Joined(bs[1..])
  }

  lemma {:induction false} BatchesJoin(ordered: seq<string>, size: nat)
    requires size > 0
    ensures Joined(Batches(ordered, size)) == ordered
    decreases |ordered|
  {
    if ordered == [] {
    } else if |ordered| <= size {
      assert [ordered][1..] == [];
    } else {
      var rest := Batches(ordered[size..], size);
      BatchesJoin(ordered[size..], size);
      assert ([ordered[..size]] + rest)[1..] == rest;
      assert ordered == ordered[..size] + ordered[size..];
    }
  }

  lemma {:induction false} JoinedSnoc(bs: seq<seq<string>>, b: seq<string>)
    ensures Joined(bs + [b]) == Joined(bs) + b
  {
    if bs == [] {
      assert [b][1..] == [];
    } else {
      assert (bs + [b])[1..] == bs[1..] + [b];
      JoinedSnoc(bs[1..], b);
    }
  }

  lemma SelectJoins(pairs: set<Pair>, a: seq<string>, b: seq<string>)
    ensures Select(pairs, ToSet(a + b)) == Select(pairs, ToSet(a)) + Select(pairs, ToSet(b))
  {
  }

  /** A query run batch by batch finds what one query over all the values finds. */
  method SelectInBatches(pairs: set<Pair>, values: set<string>, size: nat) returns (found: set<string>)
    requires size > 0
    ensures found == Select(pairs, values)
  {
    found := {};
    var ordered := Sorted(values);
    var batches := Batches(ordered, size);
    for i := 0 to |batches|
      invariant found == Select(pairs, ToSet(Joined(batches[..i])))
    {
      TakeSnoc(batches, i);
      JoinedSnoc(batches[..i], batches[i]);
      SelectJoins(pairs, Joined(batches[..i]), batches[i]);
      found := found + Select(pairs, ToSet(batches[i]));
    }
    TakeAll(batches);
    BatchesJoin(ordered, size);
    assert ToSet(ordered) == values;
  }

  // ------------------------------------------------------------------- the lookup

  lemma ReportedSnoc(db: Db, ids: seq<string>, i: nat, c: RelevantConstraint)
    requires i < |ids|
    ensures Reported(db, ToSet(ids[..i + 1]), c) <==> Reported(db, ToSet(ids[..i]), c) || Reported(db, {ids[i]}, c)
  {
    TakeSnoc(ids, i);
  }

  lemma AppendRow(rows: seq<RelevantConstraint>, x: RelevantConstraint)
    requires OncePerRecord(rows) && forall c :: c in rows ==> c.recordId != x.recordId
    ensures OncePerRecord(rows + [x])
  {
    assert forall k :: 0 <= k < |rows| ==> rows[k] in rows;
  }

  /** The visible constraints of one batch of record ids. */
  method FetchBatch(db: Db, ids: seq<string>) returns (rows: seq<RelevantConstraint>)
    requires Distinct(ids)
    ensures OncePerRecord(rows) && forall c :: c in rows <==> Reported(db, ToSet(ids), c)
  {
    rows := [];
    for i := 0 to |ids|
      invariant OncePerRecord(rows) && forall c :: c in rows <==> Reported(db, ToSet(ids[..i]), c)
    {
      var id := ids[i];
      assert id !in ids[..i];
      forall c ensures Reported(db, ToSet(ids[..i + 1]), c) <==> c in rows || Reported(db, {id}, c) {
        ReportedSnoc(db, ids, i, c);
      }
      if HasRow(db, id) && Visible(RowOf(db, id).status) {
        AppendRow(rows, Described(db, id));
        rows := rows + [Described(db, id)];
      }
    }
    TakeAll(ids);
  }

  lemma ReportedJoins(db: Db, a: seq<string>, b: seq<string>, c: RelevantConstraint)
    ensures Reported(db, ToSet(a + b), c) <==> Reported(db, ToSet(a), c) || Reported(db, ToSet(b), c)
  {
  }

  lemma DistinctJoins(a: seq<string>, b: seq<string>)
    requires Distinct(a + b)
    ensures Distinct(a) && Distinct(b) && forall x :: x in a ==> x !in b
  {
    assert forall i :: 0 <= i < |a| ==> (a + b)[i] == a[i];
    assert forall i :: 0 <= i < |b| ==> (a + b)[|a| + i] == b[i];
  }

  lemma {:induction false} JoinedPrefix(bs: seq<seq<string>>, i: nat)
    requires i < |bs| && Distinct(Joined(bs))
    ensures Distinct(Joined(bs[..i]) + bs[i])
    decreases |bs| - i
  {
    TakeSnoc(bs, i);
    JoinedSnoc(bs[..i], bs[i]);
    if i + 1 < |bs| {
      JoinedPrefix(bs, i + 1);
      DistinctJoins(Joined(bs[..i + 1]), bs[i + 1]);
    } else {
      TakeAll(bs);
    }
  }

  lemma AppendRows(db: Db, seen: seq<string>, batch: seq<string>, rows: seq<RelevantConstraint>,
      more: seq<RelevantConstraint>)
    requires Distinct(seen + batch)
    requires OncePerRecord(rows) && forall c :: c in rows <==> Reported(db, ToSet(seen), c)
    requires OncePerRecord(more) && forall c :: c in more <==> Reported(db, ToSet(batch), c)
    ensures OncePerRecord(rows + more) && forall c :: c in rows + more <==> Reported(db, ToSet(seen + batch), c)
  {
    DistinctJoins(seen, batch);
    forall c ensures c in rows + more <==> Reported(db, ToSet(seen + batch), c) { ReportedJoins(db, seen, batch, c); }
    forall i, j | 0 <= i < |rows| && 0 <= j < |more| ensures rows[i].recordId != more[j].recordId {
      assert rows[i] in rows && more[j] in more;
    }
  }

  method FetchInBatches(db: Db, ids: set<string>, size: nat) returns (rows: seq<RelevantConstraint>)
    requires size > 0
    ensures OncePerRecord(rows) && forall c :: c in rows <==> Reported(db, ids, c)
  {
    rows := [];
    var ordered := Sorted(ids);
    var batches := Batches(ordered, size);
    BatchesJoin(ordered, size);
    for i := 0 to |batches|
      invariant OncePerRecord(rows) && forall c :: c in rows <==> Reported(db, ToSet(Joined(batches[..i])), c)
    {
      JoinedPrefix(batches, i);
      DistinctJoins(Joined(batches[..i]), batches[i]);
      TakeSnoc(batches, i);
      JoinedSnoc(batches[..i], batches[i]);
      var more := FetchBatch(db, batches[i]);
      AppendRows(db, Joined(batches[..i]), batches[i], rows, more);
      rows := rows + more;
    }
    TakeAll(batches);
    assert ToSet(ordered) == ids;
  }

  /** Files added, changed, or gone without being merely unreadable. */
  ghost predicate Changed(db: Db, scan: Scan, p: Path) {
    || (exists f :: f in scan.files && f.path == p && !Unchanged(db.index, f))
    || (p in Paths(db.index.files) && p !in scan.unreadable && forall f :: f in scan.files ==> f.path != p)
  }

  /** What `check` must return: it leaves no freedom, and does not mention batches. */
  ghost predicate IsCheckOf(r: CheckResult, db: Db, scan: Scan) {
    && Ascending(r.changed) && Distinct(r.changed) && (forall p :: p in r.changed <==> Changed(db, scan, p))
    && (r.changed == [] ==> r.affected == [] && r.constraints == [])
    && (r.changed != [] ==>
          && r.affected == Sorted(Affected(db, ToSet(r.changed)))
          && KeySorted(r.constraints) && OncePerRecord(r.constraints)
          && forall c :: c in r.constraints <==> Reported(db, Relevant(db, ToSet(r.changed)), c))
  }

  lemma PathsOf(files: seq<ScannedFile>, keep: ScannedFile -> bool, p: Path)
    ensures p in (set f | f in Filter(files, keep) :: f.path) <==> exists f :: f in files && f.path == p && keep(f)
  {
  }

  method ChangedFiles(db: Db, scan: Scan) returns (changed: set<Path>)
    ensures forall p :: p in changed <==> Changed(db, scan, p)
  {
    var added, modified, _, deleted := DiffAgainstPrevious(scan.files, db.index);
    changed := (set f | f in added :: f.path) + (set f | f in modified :: f.path) + (deleted - scan.unreadable);
    forall p ensures p in changed <==> Changed(db, scan, p) {
      PathsOf(scan.files, IsAdded(db.index), p);
      PathsOf(scan.files, IsModified(db.index), p);
    }
  }

  lemma SortedRows(rows: seq<RelevantConstraint>)
    requires OncePerRecord(rows)
    ensures OncePerRecord(SortByKey(rows)) && SameMembers(SortByKey(rows), rows)
  {
    var sorted := SortByKey(rows);
    forall x ensures x in sorted <==> x in rows { assert x in multiset(sorted) <==> x in multiset(rows); }
    forall i, j | 0 <= i < j < |sorted| ensures sorted[i].recordId != sorted[j].recordId {
      assert sorted[i] in sorted && sorted[j] in sorted;
      var k :| 0 <= k < |rows| && rows[k] == sorted[i];
      var l :| 0 <= l < |rows| && rows[l] == sorted[j];
      if k == l { OnceEach(rows, sorted, i, j); }
    }
  }

  lemma OnceEach(rows: seq<RelevantConstraint>, sorted: seq<RelevantConstraint>, i: nat, j: nat)
    requires OncePerRecord(rows) && multiset(sorted) == multiset(rows) && i < j < |sorted|
    ensures sorted[i] != sorted[j]
  {
    var x := sorted[i];
    AtMostOnce(rows, x);
    assert sorted == sorted[..j] + [sorted[j]] + sorted[j + 1..];
    assert multiset(sorted)[x] == multiset(sorted[..j])[x] + multiset([sorted[j]])[x] + multiset(sorted[j + 1..])[x];
    assert sorted[..j][i] == x && x in sorted[..j];
    assert x in multiset(sorted[..j]);
  }

  lemma {:induction false} AtMostOnce(rows: seq<RelevantConstraint>, x: RelevantConstraint)
    requires OncePerRecord(rows)
    ensures multiset(rows)[x] <= 1
  {
    if rows != [] {
      var n := |rows| - 1;
      AtMostOnce(rows[..n], x);
      assert rows == rows[..n] + [rows[n]];
      assert rows[n] == x ==> x !in rows[..n];
    }
  }

  /** The lookups for a non-empty set of changes, each in batches. */
  method LookUp(db: Db, changed: set<Path>, size: nat) returns (affected: set<string>, rows: seq<RelevantConstraint>)
    requires size > 0
    ensures affected == Affected(db, changed)
    ensures OncePerRecord(rows) && forall c :: c in rows <==> Reported(db, Relevant(db, changed), c)
  {
    affected := SelectInBatches(ScopeTouches(db), changed, size);
    var byScope := SelectInBatches(ByTarget(db, db.scopes), affected, size);
    var byFile := SelectInBatches(ByTarget(db, db.files), changed, size);
    var bySymbol := SelectInBatches(ByOwner(db, db.symbols), changed, size);
    rows := FetchInBatches(db, byScope + byFile + bySymbol + GlobalMusts(db), size);
  }

  method CheckChanges(db: Db, scan: Scan, size: nat) returns (r: CheckResult)
    requires size > 0
    ensures IsCheckOf(r, db, scan)
  {
    var changed := ChangedFiles(db, scan);
    if changed == {} { return CheckResult([], [], []); }
    var affected, rows := LookUp(db, changed, size);
    r := CheckResult(Sorted(changed), Sorted(affected), SortByKey(rows));
    Assembled(db, scan, changed, rows);
  }

  lemma Assembled(db: Db, scan: Scan, changed: set<Path>, rows: seq<RelevantConstraint>)
    requires changed != {} && forall p :: p in changed <==> Changed(db, scan, p)
    requires OncePerRecord(rows) && forall c :: c in rows <==> Reported(db, Relevant(db, changed), c)
    ensures IsCheckOf(CheckResult(Sorted(changed), Sorted(Affected(db, changed)), SortByKey(rows)), db, scan)
  {
    SortedRows(rows);
    assert ToSet(Sorted(changed)) == changed;
    assert |Sorted(changed)| == |changed| != 0;
  }

  /** The result does not depend on the batch size: the specification has one solution. */
  lemma CheckUnique(a: CheckResult, b: CheckResult, db: Db, scan: Scan)
    requires IsCheckOf(a, db, scan) && IsCheckOf(b, db, scan)
    ensures a == b
  {
    SameAscending(a.changed, b.changed);
    if a.changed != [] { SortedUnique(a.constraints, b.constraints); }
  }

  lemma {:induction false} SameAscending(a: seq<string>, b: seq<string>)
    requires Ascending(a) && Ascending(b) && Distinct(a) && Distinct(b) && SameMembers(a, b)
    ensures a == b
  {
    DistinctCounts(a, b);
    AscendingUnique(a, b);
  }

  lemma DistinctCounts(a: seq<string>, b: seq<string>)
    requires Distinct(a) && Distinct(b) && SameMembers(a, b)
    ensures multiset(a) == multiset(b)
  {
    forall x ensures multiset(a)[x] == multiset(b)[x] { DistinctCount(a, x); DistinctCount(b, x); }
  }

  lemma {:induction false} DistinctCount(a: seq<string>, x: string)
    requires Distinct(a)
    ensures multiset(a)[x] == if x in a then 1 else 0
  {
    if a != [] {
      var n := |a| - 1;
      DistinctCount(a[..n], x);
      assert a == a[..n] + [a[n]];
      assert a[n] !in a[..n];
    }
  }

  // -------------------------------------------------- the answer, in terms of the rows

  /** A file of the tree that the index does not have with this content, or an indexed one that is gone without being
      merely unreadable. */
  ghost predicate Differs(db: Db, scan: Scan, p: Path) {
    || (exists f ::
          f in scan.files && f.path == p && forall r :: r in db.index.files && r.path == p ==> r.content != f.content)
    || (p !in scan.unreadable && (exists r :: r in db.index.files && r.path == p)
      && forall f :: f in scan.files ==> f.path != p)
  }

  lemma DiffersIsChanged(db: Db, scan: Scan, p: Path)
    requires DistinctRecords(db.index.files)
    ensures Differs(db, scan, p) <==> Changed(db, scan, p)
  {
    forall r | r in db.index.files && r.path == p ensures RecordAt(db.index.files, p) == Some(r) {
      RecordOf(db.index.files, r);
    }
  }

  /** The scope lists a changed file, or a symbol whose file changed. */
  ghost predicate Touched(db: Db, changed: seq<Path>, scope: string) {
    || (exists p :: p in changed && (scope, p) in db.scopeFiles)
    || (exists y :: (scope, y) in db.scopeSymbols && y in db.owner && db.owner[y] in changed)
  }

  /** A row of the record's current revision. */
  ghost predicate CurrentRow(db: Db, rows: seq<Reference>, id: string, target: string) {
    id in db.current && exists r :: r in rows && r.recordId == id && r.revision == db.current[id] && r.target == target
  }

  ghost predicate InForce(db: Db, id: string, row: RevisionRow) {
    && id in db.current && (id, db.current[id]) in db.revisions && db.revisions[(id, db.current[id])] == row
    && (row.status == R.Active || row.status == R.ReviewRequired || row.status == R.Stale)
  }

  /** The record's current revision names a touched scope, a changed file or a symbol of one, or it is a MUST without
      any scope. */
  ghost predicate Concerns(db: Db, changed: seq<Path>, id: string, row: RevisionRow) {
    || (exists scope :: CurrentRow(db, db.scopes, id, scope) && Touched(db, changed, scope))
    || (exists p :: CurrentRow(db, db.files, id, p) && p in changed)
    || (exists y :: CurrentRow(db, db.symbols, id, y) && y in db.owner && db.owner[y] in changed)
    || (row.severity == R.Must && forall scope :: !CurrentRow(db, db.scopes, id, scope))
  }

  /** What is said of a record: its current revision, and the scopes that names, sorted. */
  ghost predicate Describes(db: Db, c: RelevantConstraint, row: RevisionRow) {
    && c.content == row.content && c.severity == row.severity && c.status == row.status
    && Ascending(c.scopeIds) && forall scope :: scope in c.scopeIds <==> CurrentRow(db, db.scopes, c.recordId, scope)
  }

  /** MUST before the others, then active before review required before stale, then by id. */
  ghost predicate Precedes(a: RelevantConstraint, b: RelevantConstraint) {
    && (b.severity == R.Must ==> a.severity == R.Must)
    && ((a.severity == R.Must <==> b.severity == R.Must) ==>
          && (b.status == R.Active ==> a.status == R.Active) && (a.status == R.Stale ==> b.status == R.Stale)
          && (a.status == b.status ==> Leq(a.recordId, b.recordId)))
  }

  lemma AffectedExactly(db: Db, changed: seq<Path>, scope: string)
    ensures scope in Affected(db, ToSet(changed)) <==> Touched(db, changed, scope)
  {
    if Touched(db, changed, scope) {
      if p :| p in changed && (scope, p) in db.scopeFiles {
        assert (scope, p) in ScopeTouches(db);
      } else {
        var y :| (scope, y) in db.scopeSymbols && y in db.owner && db.owner[y] in changed;
        assert (scope, y).1 in db.owner && (scope, db.owner[y]) in ScopeTouches(db);
      }
    }
  }

  lemma TargetsExactly(db: Db, rows: seq<Reference>, id: string, target: string)
    ensures (id, target) in ByTarget(db, rows) <==> CurrentRow(db, rows, id, target)
  {
    if CurrentRow(db, rows, id, target) {
      var r :| r in rows && r.recordId == id && r.revision == db.current[id] && r.target == target;
      assert IsCurrent(db, r) && (r.recordId, r.target) in ByTarget(db, rows);
    }
  }

  lemma OwnersExactly(db: Db, rows: seq<Reference>, id: string, p: Path)
    ensures (id, p) in ByOwner(db, rows)
        <==> exists y :: CurrentRow(db, rows, id, y) && y in db.owner && db.owner[y] == p
  {
    if (id, p) in ByOwner(db, rows) {
      var r :| r in rows && IsCurrent(db, r) && r.target in db.owner && (r.recordId, db.owner[r.target]) == (id, p);
      assert CurrentRow(db, rows, id, r.target);
    }
    if y :| CurrentRow(db, rows, id, y) && y in db.owner && db.owner[y] == p {
      var r :| r in rows && r.recordId == id && r.revision == db.current[id] && r.target == y;
      assert IsCurrent(db, r) && (r.recordId, db.owner[r.target]) in ByOwner(db, rows);
    }
  }

  lemma SelectExactly(pairs: set<Pair>, values: set<string>, x: string)
    ensures x in Select(pairs, values) <==> exists v :: v in values && (x, v) in pairs
  {
    if v :| v in values && (x, v) in pairs { assert (x, v).1 in values; }
  }

  lemma MustExactly(db: Db, id: string, row: RevisionRow)
    requires InForce(db, id, row)
    ensures id in GlobalMusts(db) <==> row.severity == R.Must && forall scope :: !CurrentRow(db, db.scopes, id, scope)
  {
    if (forall scope :: !CurrentRow(db, db.scopes, id, scope)) {
      forall r | r in db.scopes && r.recordId == id ensures !IsCurrent(db, r) {
        assert !CurrentRow(db, db.scopes, id, r.target);
      }
    }
  }

  lemma RelevantExactly(db: Db, changed: seq<Path>, id: string, row: RevisionRow)
    requires InForce(db, id, row)
    ensures id in Relevant(db, ToSet(changed)) <==> Concerns(db, changed, id, row)
  {
    var paths := ToSet(changed);
    forall scope ensures scope in Affected(db, paths) <==> Touched(db, changed, scope) {
      AffectedExactly(db, changed, scope);
    }
    forall t ensures (id, t) in ByTarget(db, db.scopes) <==> CurrentRow(db, db.scopes, id, t) {
      TargetsExactly(db, db.scopes, id, t);
    }
    forall t ensures (id, t) in ByTarget(db, db.files) <==> CurrentRow(db, db.files, id, t) {
      TargetsExactly(db, db.files, id, t);
    }
    forall p ensures (id, p) in ByOwner(db, db.symbols)
      <==> exists y :: CurrentRow(db, db.symbols, id, y) && y in db.owner && db.owner[y] == p
    {
      OwnersExactly(db, db.symbols, id, p);
    }
    SelectExactly(ByTarget(db, db.scopes), Affected(db, paths), id);
    SelectExactly(ByTarget(db, db.files), paths, id);
    SelectExactly(ByOwner(db, db.symbols), paths, id);
    MustExactly(db, id, row);
  }

  lemma DescribedExactly(db: Db, id: string)
    requires HasRow(db, id)
    ensures Described(db, id).recordId == id && Describes(db, Described(db, id), db.revisions[(id, db.current[id])])
  {
    var rows := Filter(db.scopes, OfRecordScopes(db, id));
    SortStringsMembers(Targets(rows));
    forall t ensures t in Targets(rows) <==> CurrentRow(db, db.scopes, id, t) {
      if CurrentRow(db, db.scopes, id, t) {
        var r :| r in db.scopes && r.recordId == id && r.revision == db.current[id] && r.target == t;
        assert OfRecordScopes(db, id)(r) && r in rows;
        var i :| 0 <= i < |rows| && rows[i] == r;
        assert Targets(rows)[i] == t;
      }
      if t in Targets(rows) {
        var i :| 0 <= i < |rows| && Targets(rows)[i] == t;
        assert rows[i] in rows;
      }
    }
  }

  lemma KeyPrecedes(a: RelevantConstraint, b: RelevantConstraint)
    requires KeyLeq(a, b) && a.status in {R.Active, R.ReviewRequired, R.Stale}
        && b.status in {R.Active, R.ReviewRequired, R.Stale}
    ensures Precedes(a, b)
  {
  }

  lemma ReportedExactly(db: Db, changed: seq<Path>, c: RelevantConstraint)
    requires Reported(db, Relevant(db, ToSet(changed)), c)
    ensures exists row ::
      InForce(db, c.recordId, row) && Concerns(db, changed, c.recordId, row) && Describes(db, c, row)
  {
    var row := db.revisions[(c.recordId, db.current[c.recordId])];
    DescribedExactly(db, c.recordId);
    RelevantExactly(db, changed, c.recordId, row);
  }

  /** What `check` answers: the paths that differ, the scopes they touch, and exactly the constraints in force that
      concern them, each once, described by its current revision, in order. */
  lemma AnswerExactly(r: CheckResult, db: Db, scan: Scan)
    requires IsCheckOf(r, db, scan) && DistinctRecords(db.index.files)
    ensures Ascending(r.changed) && Distinct(r.changed) && forall p :: p in r.changed <==> Differs(db, scan, p)
    ensures Ascending(r.affected) && Distinct(r.affected)
    ensures forall scope :: scope in r.affected <==> Touched(db, r.changed, scope)
    ensures forall i, j :: 0 <= i < j < |r.constraints| ==>
      Precedes(r.constraints[i], r.constraints[j]) && r.constraints[i].recordId != r.constraints[j].recordId
    ensures forall c :: c in r.constraints ==>
      exists row :: InForce(db, c.recordId, row) && Concerns(db, r.changed, c.recordId, row) && Describes(db, c, row)
    ensures r.changed != [] ==> forall id, row :: InForce(db, id, row) && Concerns(db, r.changed, id, row) ==>
      exists c :: c in r.constraints && c.recordId == id
  {
    forall p ensures p in r.changed <==> Differs(db, scan, p) { DiffersIsChanged(db, scan, p); }
    forall scope ensures scope in r.affected <==> Touched(db, r.changed, scope) {
      AffectedExactly(db, r.changed, scope);
    }
    if r.changed != [] { ConstraintsExactly(r, db, scan); }
  }

  lemma ConstraintsExactly(r: CheckResult, db: Db, scan: Scan)
    requires IsCheckOf(r, db, scan) && r.changed != []
    ensures forall i, j :: 0 <= i < j < |r.constraints| ==>
      Precedes(r.constraints[i], r.constraints[j]) && r.constraints[i].recordId != r.constraints[j].recordId
    ensures forall c :: c in r.constraints ==>
      exists row :: InForce(db, c.recordId, row) && Concerns(db, r.changed, c.recordId, row) && Describes(db, c, row)
    ensures forall id, row :: InForce(db, id, row) && Concerns(db, r.changed, id, row) ==>
      exists c :: c in r.constraints && c.recordId == id
  {
    forall c | c in r.constraints
      ensures exists row ::
        InForce(db, c.recordId, row) && Concerns(db, r.changed, c.recordId, row) && Describes(db, c, row)
    {
      ReportedExactly(db, r.changed, c);
    }
    forall i, j | 0 <= i < j < |r.constraints| ensures Precedes(r.constraints[i], r.constraints[j]) {
      assert r.constraints[i] in r.constraints && r.constraints[j] in r.constraints;
      KeyPrecedes(r.constraints[i], r.constraints[j]);
    }
    forall id, row | InForce(db, id, row) && Concerns(db, r.changed, id, row)
      ensures exists c :: c in r.constraints && c.recordId == id
    {
      RelevantExactly(db, r.changed, id, row);
      DescribedExactly(db, id);
      assert Reported(db, Relevant(db, ToSet(r.changed)), Described(db, id));
    }
  }
}
