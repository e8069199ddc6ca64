/** What a lifecycle pass answers for each record: who is orphaned, put up for review, stale or expired, and why. */
module Detection {
  import opened Collections
  import opened Hashes
  import opened Records
  import opened Staleness

  /** The statuses a pass never leaves. */
  predicate Closed(r: MemoryRevision) { r.status == Orphaned || r.status == ReviewRequired || r.status == Inactive }

  ghost predicate ScopeMissing(scopes: seq<string>, s: Snapshot) { exists id :: id in scopes && id !in s.scopes }

  ghost predicate ReferenceMissing(r: MemoryRevision, s: Snapshot) {
    (exists f :: f in r.files && f !in s.files) || (exists y :: y in r.symbols && y !in s.owner)
  }

  /** The recorded membership hashes are those of the named scopes as they are now. */
  ghost predicate ScopesAsRecorded(hashes: map<string, Digest>, scopes: seq<string>, s: Snapshot) {
    && (forall id :: id in hashes <==> id in scopes && id in s.scopes)
    && (forall id :: id in hashes ==> hashes[id] == MembershipHash(s.scopes[id].files, s.scopes[id].symbols))
  }

  ghost predicate Expired(at: Option<Timestamp>, now: Timestamp) { at.Some? && at.value <= now }

  // ---------------------------------------------------------------- one row each

  ghost predicate Wrote(rows: seq<MemoryRevision>, id: string, status: RecordStatus) {
    exists q :: q in rows && q.recordId == id && q.status == status
  }

  ghost predicate WroteNothing(rows: seq<MemoryRevision>, id: string) { forall q :: q in rows ==> q.recordId != id }

  /** In a list of records with different ids, a record's rows are what its own rule gives. */
  lemma {:induction false} OwnRow<T(!new)>(current: seq<T>, step: T -> Option<T>, key: T -> Key, r: T, x: T)
    requires DistinctIds(current, key) && Advances(step, key) && r in current
    ensures x in Transitions(current, step) && key(x).0 == key(r).0 <==> step(r) == Some(x)
  {
    TransitionsFollow(current, step, key);
    if step(r) == Some(x) { TransitionListed(current, step, r); }
    if x in Transitions(current, step) && key(x).0 == key(r).0 {
      var q :| q in current && step(q) == Some(x);
      SameIdSameRow(current, key, q, r);
    }
  }

  lemma SameIdSameRow<T>(rows: seq<T>, key: T -> Key, x: T, y: T)
    requires DistinctIds(rows, key) && x in rows && y in rows && key(x).0 == key(y).0
    ensures x == y
  {
    var i :| 0 <= i < |rows| && rows[i] == x;
    var j :| 0 <= j < |rows| && rows[j] == y;
  }

  lemma RowsSnoc<T>(a: seq<T>, r: T, step: T -> Option<T>)
    ensures Transitions(a + [r], step) == Transitions(a, step) + match step(r) case None => [] case Some(x) => [x]
  {
    assert (a + [r])[..|a|] == a;
  }

  /** Rows come in the order of the records they are about. */
  lemma {:induction false} RowsInOrder<T>(a: seq<T>, b: seq<T>, step: T -> Option<T>)
    ensures Transitions(a + b, step) == Transitions(a, step) + Transitions(b, step)
  {
    if b == [] {
      assert a + b == a;
    } else {
      var front, r := b[..|b| - 1], b[|b| - 1];
      RowsInOrder(a, front, step);
      RowsSnoc(a + front, r, step);
      RowsSnoc(front, r, step);
      assert a + b == (a + front) + [r] && b == front + [r];
    }
  }

  lemma OwnRecordRow(
    current: seq<MemoryRevision>, step: MemoryRevision -> Option<MemoryRevision>, r: MemoryRevision,
        status: RecordStatus)
    requires DistinctIds(current, RecordKey) && Advances(step, RecordKey) && r in current
    ensures Wrote(Transitions(current, step), r.recordId, status) <==> step(r).Some? && step(r).value.status == status
    ensures WroteNothing(Transitions(current, step), r.recordId) <==> step(r).None?
    ensures forall q :: q in Transitions(current, step) && q.recordId == r.recordId ==> step(r) == Some(q)
  {
    forall q | q in Transitions(current, step) && q.recordId == r.recordId ensures step(r) == Some(q) {
      OwnRow(current, step, RecordKey, r, q);
    }
    if step(r).Some? { OwnRow(current, step, RecordKey, r, step(r).value); }
  }

  // ------------------------------------------------------------------- decisions

  lemma DecisionRule(r: MemoryRevision, s: Snapshot, now: Timestamp)
    ensures var next := DecisionTransition(r, s, now);
            && (next.None? <==> Closed(r) || (!ScopeMissing(r.scopes, s) && !ReferenceMissing(r, s)))
            && (next.Some? ==>
                  next.value == r.(
                    revision := r.revision + 1, status := if ScopeMissing(r.scopes, s)
                        then Orphaned else ReviewRequired,
                    createdBy := SystemStaleness, approvedBy := None, createdAt := now))
  {
  }

  /** A decision that is still open is orphaned exactly when a scope it names is gone, and put up for review exactly
      when all its scopes exist and a file or symbol it names is gone; nothing else is written, and nothing else
      changed. */
  lemma DecisionPassExactly(current: seq<MemoryRevision>, s: Snapshot, now: Timestamp, r: MemoryRevision)
    requires DistinctIds(current, RecordKey) && r in current
    ensures var rows := Transitions(current, DecisionStep(s, now));
            && (Wrote(rows, r.recordId, Orphaned) <==> !Closed(r) && ScopeMissing(r.scopes, s))
            && (Wrote(rows, r.recordId, ReviewRequired)
                <==> !Closed(r) && !ScopeMissing(r.scopes, s) && ReferenceMissing(r, s))
            && (WroteNothing(rows, r.recordId)
                <==> Closed(r) || (!ScopeMissing(r.scopes, s) && !ReferenceMissing(r, s)))
            && (forall q :: q in rows && q.recordId == r.recordId ==>
                  q == r.(revision := r.revision + 1, status := q.status, createdBy := SystemStaleness,
                      approvedBy := None,
                          createdAt := now))
  {
    DecisionStepRules(s, now);
    DecisionRule(r, s, now);
    OwnRecordRow(current, DecisionStep(s, now), r, Orphaned);
    OwnRecordRow(current, DecisionStep(s, now), r, ReviewRequired);
  }

  // ----------------------------------------------------------------- constraints

  /** Everything a source-bound, scope-bound or temporary constraint can be flagged for, once nothing is missing. */
  ghost predicate SourceChanged(r: MemoryRevision, s: Snapshot) {
    r.mode == Some(SourceBound) && !SourcesAre(r.sourceHashes, r.files, r.symbols, s.files, s.owner)
  }

  ghost predicate MembershipChanged(r: MemoryRevision, s: Snapshot) {
    r.mode == Some(ScopeBound) && !ScopesAsRecorded(r.scopeHashes, r.scopes, s)
  }

  ghost predicate RunOut(r: MemoryRevision, now: Timestamp) {
    r.mode == Some(Temporary) && r.status != Stale && Expired(r.expiresAt, now)
  }

  ghost predicate Watched(r: MemoryRevision) { !Closed(r) && r.mode != Some(Persistent) }

  ghost predicate AllPresent(r: MemoryRevision, s: Snapshot) { !ScopeMissing(r.scopes, s) && !ReferenceMissing(r, s) }

  lemma ExistenceRule(r: MemoryRevision, s: Snapshot)
    ensures ExistenceStatus(r, s)
         == if ScopeMissing(r.scopes, s) then Some(Orphaned) else if ReferenceMissing(r, s)
           then Some(ReviewRequired) else None
  {
  }

  lemma ScopeHashesRecorded(scopes: seq<string>, s: Snapshot)
    ensures ScopesAsRecorded(ScopeHashesOf(scopes, s), scopes, s)
  {
  }

  lemma RecordedOnce(a: map<string, Digest>, b: map<string, Digest>, scopes: seq<string>, s: Snapshot)
    requires ScopesAsRecorded(a, scopes, s) && ScopesAsRecorded(b, scopes, s)
    ensures a == b
  {
    assert forall id :: id in a <==> id in b;
    forall id | id in a ensures a[id] == b[id] {}
  }

  lemma RecordedScopesRule(hashes: map<string, Digest>, scopes: seq<string>, s: Snapshot)
    ensures ScopesAsRecorded(hashes, scopes, s) <==> hashes == ScopeHashesOf(scopes, s)
  {
    ScopeHashesRecorded(scopes, s);
    if ScopesAsRecorded(hashes, scopes, s) { RecordedOnce(hashes, ScopeHashesOf(scopes, s), scopes, s); }
  }

  /** What the rule gives: the status, and why. */
  lemma ConstraintRule(r: MemoryRevision, s: Snapshot, now: Timestamp)
    ensures var change := ConstraintChange(r, s, now);
            && (change.Some? && change.value.status == Orphaned <==> Watched(r) && ScopeMissing(r.scopes, s))
            && (change.Some? && change.value.status == ReviewRequired
                <==> Watched(r) && !ScopeMissing(r.scopes, s) && (ReferenceMissing(r, s) || MembershipChanged(r, s)))
            && (change.Some? && change.value.status == Stale
                <==> Watched(r) && AllPresent(r, s) && (SourceChanged(r, s) || RunOut(r, now)))
            && (change.Some? ==> change.value.status in {Orphaned, ReviewRequired, Stale})
  {
    ExistenceRule(r, s);
    SourcesAreHashes(r.sourceHashes, r.files, r.symbols, s.files, s.owner);
    RecordedScopesRule(r.scopeHashes, r.scopes, s);
  }

  /** What a flagged constraint carries: the hashes of now where they were compared, and its old ones elsewhere. */
  ghost predicate CarriesHashes(r: MemoryRevision, s: Snapshot, q: MemoryRevision) {
    && (if AllPresent(r, s) && r.mode == Some(SourceBound) then SourcesAre(q.sourceHashes, r.files, r.symbols,
      s.files, s.owner)
        else q.sourceHashes == r.sourceHashes)
    && (if AllPresent(r, s) && r.mode == Some(ScopeBound) then ScopesAsRecorded(q.scopeHashes, r.scopes, s)
        else q.scopeHashes == r.scopeHashes)
  }

  lemma ChangeParts(r: MemoryRevision, s: Snapshot, now: Timestamp)
    requires ConstraintChange(r, s, now).Some?
    ensures var change, existing := ConstraintChange(r, s, now).value, ExistenceStatus(r, s).None?;
            && change.sourceHashes
              == (if existing && r.mode == Some(SourceBound) then SnapshotOf(r, s) else r.sourceHashes)
            && change.scopeHashes
              == (if existing && r.mode == Some(ScopeBound) then ScopeHashesOf(r.scopes, s) else r.scopeHashes)
            && change.author == (if existing && r.mode == Some(Temporary) then SystemLifecycle else SystemStaleness)
  {
  }

  lemma RevisionShape(r: MemoryRevision, c: Change, now: Timestamp)
    ensures var q := SystemRevision(r, c, now);
            && q == r.(revision := r.revision + 1, status := q.status, createdBy := q.createdBy, approvedBy := None,
                       createdAt := now, sourceHashes := q.sourceHashes, scopeHashes := q.scopeHashes)
            && q.createdBy == c.author && q.sourceHashes == c.sourceHashes && q.scopeHashes == c.scopeHashes
  {
  }

  lemma HashesCarried(r: MemoryRevision, s: Snapshot, q: MemoryRevision)
    requires q.sourceHashes
        == if ExistenceStatus(r, s).None? && r.mode == Some(SourceBound) then SnapshotOf(r, s) else r.sourceHashes
    requires q.scopeHashes
        == if ExistenceStatus(r, s).None? && r.mode == Some(ScopeBound)
        then ScopeHashesOf(r.scopes, s) else r.scopeHashes
    ensures CarriesHashes(r, s, q)
  {
    ExistenceRule(r, s);
    SourcesAreHashes(SnapshotOf(r, s), r.files, r.symbols, s.files, s.owner);
    ScopeHashesRecorded(r.scopes, s);
  }

  lemma ConstraintRow(r: MemoryRevision, s: Snapshot, now: Timestamp)
    requires ConstraintTransition(r, s, now).Some?
    ensures var q := ConstraintTransition(r, s, now).value;
            && q == r.(revision := r.revision + 1, status := q.status, createdBy := q.createdBy, approvedBy := None,
                       createdAt := now, sourceHashes := q.sourceHashes, scopeHashes := q.scopeHashes)
            && q.createdBy == (if r.mode == Some(Temporary)
              && AllPresent(r, s) then SystemLifecycle else SystemStaleness)
            && CarriesHashes(r, s, q)
  {
    ChangeParts(r, s, now);
    RevisionShape(r, ConstraintChange(r, s, now).value, now);
    HashesCarried(r, s, ConstraintTransition(r, s, now).value);
    ExistenceRule(r, s);
  }

  /** A constraint that is open and not persistent is orphaned exactly when a scope it names is gone; put up for review
      exactly when its scopes exist and either a file or symbol is gone or, for a scope-bound one with everything there,
      a scope's members are not those recorded; stale exactly when everything exists and either its sources are not
      those recorded or it has just run out. Any other is left alone. */
  lemma ConstraintPassExactly(current: seq<MemoryRevision>, s: Snapshot, now: Timestamp, r: MemoryRevision)
    requires DistinctIds(current, RecordKey) && r in current
    ensures var rows := Transitions(current, ConstraintStep(s, now));
            && (Wrote(rows, r.recordId, Orphaned) <==> Watched(r) && ScopeMissing(r.scopes, s))
            && (Wrote(rows, r.recordId, ReviewRequired)
                <==> Watched(r) && !ScopeMissing(r.scopes, s) && (ReferenceMissing(r, s) || MembershipChanged(r, s)))
            && (Wrote(rows, r.recordId, Stale)
                <==> Watched(r) && AllPresent(r, s) && (SourceChanged(r, s) || RunOut(r, now)))
            && (forall q :: q in rows && q.recordId == r.recordId ==> q.status in {Orphaned, ReviewRequired, Stale})
  {
    ConstraintStepRules(s, now);
    ConstraintRule(r, s, now);
    OwnRecordRow(current, ConstraintStep(s, now), r, Orphaned);
    OwnRecordRow(current, ConstraintStep(s, now), r, ReviewRequired);
    OwnRecordRow(current, ConstraintStep(s, now), r, Stale);
  }

  /** What is written is the next revision, by the system, at that time, and otherwise the old one with those hashes. */
  lemma ConstraintRowsExactly(current: seq<MemoryRevision>, s: Snapshot, now: Timestamp, r: MemoryRevision,
      q: MemoryRevision)
    requires DistinctIds(current, RecordKey) && r in current
    requires q in Transitions(current, ConstraintStep(s, now)) && q.recordId == r.recordId
    ensures q == r.(revision := r.revision + 1, status := q.status, createdBy := q.createdBy, approvedBy := None,
                    createdAt := now, sourceHashes := q.sourceHashes, scopeHashes := q.scopeHashes)
    ensures q.createdBy == if r.mode == Some(Temporary) && AllPresent(r, s) then SystemLifecycle else SystemStaleness
    ensures CarriesHashes(r, s, q)
  {
    ConstraintStepRules(s, now);
    OwnRow(current, ConstraintStep(s, now), RecordKey, r, q);
    ConstraintRow(r, s, now);
  }

  // ------------------------------------------------------------------------- notes

  predicate NoteClosed(n: Note) { n.status == NoteExpired || n.status == NoteOrphaned || n.status == NoteArchived }

  ghost predicate WroteNote(rows: seq<Note>, id: string, status: NoteStatus) {
    exists m :: m in rows && m.id == id && m.status == status
  }

  ghost predicate Changed(n: Note, s: Snapshot) {
    n.sourceHashes != map[] && !SourcesAre(n.sourceHashes, n.files, n.symbols, s.files, s.owner)
  }

  lemma NoteRule(n: Note, s: Snapshot, now: Timestamp)
    ensures var next := NoteTransition(n, s, now);
            && (next.Some? && next.value.status == NoteOrphaned <==> !NoteClosed(n) && ScopeMissing(n.scopes, s))
            && (next.Some? && next.value.status == NoteExpired
                <==> !NoteClosed(n) && !ScopeMissing(n.scopes, s) && Expired(n.expiresAt, now))
            && (next.Some? && next.value.status == NoteStale
                <==> !NoteClosed(n) && !ScopeMissing(n.scopes, s) && !Expired(n.expiresAt, now) && Changed(n, s))
            && (next.Some? ==> next.value.status in {NoteOrphaned, NoteExpired, NoteStale})
  {
    SourcesAreHashes(n.sourceHashes, n.files, n.symbols, s.files, s.owner);
  }

  lemma NoteRow(n: Note, s: Snapshot, now: Timestamp)
    ensures var next := NoteTransition(n, s, now);
            next.Some? ==>
              && next.value == n.(
                   revision := n.revision + 1, status := next.value.status, source := next.value.source,
                   lastVerifiedAt := now, sourceHashes := next.value.sourceHashes)
              && next.value.source == (if next.value.status == NoteExpired then SystemLifecycle else SystemStaleness)
              && if next.value.status == NoteStale
                then SourcesAre(next.value.sourceHashes, n.files, n.symbols, s.files, s.owner)
                 else next.value.sourceHashes == n.sourceHashes
  {
    SourcesAreHashes(SourceHashes(n.files, n.symbols, s.files, s.owner), n.files, n.symbols, s.files, s.owner);
  }

  /** A note that is open is orphaned exactly when a scope it names is gone, otherwise expired exactly when its time has
      come, otherwise flagged exactly when it is bound and its sources are not those recorded. */
  lemma NotePassExactly(current: seq<Note>, s: Snapshot, now: Timestamp, n: Note)
    requires DistinctIds(current, NoteKey) && n in current
    ensures var rows := Transitions(current, NoteStep(s, now));
            && (WroteNote(rows, n.id, NoteOrphaned) <==> !NoteClosed(n) && ScopeMissing(n.scopes, s))
            && (WroteNote(rows, n.id, NoteExpired)
                <==> !NoteClosed(n) && !ScopeMissing(n.scopes, s) && Expired(n.expiresAt, now))
            && (WroteNote(rows, n.id, NoteStale)
                <==> !NoteClosed(n) && !ScopeMissing(n.scopes, s) && !Expired(n.expiresAt, now) && Changed(n, s))
            && (forall m :: m in rows && m.id == n.id ==> m.status in {NoteOrphaned, NoteExpired, NoteStale})
  {
    NoteStepRules(s, now);
    NoteRule(n, s, now);
    OwnNoteRow(current, NoteStep(s, now), n);
  }

  lemma OwnNoteRow(current: seq<Note>, step: Note -> Option<Note>, n: Note)
    requires DistinctIds(current, NoteKey) && Advances(step, NoteKey) && n in current
    ensures forall status ::
      WroteNote(Transitions(current, step), n.id, status) <==> step(n).Some? && step(n).value.status == status
    ensures forall m :: m in Transitions(current, step) && m.id == n.id ==> step(n) == Some(m)
  {
    forall m | m in Transitions(current, step) && m.id == n.id ensures step(n) == Some(m) {
      OwnRow(current, step, NoteKey, n, m);
    }
    if step(n).Some? { OwnRow(current, step, NoteKey, n, step(n).value); }
  }

  lemma NoteRowsExactly(current: seq<Note>, s: Snapshot, now: Timestamp, n: Note, m: Note)
    requires DistinctIds(current, NoteKey) && n in current && m in Transitions(current, NoteStep(s, now))
        && m.id == n.id
    ensures m == n.(revision := n.revision + 1, status := m.status, source := m.source, lastVerifiedAt := now,
                    sourceHashes := m.sourceHashes)
    ensures m.source == if m.status == NoteExpired then SystemLifecycle else SystemStaleness
    ensures if m.status == NoteStale then SourcesAre(m.sourceHashes, n.files, n.symbols, s.files, s.owner)
            else m.sourceHashes == n.sourceHashes
  {
    NoteStepRules(s, now);
    OwnRow(current, NoteStep(s, now), NoteKey, n, m);
    NoteRow(n, s, now);
  }
}
