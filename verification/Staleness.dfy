/** System-triggered lifecycle transitions of decisions, constraints and notes. */
module Staleness {
  import opened Collections
  import opened Hashes
  import opened Records

  predicate Terminal(status: RecordStatus) { status in {Orphaned, ReviewRequired, Inactive} }

  predicate NoteTerminal(status: NoteStatus) { status in {NoteExpired, NoteOrphaned, NoteArchived} }

  /** What the system changes in a record. */
  datatype Change = Change(status: RecordStatus, author: Author, sourceHashes: map<string, Digest>,
      scopeHashes: map<string, Digest>)

  /** A new status, with nothing extra. */
  function NewStatus(r: MemoryRevision, status: RecordStatus, author: Author): Change {
    Change(status, author, r.sourceHashes, r.scopeHashes)
  }

  /** A full copy of the current revision with only lifecycle fields, and the refreshed hashes, changed. */
  function SystemRevision(r: MemoryRevision, c: Change, now: Timestamp): MemoryRevision {
    r.(revision := r.revision + 1, status := c.status, createdBy := c.author, approvedBy := None, createdAt := now,
       sourceHashes := c.sourceHashes, scopeHashes := c.scopeHashes)
  }

  function ExistenceStatus(r: MemoryRevision, s: Snapshot): Option<RecordStatus> {
    if exists id :: id in r.scopes && id !in s.scopes then Some(Orphaned)
    else if (exists f :: f in r.files && f !in s.files) || (exists y :: y in r.symbols && y !in s.owner)
      then Some(ReviewRequired)
    else None
  }

  function DecisionTransition(r: MemoryRevision, s: Snapshot, now: Timestamp): Option<MemoryRevision> {
    if Terminal(r.status) then None
    else
      match ExistenceStatus(r, s)
      case None => None
      case Some(status) => Some(SystemRevision(r, NewStatus(r, status, SystemStaleness), now))
  }

  function SnapshotOf(r: MemoryRevision, s: Snapshot): map<string, Digest> {
    SourceHashes(r.files, r.symbols, s.files, s.owner)
  }

  function ScopeHashesOf(scopes: seq<string>, s: Snapshot): map<string, Digest> {
    map id | id in scopes && id in s.scopes :: MembershipHash(s.scopes[id].files, s.scopes[id].symbols)
  }

  function ConstraintChange(r: MemoryRevision, s: Snapshot, now: Timestamp): Option<Change> {
    if Terminal(r.status) || r.mode == Some(Persistent) then None
    else
      match ExistenceStatus(r, s)
      case Some(status) => Some(NewStatus(r, status, SystemStaleness))
      case None =>
        if r.mode == Some(SourceBound) && SnapshotOf(r, s) != r.sourceHashes then
          Some(NewStatus(r, Stale, SystemStaleness).(sourceHashes := SnapshotOf(r, s)))
        else if r.mode == Some(ScopeBound) && ScopeHashesOf(r.scopes, s) != r.scopeHashes then
          Some(NewStatus(r, ReviewRequired, SystemStaleness).(scopeHashes := ScopeHashesOf(r.scopes, s)))
        else if r.mode == Some(Temporary) && r.status != Stale && r.expiresAt.Some? && now >= r.expiresAt.value then
          Some(NewStatus(r, Stale, SystemLifecycle))
        else None
  }

  function ConstraintTransition(r: MemoryRevision, s: Snapshot, now: Timestamp): Option<MemoryRevision> {
    match ConstraintChange(r, s, now)
    case None => None
    case Some(change) => Some(SystemRevision(r, change, now))
  }

  function NoteRevision(n: Note, status: NoteStatus, now: Timestamp, author: Author): Note {
    n.(revision := n.revision + 1, status := status, source := author, lastVerifiedAt := now)
  }

  function NoteTransition(n: Note, s: Snapshot, now: Timestamp): Option<Note> {
    var hashes := SourceHashes(n.files, n.symbols, s.files, s.owner);
    if NoteTerminal(n.status) then None
    else if exists id :: id in n.scopes && id !in s.scopes
      then Some(NoteRevision(n, NoteOrphaned, now, SystemStaleness))
    else if n.expiresAt.Some? && now >= n.expiresAt.value then Some(NoteRevision(n, NoteExpired, now, SystemLifecycle))
    else if n.sourceHashes != map[] && hashes != n.sourceHashes then
      Some(NoteRevision(n, NoteStale, now, SystemStaleness).(sourceHashes := hashes))
    else None
  }

  // ----------------------------------------------------------- detection passes

  /** The transitions of a list of current revisions, in order. */
  function Transitions<T>(current: seq<T>, step: T -> Option<T>): seq<T> {
    if current == [] then []
    else
      var next := step(current[|current| - 1]);
      Transitions(current[..|current| - 1], step) + if next.Some? then [next.value] else []
  }

  function DecisionStep(s: Snapshot, now: Timestamp): MemoryRevision -> Option<MemoryRevision> {
    (r: MemoryRevision) => DecisionTransition(r, s, now)
  }

  function ConstraintStep(s: Snapshot, now: Timestamp): MemoryRevision -> Option<MemoryRevision> {
    (r: MemoryRevision) => ConstraintTransition(r, s, now)
  }

  function NoteStep(s: Snapshot, now: Timestamp): Note -> Option<Note> { (n: Note) => NoteTransition(n, s, now) }

  lemma TransitionsSnoc<T>(current: seq<T>, i: nat, step: T -> Option<T>)
    requires i < |current|
    ensures Transitions(current[..i + 1], step)
         == Transitions(current[..i], step) + if step(current[i]).Some? then [step(current[i]).value] else []
  {
    TakeSnoc(current, i);
  }

  /** A pass appends at most one revision per record, the next one. */
  lemma {:induction false} TransitionsFollow<T>(current: seq<T>, step: T -> Option<T>, key: T -> Key)
    requires DistinctIds(current, key)
    requires forall r :: r in current && step(r).Some? ==> key(step(r).value) == (key(r).0, key(r).1 + 1)
    ensures DistinctIds(Transitions(current, step), key)
    ensures forall x :: x in Transitions(current, step) ==> exists r :: r in current && step(r) == Some(x)
  {
    if current != [] {
      var n := |current| - 1;
      TransitionsFollow(current[..n], step, key);
      assert current[n] in current;
      forall x | x in Transitions(current[..n], step) ensures key(x).0 != key(current[n]).0 {
        var r :| r in current[..n] && step(r) == Some(x);
        var i :| 0 <= i < n && current[i] == r;
        assert key(current[i]).0 != key(current[n]).0;
      }
    }
  }

  ghost predicate Advances<T(!new)>(step: T -> Option<T>, key: T -> Key) {
    forall r :: step(r).Some? ==> key(step(r).value) == (key(r).0, key(r).1 + 1)
  }

  /** A pass over a numbered log appends rows that continue its numbering. */
  lemma PassContinues<T(!new)>(log: seq<T>, key: T -> Key, step: T -> Option<T>)
    requires Numbered(log, key) && Advances(step, key)
    ensures Numbered(log + Transitions(Currents(log, key), step), key)
  {
    CurrentsDistinct(log, key);
    TransitionsFollow(Currents(log, key), step, key);
    forall x | x in Transitions(Currents(log, key), step) ensures IsNext(log, key, x) {
      var r :| r in Currents(log, key) && step(r) == Some(x);
      NumberedCurrent(log, key, key(r).0);
    }
    NumberedAppendMany(log, key, Transitions(Currents(log, key), step));
  }

  lemma DecisionFollows(r: MemoryRevision, s: Snapshot, now: Timestamp)
    requires DecisionTransition(r, s, now).Some?
    ensures var q := DecisionTransition(r, s, now).value;
            q.recordId == r.recordId && q.revision == r.revision + 1 && q.rtype == r.rtype
                && q.status in {Orphaned, ReviewRequired}
  {
  }

  lemma ConstraintFollows(r: MemoryRevision, s: Snapshot, now: Timestamp)
    requires ConstraintTransition(r, s, now).Some?
    ensures var q := ConstraintTransition(r, s, now).value;
            q.recordId == r.recordId && q.revision == r.revision + 1 && q.rtype == r.rtype
                && q.status in {Orphaned, ReviewRequired, Stale}
  {
  }

  method DetectDecisionTransitions(current: seq<MemoryRevision>, s: Snapshot, now: Timestamp)
      returns (revisions: seq<MemoryRevision>)
    ensures revisions == Transitions(current, DecisionStep(s, now))
  {
    revisions := [];
    for i := 0 to |current|
      invariant revisions == Transitions(current[..i], DecisionStep(s, now))
    {
      var r := current[i];
      TransitionsSnoc(current, i, DecisionStep(s, now));
      if Terminal(r.status) { continue; }
      var status := ExistenceStatus(r, s);
      if status.Some? {
        revisions := revisions + [SystemRevision(r, NewStatus(r, status.value, SystemStaleness), now)];
      }
    }
    TakeAll(current);
  }

  /** The snapshot comparison of one constraint whose references all exist. */
  method CompareSnapshots(r: MemoryRevision, s: Snapshot, now: Timestamp) returns (change: Option<Change>)
    requires !Terminal(r.status) && r.mode != Some(Persistent) && ExistenceStatus(r, s).None?
    ensures change == ConstraintChange(r, s, now)
  {
    change := None;
    if r.mode == Some(SourceBound) {
      var hashes := ComputeSourceHashes(r.files, r.symbols, s.files, s.owner);
      if hashes != r.sourceHashes {
        change := Some(NewStatus(r, Stale, SystemStaleness).(sourceHashes := hashes));
      }
    } else if r.mode == Some(ScopeBound) {
      var hashes := ScopeHashesOf(r.scopes, s);
      if hashes != r.scopeHashes {
        change := Some(NewStatus(r, ReviewRequired, SystemStaleness).(scopeHashes := hashes));
      }
    } else if r.mode == Some(Temporary) {
      if r.status != Stale && r.expiresAt.Some? && now >= r.expiresAt.value {
        change := Some(NewStatus(r, Stale, SystemLifecycle));
      }
    }
  }

  method DetectConstraintTransitions(current: seq<MemoryRevision>, s: Snapshot, now: Timestamp)
      returns (revisions: seq<MemoryRevision>)
    ensures revisions == Transitions(current, ConstraintStep(s, now))
  {
    revisions := [];
    for i := 0 to |current|
      invariant revisions == Transitions(current[..i], ConstraintStep(s, now))
    {
      var r := current[i];
      TransitionsSnoc(current, i, ConstraintStep(s, now));
      if Terminal(r.status) { continue; }
      if r.mode == Some(Persistent) { continue; }
      var existence := ExistenceStatus(r, s);
      if existence.Some? {
        revisions := revisions + [SystemRevision(r, NewStatus(r, existence.value, SystemStaleness), now)];
        continue;
      }
      var change := CompareSnapshots(r, s, now);
      if change.Some? {
        revisions := revisions + [SystemRevision(r, change.value, now)];
      }
    }
    TakeAll(current);
  }

  method DetectNoteTransitions(current: seq<Note>, s: Snapshot, now: Timestamp) returns (revisions: seq<Note>)
    ensures revisions == Transitions(current, NoteStep(s, now))
  {
    revisions := [];
    for i := 0 to |current|
      invariant revisions == Transitions(current[..i], NoteStep(s, now))
    {
      var n := current[i];
      TransitionsSnoc(current, i, NoteStep(s, now));
      if NoteTerminal(n.status) { continue; }
      if exists id :: id in n.scopes && id !in s.scopes {
        revisions := revisions + [NoteRevision(n, NoteOrphaned, now, SystemStaleness)];
        continue;
      }
      if n.expiresAt.Some? && now >= n.expiresAt.value {
        revisions := revisions + [NoteRevision(n, NoteExpired, now, SystemLifecycle)];
        continue;
      }
      if n.sourceHashes != map[] {
        var hashes := ComputeSourceHashes(n.files, n.symbols, s.files, s.owner);
        if hashes != n.sourceHashes {
          revisions := revisions + [NoteRevision(n, NoteStale, now, SystemStaleness).(sourceHashes := hashes)];
        }
      }
    }
    TakeAll(current);
  }

  // -------------------------------------------------- repeated detection is quiet

  lemma DecisionSettles(r: MemoryRevision, s: Snapshot, now: Timestamp, later: Timestamp)
    ensures DecisionTransition(r, s, now).Some? ==>
        DecisionTransition(DecisionTransition(r, s, now).value, s, later) == None
    ensures DecisionTransition(r, s, now).None? ==> DecisionTransition(r, s, later) == None
  {
  }

  ghost predicate SameReferences(r: MemoryRevision, q: MemoryRevision) {
    q.scopes == r.scopes && q.files == r.files && q.symbols == r.symbols && q.mode == r.mode
  }

  lemma SameReferencesSameView(r: MemoryRevision, q: MemoryRevision, s: Snapshot)
    requires SameReferences(r, q)
    ensures ExistenceStatus(q, s) == ExistenceStatus(r, s)
    ensures SnapshotOf(q, s) == SnapshotOf(r, s)
    ensures ScopeHashesOf(q.scopes, s) == ScopeHashesOf(r.scopes, s)
  {
  }

  /** The system changes status and snapshots only, by one revision. */
  lemma TransitionKeepsReferences(r: MemoryRevision, s: Snapshot, now: Timestamp)
    requires ConstraintTransition(r, s, now).Some?
    ensures var q := ConstraintTransition(r, s, now).value;
            && SameReferences(r, q) && q.recordId == r.recordId && q.revision == r.revision + 1
            && (ExistenceStatus(r, s).Some? ==> Terminal(q.status))
            && (ExistenceStatus(r, s).None? && r.mode == Some(SourceBound) ==> StaleIn(r, Run(s, now), q))
            && (ExistenceStatus(r, s).None? && r.mode == Some(ScopeBound) ==> Terminal(q.status))
            && (ExistenceStatus(r, s).None? && r.mode == Some(Temporary) ==> q.status == Stale)
  {
  }

  /** A revision is a full snapshot of the one before: only lifecycle fields and hashes may differ. */
  ghost predicate Completes(r: MemoryRevision, q: MemoryRevision, now: Timestamp) {
    && q == r.(revision := r.revision + 1, status := q.status, createdBy := q.createdBy, approvedBy := None,
      createdAt := now,
               sourceHashes := q.sourceHashes, scopeHashes := q.scopeHashes)
    && q.createdBy in {SystemStaleness, SystemLifecycle}
  }

  lemma DecisionRevisionIsComplete(r: MemoryRevision, s: Snapshot, now: Timestamp)
    requires DecisionTransition(r, s, now).Some?
    ensures Completes(r, DecisionTransition(r, s, now).value, now)
  {
  }

  lemma ConstraintRevisionIsComplete(r: MemoryRevision, s: Snapshot, now: Timestamp)
    requires ConstraintTransition(r, s, now).Some?
    ensures Completes(r, ConstraintTransition(r, s, now).value, now)
  {
  }

  lemma ConstraintSettles(r: MemoryRevision, s: Snapshot, now: Timestamp)
    ensures ConstraintTransition(r, s, now).Some? ==>
        ConstraintTransition(ConstraintTransition(r, s, now).value, s, now) == None
  {
    if ConstraintTransition(r, s, now).Some? {
      var q := ConstraintTransition(r, s, now).value;
      TransitionKeepsReferences(r, s, now);
      SameReferencesSameView(r, q, s);
      SettledAlready(r, q, s, now);
    }
  }

  lemma SettledAlready(r: MemoryRevision, q: MemoryRevision, s: Snapshot, now: Timestamp)
    requires ConstraintTransition(r, s, now).Some? && SameReferences(r, q)
    requires ExistenceStatus(q, s) == ExistenceStatus(r, s) && SnapshotOf(q, s) == SnapshotOf(r, s)
    requires Terminal(q.status) || (ExistenceStatus(r, s).None? && q.status == Stale
        && r.mode in {Some(SourceBound), Some(Temporary)})
    requires ExistenceStatus(r, s).None? && r.mode == Some(SourceBound) ==> q.sourceHashes == SnapshotOf(r, s)
    ensures ConstraintTransition(q, s, now) == None
  {
  }

  lemma NoteSettles(n: Note, s: Snapshot, now: Timestamp)
    ensures NoteTransition(n, s, now).Some? ==> NoteTransition(NoteTransition(n, s, now).value, s, now) == None
  {
  }

  /** The log once a pass has appended its rows. */
  function PassLog<T>(log: seq<T>, key: T -> Key, step: T -> Option<T>): seq<T> {
    log + Transitions(Currents(log, key), step)
  }

  lemma {:induction false} TransitionListed<T>(current: seq<T>, step: T -> Option<T>, r: T)
    requires r in current && step(r).Some?
    ensures step(r).value in Transitions(current, step)
  {
    var n := |current| - 1;
    if current[n] != r { TransitionListed(current[..n], step, r); }
  }

  lemma PassRowsDistinct<T(!new)>(log: seq<T>, key: T -> Key, step: T -> Option<T>)
    requires Advances(step, key)
    ensures DistinctIds(Transitions(Currents(log, key), step), key)
  {
    CurrentsDistinct(log, key);
    TransitionsFollow(Currents(log, key), step, key);
  }

  lemma PassRow<T(!new)>(log: seq<T>, key: T -> Key, step: T -> Option<T>, id: string)
    requires Advances(step, key)
    requires var r := Current(log, key, id); r.Some? && step(r.value).Some?
    ensures var r := Current(log, key, id).value;
            step(r).value in Transitions(Currents(log, key), step) && key(step(r).value) == (id, key(r).1 + 1)
  {
    var r := Current(log, key, id).value;
    CurrentsAre(log, key, r);
    TransitionListed(Currents(log, key), step, r);
  }

  /** The rows a pass appends for one record: the next revision of its current one, if its rule gives one. */
  lemma PassRows<T(!new)>(log: seq<T>, key: T -> Key, step: T -> Option<T>, id: string)
    requires Advances(step, key)
    ensures var rows, r := Transitions(Currents(log, key), step), Current(log, key, id);
            && DistinctIds(rows, key)
            && (if r.Some? && step(r.value).Some? then step(r.value).value in rows
              && key(step(r.value).value) == (id, key(r.value).1 + 1)
                else forall x :: x in rows ==> key(x).0 != id)
  {
    var r := Current(log, key, id);
    PassRowsDistinct(log, key, step);
    if r.Some? && step(r.value).Some? {
      PassRow(log, key, step, id);
    } else {
      NoPassRow(log, key, step, id);
    }
  }

  lemma NoPassRow<T(!new)>(log: seq<T>, key: T -> Key, step: T -> Option<T>, id: string)
    requires Advances(step, key)
    requires var r := Current(log, key, id); r.None? || step(r.value).None?
    ensures forall x :: x in Transitions(Currents(log, key), step) ==> key(x).0 != id
  {
    forall x | x in Transitions(Currents(log, key), step) ensures key(x).0 != id { RowFromCurrent(log, key, step, x); }
  }

  lemma RowFromCurrent<T(!new)>(log: seq<T>, key: T -> Key, step: T -> Option<T>, x: T)
    requires Advances(step, key) && x in Transitions(Currents(log, key), step)
    ensures var r := Current(log, key, key(x).0); r.Some? && step(r.value) == Some(x)
  {
    CurrentsDistinct(log, key);
    TransitionsFollow(Currents(log, key), step, key);
    var q :| q in Currents(log, key) && step(q) == Some(x);
    CurrentsAre(log, key, q);
  }

  /** After a pass a record's current revision is the one the pass wrote, or the one it had. */
  lemma CurrentAfterPass<T(!new)>(log: seq<T>, key: T -> Key, step: T -> Option<T>, id: string)
    requires Advances(step, key)
    ensures Current(PassLog(log, key, step), key, id)
         == match Current(log, key, id)
            case None => None
            case Some(r) => Some(if step(r).Some? then step(r).value else r)
  {
    var rows, r := Transitions(Currents(log, key), step), Current(log, key, id);
    PassRows(log, key, step, id);
    if r.Some? && step(r.value).Some? {
      RowBecomesCurrent(log, key, rows, step(r.value).value);
    } else {
      NoRowNoChange(log, key, rows, id);
    }
  }

  ghost predicate Settles<T(!new)>(step: T -> Option<T>) { forall r :: step(r).Some? ==> step(step(r).value) == None }

  lemma {:induction false} NothingDue<T>(current: seq<T>, step: T -> Option<T>)
    requires forall r :: r in current ==> step(r) == None
    ensures Transitions(current, step) == []
  {
    if current != [] {
      assert current[|current| - 1] in current;
      NothingDue(current[..|current| - 1], step);
    }
  }

  /** A second pass, over the current revisions of the log the first one extended, appends nothing. */
  lemma SecondPassAppendsNothing<T(!new)>(log: seq<T>, key: T -> Key, step: T -> Option<T>)
    requires Advances(step, key) && Settles(step)
    ensures Transitions(Currents(PassLog(log, key, step), key), step) == []
    ensures PassLog(PassLog(log, key, step), key, step) == PassLog(log, key, step)
  {
    var after := PassLog(log, key, step);
    forall r | r in Currents(after, key) ensures step(r) == None {
      CurrentsAre(after, key, r);
      CurrentAfterPass(log, key, step, key(r).0);
    }
    NothingDue(Currents(after, key), step);
  }

  lemma DecisionStepRules(s: Snapshot, now: Timestamp)
    ensures Advances(DecisionStep(s, now), RecordKey) && Settles(DecisionStep(s, now))
  {
    forall r | DecisionStep(s, now)(r).Some?
      ensures RecordKey(DecisionStep(s, now)(r).value) == (r.recordId, r.revision + 1)
      ensures DecisionStep(s, now)(DecisionStep(s, now)(r).value) == None {
      DecisionFollows(r, s, now);
      DecisionSettles(r, s, now, now);
    }
  }

  lemma ConstraintStepRules(s: Snapshot, now: Timestamp)
    ensures Advances(ConstraintStep(s, now), RecordKey) && Settles(ConstraintStep(s, now))
  {
    forall r | ConstraintStep(s, now)(r).Some?
      ensures RecordKey(ConstraintStep(s, now)(r).value) == (r.recordId, r.revision + 1)
      ensures ConstraintStep(s, now)(ConstraintStep(s, now)(r).value) == None {
      ConstraintFollows(r, s, now);
      ConstraintSettles(r, s, now);
    }
  }

  lemma NoteStepRules(s: Snapshot, now: Timestamp)
    ensures Advances(NoteStep(s, now), NoteKey) && Settles(NoteStep(s, now))
  {
    forall n | NoteStep(s, now)(n).Some?
      ensures NoteKey(NoteStep(s, now)(n).value) == (n.id, n.revision + 1)
      ensures NoteStep(s, now)(NoteStep(s, now)(n).value) == None {
      NoteSettles(n, s, now);
    }
  }

  /** Detection repeated on equal inputs appends nothing to any of the three logs. */
  lemma DetectionIsIdempotent(decisions: seq<MemoryRevision>, constraints: seq<MemoryRevision>, notes: seq<Note>,
      s: Snapshot, now: Timestamp)
    ensures Transitions(Currents(PassLog(decisions, RecordKey, DecisionStep(s, now)), RecordKey),
        DecisionStep(s, now)) == []
    ensures Transitions(Currents(PassLog(constraints, RecordKey, ConstraintStep(s, now)), RecordKey),
        ConstraintStep(s, now)) == []
    ensures Transitions(Currents(PassLog(notes, NoteKey, NoteStep(s, now)), NoteKey), NoteStep(s, now)) == []
  {
    DecisionStepRules(s, now);
    ConstraintStepRules(s, now);
    NoteStepRules(s, now);
    SecondPassAppendsNothing(decisions, RecordKey, DecisionStep(s, now));
    SecondPassAppendsNothing(constraints, RecordKey, ConstraintStep(s, now));
    SecondPassAppendsNothing(notes, NoteKey, NoteStep(s, now));
  }

  /** An update's note revisions continue the numbering of the note log. */
  lemma NotePassKeepsNumbered(notes: seq<Note>, s: Snapshot, now: Timestamp)
    requires Numbered(notes, NoteKey)
    ensures Numbered(PassLog(notes, NoteKey, NoteStep(s, now)), NoteKey)
  {
    NoteStepRules(s, now);
    PassContinues(notes, NoteKey, NoteStep(s, now));
  }

  // --------------------------------------------- one record's rows over many passes

  /** The log after one pass per rule, in order. */
  function PassesLog<T>(log: seq<T>, key: T -> Key, steps: seq<T -> Option<T>>): seq<T>
    decreases |steps|
  {
    if steps == [] then log else PassesLog(PassLog(log, key, steps[0]), key, steps[1..])
  }

  /** What successive rules make of one revision. */
  function Successors<T>(r: T, steps: seq<T -> Option<T>>): seq<T>
    decreases |steps|
  {
    if steps == [] then []
    else
      match steps[0](r)
      case None => Successors(r, steps[1..])
      case Some(next) => [next] + Successors(next, steps[1..])
  }

  lemma {:induction false} OnlyRow<T>(rows: seq<T>, key: T -> Key, keep: T -> bool, x: T)
    requires DistinctIds(rows, key) && x in rows && forall y :: keep(y) <==> key(y).0 == key(x).0
    ensures Filter(rows, keep) == [x]
  {
    var front, last := rows[..|rows| - 1], rows[|rows| - 1];
    FrontDistinct(rows, key);
    if last == x {
      FilterNothing(front, keep);
    } else {
      OnlyRow(front, key, keep, x);
    }
  }

  lemma RecordRowsOfPass<T(!new)>(log: seq<T>, key: T -> Key, step: T -> Option<T>, id: string, keep: T -> bool)
    requires Advances(step, key) && forall y :: keep(y) <==> key(y).0 == id
    ensures var r := Current(log, key, id);
            Filter(PassLog(log, key, step), keep)
            == Filter(log, keep) + if r.Some? && step(r.value).Some? then [step(r.value).value] else []
  {
    var rows, r := Transitions(Currents(log, key), step), Current(log, key, id);
    PassRows(log, key, step, id);
    FilterAppend(log, rows, keep);
    if r.Some? && step(r.value).Some? {
      OnlyRow(rows, key, keep, step(r.value).value);
    } else {
      FilterNothing(rows, keep);
    }
  }

  /** Over any passes, a record's lines in the log are those it had and then what the rules make of its current
      revision. */
  lemma {:induction false} RecordRowsOverPasses<T(!new)>(log: seq<T>, key: T -> Key, steps: seq<T -> Option<T>>,
      r: T, keep: T -> bool)
    requires Current(log, key, key(r).0) == Some(r) && (forall y :: keep(y) <==> key(y).0 == key(r).0)
    requires forall i :: 0 <= i < |steps| ==> Advances(steps[i], key)
    ensures Filter(PassesLog(log, key, steps), keep) == Filter(log, keep) + Successors(r, steps)
    decreases |steps|
  {
    if steps != [] {
      var next := AfterStep(r, steps[0]);
      assert Advances(steps[0], key) && key(next).0 == key(r).0;
      CurrentAfterPass(log, key, steps[0], key(r).0);
      RecordRowsOfPass(log, key, steps[0], key(r).0, keep);
      var later := steps[1..];
      assert forall i :: 0 <= i < |later| ==> later[i] == steps[i + 1];
      RecordRowsOverPasses(PassLog(log, key, steps[0]), key, later, next, keep);
      SuccessorsStep(r, steps);
      AppendAssociates(Filter(log, keep),
          if steps[0](r).Some? then [steps[0](r).value] else [], Successors(next, later));
      assert PassesLog(log, key, steps) == PassesLog(PassLog(log, key, steps[0]), key, later);
    } else {
      assert Successors(r, steps) == [];
    }
  }

  function AfterStep<T>(r: T, step: T -> Option<T>): T { if step(r).Some? then step(r).value else r }

  lemma SuccessorsStep<T>(r: T, steps: seq<T -> Option<T>>)
    requires steps != []
    ensures Successors(r, steps)
         == (if steps[0](r).Some? then [steps[0](r).value] else []) + Successors(AfterStep(r, steps[0]), steps[1..])
  {
  }

  // ------------------------------------- a source-bound constraint over many runs

  datatype Run = Run(snapshot: Snapshot, now: Timestamp)

  /** The revisions the system appends to one constraint over a sequence of runs. */
  function Appended(r: MemoryRevision, runs: seq<Run>): seq<MemoryRevision>
    decreases |runs|
  {
    if runs == [] then []
    else
      match ConstraintTransition(r, runs[0].snapshot, runs[0].now)
      case None => Appended(r, runs[1..])
      case Some(next) => [next] + Appended(next, runs[1..])
  }

  /** The runs before the first one in which something the constraint refers to is missing. */
  function Alive(r: MemoryRevision, runs: seq<Run>): (k: nat)
    decreases |runs|
    ensures k <= |runs|
    ensures forall i :: 0 <= i < k ==> ExistenceStatus(r, runs[i].snapshot).None?
    ensures k < |runs| ==> ExistenceStatus(r, runs[k].snapshot).Some?
  {
    if runs == [] || ExistenceStatus(r, runs[0].snapshot).Some? then 0 else 1 + Alive(r, runs[1..])
  }

  /** The runs that see another source snapshot than the run before, starting from `previous`. */
  function SnapshotChanges(r: MemoryRevision, previous: map<string, Digest>, runs: seq<Run>): seq<Run>
    decreases |runs|
  {
    if runs == [] then []
    else
      var now := SnapshotOf(r, runs[0].snapshot);
      (if now != previous then [runs[0]] else []) + SnapshotChanges(r, now, runs[1..])
  }

  /** The stale revision of a run: written at its time, with the snapshot it saw. */
  ghost predicate StaleIn(r: MemoryRevision, run: Run, q: MemoryRevision) {
    q.status == Stale && q.createdBy == SystemStaleness && q.createdAt == run.now
        && q.sourceHashes == SnapshotOf(r, run.snapshot)
  }

  /** The last revision: what is missing in this run decides its status, and it keeps the hashes stored last. */
  ghost predicate EndedIn(r: MemoryRevision, run: Run, hashes: map<string, Digest>, q: MemoryRevision) {
    Some(q.status) == ExistenceStatus(r, run.snapshot) && q.createdBy == SystemStaleness && q.createdAt == run.now
        && q.sourceHashes == hashes
  }

  function LastHashes(r: MemoryRevision, hashes: map<string, Digest>, changed: seq<Run>): map<string, Digest> {
    if changed == [] then hashes else SnapshotOf(r, changed[|changed| - 1].snapshot)
  }

  /** One constraint's system revisions: one stale one per run in `changed`, in order, then at most one terminal one. */
  ghost predicate StaleThenTerminal(
    r: MemoryRevision, hashes: map<string, Digest>, from: nat, appended: seq<MemoryRevision>, changed: seq<Run>,
        end: Option<Run>) {
    && |appended| == |changed| + (if end.Some? then 1 else 0)
    && (forall i :: 0 <= i < |appended| ==> appended[i].revision == from + i + 1)
    && (forall i :: 0 <= i < |changed| ==> StaleIn(r, changed[i], appended[i]))
    && (end.Some? ==> EndedIn(r, end.value, LastHashes(r, hashes, changed), appended[|changed|]))
  }

  lemma TerminalIsLast(r: MemoryRevision, runs: seq<Run>)
    requires Terminal(r.status)
    ensures Appended(r, runs) == []
    decreases |runs|
  {
    if runs != [] { TerminalIsLast(r, runs[1..]); }
  }

  lemma {:induction false} SameReferencesSameRuns(r: MemoryRevision, q: MemoryRevision,
      previous: map<string, Digest>, runs: seq<Run>)
    requires SameReferences(r, q)
    ensures Alive(r, runs) == Alive(q, runs)
    ensures SnapshotChanges(r, previous, runs) == SnapshotChanges(q, previous, runs)
    decreases |runs|
  {
    if runs != [] {
      SameReferencesSameView(r, q, runs[0].snapshot);
      SameReferencesSameRuns(r, q, SnapshotOf(r, runs[0].snapshot), runs[1..]);
    }
  }

  /** The current revision after one run. */
  function AfterRun(r: MemoryRevision, run: Run): MemoryRevision {
    var next := ConstraintTransition(r, run.snapshot, run.now);
    if next.Some? then next.value else r
  }

  lemma AliveRun(r: MemoryRevision, run: Run)
    requires r.mode == Some(SourceBound) && !Terminal(r.status) && ExistenceStatus(r, run.snapshot).None?
    ensures ConstraintTransition(r, run.snapshot, run.now).Some? <==> SnapshotOf(r, run.snapshot) != r.sourceHashes
    ensures var q := AfterRun(r, run);
        SameReferences(r, q) && q.sourceHashes == SnapshotOf(r, run.snapshot) && !Terminal(q.status)
  {
  }

  lemma PrependStale(r: MemoryRevision, hashes: map<string, Digest>, run: Run, x: MemoryRevision,
      rest: seq<MemoryRevision>,
                     from: nat, changed: seq<Run>, end: Option<Run>)
    requires x.revision == from + 1 && StaleIn(r, run, x)
    requires StaleThenTerminal(r, x.sourceHashes, from + 1, rest, changed, end)
    ensures StaleThenTerminal(r, hashes, from, [x] + rest, [run] + changed, end)
  {
    var all, runs := [x] + rest, [run] + changed;
    forall i | 0 <= i < |all| ensures all[i].revision == from + i + 1 {
      if i > 0 { assert all[i] == rest[i - 1]; }
    }
    forall i | 0 <= i < |runs| ensures StaleIn(r, runs[i], all[i]) {
      if i > 0 { assert all[i] == rest[i - 1] && runs[i] == changed[i - 1]; }
    }
    assert end.Some? ==> all[|runs|] == rest[|changed|];
    assert LastHashes(r, hashes, runs) == LastHashes(r, x.sourceHashes, changed);
  }

  lemma SameReferencesSameRows(
    r: MemoryRevision, q: MemoryRevision, hashes: map<string, Digest>, from: nat, appended: seq<MemoryRevision>,
        changed: seq<Run>, end: Option<Run>)
    requires SameReferences(r, q) && StaleThenTerminal(q, hashes, from, appended, changed, end)
    ensures StaleThenTerminal(r, hashes, from, appended, changed, end)
  {
    forall i | 0 <= i < |changed| ensures StaleIn(r, changed[i], appended[i]) {
      assert StaleIn(q, changed[i], appended[i]);
      SameReferencesSameView(r, q, changed[i].snapshot);
    }
    if end.Some? { SameReferencesSameView(r, q, end.value.snapshot); }
    if changed != [] { SameReferencesSameView(r, q, changed[|changed| - 1].snapshot); }
  }

  lemma AppendedStep(r: MemoryRevision, runs: seq<Run>)
    requires runs != []
    ensures var q := AfterRun(r, runs[0]);
            Appended(r, runs) == if ConstraintTransition(r, runs[0].snapshot, runs[0].now).Some?
                                 then [q] + Appended(q, runs[1..]) else Appended(q, runs[1..])
  {
  }

  function EndingRun(runs: seq<Run>, k: nat): Option<Run> { if k < |runs| then Some(runs[k]) else None }

  /** What any runs append to one source-bound constraint. */
  ghost predicate HistoryIs(r: MemoryRevision, runs: seq<Run>) {
    var k := Alive(r, runs);
    StaleThenTerminal(r, r.sourceHashes, r.revision, Appended(r, runs),
        SnapshotChanges(r, r.sourceHashes, runs[..k]), EndingRun(runs, k))
  }

  /** Over any runs, a source-bound constraint gets one stale revision per run whose snapshot differs from the
      run before (from the approval for the first), written in that run with that snapshot, one terminal revision in
      the run in which a reference first goes missing, and nothing after that. */
  lemma {:induction false} SourceBoundHistory(r: MemoryRevision, runs: seq<Run>)
    requires r.mode == Some(SourceBound) && !Terminal(r.status)
    ensures HistoryIs(r, runs)
    decreases |runs|
  {
    if runs != [] {
      if Alive(r, runs) == 0 {
        FirstRunTerminal(r, runs);
      } else {
        var q := AfterRun(r, runs[0]);
        AliveRun(r, runs[0]);
        SourceBoundHistory(q, runs[1..]);
        HistoryStep(r, q, runs);
      }
    }
  }

  lemma FirstRunTerminal(r: MemoryRevision, runs: seq<Run>)
    requires r.mode == Some(SourceBound) && !Terminal(r.status)
    requires runs != [] && Alive(r, runs) == 0
    ensures HistoryIs(r, runs)
  {
    var next := ConstraintTransition(r, runs[0].snapshot, runs[0].now);
    EndingTransition(r, runs[0]);
    TerminalIsLast(next.value, runs[1..]);
    assert Appended(r, runs) == [next.value];
    assert runs[..0] == [] && SnapshotChanges(r, r.sourceHashes, []) == [];
  }

  lemma EndingTransition(r: MemoryRevision, run: Run)
    requires r.mode == Some(SourceBound) && !Terminal(r.status) && ExistenceStatus(r, run.snapshot).Some?
    ensures var next := ConstraintTransition(r, run.snapshot, run.now);
            next.Some? && next.value.revision == r.revision + 1 && EndedIn(r, run, r.sourceHashes, next.value)
                && Terminal(next.value.status)
  {
  }

  lemma HistoryStep(r: MemoryRevision, q: MemoryRevision, runs: seq<Run>)
    requires r.mode == Some(SourceBound) && !Terminal(r.status)
    requires runs != [] && ExistenceStatus(r, runs[0].snapshot).None? && q == AfterRun(r, runs[0])
    requires SameReferences(r, q) && HistoryIs(q, runs[1..])
    ensures HistoryIs(r, runs)
  {
    var rest, later := Appended(q, runs[1..]), runs[1..];
    var changed, end := SnapshotChanges(q, q.sourceHashes, later[..Alive(q, later)]), EndingRun(later, Alive(q, later));
    AliveCases(r, runs);
    RunsStep(r, q, runs);
    SameReferencesSameRows(r, q, q.sourceHashes, q.revision, rest, changed, end);
    if q.sourceHashes != r.sourceHashes {
      PrependStale(r, r.sourceHashes, runs[0], q, rest, r.revision, changed, end);
    } else {
      assert [] + changed == changed;
    }
  }

  lemma AliveCases(r: MemoryRevision, runs: seq<Run>)
    requires r.mode == Some(SourceBound) && !Terminal(r.status) && runs != []
        && ExistenceStatus(r, runs[0].snapshot).None?
    ensures var q := AfterRun(r, runs[0]);
            && q.sourceHashes == SnapshotOf(r, runs[0].snapshot)
            && if q.sourceHashes != r.sourceHashes
               then Appended(r, runs) == [q] + Appended(q, runs[1..]) && q.revision == r.revision + 1
                 && StaleIn(r, runs[0], q)
               else q == r && Appended(r, runs) == Appended(q, runs[1..])
  {
    AliveRun(r, runs[0]);
    AppendedStep(r, runs);
    if ConstraintTransition(r, runs[0].snapshot, runs[0].now).Some? {
      TransitionKeepsReferences(r, runs[0].snapshot, runs[0].now);
    }
  }

  lemma RunsStep(r: MemoryRevision, q: MemoryRevision, runs: seq<Run>)
    requires SameReferences(r, q)
    requires runs != [] && ExistenceStatus(r, runs[0].snapshot).None?
    requires q.sourceHashes == SnapshotOf(r, runs[0].snapshot)
    ensures Alive(r, runs) == 1 + Alive(q, runs[1..])
    ensures EndingRun(runs, Alive(r, runs)) == EndingRun(runs[1..], Alive(q, runs[1..]))
    ensures SnapshotChanges(r, r.sourceHashes, runs[..Alive(r, runs)])
         == (if q.sourceHashes != r.sourceHashes then [runs[0]] else [])
           + SnapshotChanges(q, q.sourceHashes, runs[1..][..Alive(q, runs[1..])])
  {
    SameReferencesSameRuns(r, q, q.sourceHashes, runs[1..]);
    FrontOfRest(runs, Alive(q, runs[1..]));
    ChangesStep(r, q, runs[..1 + Alive(q, runs[1..])]);
  }

  lemma FrontOfRest<T>(runs: seq<T>, k: nat)
    requires k < |runs|
    ensures runs[..1 + k] != [] && runs[..1 + k][0] == runs[0] && runs[..1 + k][1..] == runs[1..][..k]
  {
  }

  lemma ChangesStep(r: MemoryRevision, q: MemoryRevision, runs: seq<Run>)
    requires SameReferences(r, q) && runs != [] && q.sourceHashes == SnapshotOf(r, runs[0].snapshot)
    ensures SnapshotChanges(r, r.sourceHashes, runs)
         == (if q.sourceHashes != r.sourceHashes then [runs[0]] else []) + SnapshotChanges(q, q.sourceHashes, runs[1..])
  {
    SameReferencesSameRuns(r, q, q.sourceHashes, runs[1..]);
  }

  function ConstraintSteps(runs: seq<Run>): seq<MemoryRevision -> Option<MemoryRevision>> {
    seq(|runs|, i requires 0 <= i < |runs| => ConstraintStep(runs[i].snapshot, runs[i].now))
  }

  lemma {:induction false} AppendedAreSuccessors(r: MemoryRevision, runs: seq<Run>)
    ensures Appended(r, runs) == Successors(r, ConstraintSteps(runs))
    decreases |runs|
  {
    if runs != [] {
      AppendedStep(r, runs);
      SuccessorsStep(r, ConstraintSteps(runs));
      ConstraintStepsFront(runs);
      AppendedAreSuccessors(AfterRun(r, runs[0]), runs[1..]);
    }
  }

  lemma ConstraintStepsFront(runs: seq<Run>)
    requires runs != []
    ensures ConstraintSteps(runs)[0] == ConstraintStep(runs[0].snapshot, runs[0].now)
    ensures ConstraintSteps(runs)[1..] == ConstraintSteps(runs[1..])
  {
  }

  /** The constraint log over any updates holds, for each constraint, the lines it had and then that history. */
  lemma ConstraintRowsOverRuns(log: seq<MemoryRevision>, runs: seq<Run>, r: MemoryRevision,
      keep: MemoryRevision -> bool)
    requires Current(log, RecordKey, r.recordId) == Some(r) && forall q :: keep(q) <==> q.recordId == r.recordId
    ensures Filter(PassesLog(log, RecordKey, ConstraintSteps(runs)), keep) == Filter(log, keep) + Appended(r, runs)
  {
    forall i | 0 <= i < |runs| ensures Advances(ConstraintSteps(runs)[i], RecordKey) {
      ConstraintStepRules(runs[i].snapshot, runs[i].now);
    }
    AppendedAreSuccessors(r, runs);
    RecordRowsOverPasses(log, RecordKey, ConstraintSteps(runs), r, keep);
  }

  // ------------------------------------------------- stale exactly on change

  /** Every symbol's file is itself indexed. */
  ghost predicate OwnersIndexed(s: Snapshot) { forall y :: y in s.owner ==> s.owner[y] in s.files }

  /** A source-bound constraint that passes the existence check keeps all its references in the snapshot. */
  lemma NoReferenceDropped(r: MemoryRevision, s: Snapshot)
    requires OwnersIndexed(s) && ExistenceStatus(r, s).None?
    ensures SnapshotOf(r, s).Keys == Covered(r.files, r.symbols, s.owner)
  {
  }

  /** Every file and symbol a record names is indexed. */
  ghost predicate ReferencesIndexed(r: MemoryRevision, s: Snapshot) {
    (forall f :: f in r.files ==> f in s.files) && forall y :: y in r.symbols ==> y in s.owner
  }

  /** A symbol's id is a hash of its path, so no later index puts it in another file. */
  ghost predicate SameOwners(r: MemoryRevision, before: Snapshot, s: Snapshot) {
    forall y :: y in r.symbols && y in before.owner && y in s.owner ==> before.owner[y] == s.owner[y]
  }

  lemma SnapshotAt(r: MemoryRevision, s: Snapshot, p: string)
    requires OwnersIndexed(s) && ReferencesIndexed(r, s)
    ensures p in SnapshotOf(r, s) <==> p in Covered(r.files, r.symbols, s.owner)
    ensures p in SnapshotOf(r, s) ==> p in s.files && SnapshotOf(r, s)[p] == s.files[p]
  {
  }

  lemma SameCovered(r: MemoryRevision, before: Snapshot, s: Snapshot)
    requires ReferencesIndexed(r, before) && ReferencesIndexed(r, s) && SameOwners(r, before, s)
    ensures Covered(r.files, r.symbols, before.owner) == Covered(r.files, r.symbols, s.owner)
  {
  }

  lemma MapsDiffer(a: map<string, Digest>, b: map<string, Digest>)
    requires a.Keys == b.Keys
    ensures a != b <==> exists p :: p in a && a[p] != b[p]
  {
  }

  /** Two snapshots of the same references differ exactly when the hash of a covered file does. */
  lemma SnapshotChangeIsFileChange(r: MemoryRevision, before: Snapshot, s: Snapshot)
    requires OwnersIndexed(before) && OwnersIndexed(s) && ReferencesIndexed(r, before) && ReferencesIndexed(r, s)
        && SameOwners(r, before, s)
    ensures Covered(r.files, r.symbols, before.owner) == Covered(r.files, r.symbols, s.owner)
    ensures forall p :: p in Covered(r.files, r.symbols, s.owner) ==> p in before.files && p in s.files
    ensures SnapshotOf(r, before) != SnapshotOf(r, s)
        <==> exists p :: p in Covered(r.files, r.symbols, s.owner) && before.files[p] != s.files[p]
  {
    SameCovered(r, before, s);
    forall p
      ensures p in Covered(r.files, r.symbols, s.owner) <==> p in SnapshotOf(r, before)
      ensures p in Covered(r.files, r.symbols, s.owner) <==> p in SnapshotOf(r, s)
      ensures p in SnapshotOf(r, s) ==> p in before.files && SnapshotOf(r, before)[p] == before.files[p]
      ensures p in SnapshotOf(r, s) ==> p in s.files && SnapshotOf(r, s)[p] == s.files[p]
    {
      SnapshotAt(r, before, p);
      SnapshotAt(r, s, p);
    }
    MapsDiffer(SnapshotOf(r, before), SnapshotOf(r, s));
  }

  /** A constraint whose snapshot was taken at `before`, by its approval or by the run before, goes stale at `s`
      exactly when the hash of a file it covers differs between the two. */
  lemma StaleExactlyBetween(r: MemoryRevision, before: Snapshot, s: Snapshot, now: Timestamp)
    requires r.mode == Some(SourceBound) && !Terminal(r.status) && ExistenceStatus(r, s).None?
    requires r.sourceHashes == SnapshotOf(r, before) && ReferencesIndexed(r, before)
    requires OwnersIndexed(before) && OwnersIndexed(s) && SameOwners(r, before, s)
    ensures forall p :: p in Covered(r.files, r.symbols, s.owner) ==> p in before.files && p in s.files
    ensures ConstraintTransition(r, s, now).Some?
        <==> exists p :: p in Covered(r.files, r.symbols, s.owner) && before.files[p] != s.files[p]
    ensures AfterRun(r, Run(s, now)).sourceHashes == SnapshotOf(AfterRun(r, Run(s, now)), s)
        && ReferencesIndexed(AfterRun(r, Run(s, now)), s)
  {
    SnapshotChangeIsFileChange(r, before, s);
    AliveRun(r, Run(s, now));
    SameReferencesSameView(r, AfterRun(r, Run(s, now)), s);
  }

  /** ... so it goes stale exactly when the hash of a file it covers changed. */
  lemma StaleExactlyOnChange(r: MemoryRevision, s: Snapshot, now: Timestamp)
    requires r.mode == Some(SourceBound) && !Terminal(r.status) && OwnersIndexed(s) && ExistenceStatus(r, s).None?
    requires r.sourceHashes.Keys == Covered(r.files, r.symbols, s.owner)
    ensures forall p :: p in Covered(r.files, r.symbols, s.owner) ==> p in s.files
    ensures ConstraintTransition(r, s, now).Some?
        <==> exists p :: p in Covered(r.files, r.symbols, s.owner) && s.files[p] != r.sourceHashes[p]
  {
    NoReferenceDropped(r, s);
    assert forall p :: p in Covered(r.files, r.symbols, s.owner) ==> p in SnapshotOf(r, s);
  }
}
