/** The summary log over any sequence of updates: refreshes, missing providers, deleted scopes. */
module SummaryHistory {
  import opened Collections
  import opened Hashes
  import opened Scopes
  import opened Semantic
  import R = Records
  import S = Staleness

  // ------------------------------------------------------ revisions without a model

  /** A summary whose scope is gone is orphaned once, its content carried forward. */
  function OrphanStep(ids: set<string>, now: int): Summary -> Option<Summary> {
    (x: Summary) =>
      if x.scopeId in ids || x.status == Orphaned then None
      else Some(x.(revision := x.revision + 1, status := Orphaned, generatedAt := now))
  }

  method DetectOrphanedScopes(current: seq<Summary>, ids: set<string>, now: int) returns (orphaned: seq<Summary>)
    ensures orphaned == S.Transitions(current, OrphanStep(ids, now))
  {
    orphaned := [];
    for i := 0 to |current|
      invariant orphaned == S.Transitions(current[..i], OrphanStep(ids, now))
    {
      var x := current[i];
      S.TransitionsSnoc(current, i, OrphanStep(ids, now));
      if x.scopeId in ids || x.status == Orphaned { continue; }
      orphaned := orphaned + [x.(revision := x.revision + 1, status := Orphaned, generatedAt := now)];
    }
    TakeAll(current);
  }

  /** Without a provider, a summary with changed sources is marked, its content carried forward. */
  function Marked(s: Scope, t: Tree, c: Currents, now: int): Option<Summary> {
    var current := CurrentOf(c, s.id);
    if current.None? || current.value.status == Unavailable || current.value.sourceHash == SourceHash(s, t) then None
    else Some(current.value.(revision := current.value.revision + 1, status := PossiblyStale,
      sourceHash := SourceHash(s, t),
                             sourceFiles := SourceFiles(s, t), generatedAt := now))
  }

  function Marks(scopes: seq<Scope>, t: Tree, c: Currents, now: int): seq<Summary> {
    if scopes == [] then []
    else
      var last := Marked(scopes[|scopes| - 1], t, c, now);
      Marks(scopes[..|scopes| - 1], t, c, now) + if last.Some? then [last.value] else []
  }

  lemma MarksSnoc(scopes: seq<Scope>, i: nat, t: Tree, c: Currents, now: int)
    requires i < |scopes|
    ensures Marks(scopes[..i + 1], t, c, now)
         == Marks(scopes[..i], t, c, now)
           + if Marked(scopes[i], t, c, now).Some? then [Marked(scopes[i], t, c, now).value] else []
  {
    TakeSnoc(scopes, i);
  }

  method MarkPossiblyStale(scopes: seq<Scope>, t: Tree, c: Currents, now: int) returns (markers: seq<Summary>)
    ensures markers == Marks(scopes, t, c, now)
  {
    markers := [];
    for i := 0 to |scopes|
      invariant markers == Marks(scopes[..i], t, c, now)
    {
      var s := scopes[i];
      MarksSnoc(scopes, i, t, c, now);
      var current := CurrentOf(c, s.id);
      if current.None? || current.value.status == Unavailable { continue; }
      var sourceFiles := ComputeSourceHashes(s.files, s.symbols, t.files, t.owner);
      var sourceHash := WorkingTreeFingerprint(sourceFiles);
      if current.value.sourceHash == sourceHash { continue; }
      markers := markers
          + [current.value.(revision := current.value.revision + 1, status := PossiblyStale, sourceHash := sourceHash,
                                           sourceFiles := sourceFiles, generatedAt := now)];
    }
    TakeAll(scopes);
  }

  // --------------------------------------------------------------------- updates

  /** A rebuild calls no model; an update without a usable provider marks; any other refreshes within its budget. */
  datatype Mode = Rebuild | NoProvider | Refresh(input: RunInput, budget: nat)

  datatype Update = Update(scopes: seq<Scope>, tree: Tree, mode: Mode, now: int)

  function Orphans(log: seq<Summary>, u: Update): seq<Summary> {
    S.Transitions(R.Currents(log, SummaryKey), OrphanStep(set s | s in u.scopes :: s.id, u.now))
  }

  function Others(log: seq<Summary>, u: Update): seq<Summary> {
    match u.mode
    case Rebuild => []
    case NoProvider => Marks(u.scopes, u.tree, CurrentsOf(log), u.now)
    case Refresh(input, budget) => RunOver(u.scopes, u.tree, CurrentsOf(log), input, budget).revisions
  }

  /** Both parts are computed from the log as it was before. */
  function AfterUpdate(log: seq<Summary>, u: Update): seq<Summary> { log + (Orphans(log, u) + Others(log, u)) }

  function History(updates: seq<Update>): seq<Summary> {
    if updates == [] then [] else AfterUpdate(History(updates[..|updates| - 1]), updates[|updates| - 1])
  }

  // ------------------------------------------------------------ empty, exactly when

  /** No generation of the scope succeeded up to this revision. */
  ghost predicate NeverFresh(log: seq<Summary>, id: string, revision: nat) {
    forall y :: y in log && y.scopeId == id && y.revision <= revision ==> y.status != Fresh
  }

  ghost predicate EmptyExact(log: seq<Summary>) {
    forall x :: x in log ==> (x.purpose == "" <==> NeverFresh(log, x.scopeId, x.revision))
  }

  /** The next revision of its scope: a success with a purpose, or the purpose carried forward. */
  ghost predicate Follows(log: seq<Summary>, x: Summary) {
    && R.IsNext(log, SummaryKey, x)
    && if x.status == Fresh then x.purpose != ""
       else var before := R.Current(log, SummaryKey, x.scopeId);
         x.purpose == if before.Some? then before.value.purpose else ""
  }

  lemma RevisionsCounted(log: seq<Summary>, y: Summary)
    requires R.Numbered(log, SummaryKey) && y in log
    ensures 1 <= y.revision <= R.Count(log, SummaryKey, y.scopeId)
  {
    R.CurrentIsGreatest(log, SummaryKey, y.scopeId, y);
    R.NumberedCurrent(log, SummaryKey, y.scopeId);
    var i :| 0 <= i < |log| && log[i] == y;
    assert SummaryKey(log[i]).1 == R.Count(log[..i], SummaryKey, SummaryKey(log[i]).0) + 1;
  }

  lemma AppendOneExact(log: seq<Summary>, x: Summary)
    requires R.Numbered(log, SummaryKey) && EmptyExact(log) && Follows(log, x)
    ensures EmptyExact(log + [x])
  {
    forall y | y in log ensures y.scopeId == x.scopeId ==> y.revision < x.revision { RevisionsCounted(log, y); }
    forall z | z in log
        ensures NeverFresh(log + [x], z.scopeId, z.revision) <==> NeverFresh(log, z.scopeId, z.revision) {
      OlderUnaffected(log, x, z);
    }
    NewestExact(log, x);
  }

  lemma OlderUnaffected(log: seq<Summary>, x: Summary, z: Summary)
    requires z.scopeId == x.scopeId ==> z.revision < x.revision
    ensures NeverFresh(log + [x], z.scopeId, z.revision) <==> NeverFresh(log, z.scopeId, z.revision)
  {
    assert forall y :: y in log + [x] <==> y in log || y == x;
  }

  lemma NewestExact(log: seq<Summary>, x: Summary)
    requires R.Numbered(log, SummaryKey) && EmptyExact(log) && Follows(log, x)
    requires forall y :: y in log && y.scopeId == x.scopeId ==> y.revision < x.revision
    ensures x.purpose == "" <==> NeverFresh(log + [x], x.scopeId, x.revision)
  {
    var before := R.Current(log, SummaryKey, x.scopeId);
    assert x in log + [x] && forall y :: y in log + [x] <==> y in log || y == x;
    R.NumberedCurrent(log, SummaryKey, x.scopeId);
    forall y | y in log && y.scopeId == x.scopeId ensures before.Some? && y.revision <= before.value.revision {
      R.CurrentIsGreatest(log, SummaryKey, x.scopeId, y);
    }
  }

  lemma FollowsLater(log: seq<Summary>, front: seq<Summary>, x: Summary)
    requires Follows(log, x) && forall y :: y in front ==> y.scopeId != x.scopeId
    ensures Follows(log + front, x)
  {
    R.CountUntouched(log, front, SummaryKey, x.scopeId);
    R.NoRowNoChange(log, SummaryKey, front, x.scopeId);
  }

  lemma AppendLater(log: seq<Summary>, front: seq<Summary>, x: Summary)
    requires R.Numbered(log + front, SummaryKey) && EmptyExact(log + front)
    requires Follows(log, x) && forall y :: y in front ==> y.scopeId != x.scopeId
    ensures R.Numbered((log + front) + [x], SummaryKey) && EmptyExact((log + front) + [x])
  {
    FollowsLater(log, front, x);
    R.NumberedAppend(log + front, SummaryKey, x);
    AppendOneExact(log + front, x);
  }

  /** One next revision for each of several scopes. */
  ghost predicate AllFollow(log: seq<Summary>, rows: seq<Summary>) {
    R.DistinctIds(rows, SummaryKey) && forall x :: x in rows ==> Follows(log, x)
  }

  lemma FrontFollows(log: seq<Summary>, rows: seq<Summary>)
    requires AllFollow(log, rows) && rows != []
    ensures AllFollow(log, rows[..|rows| - 1]) && Follows(log, rows[|rows| - 1])
    ensures forall y :: y in rows[..|rows| - 1] ==> y.scopeId != rows[|rows| - 1].scopeId
    ensures log + rows == (log + rows[..|rows| - 1]) + [rows[|rows| - 1]]
  {
    R.FrontDistinct(rows, SummaryKey);
    assert rows == rows[..|rows| - 1] + [rows[|rows| - 1]];
  }

  lemma {:induction false} AppendExact(log: seq<Summary>, rows: seq<Summary>)
    requires R.Numbered(log, SummaryKey) && EmptyExact(log) && AllFollow(log, rows)
    ensures R.Numbered(log + rows, SummaryKey) && EmptyExact(log + rows)
  {
    if rows == [] {
      assert log + rows == log;
    } else {
      FrontFollows(log, rows);
      AppendExact(log, rows[..|rows| - 1]);
      AppendLater(log, rows[..|rows| - 1], rows[|rows| - 1]);
    }
  }

  // ------------------------------------------------------------- one update follows

  lemma OrphanStepAdvances(ids: set<string>, now: int)
    ensures S.Advances(OrphanStep(ids, now), SummaryKey)
  {
  }

  lemma OrphanFollows(log: seq<Summary>, u: Update, x: Summary)
    requires R.Numbered(log, SummaryKey) && x in Orphans(log, u)
    ensures Follows(log, x) && forall s :: s in u.scopes ==> s.id != x.scopeId
  {
    var step := OrphanStep(set s | s in u.scopes :: s.id, u.now);
    OrphanStepAdvances(set s | s in u.scopes :: s.id, u.now);
    S.RowFromCurrent(log, SummaryKey, step, x);
    R.NumberedCurrent(log, SummaryKey, x.scopeId);
  }

  lemma OrphansFollow(log: seq<Summary>, u: Update)
    requires R.Numbered(log, SummaryKey)
    ensures AllFollow(log, Orphans(log, u))
        && forall x :: x in Orphans(log, u) ==> forall s :: s in u.scopes ==> s.id != x.scopeId
  {
    OrphanStepAdvances(set s | s in u.scopes :: s.id, u.now);
    S.PassRowsDistinct(log, SummaryKey, OrphanStep(set s | s in u.scopes :: s.id, u.now));
    forall x | x in Orphans(log, u) ensures Follows(log, x) && forall s :: s in u.scopes ==> s.id != x.scopeId {
      OrphanFollows(log, u, x);
    }
  }

  ghost predicate MarkOf(scopes: seq<Scope>, t: Tree, c: Currents, now: int, x: Summary) {
    exists s :: s in scopes && Marked(s, t, c, now) == Some(x) && x.scopeId == s.id
  }

  lemma MarkOwn(s: Scope, t: Tree, c: Currents, now: int)
    requires IdsMatch(c)
    ensures Marked(s, t, c, now).Some? ==> Marked(s, t, c, now).value.scopeId == s.id
  {
  }

  lemma AddDistinct(rows: seq<Summary>, x: Summary)
    requires R.DistinctIds(rows, SummaryKey) && forall y :: y in rows ==> y.scopeId != x.scopeId
    ensures R.DistinctIds(rows + [x], SummaryKey)
  {
    assert forall i :: 0 <= i < |rows| ==> rows[i] in rows;
  }

  lemma {:induction false} MarksDistinct(scopes: seq<Scope>, t: Tree, c: Currents, now: int)
    requires UniqueIds(scopes) && IdsMatch(c)
    ensures R.DistinctIds(Marks(scopes, t, c, now), SummaryKey)
    ensures forall x :: x in Marks(scopes, t, c, now) ==> MarkOf(scopes, t, c, now, x)
  {
    if scopes != [] {
      var front, s := scopes[..|scopes| - 1], scopes[|scopes| - 1];
      var last := Marked(s, t, c, now);
      MarksDistinct(front, t, c, now);
      OtherIds(scopes);
      MarkOwn(s, t, c, now);
      assert scopes == front + [s];
      forall x | x in Marks(front, t, c, now) ensures MarkOf(scopes, t, c, now, x) && x.scopeId != s.id {
        assert MarkOf(front, t, c, now, x);
      }
      if last.Some? {
        assert MarkOf(scopes, t, c, now, last.value);
        AddDistinct(Marks(front, t, c, now), last.value);
      }
    }
  }

  lemma MarkFollows(log: seq<Summary>, u: Update, s: Scope, x: Summary)
    requires R.Numbered(log, SummaryKey) && Marked(s, u.tree, CurrentsOf(log), u.now) == Some(x) && x.scopeId == s.id
    ensures Follows(log, x)
  {
    CurrentsAreCurrent(log, s.id);
    R.NumberedCurrent(log, SummaryKey, s.id);
  }

  lemma MarksFollow(log: seq<Summary>, u: Update)
    requires R.Numbered(log, SummaryKey) && UniqueIds(u.scopes)
    ensures var rows := Marks(u.scopes, u.tree, CurrentsOf(log), u.now);
            AllFollow(log, rows) && forall x :: x in rows ==> exists s :: s in u.scopes && s.id == x.scopeId
  {
    var c := CurrentsOf(log);
    CurrentsAreCurrent(log, "");
    MarksDistinct(u.scopes, u.tree, c, u.now);
    forall x | x in Marks(u.scopes, u.tree, c, u.now)
        ensures Follows(log, x) && exists s :: s in u.scopes && s.id == x.scopeId {
      var s :| s in u.scopes && Marked(s, u.tree, c, u.now) == Some(x) && x.scopeId == s.id;
      MarkFollows(log, u, s, x);
    }
  }

  lemma RefreshFollows(log: seq<Summary>, u: Update)
    requires R.Numbered(log, SummaryKey) && UniqueIds(u.scopes) && u.mode.Refresh?
    ensures var rows := RunOver(u.scopes, u.tree, CurrentsOf(log), u.mode.input, u.mode.budget).revisions;
            AllFollow(log, rows) && forall x :: x in rows ==> exists s :: s in u.scopes && s.id == x.scopeId
  {
    var c := CurrentsOf(log);
    CurrentsAreCurrent(log, "");
    RunRevisions(u.scopes, u.tree, c, u.mode.input, u.mode.budget);
    forall x | x in RunOver(u.scopes, u.tree, c, u.mode.input, u.mode.budget).revisions
      ensures Follows(log, x) && exists s :: s in u.scopes && s.id == x.scopeId {
      var s :| s in u.scopes && x == Attempt(s, u.tree, c, u.mode.input) && x.scopeId == s.id;
      AttemptFollows(log, u, s);
    }
  }

  lemma AttemptFollows(log: seq<Summary>, u: Update, s: Scope)
    requires R.Numbered(log, SummaryKey) && u.mode.Refresh? && s in u.scopes
    ensures Follows(log, Attempt(s, u.tree, CurrentsOf(log), u.mode.input))
  {
    var c := CurrentsOf(log);
    CurrentsAreCurrent(log, s.id);
    R.NumberedCurrent(log, SummaryKey, s.id);
    AttemptMeaning(s, u.tree, CurrentOf(c, s.id), u.mode.input.answers(s.id), u.mode.input.models, u.mode.input.now);
    StaleAndEmptyExactly(s, u.tree, CurrentOf(c, s.id), u.mode.input.answers(s.id), u.mode.input.models,
        u.mode.input.now);
  }

  lemma JoinDistinct(a: seq<Summary>, b: seq<Summary>)
    requires R.DistinctIds(a, SummaryKey) && R.DistinctIds(b, SummaryKey)
    requires forall x, y :: x in a && y in b ==> x.scopeId != y.scopeId
    ensures R.DistinctIds(a + b, SummaryKey)
  {
    forall i, j | 0 <= i < j < |a + b| ensures SummaryKey((a + b)[i]).0 != SummaryKey((a + b)[j]).0 {
      if i < |a| <= j { assert a[i] in a && b[j - |a|] in b; }
    }
  }

  lemma OthersFollow(log: seq<Summary>, u: Update)
    requires R.Numbered(log, SummaryKey) && UniqueIds(u.scopes)
    ensures AllFollow(log, Others(log, u))
        && forall x :: x in Others(log, u) ==> exists s :: s in u.scopes && s.id == x.scopeId
  {
    match u.mode {
      case Rebuild =>
      case NoProvider => MarksFollow(log, u);
      case Refresh(_, _) => RefreshFollows(log, u);
    }
  }

  lemma UpdateFollows(log: seq<Summary>, u: Update)
    requires R.Numbered(log, SummaryKey) && UniqueIds(u.scopes)
    ensures AllFollow(log, Orphans(log, u) + Others(log, u))
  {
    OrphansFollow(log, u);
    OthersFollow(log, u);
    JoinDistinct(Orphans(log, u), Others(log, u));
  }

  lemma UpdateKeepsExact(log: seq<Summary>, u: Update)
    requires R.Numbered(log, SummaryKey) && EmptyExact(log) && UniqueIds(u.scopes)
    ensures R.Numbered(AfterUpdate(log, u), SummaryKey) && EmptyExact(AfterUpdate(log, u))
  {
    UpdateFollows(log, u);
    AppendExact(log, Orphans(log, u) + Others(log, u));
  }

  /** Over any updates every summary is the next revision of its scope, and it is empty exactly when no generation of
      its scope has succeeded up to then, whatever its status says. */
  lemma {:induction false} EmptyExactly(updates: seq<Update>)
    requires forall u :: u in updates ==> UniqueIds(u.scopes)
    ensures R.Numbered(History(updates), SummaryKey) && EmptyExact(History(updates))
  {
    if updates != [] {
      var front, u := updates[..|updates| - 1], updates[|updates| - 1];
      assert u in updates && forall v :: v in front ==> v in updates;
      EmptyExactly(front);
      UpdateKeepsExact(History(front), u);
    }
  }

  /** So a stale summary has content, as documented, exactly when a generation of its scope has succeeded before. */
  lemma StaleHasContentExactly(updates: seq<Update>, x: Summary)
    requires (forall u :: u in updates ==> UniqueIds(u.scopes)) && x in History(updates) && x.status == Stale
    ensures x.purpose != ""
        <==> exists y :: y in History(updates) && y.scopeId == x.scopeId && y.revision < x.revision && y.status == Fresh
  {
    EmptyExactly(updates);
    R.NumberedNoDuplicate(History(updates), SummaryKey);
    forall y | y in History(updates) && y.scopeId == x.scopeId && y.revision == x.revision ensures y == x {
      R.SameKeySameRow(History(updates), SummaryKey, x, y);
    }
  }
}
