/** What one whole update decides, said of the index it computes, the scopes and the records alone. */
module UpdateFacts {
  import opened Collections
  import opened CodeIndex
  import opened Hashes
  import opened Records
  import opened Staleness
  import opened Detection
  import opened Update
  import opened UpdateRuns
  import C = Cache
  import F = CacheFacts
  import G = Governance
  import GR = GovernanceRuns
  import H = SummaryHistory
  import M = Semantic
  import P = Membership
  import S = Scopes
  import W = Workspaces

  type Scope = S.Scope

  // ------------------------------------------------------------ what detection sees

  ghost predicate HasScope(scopes: seq<Scope>, id: string) { exists s :: s in scopes && s.id == id }

  lemma {:induction false} HashesExactly(files: seq<IndexedFile>)
    requires DistinctRecords(files)
    ensures forall p :: p in FileHashes(files) <==> exists r :: r in files && r.path == p
    ensures forall r :: r in files ==> r.path in FileHashes(files) && FileHashes(files)[r.path] == r.content
  {
    FileHashesOf(files);
    forall r | r in files ensures r.path in FileHashes(files) && FileHashes(files)[r.path] == r.content {
      RecordOf(files, r);
    }
  }

  lemma {:induction false} MembersExactly(scopes: seq<Scope>)
    requires S.UniqueIds(scopes)
    ensures forall id :: id in ScopeMembers(scopes) <==> HasScope(scopes, id)
    ensures forall s :: s in scopes ==>
      s.id in ScopeMembers(scopes) && ScopeMembers(scopes)[s.id].files == s.files
      && ScopeMembers(scopes)[s.id].symbols == s.symbols
  {
    if scopes != [] {
      var front, last := scopes[..|scopes| - 1], scopes[|scopes| - 1];
      assert scopes == front + [last];
      MembersExactly(front);
      assert forall s :: s in front ==> s.id != last.id;
    }
  }

  /** The files with their contents, each symbol's last declaration, and the scopes with their members. */
  ghost predicate Sees(view: Snapshot, x: Index, scopes: seq<Scope>) {
    && (forall p :: p in view.files <==> HasFile(x, p))
      && (forall r :: r in x.files ==> view.files[r.path] == r.content)
    && (forall y :: y in view.owner <==> HasSymbol(x, y))
      && (forall y :: y in view.owner ==> P.DeclaredIn(y, view.owner[y], x))
    && (forall id :: id in view.scopes <==> HasScope(scopes, id))
    && (forall s :: s in scopes ==> view.scopes[s.id].files == s.files && view.scopes[s.id].symbols == s.symbols)
  }

  lemma ViewExactly(x: Index, scopes: seq<Scope>)
    requires DistinctRecords(x.files) && S.UniqueIds(scopes)
    ensures Sees(View(x, scopes), x, scopes)
  {
    HashesExactly(x.files);
    MembersExactly(scopes);
    var owner := S.Owners(x.symbols);
    forall y ensures y in owner <==> HasSymbol(x, y) { P.OwnersExactly(x.symbols, y); }
    forall y | y in owner ensures P.DeclaredIn(y, owner[y], x) { P.DeclaredIsOwner(y, owner[y], x); }
  }

  // ---------------------------------------------------------------- new files

  /** The file is in the tree and was not in the index. */
  ghost predicate IsNew(p: Path, before: Index, scan: Scan) {
    (exists f :: f in scan.files && f.path == p) && forall r :: r in before.files ==> r.path != p
  }

  lemma AddedExactly(before: Index, scan: Scan, p: Path)
    ensures p in AddedPaths(before, scan) <==> IsNew(p, before, scan)
  {
    if p in AddedPaths(before, scan) {
      var f :| f in Filter(scan.files, IsAdded(before)) && f.path == p;
      assert RecordAt(before.files, p).None?;
    }
    if f :| f in scan.files && f.path == p && forall r :: r in before.files ==> r.path != p {
      assert RecordAt(before.files, p).None? && IsAdded(before)(f);
    }
  }

  /** A new file that points to this scope only, and is not in it yet. */
  ghost predicate Joins(p: Path, s: Scope, scopes: seq<Scope>, before: Index, x: Index, scan: Scan) {
    IsNew(p, before, scan) && p !in s.files && P.PointsOnlyTo(p, s, scopes, x)
  }

  /** An update that is not a rebuild saves the scopes exactly when a new file joins one, with exactly those files
      added. */
  lemma NewScopesExactly(scopes: seq<Scope>, before: Index, x: Index, input: Input)
    requires S.UniqueIds(scopes)
    ensures var r := NewScopes(scopes, before, x, input);
            && (r.Some? <==>
                  !input.mode.Rebuild? && exists p, s :: s in scopes && Joins(p, s, scopes, before, x, input.scan))
            && (r.Some? ==> |r.value| == |scopes| && forall i :: 0 <= i < |scopes| ==>
                  && r.value[i] == scopes[i].(files := r.value[i].files)
                  && forall p :: p in r.value[i].files <==>
                       p in scopes[i].files || Joins(p, scopes[i], scopes, before, x, input.scan))
  {
    var added := AddedPaths(before, input.scan);
    forall p ensures p in added <==> IsNew(p, before, input.scan) { AddedExactly(before, input.scan, p); }
    ChangedExactly(scopes, before, x, input.scan);
    forall i | 0 <= i < |scopes| { P.AssignedExactly(scopes, x, added, i); }
  }

  lemma ChangedExactly(scopes: seq<Scope>, before: Index, x: Index, scan: Scan)
    requires S.UniqueIds(scopes)
    ensures S.ChangedIds(scopes, S.Candidates(scopes, x), Sorted(AddedPaths(before, scan))) != []
        <==> exists p, s :: s in scopes && Joins(p, s, scopes, before, x, scan)
    ensures |S.AssignFold(scopes, S.Candidates(scopes, x), Sorted(AddedPaths(before, scan)))| == |scopes|
  {
    var changed := S.ChangedIds(scopes, S.Candidates(scopes, x), Sorted(AddedPaths(before, scan)));
    forall i | 0 <= i < |scopes| ensures scopes[i].id in changed <==> SomeJoins(scopes[i], scopes, before, x, scan) {
      ReportedJoins(scopes, before, x, scan, i);
    }
    ChangedAreScopes(scopes, x, AddedPaths(before, scan));
    SomeChanged(changed, scopes, before, x, scan);
    S.AssignKeepsIds(scopes, S.Candidates(scopes, x), Sorted(AddedPaths(before, scan)));
  }

  ghost predicate SomeJoins(s: Scope, scopes: seq<Scope>, before: Index, x: Index, scan: Scan) {
    exists p :: Joins(p, s, scopes, before, x, scan)
  }

  lemma ReportedJoins(scopes: seq<Scope>, before: Index, x: Index, scan: Scan, i: nat)
    requires S.UniqueIds(scopes) && i < |scopes|
    ensures scopes[i].id in S.ChangedIds(scopes, S.Candidates(scopes, x), Sorted(AddedPaths(before, scan)))
        <==> SomeJoins(scopes[i], scopes, before, x, scan)
  {
    var added := AddedPaths(before, scan);
    forall p ensures p in added <==> IsNew(p, before, scan) { AddedExactly(before, scan, p); }
    P.ReportedExactly(scopes, x, added, i);
    if f :| f in added && f !in scopes[i].files && P.PointsOnlyTo(f, scopes[i], scopes, x) {
      assert Joins(f, scopes[i], scopes, before, x, scan);
    }
  }

  lemma SomeChanged(changed: seq<string>, scopes: seq<Scope>, before: Index, x: Index, scan: Scan)
    requires forall i :: 0 <= i < |scopes| ==>
        (scopes[i].id in changed <==> SomeJoins(scopes[i], scopes, before, x, scan))
    requires forall id :: id in changed ==> exists i :: 0 <= i < |scopes| && scopes[i].id == id
    ensures changed != [] <==> exists p, s :: s in scopes && Joins(p, s, scopes, before, x, scan)
  {
    if changed != [] {
      assert changed[0] in changed;
      var i :| 0 <= i < |scopes| && scopes[i].id == changed[0];
      assert scopes[i] in scopes && SomeJoins(scopes[i], scopes, before, x, scan);
    }
    if p, s :| s in scopes && Joins(p, s, scopes, before, x, scan) {
      var i :| 0 <= i < |scopes| && scopes[i] == s;
      assert SomeJoins(scopes[i], scopes, before, x, scan);
    }
  }

  lemma {:induction false} ChangedNamed(scopes: seq<Scope>, candidates: Path -> set<string>, ordered: seq<Path>,
      id: string)
    requires id in S.ChangedIds(scopes, candidates, ordered)
    ensures exists i :: 0 <= i < |scopes| && scopes[i].id == id
  {
    var front, p := ordered[..|ordered| - 1], ordered[|ordered| - 1];
    if id in S.ChangedIds(scopes, candidates, front) {
      ChangedNamed(scopes, candidates, front, id);
    } else {
      S.AssignKeepsIds(scopes, candidates, front);
      var current := S.AssignFold(scopes, candidates, front);
      var i := S.FirstIndex(current, id);
      assert scopes[i].id == current[i].id;
    }
  }

  lemma ChangedAreScopes(scopes: seq<Scope>, x: Index, added: set<Path>)
    ensures forall id :: id in S.ChangedIds(scopes, S.Candidates(scopes, x), Sorted(added)) ==>
      exists i :: 0 <= i < |scopes| && scopes[i].id == id
  {
    forall id | id in S.ChangedIds(scopes, S.Candidates(scopes, x), Sorted(added))
      ensures exists i :: 0 <= i < |scopes| && scopes[i].id == id
    {
      ChangedNamed(scopes, S.Candidates(scopes, x), Sorted(added), id);
    }
  }

  // ------------------------------------------------------------------- the rows

  ghost predicate NamesGoneScope(names: seq<string>, scopes: seq<Scope>) {
    exists id :: id in names && !HasScope(scopes, id)
  }

  ghost predicate NamesGoneReference(r: MemoryRevision, x: Index) {
    (exists f :: f in r.files && !HasFile(x, f)) || exists y :: y in r.symbols && !HasSymbol(x, y)
  }

  lemma GoneInView(r: MemoryRevision, view: Snapshot, x: Index, scopes: seq<Scope>)
    requires Sees(view, x, scopes)
    ensures ScopeMissing(r.scopes, view) <==> NamesGoneScope(r.scopes, scopes)
    ensures ReferenceMissing(r, view) <==> NamesGoneReference(r, x)
  {
  }

  /** The scopes an update works with: those it is going to save, or those there are. */
  ghost predicate Working(repo: Repository, saved: Option<seq<Scope>>, scopes: seq<Scope>) {
    match saved
    case Some(found) => scopes == found
    case None => scopes == repo.scopes
  }

  /** The index and the scopes of an update. */
  ghost predicate Of(
    parser: Parser, repo: Repository, before: Index, input: Input, x: Index, saved: Option<seq<Scope>>,
        scopes: seq<Scope>)
  {
    && x == RunResult(parser, before, input.scan, input.mode.Rebuild?)
    && saved == NewScopes(repo.scopes, before, x, input) && Working(repo, saved, scopes)
  }

  /** An update computes the index, assigns the new files, and lets every pass read that index and those scopes. */
  lemma DecidesExactly(
    parser: Parser, repo: Repository, before: Index, input: Input, x: Index, saved: Option<seq<Scope>>,
        scopes: seq<Scope>)
    requires Of(parser, repo, before, input, x, saved, scopes)
    ensures var rows, view := Decided(parser, repo, before, input), View(x, scopes);
            && rows.index == x && rows.scopes == saved
            && rows.decisions == G.DecisionRows(repo.store, view, input.now)
            && rows.constraints == G.ConstraintRows(repo.store, view, input.now)
            && rows.notes == Transitions(Currents(repo.notes, NoteKey), NoteStep(view, input.now))
            && var u := H.Update(scopes, M.Tree(view.files, view.owner), input.mode, input.now);
              rows.summaries == H.Orphans(repo.summaries, u) + H.Others(repo.summaries, u)
  {
  }

  lemma UpdateScopesUnique(
    parser: Parser, repo: Repository, before: Index, input: Input, x: Index, saved: Option<seq<Scope>>,
        scopes: seq<Scope>)
    requires SoundFiles(repo) && input.scan.Valid() && Of(parser, repo, before, input, x, saved, scopes)
    ensures Sees(View(x, scopes), x, scopes) && S.UniqueIds(scopes)
  {
    NewScopesUnique(repo.scopes, before, x, input);
    RunDistinct(parser, before, input.scan, input.mode.Rebuild?);
    ViewExactly(x, scopes);
  }

  lemma RunDistinct(parser: Parser, before: Index, scan: Scan, full: bool)
    requires scan.Valid()
    ensures DistinctRecords(RunResult(parser, before, scan, full).files)
  {
    UpdateAgreement.ContributionsAre(parser, before, scan, full);
    UpdateAgreement.FlatRecords(Contributions(parser, before, scan, full));
  }

  /** An open decision is orphaned by an update exactly when a scope it names is not there any more, and put up for
      review exactly when its scopes are and a file or symbol it names is not in the index. */
  lemma DecisionsFlaggedExactly(
    parser: Parser, repo: Repository, before: Index, input: Input, x: Index, saved: Option<seq<Scope>>,
        scopes: seq<Scope>,
    r: MemoryRevision)
    requires SoundFiles(repo) && input.scan.Valid() && Of(parser, repo, before, input, x, saved, scopes)
    requires Current(repo.store.decisions, RecordKey, r.recordId) == Some(r)
    ensures var rows := Decided(parser, repo, before, input).decisions;
            && (Detection.Wrote(rows, r.recordId, Orphaned) <==> !Closed(r) && NamesGoneScope(r.scopes, scopes))
            && (Detection.Wrote(rows, r.recordId, ReviewRequired)
                <==> !Closed(r) && !NamesGoneScope(r.scopes, scopes) && NamesGoneReference(r, x))
            && (WroteNothing(rows, r.recordId)
                <==> Closed(r) || (!NamesGoneScope(r.scopes, scopes) && !NamesGoneReference(r, x)))
  {
    var view := View(x, scopes);
    DecidesExactly(parser, repo, before, input, x, saved, scopes);
    UpdateScopesUnique(parser, repo, before, input, x, saved, scopes);
    GoneInView(r, view, x, scopes);
    G.CurrentRowsAreCurrents(repo.store.decisions, Decision);
    CurrentsAre(repo.store.decisions, RecordKey, r);
    CurrentsDistinct(repo.store.decisions, RecordKey);
    DecisionPassExactly(Currents(repo.store.decisions, RecordKey), view, input.now, r);
  }

  /** What an update writes about an open constraint that is not persistent, by what is there and what it recorded. */
  lemma ConstraintsFlaggedExactly(
    parser: Parser, repo: Repository, before: Index, input: Input, x: Index, saved: Option<seq<Scope>>,
        scopes: seq<Scope>,
    r: MemoryRevision)
    requires SoundFiles(repo) && input.scan.Valid() && Of(parser, repo, before, input, x, saved, scopes)
    requires Current(repo.store.constraints, RecordKey, r.recordId) == Some(r)
    ensures var rows, view := Decided(parser, repo, before, input).constraints, View(x, scopes);
            && Sees(view, x, scopes)
            && (Detection.Wrote(rows, r.recordId, Orphaned) <==> Watched(r) && NamesGoneScope(r.scopes, scopes))
            && (Detection.Wrote(rows, r.recordId, ReviewRequired)
                <==> && Watched(r) && !NamesGoneScope(r.scopes, scopes)
                     && (NamesGoneReference(r, x) || MembershipChanged(r, view)))
            && (Detection.Wrote(rows, r.recordId, Stale)
                <==> && Watched(r) && !NamesGoneScope(r.scopes, scopes) && !NamesGoneReference(r, x)
                     && (SourceChanged(r, view) || RunOut(r, input.now)))
  {
    var view := View(x, scopes);
    DecidesExactly(parser, repo, before, input, x, saved, scopes);
    UpdateScopesUnique(parser, repo, before, input, x, saved, scopes);
    GoneInView(r, view, x, scopes);
    G.CurrentRowsAreCurrents(repo.store.constraints, Constraint);
    CurrentsAre(repo.store.constraints, RecordKey, r);
    CurrentsDistinct(repo.store.constraints, RecordKey);
    ConstraintPassExactly(Currents(repo.store.constraints, RecordKey), view, input.now, r);
  }

  /** What an update writes about an open note: orphaned before expired before stale. */
  lemma NotesFlaggedExactly(
    parser: Parser, repo: Repository, before: Index, input: Input, x: Index, saved: Option<seq<Scope>>,
        scopes: seq<Scope>,
    n: Note)
    requires SoundFiles(repo) && input.scan.Valid() && Of(parser, repo, before, input, x, saved, scopes)
    requires Current(repo.notes, NoteKey, n.id) == Some(n)
    ensures var rows, view := Decided(parser, repo, before, input).notes, View(x, scopes);
            && Sees(view, x, scopes)
            && (WroteNote(rows, n.id, NoteOrphaned) <==> !NoteClosed(n) && NamesGoneScope(n.scopes, scopes))
            && (WroteNote(rows, n.id, NoteExpired)
                <==> !NoteClosed(n) && !NamesGoneScope(n.scopes, scopes) && Expired(n.expiresAt, input.now))
            && (WroteNote(rows, n.id, NoteStale)
                <==> && !NoteClosed(n) && !NamesGoneScope(n.scopes, scopes) && !Expired(n.expiresAt, input.now)
                     && Changed(n, view))
  {
    var view := View(x, scopes);
    DecidesExactly(parser, repo, before, input, x, saved, scopes);
    UpdateScopesUnique(parser, repo, before, input, x, saved, scopes);
    CurrentsAre(repo.notes, NoteKey, n);
    CurrentsDistinct(repo.notes, NoteKey);
    NotePassExactly(Currents(repo.notes, NoteKey), view, input.now, n);
  }

  // ------------------------------------------------------------------ the files

  /** A complete update replaces the scopes if it has new ones, extends every log but the proposals, and changes nothing
      else; one whose writes stop has done the earlier of them: scopes, summaries, decisions, constraints, notes. */
  lemma FilesAfterExactly(repo: Repository, rows: Rows, k: nat)
    ensures RowsWritten(repo, rows, 0) == repo
    ensures RowsWritten(repo, rows, 7) == Repository(
      if rows.scopes.Some? then rows.scopes.value else repo.scopes,
      G.Store(repo.store.proposals, repo.store.decisions + rows.decisions, repo.store.constraints + rows.constraints),
      repo.notes + rows.notes, repo.summaries + rows.summaries)
    ensures var w, all := RowsWritten(repo, rows, k), RowsWritten(repo, rows, 7);
            && w.scopes == (if k >= 1 then all.scopes else repo.scopes)
            && w.summaries == (if k >= 2 then all.summaries else repo.summaries)
            && w.store.decisions == (if k >= 4 then all.store.decisions else repo.store.decisions)
            && w.store.constraints == (if k >= 5 then all.store.constraints else repo.store.constraints)
            && w.notes == (if k >= 6 then all.notes else repo.notes)
  {
  }

  // ------------------------------------------------------------------ the cache

  /** One line for each record, with its id, its revision and its text. */
  lemma LinesExactly<T>(log: seq<T>, key: T -> Key, text: T -> string)
    ensures |Lines(log, key, text)| == |log|
    ensures forall i :: 0 <= i < |log| ==>
      && Lines(log, key, text)[i].id == key(log[i]).0 && Lines(log, key, text)[i].revision == key(log[i]).1
      && Lines(log, key, text)[i].body == text(log[i])
  {
  }

  /** What an update starts from: the index in the cache and the metrics there, or nothing when there is no cache. */
  ghost predicate StartsFrom(cache: Option<C.Tables>, before: Index, metrics: seq<string>) {
    match cache
    case None => before == Index([], [], []) && metrics == []
    case Some(t) => before == t.index && metrics == t.metrics
  }

  /** Each table shows the log it is of. */
  ghost predicate CacheShows(t: C.Tables, x: Index, repo: Repository, text: Text, metrics: seq<string>) {
    && F.IndexShows(t.index, x) && F.ScopesShow(t, repo.scopes, x)
    && F.FamilyShows(t.decisions, Lines(repo.store.decisions, RecordKey, text.record))
    && F.FamilyShows(t.constraints, Lines(repo.store.constraints, RecordKey, text.record))
    && F.FamilyShows(t.notes, Lines(repo.notes, NoteKey, text.note))
    && F.EntriesShow(t.proposals, Lines(repo.store.proposals, ProposalKey, text.proposal), (id: string) => true)
    && F.EntriesShow(t.semantic, Lines(repo.summaries, M.SummaryKey, text.summary),
      (id: string) => F.ScopeIdKnown(id, repo.scopes))
    && t.metrics == metrics
  }

  ghost function MetricsAfter(metrics: seq<string>, input: Input): seq<string> {
    metrics + match input.metric case None => [] case Some(m) => [m]
  }

  lemma RowsComplete(text: Text, st: State, rows: Rows, input: Input, before: Index, metrics: seq<string>)
    requires StartsFrom(st.cache, before, metrics)
    requires C.Projectable(rows.index, W.AllWritten(Encoded(st.repo, text), ChangesOf(rows, text, input)))
    ensures var after := AfterRows(text, st, rows, input, W.NoFault);
            && after.repo == RowsWritten(st.repo, rows, 7) && after.cache.Some?
            && CacheShows(after.cache.value, rows.index, after.repo, text, MetricsAfter(metrics, input))
  {
    WrittenIsEncoded(st.repo, rows, text, input, 7);
    F.ProjectionExactly(rows.index, Encoded(RowsWritten(st.repo, rows, 7), text), MetricsAfter(metrics, input));
  }

  lemma UpdateIsRows(
    parser: Parser, text: Text, st: State, input: Input, before: Index, metrics: seq<string>, rows: Rows,
        fault: W.Fault)
    requires StartsFrom(st.cache, before, metrics) && rows == Decided(parser, st.repo, before, input)
    ensures AfterUpdate(parser, text, st, input, fault) == AfterRows(text, st, rows, input, fault)
    ensures IndexOf(st.cache) == before
  {
  }

  /** An update that nothing interrupts, of a tree in which no two symbols have one id: it writes everything it
      decided, and leaves a cache that shows the new index and every log as it then is. One in which two symbols have
      one id changes nothing. */
  lemma CompleteUpdateExactly(
    parser: Parser, text: Text, st: State, input: Input, before: Index, metrics: seq<string>, rows: Rows)
    requires Sound(parser, text, st) && input.scan.Valid() && StartsFrom(st.cache, before, metrics)
    requires rows == Decided(parser, st.repo, before, input)
    ensures var after := AfterUpdate(parser, text, st, input, W.NoFault);
            if DistinctSymbols(rows.index.symbols) then
              && after.repo == RowsWritten(st.repo, rows, 7) && after.cache.Some?
              && CacheShows(after.cache.value, rows.index, after.repo, text, MetricsAfter(metrics, input))
            else after == st
  {
    UpdateIsRows(parser, text, st, input, before, metrics, rows, W.NoFault);
    UpdateProjectsExactly(parser, text, st.repo, before, input);
    if DistinctSymbols(rows.index.symbols) { RowsComplete(text, st, rows, input, before, metrics); }
  }

  /** One that cannot rebuild the cache changes nothing; one whose writes stop has done the earlier ones, and drops the
      cache. */
  lemma InterruptedUpdateExactly(
    parser: Parser, text: Text, st: State, input: Input, before: Index, metrics: seq<string>, rows: Rows, k: nat)
    requires Sound(parser, text, st) && input.scan.Valid() && StartsFrom(st.cache, before, metrics)
    requires rows == Decided(parser, st.repo, before, input) && DistinctSymbols(rows.index.symbols)
    ensures AfterUpdate(parser, text, st, input, W.RebuildRaises) == st
    ensures W.Writes(ChangesOf(rows, text, input), k) ==>
      AfterUpdate(parser, text, st, input, W.WriteRaises(k)) == State(RowsWritten(st.repo, rows, k), None)
  {
    UpdateIsRows(parser, text, st, input, before, metrics, rows, W.RebuildRaises);
    UpdateIsRows(parser, text, st, input, before, metrics, rows, W.WriteRaises(k));
    UpdateProjectsExactly(parser, text, st.repo, before, input);
    RowsInterrupted(text, st, rows, input, k);
  }

  lemma RowsInterrupted(text: Text, st: State, rows: Rows, input: Input, k: nat)
    requires C.Projectable(rows.index, W.AllWritten(Encoded(st.repo, text), ChangesOf(rows, text, input)))
    ensures AfterRows(text, st, rows, input, W.RebuildRaises) == st
    ensures W.Writes(ChangesOf(rows, text, input), k) ==>
      AfterRows(text, st, rows, input, W.WriteRaises(k)) == State(RowsWritten(st.repo, rows, k), None)
  {
  }

  /** Which of the seven writes touch the disk: those with something to write. */
  lemma WritesExactly(rows: Rows, text: Text, input: Input)
    ensures var u := ChangesOf(rows, text, input);
            && (W.Writes(u, 0) <==> rows.scopes != None) && (W.Writes(u, 1) <==> rows.summaries != [])
            && (W.Writes(u, 2) <==> input.logLines != []) && (W.Writes(u, 3) <==> rows.decisions != [])
            && (W.Writes(u, 4) <==> rows.constraints != []) && (W.Writes(u, 5) <==> rows.notes != [])
            && (W.Writes(u, 6) <==> input.project != None) && forall k :: k > 6 ==> !W.Writes(u, k)
  {
  }
}
