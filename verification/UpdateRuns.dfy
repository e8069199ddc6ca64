/** One whole update, from the tree to the canonical files, and any history of updates and governance operations. */
module UpdateRuns {
  import opened Collections
  import opened CodeIndex
  import opened Hashes
  import opened Cache
  import opened Workspaces
  import opened Update
  import opened UpdateAgreement
  import opened Records
  import opened Staleness
  import G = Governance
  import GR = GovernanceRuns
  import H = SummaryHistory
  import I = IndexHistory
  import M = Semantic
  import S = Scopes

  /** The canonical files, as records. */
  datatype Repository = Repository(scopes: seq<Scope>, store: G.Store, notes: seq<Note>, summaries: seq<M.Summary>)

  /** How a record is written as a line, apart from its id and revision. */
  datatype Text = Text(
    record: MemoryRevision -> string, note: Note -> string, proposal: Proposal -> string, summary: M.Summary -> string)

  function Lines<T>(log: seq<T>, key: T -> Key, text: T -> string): seq<Entry> {
    seq(|log|, i requires 0 <= i < |log| => Entry(key(log[i]).0, key(log[i]).1, text(log[i])))
  }

  function Encoded(repo: Repository, text: Text): Canonical {
    Canonical(
      repo.scopes, Lines(repo.store.decisions, RecordKey, text.record),
          Lines(repo.store.constraints, RecordKey, text.record),
      Lines(repo.notes, NoteKey, text.note), Lines(repo.store.proposals, ProposalKey, text.proposal),
      Lines(repo.summaries, M.SummaryKey, text.summary))
  }

  // ------------------------------------------------------- what an update decides

  /** `{path: hash}`, the last row winning. */
  function FileHashes(files: seq<IndexedFile>): map<Path, Content> {
    if files == [] then map[]
    else var f := files[|files| - 1]; FileHashes(files[..|files| - 1])[f.path := f.content]
  }

  function ScopeMembers(scopes: seq<Scope>): map<string, Members> {
    if scopes == [] then map[]
    else var s := scopes[|scopes| - 1]; ScopeMembers(scopes[..|scopes| - 1])[s.id := Members(s.files, s.symbols)]
  }

  /** What lifecycle detection sees of an index and the scopes. */
  function View(x: Index, scopes: seq<Scope>): Snapshot {
    Snapshot(FileHashes(x.files), S.Owners(x.symbols), ScopeMembers(scopes))
  }

  /** What one update meets. A rebuild parses everything and calls no model. */
  datatype Input = Input(
    scan: Scan, mode: H.Mode, now: Timestamp, logLines: seq<string>, metric: Option<string>, project: Option<string>)

  /** Everything it is going to write, as records. */
  datatype Rows = Rows(
    index: Index, scopes: Option<seq<Scope>>, summaries: seq<M.Summary>,
    decisions: seq<MemoryRevision>, constraints: seq<MemoryRevision>, notes: seq<Note>)

  function NewIndex(parser: Parser, before: Index, input: Input): Index {
    RunResult(parser, before, input.scan, input.mode.Rebuild?)
  }

  function AddedPaths(before: Index, scan: Scan): set<Path> {
    set f | f in Filter(scan.files, IsAdded(before)) :: f.path
  }

  /** The scopes file with the new files assigned, if any scope gained one. */
  function NewScopes(scopes: seq<Scope>, before: Index, x: Index, input: Input): Option<seq<Scope>> {
    var candidates, ordered := S.Candidates(scopes, x), Sorted(AddedPaths(before, input.scan));
    if input.mode.Rebuild? || S.ChangedIds(scopes, candidates, ordered) == [] then None
    else Some(S.AssignFold(scopes, candidates, ordered))
  }

  function Effective(repo: Repository, scopes: Option<seq<Scope>>): seq<Scope> {
    if scopes.Some? then scopes.value else repo.scopes
  }

  function SummaryUpdate(s: Snapshot, scopes: seq<Scope>, input: Input): H.Update {
    H.Update(scopes, M.Tree(s.files, s.owner), input.mode, input.now)
  }

  function SummaryRows(log: seq<M.Summary>, u: H.Update): seq<M.Summary> { H.Orphans(log, u) + H.Others(log, u) }

  function RowsFor(repo: Repository, x: Index, scopes: Option<seq<Scope>>, input: Input): Rows {
    var view := View(x, Effective(repo, scopes));
    Rows(x, scopes, SummaryRows(repo.summaries, SummaryUpdate(view, Effective(repo, scopes), input)),
         G.DecisionRows(repo.store, view, input.now), G.ConstraintRows(repo.store, view, input.now),
         Transitions(Currents(repo.notes, NoteKey), NoteStep(view, input.now)))
  }

  function Decided(parser: Parser, repo: Repository, before: Index, input: Input): Rows {
    var x := NewIndex(parser, before, input);
    RowsFor(repo, x, NewScopes(repo.scopes, before, x, input), input)
  }

  function ChangesOf(rows: Rows, text: Text, input: Input): Changes {
    Changes(
      rows.index, rows.scopes, Lines(rows.summaries, M.SummaryKey, text.summary), input.logLines,
      Lines(rows.decisions, RecordKey, text.record), Lines(rows.constraints, RecordKey, text.record),
      Lines(rows.notes, NoteKey, text.note), input.metric, input.project)
  }

  /** The records once the first `k` deferred writes are done. */
  function RowsWritten(repo: Repository, rows: Rows, k: nat): Repository {
    Repository(
      if k > 0 then Effective(repo, rows.scopes) else repo.scopes,
      G.Store(repo.store.proposals,
              if k > 3 then repo.store.decisions + rows.decisions else repo.store.decisions,
              if k > 4 then repo.store.constraints + rows.constraints else repo.store.constraints),
      if k > 5 then repo.notes + rows.notes else repo.notes,
      if k > 1 then repo.summaries + rows.summaries else repo.summaries)
  }

  lemma LinesAppend<T>(a: seq<T>, b: seq<T>, key: T -> Key, text: T -> string)
    ensures Lines(a + b, key, text) == Lines(a, key, text) + Lines(b, key, text)
  {
  }

  /** Writing lines is writing records. */
  lemma WrittenIsEncoded(repo: Repository, rows: Rows, text: Text, input: Input, k: nat)
    ensures Written(Encoded(repo, text), ChangesOf(rows, text, input), k) == Encoded(RowsWritten(repo, rows, k), text)
  {
    LinesAppend(repo.store.decisions, rows.decisions, RecordKey, text.record);
    LinesAppend(repo.store.constraints, rows.constraints, RecordKey, text.record);
    LinesAppend(repo.notes, rows.notes, NoteKey, text.note);
    LinesAppend(repo.summaries, rows.summaries, M.SummaryKey, text.summary);
  }

  // -------------------------------------------------- the logs an update leaves behind

  /** Every log numbers its revisions, the proposal flow's own invariant holds, and scope ids do not repeat. */
  ghost predicate SoundFiles(repo: Repository) {
    && S.UniqueIds(repo.scopes) && G.Sound(repo.store)
    && Numbered(repo.notes, NoteKey) && Numbered(repo.summaries, M.SummaryKey)
  }

  lemma NewScopesUnique(scopes: seq<Scope>, before: Index, x: Index, input: Input)
    requires S.UniqueIds(scopes)
    ensures NewScopes(scopes, before, x, input).Some? ==> S.UniqueIds(NewScopes(scopes, before, x, input).value)
  {
    S.AssignKeepsIds(scopes, S.Candidates(scopes, x), Sorted(AddedPaths(before, input.scan)));
  }

  lemma SummariesStayNumbered(log: seq<M.Summary>, u: H.Update)
    requires Numbered(log, M.SummaryKey) && S.UniqueIds(u.scopes)
    ensures Numbered(log + SummaryRows(log, u), M.SummaryKey)
  {
    H.UpdateFollows(log, u);
    NumberedAppendMany(log, M.SummaryKey, SummaryRows(log, u));
  }

  lemma StoreStaysSound(st: G.Store, view: Snapshot, now: Timestamp, policy: G.Policy, survives: nat)
    requires G.Sound(st)
    ensures G.Sound(G.Store(st.proposals,
                            if survives > 0 then st.decisions + G.DecisionRows(st, view, now) else st.decisions,
                            if survives > 1 then st.constraints + G.ConstraintRows(st, view, now) else st.constraints))
  {
    G.NextKeepsSound(st, policy, G.Op.Detect(view, now), survives);
    GR.DetectEffect(st, policy, view, now, survives);
    GR.PlannedRows(st, view, now);
  }

  /** Rows that continue the files they are written to. */
  ghost predicate Continues(repo: Repository, rows: Rows) {
    && S.UniqueIds(Effective(repo, rows.scopes))
    && Numbered(repo.notes + rows.notes, NoteKey) && Numbered(repo.summaries + rows.summaries, M.SummaryKey)
    && (forall k :: G.Sound(RowsWritten(repo, rows, k).store))
  }

  lemma RowsKeepFilesSound(repo: Repository, rows: Rows, k: nat)
    requires SoundFiles(repo) && Continues(repo, rows)
    ensures SoundFiles(RowsWritten(repo, rows, k))
  {
  }

  lemma StoreRowsContinue(repo: Repository, x: Index, scopes: Option<seq<Scope>>, input: Input, k: nat)
    requires G.Sound(repo.store)
    ensures G.Sound(RowsWritten(repo, RowsFor(repo, x, scopes, input), k).store)
  {
    var view := View(x, Effective(repo, scopes));
    StoreStaysSound(repo.store, view, input.now, AnyPolicy(), if k <= 3 then 0 else if k == 4 then 1 else 2);
  }

  lemma RowsContinue(repo: Repository, x: Index, scopes: Option<seq<Scope>>, input: Input)
    requires SoundFiles(repo) && S.UniqueIds(Effective(repo, scopes))
    ensures Continues(repo, RowsFor(repo, x, scopes, input))
  {
    var view := View(x, Effective(repo, scopes));
    SummariesStayNumbered(repo.summaries, SummaryUpdate(view, Effective(repo, scopes), input));
    NotePassKeepsNumbered(repo.notes, view, input.now);
    forall k ensures G.Sound(RowsWritten(repo, RowsFor(repo, x, scopes, input), k).store) {
      StoreRowsContinue(repo, x, scopes, input, k);
    }
  }

  lemma DecidedContinue(parser: Parser, repo: Repository, before: Index, input: Input)
    requires SoundFiles(repo)
    ensures Continues(repo, Decided(parser, repo, before, input))
  {
    var x := NewIndex(parser, before, input);
    NewScopesUnique(repo.scopes, before, x, input);
    RowsContinue(repo, x, NewScopes(repo.scopes, before, x, input), input);
  }

  /** Whatever the tree and the providers, and wherever the deferred writes stop, the files stay sound. */
  lemma UpdateKeepsFilesSound(parser: Parser, repo: Repository, before: Index, input: Input, k: nat)
    requires SoundFiles(repo)
    ensures SoundFiles(RowsWritten(repo, Decided(parser, repo, before, input), k))
  {
    DecidedContinue(parser, repo, before, input);
    RowsKeepFilesSound(repo, Decided(parser, repo, before, input), k);
  }

  function AnyPolicy(): G.Policy { G.Policy((s: string) => s, (r: MemoryRevision) => true) }

  // ----------------------------------------------- an update commits, exactly when

  lemma LinesConflictFree<T>(log: seq<T>, key: T -> Key, text: T -> string)
    requires Numbered(log, key)
    ensures !Conflict(Lines(log, key, text))
  {
    NumberedNoDuplicate(log, key);
    var lines := Lines(log, key, text);
    forall i, j | 0 <= i < j < |lines| ensures lines[i].id != lines[j].id || lines[i].revision != lines[j].revision {
      assert key(log[i]) != key(log[j]);
    }
  }

  lemma SoundFilesProject(repo: Repository, text: Text, x: Index)
    requires SoundFiles(repo)
    ensures Projectable(x, Encoded(repo, text)) <==> Insertable(x)
  {
    LinesConflictFree(repo.store.decisions, RecordKey, text.record);
    LinesConflictFree(repo.store.constraints, RecordKey, text.record);
    LinesConflictFree(repo.notes, NoteKey, text.note);
    LinesConflictFree(repo.store.proposals, ProposalKey, text.proposal);
    LinesConflictFree(repo.summaries, M.SummaryKey, text.summary);
  }

  lemma RowsProjectExactly(text: Text, repo: Repository, rows: Rows, input: Input)
    requires SoundFiles(repo) && Continues(repo, rows)
    ensures Projectable(rows.index, AllWritten(Encoded(repo, text), ChangesOf(rows, text, input)))
        <==> Insertable(rows.index)
  {
    WrittenIsEncoded(repo, rows, text, input, 7);
    RowsKeepFilesSound(repo, rows, 7);
    SoundFilesProject(RowsWritten(repo, rows, 7), text, rows.index);
  }

  /** Over sound files no rebuild step refuses an update but one: that two symbols of the tree have the same id. */
  lemma UpdateProjectsExactly(parser: Parser, text: Text, repo: Repository, before: Index, input: Input)
    requires SoundFiles(repo) && Faithful(parser, before) && input.scan.Valid()
    ensures var rows := Decided(parser, repo, before, input);
            Projectable(rows.index, AllWritten(Encoded(repo, text), ChangesOf(rows, text, input)))
            <==> DistinctSymbols(rows.index.symbols)
  {
    DecidedContinue(parser, repo, before, input);
    RowsProjectExactly(text, repo, Decided(parser, repo, before, input), input);
    I.CommitsUnlessIdsRepeat(parser, before, input.scan, input.mode.Rebuild?);
  }

  lemma FreshLines<T>(log: seq<T>, more: seq<T>, key: T -> Key, text: T -> string)
    requires Numbered(log + more, key)
    ensures Fresh(Lines(log, key, text), Lines(more, key, text))
  {
    var a, b := Lines(log, key, text), Lines(more, key, text);
    forall e, f | e in a && f in b && e.id == f.id ensures e.revision < f.revision {
      var i :| 0 <= i < |a| && a[i] == e;
      var j :| 0 <= j < |b| && b[j] == f;
      assert (log + more)[i] == log[i] && (log + more)[|log| + j] == more[j];
      NumberedIncreasing(log + more, key, i, |log| + j);
    }
  }

  lemma FreshRows(text: Text, repo: Repository, rows: Rows)
    requires SoundFiles(RowsWritten(repo, rows, 7))
    ensures var c, u := Encoded(repo, text),
        Encoded(Repository([], G.Store([], rows.decisions, rows.constraints), rows.notes, rows.summaries), text);
            Fresh(c.decisions, u.decisions) && Fresh(c.constraints, u.constraints) && Fresh(c.notes, u.notes)
                && Fresh(c.semantic, u.semantic)
  {
    FreshLines(repo.store.decisions, rows.decisions, RecordKey, text.record);
    FreshLines(repo.store.constraints, rows.constraints, RecordKey, text.record);
    FreshLines(repo.notes, rows.notes, NoteKey, text.note);
    FreshLines(repo.summaries, rows.summaries, M.SummaryKey, text.summary);
  }

  lemma FailedDiscardOfRows(text: Text, repo: Repository, rows: Rows, input: Input, k: nat, metrics: seq<string>)
    requires SoundFiles(repo) && Continues(repo, rows) && Insertable(rows.index) && k < 7
    ensures var u := ChangesOf(rows, text, input);
            NotAhead(Project(rows.index, AllWritten(Encoded(repo, text), u), metrics),
                Encoded(RowsWritten(repo, rows, k), text))
            <==> !Overtakes(Encoded(repo, text), u, k)
  {
    RowsProjectExactly(text, repo, rows, input);
    RowsKeepFilesSound(repo, rows, 7);
    FreshRows(text, repo, rows);
    WrittenIsEncoded(repo, rows, text, input, k);
    SurvivingCacheAheadExactly(Encoded(repo, text), ChangesOf(rows, text, input), k, metrics);
  }

  /** When the discard raises too, the surviving cache is ahead of the files exactly when a row it has was not
      written. */
  lemma FailedDiscardExactly(parser: Parser, text: Text, repo: Repository, before: Index, input: Input, k: nat,
      metrics: seq<string>)
    requires SoundFiles(repo) && Faithful(parser, before) && input.scan.Valid() && k < 7
    requires DistinctSymbols(NewIndex(parser, before, input).symbols)
    ensures var rows := Decided(parser, repo, before, input);
            var u := ChangesOf(rows, text, input);
            NotAhead(Project(rows.index, AllWritten(Encoded(repo, text), u), metrics),
                Encoded(RowsWritten(repo, rows, k), text))
            <==> !Overtakes(Encoded(repo, text), u, k)
  {
    DecidedContinue(parser, repo, before, input);
    I.CommitsUnlessIdsRepeat(parser, before, input.scan, input.mode.Rebuild?);
    FailedDiscardOfRows(text, repo, Decided(parser, repo, before, input), input, k, metrics);
  }

  // ------------------------------------------------------------ any history of events

  datatype State = State(repo: Repository, cache: Option<Tables>)

  function IndexOf(cache: Option<Tables>): Index { if cache.Some? then cache.value.index else EMPTY_INDEX }

  /** One update's writes: refused and without effect, or cut and the cache discarded, or complete. */
  ghost function AfterRows(text: Text, st: State, rows: Rows, input: Input, fault: Fault): State {
    var u := ChangesOf(rows, text, input);
    if fault == RebuildRaises || !Projectable(u.index, AllWritten(Encoded(st.repo, text), u)) then st
    else if fault.WriteRaises? && Writes(u, fault.at) then State(RowsWritten(st.repo, rows, fault.at), None)
    else
      var after := RowsWritten(st.repo, rows, 7);
      State(after, Some(Project(u.index, Encoded(after, text), MetricsOf(st.cache) + Added(u.metric))))
  }

  ghost function AfterUpdate(parser: Parser, text: Text, st: State, input: Input, fault: Fault): State {
    AfterRows(text, st, Decided(parser, st.repo, IndexOf(st.cache), input), input, fault)
  }

  /** An update, a governance operation cut after some appends, or the loss of the cache. */
  datatype Event = Updated(input: Input, fault: Fault) | Acted(op: G.Op, survives: nat) | CacheLost

  ghost function After(parser: Parser, text: Text, policy: G.Policy, st: State, e: Event): State {
    match e
    case Updated(input, fault) => AfterUpdate(parser, text, st, input, fault)
    case Acted(op, survives) => st.(repo := st.repo.(store := G.Next(st.repo.store, policy, op, survives)))
    case CacheLost => st.(cache := None)
  }

  ghost function Step(parser: Parser, text: Text, policy: G.Policy): (State, Event) -> State {
    (st: State, e: Event) => After(parser, text, policy, st, e)
  }

  ghost predicate Allowed(st: State, e: Event) {
    match e
    case Updated(input, _) => input.scan.Valid()
    case Acted(op, _) => G.FreshId(st.repo.store, op)
    case CacheLost => true
  }

  ghost function IsAllowed(): (State, Event) -> bool { (st: State, e: Event) => Allowed(st, e) }

  /** Sound files, and a cache that is not ahead of them and indexes what parsing yields. */
  ghost predicate Sound(parser: Parser, text: Text, st: State) {
    && SoundFiles(st.repo) && Faithful(parser, IndexOf(st.cache)) && Sourced(parser, IndexOf(st.cache))
    && (st.cache.Some? ==> NotAhead(st.cache.value, Encoded(st.repo, text)))
  }

  lemma CompletedIsSound(parser: Parser, text: Text, repo: Repository, rows: Rows, input: Input, metrics: seq<string>)
    requires SoundFiles(repo) && Continues(repo, rows)
    requires Faithful(parser, Materialized(rows.index)) && Sourced(parser, Materialized(rows.index))
    requires Projectable(rows.index, AllWritten(Encoded(repo, text), ChangesOf(rows, text, input)))
    ensures var after := RowsWritten(repo, rows, 7);
            Sound(parser, text, State(after, Some(Project(rows.index, Encoded(after, text), metrics))))
  {
    RowsKeepFilesSound(repo, rows, 7);
    WrittenIsEncoded(repo, rows, text, input, 7);
    ProjectionNotAhead(rows.index, Encoded(RowsWritten(repo, rows, 7), text), metrics);
  }

  lemma WithoutCacheIsSound(parser: Parser, text: Text, repo: Repository)
    requires SoundFiles(repo)
    ensures Sound(parser, text, State(repo, None))
  {
    NothingSourced(parser);
    I.EmptyIsFaithful(parser);
  }

  lemma RowsKeepSound(parser: Parser, text: Text, st: State, rows: Rows, input: Input, fault: Fault)
    requires Sound(parser, text, st) && Continues(st.repo, rows)
    requires Faithful(parser, Materialized(rows.index)) && Sourced(parser, Materialized(rows.index))
    ensures Sound(parser, text, AfterRows(text, st, rows, input, fault))
  {
    var u := ChangesOf(rows, text, input);
    if Projectable(u.index, AllWritten(Encoded(st.repo, text), u)) {
      if fault.WriteRaises? {
        RowsKeepFilesSound(st.repo, rows, fault.at);
        WithoutCacheIsSound(parser, text, RowsWritten(st.repo, rows, fault.at));
      }
      CompletedIsSound(parser, text, st.repo, rows, input, MetricsOf(st.cache) + Added(u.metric));
    }
  }

  lemma UpdateKeepsSound(parser: Parser, text: Text, st: State, input: Input, fault: Fault)
    requires Sound(parser, text, st) && input.scan.Valid()
    ensures Sound(parser, text, AfterUpdate(parser, text, st, input, fault))
  {
    DecidedContinue(parser, st.repo, IndexOf(st.cache), input);
    StoredIndexIsSound(parser, IndexOf(st.cache), input);
    RowsKeepSound(parser, text, st, Decided(parser, st.repo, IndexOf(st.cache), input), input, fault);
  }

  lemma StoredIndexIsSound(parser: Parser, before: Index, input: Input)
    requires Faithful(parser, before) && Sourced(parser, before) && input.scan.Valid()
    ensures var stored := Materialized(NewIndex(parser, before, input));
        Faithful(parser, stored) && Sourced(parser, stored)
  {
    RunKeepsFaithful(parser, before, input.scan, input.mode.Rebuild?);
    MaterializeKeepsFaithful(parser, NewIndex(parser, before, input));
    RunKeepsSourced(parser, before, input.scan, input.mode.Rebuild?);
  }

  lemma LinesPrefix<T>(a: seq<T>, b: seq<T>, key: T -> Key, text: T -> string)
    requires a <= b
    ensures Lines(a, key, text) <= Lines(b, key, text)
  {
  }

  lemma ActKeepsSound(parser: Parser, text: Text, policy: G.Policy, st: State, op: G.Op, survives: nat)
    requires Sound(parser, text, st) && G.FreshId(st.repo.store, op)
    ensures Sound(parser, text, st.(repo := st.repo.(store := G.Next(st.repo.store, policy, op, survives))))
  {
    var next := G.Next(st.repo.store, policy, op, survives);
    G.NextKeepsSound(st.repo.store, policy, op, survives);
    G.NextGrows(st.repo.store, policy, op, survives);
    LinesPrefix(st.repo.store.decisions, next.decisions, RecordKey, text.record);
    LinesPrefix(st.repo.store.constraints, next.constraints, RecordKey, text.record);
    if st.cache.Some? {
      GrowingLogsKeepNotAhead(st.cache.value, Encoded(st.repo, text), Encoded(st.repo.(store := next), text));
    }
  }

  ghost function IsSound(parser: Parser, text: Text): State -> bool { (st: State) => Sound(parser, text, st) }

  lemma EventKeepsSound(parser: Parser, text: Text, policy: G.Policy, st: State, e: Event)
    requires Sound(parser, text, st) && Allowed(st, e)
    ensures Sound(parser, text, After(parser, text, policy, st, e))
  {
    match e {
      case Updated(input, fault) => UpdateKeepsSound(parser, text, st, input, fault);
      case Acted(op, survives) => ActKeepsSound(parser, text, policy, st, op, survives);
      case CacheLost => WithoutCacheIsSound(parser, text, st.repo);
    }
  }

  /** Over any history of updates, faults, governance operations with crashes and lost caches, every log stays
      numbered, the proposal flow keeps its invariant, and the cache indexes what parsing yields and is never ahead of
      the files. */
  lemma EveryHistoryIsSound(parser: Parser, text: Text, policy: G.Policy, st: State, events: seq<Event>)
    requires Sound(parser, text, st)
    requires forall i :: 0 <= i < |events| ==> Allowed(Fold(Step(parser, text, policy), st, events[..i]), events[i])
    ensures Sound(parser, text, Fold(Step(parser, text, policy), st, events))
  {
    var next := Step(parser, text, policy);
    forall t, e | Sound(parser, text, t) && Allowed(t, e) ensures Sound(parser, text, next(t, e)) {
      EventKeepsSound(parser, text, policy, t, e);
    }
    FoldKeeps(next, IsAllowed(), IsSound(parser, text), st, events);
  }

  /** What `rune init` leaves. */
  const NEW_REPOSITORY: Repository := Repository([], G.Store([], [], []), [], [])

  lemma NewRepositoryIsSound(parser: Parser, text: Text)
    ensures Sound(parser, text, State(NEW_REPOSITORY, None))
  {
    WithoutCacheIsSound(parser, text, NEW_REPOSITORY);
  }

  // ------------------------------------------------------------ whose symbols are whose

  /** Every indexed symbol was declared by its own file, with some content. */
  ghost predicate Sourced(parser: Parser, x: Index) { forall y :: y in x.symbols ==> DeclaredIn(parser, y) }

  ghost predicate DeclaredIn(parser: Parser, y: Symbol) { exists c: Content :: y in Declared(parser, y.file, c) }

  /** A symbol's id is a hash of its path and name: two files never declare the same id. */
  ghost predicate IdsNamePaths(parser: Parser) {
    forall y, z :: DeclaredIn(parser, y) && DeclaredIn(parser, z) && y.id == z.id ==> y.file == z.file
  }

  lemma NothingSourced(parser: Parser)
    ensures Sourced(parser, EMPTY_INDEX)
  {
  }

  lemma RunKeepsSourced(parser: Parser, before: Index, scan: Scan, full: bool)
    requires Faithful(parser, before) && Sourced(parser, before) && scan.Valid()
    ensures Sourced(parser, RunResult(parser, before, scan, full))
  {
    var cs := Contributions(parser, before, scan, full);
    ContributionsAre(parser, before, scan, full);
    forall y | y in Flat(cs, SymbolsOfContribution) ensures DeclaredIn(parser, y) {
      FlatMember(cs, SymbolsOfContribution, y);
      var c :| c in cs && y in c.symbols;
      SymbolSourced(parser, before, scan, full, c, y);
    }
  }

  lemma SymbolSourced(parser: Parser, before: Index, scan: Scan, full: bool, c: Contribution, y: Symbol)
    requires Faithful(parser, before) && Sourced(parser, before) && y in c.symbols
    requires FromScan(parser, if full then EMPTY_INDEX else before, scan, c) || FromRetention(before, scan, c)
    ensures DeclaredIn(parser, y)
  {
    var previous := if full then EMPTY_INDEX else before;
    if FromScan(parser, previous, scan, c) {
      var f :| f in scan.files && c == ContributionOf(parser, previous, f, scan.onDisk);
      ScannedFaithful(parser, before, scan, full, f);
      assert y in Declared(parser, f.path, f.content);
    } else {
      assert y in before.symbols;
    }
  }

  lemma {:induction false} FileHashesOf(files: seq<IndexedFile>)
    ensures FileHashes(files).Keys == Paths(files)
    ensures forall p :: p in FileHashes(files) ==>
        RecordAt(files, p).Some? && FileHashes(files)[p] == RecordAt(files, p).value.content
  {
    if files != [] {
      FileHashesOf(files[..|files| - 1]);
      assert files == files[..|files| - 1] + [files[|files| - 1]];
    }
  }

  lemma {:induction false} OwnersOf(symbols: seq<Symbol>)
    ensures forall id :: id in S.Owners(symbols) <==> id in SymbolIds(symbols)
    ensures forall id :: id in S.Owners(symbols) ==>
        exists y :: y in symbols && y.id == id && y.file == S.Owners(symbols)[id]
  {
    if symbols != [] {
      var front, last := symbols[..|symbols| - 1], symbols[|symbols| - 1];
      OwnersOf(front);
      assert symbols == front + [last];
    }
  }

  /** In what detection sees of an index, every symbol's file is indexed. */
  lemma ViewOwnersIndexed(x: Index, scopes: seq<Scope>)
    requires RowsShaped(x)
    ensures OwnersIndexed(View(x, scopes))
  {
    FileHashesOf(x.files);
    OwnersOf(x.symbols);
  }

  /** No two indexes put a symbol in different files. */
  lemma ViewsAgreeOnOwners(parser: Parser, r: MemoryRevision, x: Index, xScopes: seq<Scope>, y: Index,
      yScopes: seq<Scope>)
    requires IdsNamePaths(parser) && Sourced(parser, x) && Sourced(parser, y)
    ensures SameOwners(r, View(x, xScopes), View(y, yScopes))
  {
    OwnersOf(x.symbols);
    OwnersOf(y.symbols);
    var a, b := S.Owners(x.symbols), S.Owners(y.symbols);
    forall id | id in a && id in b ensures a[id] == b[id] {
      var s :| s in x.symbols && s.id == id && s.file == a[id];
      var t :| t in y.symbols && t.id == id && t.file == b[id];
      assert DeclaredIn(parser, s) && DeclaredIn(parser, t);
    }
  }

  ghost predicate HasOtherContent(x: Index, y: Index, p: Path) {
    && RecordAt(x.files, p).Some? && RecordAt(y.files, p).Some?
    && RecordAt(x.files, p).value.content != RecordAt(y.files, p).value.content
  }

  lemma HashesTellContent(x: Index, y: Index, p: Path)
    requires p in FileHashes(x.files) && p in FileHashes(y.files)
    ensures FileHashes(x.files)[p] != FileHashes(y.files)[p] <==> HasOtherContent(x, y, p)
  {
    FileHashesOf(x.files);
    FileHashesOf(y.files);
  }

  lemma StaleBetweenViews(r: MemoryRevision, x: Index, a: Snapshot, y: Index, b: Snapshot, now: Timestamp)
    requires r.mode == Some(SourceBound) && !Terminal(r.status) && ExistenceStatus(r, b).None?
    requires r.sourceHashes == SnapshotOf(r, a) && ReferencesIndexed(r, a)
    requires OwnersIndexed(a) && OwnersIndexed(b) && SameOwners(r, a, b)
    requires a.files == FileHashes(x.files) && b.files == FileHashes(y.files)
    ensures ConstraintTransition(r, b, now).Some?
        <==> exists p :: p in Covered(r.files, r.symbols, b.owner) && HasOtherContent(x, y, p)
  {
    StaleExactlyBetween(r, a, b, now);
    forall p | p in Covered(r.files, r.symbols, b.owner)
        ensures a.files[p] != b.files[p] <==> HasOtherContent(x, y, p) {
      HashesTellContent(x, y, p);
    }
  }

  /** A source-bound constraint whose snapshot was taken from one index, at its approval or in an update, goes stale
      in a later update exactly when a file it covers has other content there. */
  lemma StaleBetweenUpdatesExactly(
    parser: Parser, r: MemoryRevision, x: Index, xScopes: seq<Scope>, y: Index, yScopes: seq<Scope>, now: Timestamp)
    requires IdsNamePaths(parser) && Faithful(parser, x) && Sourced(parser, x) && Faithful(parser, y)
        && Sourced(parser, y)
    requires r.mode == Some(SourceBound) && !Terminal(r.status) && ExistenceStatus(r, View(y, yScopes)).None?
    requires r.sourceHashes == SnapshotOf(r, View(x, xScopes)) && ReferencesIndexed(r, View(x, xScopes))
    ensures ConstraintTransition(r, View(y, yScopes), now).Some?
        <==> exists p :: p in Covered(r.files, r.symbols, S.Owners(y.symbols)) && HasOtherContent(x, y, p)
  {
    ViewOwnersIndexed(x, xScopes);
    ViewOwnersIndexed(y, yScopes);
    ViewsAgreeOnOwners(parser, r, x, xScopes, y, yScopes);
    StaleBetweenViews(r, x, View(x, xScopes), y, View(y, yScopes), now);
  }

  // ------------------------------------------------------------------ the update itself

  /** The scopes file an update would save. */
  method AssignScopes(scopes: seq<Scope>, before: Index, x: Index, input: Input) returns (r: Option<seq<Scope>>)
    ensures r == NewScopes(scopes, before, x, input)
  {
    if input.mode.Rebuild? { return None; }
    var added, _, _, _ := DiffAgainstPrevious(input.scan.files, before);
    var file := new S.ScopesFile(scopes);
    var changed := file.AssignNewFilesFromImports(set f | f in added :: f.path, x);
    if changed == [] { return None; }
    return Some(file.scopes);
  }

  /** The summaries an update would append. */
  method DecideSummaries(log: seq<M.Summary>, scopes: seq<Scope>, view: Snapshot, input: Input)
      returns (rows: seq<M.Summary>)
    ensures rows == SummaryRows(log, SummaryUpdate(view, scopes, input))
  {
    var t := M.Tree(view.files, view.owner);
    var orphaned := H.DetectOrphanedScopes(Currents(log, M.SummaryKey), set s | s in scopes :: s.id, input.now);
    match input.mode {
      case Rebuild => return orphaned + [];
      case NoProvider =>
        var markers := H.MarkPossiblyStale(scopes, t, M.CurrentsOf(log), input.now);
        return orphaned + markers;
      case Refresh(answers, budget) =>
        var r := M.RunSemanticRefresh(scopes, t, M.CurrentsOf(log), answers, budget);
        return orphaned + r.revisions;
    }
  }

  /** Everything an update computes before it writes. */
  method DecideRows(parser: Parser, repo: Repository, before: Index, input: Input) returns (rows: Rows)
    ensures rows == Decided(parser, repo, before, input)
  {
    var x := ComputeIndex(parser, before, input.scan, input.mode.Rebuild?);
    var scopes := AssignScopes(repo.scopes, before, x, input);
    var view := View(x, Effective(repo, scopes));
    var summaries := DecideSummaries(repo.summaries, Effective(repo, scopes), view, input);
    var decisions := DetectDecisionTransitions(G.CurrentRows(repo.store.decisions, Decision), view, input.now);
    var constraints := DetectConstraintTransitions(G.CurrentRows(repo.store.constraints, Constraint), view, input.now);
    var notes := DetectNoteTransitions(Currents(repo.notes, NoteKey), view, input.now);
    rows := Rows(x, scopes, summaries, decisions, constraints, notes);
  }

  /** Its writes; a raising one discards the cache. */
  method CommitRows(ws: Workspace, text: Text, repo: Repository, rows: Rows, input: Input, fault: Fault)
      returns (ok: bool)
    requires ws.Valid() && ws.files == Encoded(repo, text) && SoundFiles(repo) && Continues(repo, rows)
    modifies ws
    ensures var after := AfterRows(text, State(repo, old(ws.cache)), rows, input, fault);
            ws.cache == after.cache && ws.files == Encoded(after.repo, text)
    ensures ok <==> Insertable(rows.index) && fault != RebuildRaises
                    && !(fault.WriteRaises? && Writes(ChangesOf(rows, text, input), fault.at))
  {
    RowsProjectExactly(text, repo, rows, input);
    WrittenIsEncoded(repo, rows, text, input, 7);
    if fault.WriteRaises? { WrittenIsEncoded(repo, rows, text, input, fault.at); }
    ok := ws.Commit(ChangesOf(rows, text, input), fault, false);
  }

  /** One run of `rune update` on files that any history may have left: it fails only when two symbols have the same id
      or something raises. */
  method RunUpdate(ws: Workspace, parser: Parser, text: Text, repo: Repository, input: Input, fault: Fault)
      returns (ok: bool)
    requires Sound(parser, text, State(repo, ws.cache)) && ws.files == Encoded(repo, text) && input.scan.Valid()
    modifies ws
    ensures var after := AfterUpdate(parser, text, State(repo, old(ws.cache)), input, fault);
            ws.cache == after.cache && ws.files == Encoded(after.repo, text)
    ensures var rows := Decided(parser, repo, IndexOf(old(ws.cache)), input);
            ok <==> DistinctSymbols(rows.index.symbols) && fault != RebuildRaises
                    && !(fault.WriteRaises? && Writes(ChangesOf(rows, text, input), fault.at))
  {
    var before := IndexOf(ws.cache);
    var rows := DecideRows(parser, repo, before, input);
    DecidedContinue(parser, repo, before, input);
    I.CommitsUnlessIdsRepeat(parser, before, input.scan, input.mode.Rebuild?);
    ok := CommitRows(ws, text, repo, rows, input, fault);
  }

  // --------------------------------------------------------------- updating twice

  lemma SameRecordsSameHashes(a: seq<IndexedFile>, b: seq<IndexedFile>)
    requires forall p :: RecordAt(a, p) == RecordAt(b, p)
    ensures FileHashes(a) == FileHashes(b)
  {
    FileHashesOf(a);
    FileHashesOf(b);
    I.PathsByRecord(a);
    I.PathsByRecord(b);
  }

  lemma OwnerOfOne(symbols: seq<Symbol>, y: Symbol)
    requires DistinctSymbols(symbols) && y in symbols
    ensures y.id in S.Owners(symbols) && S.Owners(symbols)[y.id] == y.file
  {
    OwnersOf(symbols);
    assert y.id in SymbolIds(symbols);
    var z :| z in symbols && z.id == y.id && z.file == S.Owners(symbols)[y.id];
    OneSymbol(symbols, y, z);
  }

  lemma SameSymbolsSameOwners(a: seq<Symbol>, b: seq<Symbol>)
    requires (forall y :: y in a <==> y in b) && DistinctSymbols(b)
    ensures S.Owners(a) == S.Owners(b)
  {
    OwnersOf(a);
    forall id | id in S.Owners(a) ensures id in S.Owners(b) && S.Owners(a)[id] == S.Owners(b)[id] {
      var y :| y in a && y.id == id && y.file == S.Owners(a)[id];
      OwnerOfOne(b, y);
    }
    OwnersOf(b);
  }

  lemma SameFactsSameView(a: Index, b: Index, scopes: seq<Scope>)
    requires I.SameFacts(a, b) && DistinctSymbols(a.symbols)
    ensures View(a, scopes) == View(b, scopes)
  {
    SameRecordsSameHashes(a.files, b.files);
    I.SameFactsSameSymbols(a, b);
    forall y ensures y in a.symbols <==> y in b.symbols { assert y in a.symbols <==> y in multiset(a.symbols); }
    SameSymbolsSameOwners(a.symbols, b.symbols);
  }

  lemma OneSymbol(symbols: seq<Symbol>, y: Symbol, z: Symbol)
    requires DistinctSymbols(symbols) && y in symbols && z in symbols && y.id == z.id
    ensures y == z
  {
  }

  /** The same tree read again: the same files, statuses and symbols. */
  lemma RereadIndex(parser: Parser, before: Index, input: Input, again: Input)
    requires Faithful(parser, before) && input.scan.Valid() && input.scan.unreadable == {} && again.scan == input.scan
    ensures var x := NewIndex(parser, before, input);
            I.SameFacts(x, NewIndex(parser, Materialized(x), again))
  {
    var x := NewIndex(parser, before, input);
    RunKeepsFaithful(parser, before, input.scan, input.mode.Rebuild?);
    MaterializeKeepsFaithful(parser, x);
    I.RunMatchesFull(parser, before, input.scan, input.mode.Rebuild?);
    I.RunMatchesFull(parser, Materialized(x), input.scan, again.mode.Rebuild?);
  }

  lemma RereadAddsNothing(parser: Parser, before: Index, input: Input)
    requires input.scan.Valid()
    ensures AddedPaths(Materialized(NewIndex(parser, before, input)), input.scan) == {}
  {
    var x := NewIndex(parser, before, input);
    I.NextPathsAre(parser, before, input.scan, input.mode.Rebuild?);
    I.PathsByRecord(x.files);
    forall f | f in input.scan.files ensures !IsAdded(Materialized(x))(f) { assert f.path in input.scan.Paths(); }
    FilterNothing(input.scan.files, IsAdded(Materialized(x)));
  }

  lemma NothingAddedNoScopes(scopes: seq<Scope>, before: Index, x: Index, input: Input)
    requires AddedPaths(before, input.scan) == {}
    ensures NewScopes(scopes, before, x, input) == None
  {
  }

  /** Lifecycle detection over what it has just written. */
  lemma DetectedOnce(repo: Repository, rows: Rows, view: Snapshot, now: Timestamp)
    requires SoundFiles(repo) && SoundFiles(RowsWritten(repo, rows, 7))
    requires rows.decisions == G.DecisionRows(repo.store, view, now)
        && rows.constraints == G.ConstraintRows(repo.store, view, now)
    requires rows.notes == Transitions(Currents(repo.notes, NoteKey), NoteStep(view, now))
    ensures var after := RowsWritten(repo, rows, 7);
            && G.DecisionRows(after.store, view, now) == [] && G.ConstraintRows(after.store, view, now) == []
            && Transitions(Currents(after.notes, NoteKey), NoteStep(view, now)) == []
  {
    var after := RowsWritten(repo, rows, 7);
    GR.PlannedRows(repo.store, view, now);
    G.CurrentRowsAreCurrents(after.store.decisions, Decision);
    G.CurrentRowsAreCurrents(after.store.constraints, Constraint);
    DetectionIsIdempotent(repo.store.decisions, repo.store.constraints, repo.notes, view, now);
  }

  lemma NothingDetected(after: Repository, view: Snapshot, y: Index, again: Input)
    requires View(y, after.scopes) == view
    requires G.DecisionRows(after.store, view, again.now) == [] && G.ConstraintRows(after.store, view, again.now) == []
    requires Transitions(Currents(after.notes, NoteKey), NoteStep(view, again.now)) == []
    ensures var next := RowsFor(after, y, None, again);
        next.decisions == [] && next.constraints == [] && next.notes == []
  {
  }

  /** An update run again at the same time on a tree that has not changed assigns no file and writes no decision, no
      constraint and no note, whichever of the two runs is a rebuild. */
  lemma UpdateAgainWritesNoRecord(parser: Parser, repo: Repository, before: Index, input: Input, again: Input)
    requires SoundFiles(repo) && Faithful(parser, before)
    requires input.scan.Valid() && input.scan.unreadable == {} && again.scan == input.scan && again.now == input.now
    requires DistinctSymbols(NewIndex(parser, before, input).symbols)
    ensures var rows := Decided(parser, repo, before, input);
            var next := Decided(parser, RowsWritten(repo, rows, 7), Materialized(rows.index), again);
            next.scopes == None && next.decisions == [] && next.constraints == [] && next.notes == []
  {
    var x := NewIndex(parser, before, input);
    var scopes := NewScopes(repo.scopes, before, x, input);
    var rows := RowsFor(repo, x, scopes, input);
    var after, view := RowsWritten(repo, rows, 7), View(x, Effective(repo, scopes));
    var y := NewIndex(parser, Materialized(x), again);
    DecidedContinue(parser, repo, before, input);
    RereadIndex(parser, before, input, again);
    RereadAddsNothing(parser, before, input);
    NothingAddedNoScopes(after.scopes, Materialized(x), y, again);
    SameFactsSameView(x, y, Effective(repo, scopes));
    RowsKeepFilesSound(repo, rows, 7);
    DetectedOnce(repo, rows, view, input.now);
    NothingDetected(after, view, y, again);
  }
}
