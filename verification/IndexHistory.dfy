/** Any history of indexing runs, compared with one full run on the last tree. */
module IndexHistory {
  import opened Collections
  import opened CodeIndex
  import opened References
  import opened Update
  import opened UpdateAgreement

  ghost predicate SameFacts(a: Index, b: Index) {
    forall p :: RecordAt(a.files, p) == RecordAt(b.files, p) && SymbolsAt(a.symbols, p) == SymbolsAt(b.symbols, p)
  }

  ghost function FullRun(parser: Parser, scan: Scan): Index { RunResult(parser, EMPTY_INDEX, scan, true) }

  lemma EmptyIsFaithful(parser: Parser)
    ensures Faithful(parser, EMPTY_INDEX)
  {
  }

  lemma RunShows(parser: Parser, before: Index, scan: Scan, full: bool, f: ScannedFile)
    requires scan.Valid() && f in scan.files
    ensures Shows(RunResult(parser, before, scan, full),
        ContributionOf(parser, if full then EMPTY_INDEX else before, f, scan.onDisk))
  {
    ContributionsAre(parser, before, scan, full);
    AssembledShows(Contributions(parser, before, scan, full),
        ContributionOf(parser, if full then EMPTY_INDEX else before, f, scan.onDisk));
  }

  lemma RunElsewhere(parser: Parser, before: Index, scan: Scan, full: bool, p: Path)
    requires scan.Valid() && scan.unreadable == {} && p !in scan.Paths()
    ensures var x := RunResult(parser, before, scan, full);
            RecordAt(x.files, p) == None && SymbolsAt(x.symbols, p) == [] && EdgesFrom(x.edges, p) == []
  {
    ContributionsAre(parser, before, scan, full);
    var cs := Contributions(parser, before, scan, full);
    forall c | c in cs ensures c.record.path != p {
      assert !FromRetention(before, scan, c);
      assert FromScan(parser, if full then EMPTY_INDEX else before, scan, c);
    }
    AssembledElsewhere(cs, p);
  }

  /** With every file readable, a run yields the files, statuses and symbols of a full run. */
  lemma RunMatchesFull(parser: Parser, before: Index, scan: Scan, full: bool)
    requires Faithful(parser, before) && scan.Valid() && scan.unreadable == {}
    ensures SameFacts(RunResult(parser, before, scan, full), FullRun(parser, scan))
  {
    forall p { RunMatchesFullAt(parser, before, scan, full, p); }
  }

  lemma RunMatchesFullAt(parser: Parser, before: Index, scan: Scan, full: bool, p: Path)
    requires Faithful(parser, before) && scan.Valid() && scan.unreadable == {}
    ensures RecordAt(RunResult(parser, before, scan, full).files, p) == RecordAt(FullRun(parser, scan).files, p)
    ensures SymbolsAt(RunResult(parser, before, scan, full).symbols, p) == SymbolsAt(FullRun(parser, scan).symbols, p)
  {
    if p in scan.Paths() {
      var f :| f in scan.files && f.path == p;
      RunShows(parser, before, scan, full, f);
      RunShows(parser, EMPTY_INDEX, scan, true, f);
      ScannedFaithful(parser, before, scan, full, f);
      ScannedFaithful(parser, EMPTY_INDEX, scan, true, f);
    } else {
      RunElsewhere(parser, before, scan, full, p);
      RunElsewhere(parser, EMPTY_INDEX, scan, true, p);
    }
  }

  // ------------------------------------------------------- when a run commits

  lemma FaithfulInsertable(parser: Parser, x: Index)
    requires Faithful(parser, x)
    ensures Insertable(x) <==> DistinctSymbols(x.symbols)
  {
    forall e | e in x.edges && e.sourceSymbol.Some? ensures e.sourceSymbol.value in SymbolIds(x.symbols) {
      assert e.sourceSymbol.value in SymbolIds(SymbolsAt(x.symbols, e.sourceFile));
    }
  }

  /** The write fails on a repeated symbol id and on nothing else. */
  lemma CommitsUnlessIdsRepeat(parser: Parser, before: Index, scan: Scan, full: bool)
    requires Faithful(parser, before) && scan.Valid()
    ensures Insertable(RunResult(parser, before, scan, full))
        <==> DistinctSymbols(RunResult(parser, before, scan, full).symbols)
  {
    RunKeepsFaithful(parser, before, scan, full);
    FaithfulInsertable(parser, RunResult(parser, before, scan, full));
  }

  function HasId(id: string): Symbol -> bool { (s: Symbol) => s.id == id }

  lemma {:induction false} IdsByCount(s: seq<Symbol>)
    ensures DistinctSymbols(s) <==> forall id :: |Filter(s, HasId(id))| <= 1
  {
    if s != [] {
      var front, last := s[..|s| - 1], s[|s| - 1];
      IdsByCount(front);
      assert s == front + [last];
      forall id ensures Filter(s, HasId(id)) == Filter(front, HasId(id)) + if last.id == id then [last] else [] {}
      if DistinctSymbols(s) {
        assert DistinctSymbols(front);
        FilterNothing(front, HasId(last.id));
      } else if DistinctSymbols(front) {
        var i :| 0 <= i < |front| && front[i].id == last.id;
        assert front[i] in Filter(front, HasId(last.id));
        assert |Filter(s, HasId(last.id))| > 1;
      } else {
        var id :| |Filter(front, HasId(id))| > 1;
        assert |Filter(s, HasId(id))| > 1;
      }
    }
  }

  lemma SameFactsSameSymbols(a: Index, b: Index)
    requires SameFacts(a, b)
    ensures multiset(a.symbols) == multiset(b.symbols)
    ensures Paths(a.files) == Paths(b.files) && SymbolIds(a.symbols) == SymbolIds(b.symbols)
    ensures DistinctSymbols(a.symbols) <==> DistinctSymbols(b.symbols)
  {
    forall s ensures multiset(a.symbols)[s] == multiset(b.symbols)[s] {
      FilterCount(a.symbols, InFile(s.file), s);
      FilterCount(b.symbols, InFile(s.file), s);
      assert SymbolsAt(a.symbols, s.file) == SymbolsAt(b.symbols, s.file);
    }
    assert forall s :: s in a.symbols <==> s in b.symbols by {
      assert forall s :: s in a.symbols <==> s in multiset(a.symbols);
      assert forall s :: s in b.symbols <==> s in multiset(b.symbols);
    }
    PathsByRecord(a.files);
    PathsByRecord(b.files);
    IdsByCount(a.symbols);
    IdsByCount(b.symbols);
    forall id ensures |Filter(a.symbols, HasId(id))| == |Filter(b.symbols, HasId(id))| {
      FilterPermutation(a.symbols, b.symbols, HasId(id));
      assert |multiset(Filter(a.symbols, HasId(id)))| == |multiset(Filter(b.symbols, HasId(id)))|;
    }
  }

  lemma PathsByRecord(files: seq<IndexedFile>)
    ensures forall p :: p in Paths(files) <==> RecordAt(files, p).Some?
  {
    forall p ensures p in Paths(files) <==> RecordAt(files, p).Some? {
      if RecordAt(files, p).Some? { assert RecordAt(files, p).value in files; }
    }
  }

  // ------------------------------------------------- the edges, exactly

  /** The targets an unchanged importer's stored import rows still have in the scanned tree. */
  function CarriedTargets(before: Index, f: ScannedFile, known: set<Path>): seq<Option<Path>> {
    KeepAll(TargetsOf(StoredImports(before, f.path)), known)
  }

  /** The targets its import statements resolve to on the disk as it is now. */
  function CurrentTargets(parser: Parser, f: ScannedFile, onDisk: set<Path>, known: set<Path>): seq<Option<Path>> {
    KeepAll(Targets(parser, f.path, f.content, onDisk), known)
  }

  /** What reuse needs of one file: its imports still resolve as stored, and a file whose parse raises yields no
      references. */
  ghost predicate ReuseSound(parser: Parser, before: Index, scan: Scan, f: ScannedFile) {
    Reused(before, f) ==>
      && multiset(CarriedTargets(before, f, scan.Paths()))
        == multiset(CurrentTargets(parser, f, scan.onDisk, scan.Paths()))
      && (!Parses(parser, f.path, f.content) ==> ReferencesOnly(parser, f.path, f.content) == [])
  }

  lemma NullImportRows(p: Path, targets: seq<Option<Path>>, known: set<Path>, ids: set<string>)
    ensures NullAll(ImportRows(p, targets), known, ids) == ImportRows(p, KeepAll(targets, known))
  {
  }

  lemma {:induction false} ImportRowCount(p: Path, targets: seq<Option<Path>>, t: Option<Path>)
    ensures multiset(ImportRows(p, targets))[ImportRow(p, t)] == multiset(targets)[t]
  {
    if targets != [] {
      var front, last := targets[..|targets| - 1], targets[|targets| - 1];
      ImportRowCount(p, front, t);
      assert targets == front + [last];
      assert ImportRows(p, targets) == ImportRows(p, front) + [ImportRow(p, last)];
    }
  }

  lemma ImportRowsPermute(p: Path, a: seq<Option<Path>>, b: seq<Option<Path>>)
    ensures multiset(ImportRows(p, a)) == multiset(ImportRows(p, b)) <==> multiset(a) == multiset(b)
  {
    var x, y := multiset(ImportRows(p, a)), multiset(ImportRows(p, b));
    if multiset(a) == multiset(b) {
      forall e ensures x[e] == y[e] {
        if e == ImportRow(p, e.targetFile) {
          ImportRowCount(p, a, e.targetFile);
          ImportRowCount(p, b, e.targetFile);
        } else {
          assert e !in ImportRows(p, a) && e !in ImportRows(p, b);
          assert e !in x && e !in y;
        }
      }
    }
    if x == y {
      forall t ensures multiset(a)[t] == multiset(b)[t] {
        ImportRowCount(p, a, t);
        ImportRowCount(p, b, t);
      }
    }
  }

  lemma KeptMember(targets: seq<Option<Path>>, known: set<Path>, q: Path)
    requires q in known
    ensures Some(q) in targets <==> Some(q) in KeepAll(targets, known)
  {
    var kept := KeepAll(targets, known);
    if Some(q) in targets {
      var i :| 0 <= i < |targets| && targets[i] == Some(q);
      assert kept[i] == Some(q);
    }
    if Some(q) in kept {
      var i :| 0 <= i < |kept| && kept[i] == Some(q);
      assert targets[i] == Some(q);
    }
  }

  lemma ImportedByRows(p: Path, targets: seq<Option<Path>>, q: Path)
    ensures q in Imported(ImportRows(p, targets), p) <==> Some(q) in targets
  {
    var rows := ImportRows(p, targets);
    if Some(q) in targets {
      var i :| 0 <= i < |targets| && targets[i] == Some(q);
      assert rows[i] in rows && rows[i].targetFile == Some(q);
    }
    if q in Imported(rows, p) {
      var e :| e in rows && e.targetFile == Some(q);
      var i :| 0 <= i < |rows| && rows[i] == e;
      assert targets[i] == Some(q);
    }
  }

  /** Targets equal up to order after nulling leave the same imported files that declare symbols. */
  lemma SameVisibleImports(p: Path, a: seq<Option<Path>>, b: seq<Option<Path>>, known: set<Path>, q: Path)
    requires multiset(KeepAll(a, known)) == multiset(KeepAll(b, known)) && q in known
    ensures q in Imported(ImportRows(p, a), p) <==> q in Imported(ImportRows(p, b), p)
  {
    ImportedByRows(p, a, q);
    ImportedByRows(p, b, q);
    KeptMember(a, known, q);
    KeptMember(b, known, q);
    assert Some(q) in KeepAll(a, known) <==> Some(q) in multiset(KeepAll(a, known));
    assert Some(q) in KeepAll(b, known) <==> Some(q) in multiset(KeepAll(b, known));
  }

  /** One file's stored edges: its import rows, then one row per reference. */
  ghost function StoredEdges(p: Path, targets: seq<Option<Path>>, refs: seq<RawReference>, symbols: seq<Symbol>,
      known: set<Path>): seq<Edge> {
    ImportRows(p, KeepAll(targets, known))
      + NullAll(Resolve(p, refs, TableOf(symbols), Imported(ImportRows(p, targets), p)), known, SymbolIds(symbols))
  }

  lemma StoredEdgesAre(x: Index, c: Contribution, targets: seq<Option<Path>>)
    requires Shows(x, c) && c.edges == ImportRows(c.record.path, targets) && c.pending.Some?
    ensures EdgesFrom(Materialized(x).edges, c.record.path)
         == StoredEdges(c.record.path, targets, c.pending.value, x.symbols, Paths(x.files))
  {
    var p, known, ids := c.record.path, Paths(x.files), SymbolIds(x.symbols);
    NullAllView(x.edges, known, ids, p);
    var rest := Resolve(p, c.pending.value, TableOf(x.symbols), Imported(c.edges, p));
    NullAllAppend(c.edges, rest, known, ids);
    NullImportRows(p, targets, known, ids);
  }

  lemma ImportsFirst(p: Path, targets: seq<Option<Path>>, rest: seq<Edge>)
    requires Filter(rest, IsImport()) == []
    ensures Filter(ImportRows(p, targets) + rest, IsImport()) == ImportRows(p, targets)
  {
    FilterAppend(ImportRows(p, targets), rest, IsImport());
    FilterAll(ImportRows(p, targets), IsImport());
  }

  lemma StoredEdgesSplit(p: Path, targets: seq<Option<Path>>, refs: seq<RawReference>, symbols: seq<Symbol>,
      known: set<Path>)
    ensures var r := StoredEdges(p, targets, refs, symbols, known);
            Filter(r, IsImport()) == ImportRows(p, KeepAll(targets, known)) && |r| == |targets| + |refs|
  {
    var imported := Imported(ImportRows(p, targets), p);
    ResolvedNotImports(p, refs, TableOf(symbols), imported, known, SymbolIds(symbols));
    ImportsFirst(p, KeepAll(targets, known), NullAll(Resolve(p, refs, TableOf(symbols), imported), known,
        SymbolIds(symbols)));
  }

  lemma ResolvedNotImports(p: Path, refs: seq<RawReference>, table: SymbolTable, imported: set<Path>,
      known: set<Path>, ids: set<string>)
    ensures var rest := NullAll(Resolve(p, refs, table, imported), known, ids);
        |rest| == |refs| && Filter(rest, IsImport()) == []
  {
    var edges := Resolve(p, refs, table, imported);
    var rest := NullAll(edges, known, ids);
    forall i | 0 <= i < |rest| ensures rest[i].edgeType != Imports { assert edges[i] in edges; }
    FilterNothing(rest, IsImport());
  }

  lemma StoredEdgesAgree(
    p: Path, a: seq<Option<Path>>, refsA: seq<RawReference>, symbolsA: seq<Symbol>,
    b: seq<Option<Path>>, refsB: seq<RawReference>, symbolsB: seq<Symbol>, known: set<Path>)
    requires forall q :: SymbolsAt(symbolsA, q) == SymbolsAt(symbolsB, q)
    requires forall q :: SymbolsAt(symbolsA, q) != [] ==> q in known
    requires SymbolIds(symbolsA) == SymbolIds(symbolsB)
    requires refsA == refsB && multiset(KeepAll(a, known)) == multiset(KeepAll(b, known))
    ensures multiset(StoredEdges(p, a, refsA, symbolsA, known)) == multiset(StoredEdges(p, b, refsB, symbolsB, known))
  {
    TableOfIsGrouping(symbolsA);
    TableOfIsGrouping(symbolsB);
    forall q | Lookup(TableOf(symbolsA), q) != []
      ensures q in Imported(ImportRows(p, a), p) <==> q in Imported(ImportRows(p, b), p)
    {
      SameVisibleImports(p, a, b, known, q);
    }
    ResolveDependsOnViews(p, refsA, TableOf(symbolsA), TableOf(symbolsB), Imported(ImportRows(p, a), p),
        Imported(ImportRows(p, b), p));
    ImportRowsPermute(p, KeepAll(a, known), KeepAll(b, known));
  }

  lemma StoredEdgesDiffer(
    p: Path, a: seq<Option<Path>>, refsA: seq<RawReference>, symbolsA: seq<Symbol>,
    b: seq<Option<Path>>, refsB: seq<RawReference>, symbolsB: seq<Symbol>, known: set<Path>)
    requires multiset(StoredEdges(p, a, refsA, symbolsA, known)) == multiset(StoredEdges(p, b, refsB, symbolsB, known))
    ensures multiset(KeepAll(a, known)) == multiset(KeepAll(b, known)) && |refsA| == |refsB|
  {
    var x, y := StoredEdges(p, a, refsA, symbolsA, known), StoredEdges(p, b, refsB, symbolsB, known);
    StoredEdgesSplit(p, a, refsA, symbolsA, known);
    StoredEdgesSplit(p, b, refsB, symbolsB, known);
    FilterPermutation(x, y, IsImport());
    ImportRowsPermute(p, KeepAll(a, known), KeepAll(b, known));
    assert |x| == |multiset(x)| == |multiset(y)| == |y|;
    assert |a| == |multiset(KeepAll(a, known))| == |multiset(KeepAll(b, known))| == |b|;
  }

  /** One file: the reused rows match the full run's exactly when reuse is sound for it. */
  lemma FileEdgesExact(parser: Parser, before: Index, scan: Scan, f: ScannedFile)
    requires Faithful(parser, before) && scan.Valid() && scan.unreadable == {} && f in scan.files
    ensures multiset(EdgesFrom(Materialized(RunResult(parser, before, scan, false)).edges, f.path))
         == multiset(EdgesFrom(Materialized(FullRun(parser, scan)).edges, f.path))
        <==> ReuseSound(parser, before, scan, f)
  {
    var x, y := RunResult(parser, before, scan, false), FullRun(parser, scan);
    var p, known := f.path, scan.Paths();
    RunMatchesFull(parser, before, scan, false);
    SameFactsSameSymbols(x, y);
    KnownPaths(parser, before, scan);
    RunShows(parser, before, scan, false, f);
    RunShows(parser, EMPTY_INDEX, scan, true, f);
    var c, d := ContributionOf(parser, before, f, scan.onDisk), ContributionOf(parser, EMPTY_INDEX, f, scan.onDisk);
    var b := Targets(parser, p, f.content, scan.onDisk);
    var a := if Reused(before, f) then TargetsOf(StoredImports(before, p)) else b;
    StoredImportsShaped(parser, before, p);
    StoredEdgesAre(x, c, a);
    StoredEdgesAre(y, d, b);
    assert forall q :: SymbolsAt(x.symbols, q) == SymbolsAt(y.symbols, q);
    if ReuseSound(parser, before, scan, f) {
      assert c.pending == d.pending;
      StoredEdgesAgree(p, a, c.pending.value, x.symbols, b, d.pending.value, y.symbols, known);
    }
    if multiset(EdgesFrom(Materialized(x).edges, p)) == multiset(EdgesFrom(Materialized(y).edges, p)) {
      StoredEdgesDiffer(p, a, c.pending.value, x.symbols, b, d.pending.value, y.symbols, known);
    }
  }

  lemma StoredImportsShaped(parser: Parser, before: Index, p: Path)
    requires Faithful(parser, before)
    ensures StoredImports(before, p) == ImportRows(p, TargetsOf(StoredImports(before, p)))
  {
    var rows := StoredImports(before, p);
    forall i | 0 <= i < |rows| ensures rows[i] == ImportRow(p, rows[i].targetFile) {
      assert rows[i] in rows;
      assert rows[i] in EdgesFrom(before.edges, p);
    }
  }

  lemma KnownPath(parser: Parser, before: Index, scan: Scan, q: Path)
    requires scan.Valid() && scan.unreadable == {}
    ensures q in scan.Paths() <==> RecordAt(RunResult(parser, before, scan, false).files, q).Some?
    ensures q !in scan.Paths() ==> SymbolsAt(RunResult(parser, before, scan, false).symbols, q) == []
  {
    if q in scan.Paths() {
      var f :| f in scan.files && f.path == q;
      RunShows(parser, before, scan, false, f);
      ContributionOwned(parser, before, f, scan.onDisk);
    } else {
      RunElsewhere(parser, before, scan, false, q);
    }
  }

  lemma KnownPaths(parser: Parser, before: Index, scan: Scan)
    requires scan.Valid() && scan.unreadable == {}
    ensures Paths(RunResult(parser, before, scan, false).files) == scan.Paths()
    ensures forall q :: SymbolsAt(RunResult(parser, before, scan, false).symbols, q) != [] ==> q in scan.Paths()
  {
    PathsByRecord(RunResult(parser, before, scan, false).files);
    forall q
      ensures q in scan.Paths() <==> RecordAt(RunResult(parser, before, scan, false).files, q).Some?
      ensures q !in scan.Paths() ==> SymbolsAt(RunResult(parser, before, scan, false).symbols, q) == []
    {
      KnownPath(parser, before, scan, q);
    }
  }

  /** The stored edges of an incremental run are a full run's, up to order, exactly when every reuse is sound. */
  lemma EdgesMatchFullExactly(parser: Parser, before: Index, scan: Scan)
    requires Faithful(parser, before) && scan.Valid() && scan.unreadable == {}
    ensures multiset(Materialized(RunResult(parser, before, scan, false)).edges)
        == multiset(Materialized(FullRun(parser, scan)).edges)
        <==> forall f :: f in scan.files ==> ReuseSound(parser, before, scan, f)
  {
    var x, y := Materialized(RunResult(parser, before, scan, false)), Materialized(FullRun(parser, scan));
    if forall f :: f in scan.files ==> ReuseSound(parser, before, scan, f) {
      forall p ensures multiset(EdgesFrom(x.edges, p)) == multiset(EdgesFrom(y.edges, p)) {
        if p in scan.Paths() {
          var f :| f in scan.files && f.path == p;
          FileEdgesExact(parser, before, scan, f);
        } else {
          NoEdgesElsewhere(parser, before, scan, false, p);
          NoEdgesElsewhere(parser, EMPTY_INDEX, scan, true, p);
        }
      }
      EdgesBySource(x.edges, y.edges);
    }
    if multiset(x.edges) == multiset(y.edges) {
      forall f | f in scan.files ensures ReuseSound(parser, before, scan, f) {
        FilterPermutation(x.edges, y.edges, FromFile(f.path));
        FileEdgesExact(parser, before, scan, f);
      }
    }
  }

  lemma NoEdgesElsewhere(parser: Parser, before: Index, scan: Scan, full: bool, p: Path)
    requires scan.Valid() && scan.unreadable == {} && p !in scan.Paths()
    ensures EdgesFrom(Materialized(RunResult(parser, before, scan, full)).edges, p) == []
  {
    var x := RunResult(parser, before, scan, full);
    RunElsewhere(parser, before, scan, full, p);
    NullAllView(x.edges, Paths(x.files), SymbolIds(x.symbols), p);
  }

  // ---------------------------------------------------------- histories

  /** What can happen to the stored index: a run, whose deferred canonical writes may fail after the
      index was committed (the cache is then discarded), or the loss of the cache. */
  datatype Event = Run(scan: Scan, full: bool, writesFail: bool) | CacheLost

  /** The stored index and the files that were on disk when its run resolved imports. */
  datatype State = State(index: Index, onDisk: set<Path>)

  const NO_CACHE := State(EMPTY_INDEX, {})

  ghost function After(parser: Parser, s: State, e: Event): State {
    match e
    case CacheLost => NO_CACHE
    case Run(scan, full, writesFail) =>
      var x := RunResult(parser, s.index, scan, full);
      if !Insertable(x) then s
      else if writesFail then NO_CACHE
      else State(Materialized(x), scan.onDisk)
  }

  ghost function Replay(parser: Parser, events: seq<Event>): State {
    if events == [] then NO_CACHE else After(parser, Replay(parser, events[..|events| - 1]), events[|events| - 1])
  }

  ghost predicate ValidHistory(events: seq<Event>) {
    forall e :: e in events && e.Run? ==> e.scan.Valid()
  }

  lemma EventKeepsFaithful(parser: Parser, s: State, e: Event)
    requires Faithful(parser, s.index) && (e.Run? ==> e.scan.Valid())
    ensures Faithful(parser, After(parser, s, e).index)
  {
    EmptyIsFaithful(parser);
    if e.Run? {
      RunKeepsFaithful(parser, s.index, e.scan, e.full);
      MaterializeKeepsFaithful(parser, RunResult(parser, s.index, e.scan, e.full));
    }
  }

  lemma {:induction false} HistoryIsFaithful(parser: Parser, events: seq<Event>)
    requires ValidHistory(events)
    ensures Faithful(parser, Replay(parser, events).index)
  {
    EmptyIsFaithful(parser);
    if events != [] {
      var front, e := events[..|events| - 1], events[|events| - 1];
      assert e in events && forall d :: d in front ==> d in events;
      HistoryIsFaithful(parser, front);
      EventKeepsFaithful(parser, Replay(parser, front), e);
    }
  }

  /** After any history, a run in which every file is readable commits exactly when a full run would, and then
      leaves the full run's files, statuses and symbols. */
  lemma HistoryMatchesFull(parser: Parser, events: seq<Event>, scan: Scan, full: bool)
    requires ValidHistory(events) && scan.Valid() && scan.unreadable == {}
    ensures Insertable(RunResult(parser, Replay(parser, events).index, scan, full))
        <==> Insertable(FullRun(parser, scan))
    ensures Insertable(FullRun(parser, scan)) ==>
              SameFacts(After(parser, Replay(parser, events), Run(scan, full, false)).index,
                  Materialized(FullRun(parser, scan)))
  {
    var before := Replay(parser, events).index;
    HistoryIsFaithful(parser, events);
    EmptyIsFaithful(parser);
    RunMatchesFull(parser, before, scan, full);
    SameFactsSameSymbols(RunResult(parser, before, scan, full), FullRun(parser, scan));
    CommitsUnlessIdsRepeat(parser, before, scan, full);
    CommitsUnlessIdsRepeat(parser, EMPTY_INDEX, scan, true);
  }

  // ----------------------------------------------- import stability

  function Visible(candidates: seq<Path>, onDisk: set<Path>, known: set<Path>): Option<Path> {
    Keep(FirstExisting(candidates, onDisk), known)
  }

  function NextPaths(before: Index, scan: Scan): set<Path> { scan.Paths() + scan.unreadable * Paths(before.files) }

  /** No import of a reused file changes its visible target between the stored run and this one. */
  ghost predicate StableImports(parser: Parser, s: State, scan: Scan) {
    forall f, i ::
      f in scan.files && Reused(s.index, f) && 0 <= i < |Candidates(parser, f.path, f.content)| ==>
        Visible(Candidates(parser, f.path, f.content)[i], s.onDisk, Paths(s.index.files))
          == Visible(Candidates(parser, f.path, f.content)[i], scan.onDisk, NextPaths(s.index, scan))
  }

  ghost predicate StableHistory(parser: Parser, events: seq<Event>) {
    forall k :: 0 <= k < |events| && events[k].Run? && !events[k].full ==>
        StableImports(parser, Replay(parser, events[..k]), events[k].scan)
  }

  /** A file whose parse raises yields nothing to the reference-only extraction either. */
  ghost predicate FailsAsUnit(parser: Parser) {
    forall p, c :: !Parses(parser, p, c) ==> ReferencesOnly(parser, p, c) == []
  }

  /** Enough for stability: no probed path appears on or disappears from the disk or the index. */
  lemma {:induction false} UntouchedCandidatesAreStable(cs: seq<Path>, a: set<Path>, knownA: set<Path>, b: set<Path>,
      knownB: set<Path>)
    requires forall q :: q in cs ==> (q in a <==> q in b) && (q in knownA <==> q in knownB)
    ensures Visible(cs, a, knownA) == Visible(cs, b, knownB)
  {
    if cs != [] {
      assert forall q :: q in cs[1..] ==> q in cs;
      UntouchedCandidatesAreStable(cs[1..], a, knownA, b, knownB);
    }
  }

  /** The stored import rows are what resolution on the last indexed disk gives. */
  ghost predicate ImportsCurrent(parser: Parser, s: State) {
    forall r :: r in s.index.files && r.status != ScanError ==>
      TargetsOf(StoredImports(s.index, r.path)) == KeepAll(Targets(parser, r.path, r.content, s.onDisk),
          Paths(s.index.files))
  }

  lemma NextPathCovered(parser: Parser, before: Index, scan: Scan, full: bool, q: Path)
    requires scan.Valid() && q in NextPaths(before, scan)
    ensures q in Paths(RunResult(parser, before, scan, full).files)
  {
    var cs, x := Contributions(parser, before, scan, full), RunResult(parser, before, scan, full);
    ContributionsAre(parser, before, scan, full);
    PathsByRecord(x.files);
    PathsByRecord(before.files);
    if q in scan.Paths() {
      var f :| f in scan.files && f.path == q;
      ContributionOwned(parser, if full then EMPTY_INDEX else before, f, scan.onDisk);
      AssembledShows(cs, ContributionOf(parser, if full then EMPTY_INDEX else before, f, scan.onDisk));
    } else {
      AssembledShows(cs, Retained(before, RecordAt(before.files, q).value));
    }
  }

  /** Every stored record is a scanned file's or a retained one. */
  lemma RecordOrigin(parser: Parser, before: Index, scan: Scan, full: bool, r: IndexedFile)
    requires scan.Valid() && r in RunResult(parser, before, scan, full).files
    ensures r.status != ScanError ==> exists f :: f in scan.files && f.path == r.path && f.content == r.content
    ensures r.path in NextPaths(before, scan)
  {
    var previous := if full then EMPTY_INDEX else before;
    ContributionsAre(parser, before, scan, full);
    RecordsComeFrom(Contributions(parser, before, scan, full), r);
    var c :| c in Contributions(parser, before, scan, full) && c.record == r;
    if FromScan(parser, previous, scan, c) {
      var f :| f in scan.files && c == ContributionOf(parser, previous, f, scan.onDisk);
      ContributionOwned(parser, previous, f, scan.onDisk);
    } else {
      PathsByRecord(before.files);
    }
  }

  lemma NextPathsAre(parser: Parser, before: Index, scan: Scan, full: bool)
    requires scan.Valid()
    ensures Paths(RunResult(parser, before, scan, full).files) == NextPaths(before, scan)
  {
    forall q | q in NextPaths(before, scan) ensures q in Paths(RunResult(parser, before, scan, full).files) {
      NextPathCovered(parser, before, scan, full, q);
    }
    forall r | r in RunResult(parser, before, scan, full).files ensures r.path in NextPaths(before, scan) {
      RecordOrigin(parser, before, scan, full, r);
    }
  }

  /** Stored targets of a reused file, carried over a stable step, are the current ones. */
  lemma CarriedAreCurrent(parser: Parser, s: State, scan: Scan, f: ScannedFile)
    requires ImportsCurrent(parser, s) && StableImports(parser, s, scan) && f in scan.files && Reused(s.index, f)
    ensures KeepAll(TargetsOf(StoredImports(s.index, f.path)), NextPaths(s.index, scan))
         == KeepAll(Targets(parser, f.path, f.content, scan.onDisk), NextPaths(s.index, scan))
  {
    var p, known := f.path, NextPaths(s.index, scan);
    assert RecordAt(s.index.files, p).value in s.index.files;
    var a := TargetsOf(StoredImports(s.index, p));
    assert a == KeepAll(Targets(parser, p, f.content, s.onDisk), Paths(s.index.files));
    var now := Targets(parser, p, f.content, scan.onDisk);
    forall i | 0 <= i < |a| ensures KeepAll(a, known)[i] == KeepAll(now, known)[i] {
      assert Visible(Candidates(parser, p, f.content)[i], s.onDisk, Paths(s.index.files))
          == Visible(Candidates(parser, p, f.content)[i], scan.onDisk, known);
    }
  }

  lemma TargetsOfRows(p: Path, targets: seq<Option<Path>>)
    ensures TargetsOf(ImportRows(p, targets)) == targets
  {
  }

  lemma FileImportsCurrent(parser: Parser, s: State, scan: Scan, full: bool, f: ScannedFile)
    requires Faithful(parser, s.index) && scan.Valid() && ImportsCurrent(parser, s) && f in scan.files
    requires full || StableImports(parser, s, scan)
    ensures TargetsOf(StoredImports(Materialized(RunResult(parser, s.index, scan, full)), f.path))
         == KeepAll(Targets(parser, f.path, f.content, scan.onDisk), NextPaths(s.index, scan))
  {
    var x, p, known := RunResult(parser, s.index, scan, full), f.path, NextPaths(s.index, scan);
    var c := ContributionOf(parser, if full then EMPTY_INDEX else s.index, f, scan.onDisk);
    RunShows(parser, s.index, scan, full, f);
    NextPathsAre(parser, s.index, scan, full);
    var a;
    if !full && Reused(s.index, f) {
      a := TargetsOf(StoredImports(s.index, p));
      StoredImportsShaped(parser, s.index, p);
      CarriedAreCurrent(parser, s, scan, f);
    } else {
      a := Targets(parser, p, f.content, scan.onDisk);
    }
    StoredEdgesAre(x, c, a);
    StoredEdgesSplit(p, a, c.pending.value, x.symbols, known);
    TargetsOfRows(p, KeepAll(a, known));
  }

  lemma RunKeepsImportsCurrent(parser: Parser, s: State, scan: Scan, full: bool)
    requires Faithful(parser, s.index) && scan.Valid() && ImportsCurrent(parser, s)
    requires full || StableImports(parser, s, scan)
    ensures ImportsCurrent(parser, State(Materialized(RunResult(parser, s.index, scan, full)), scan.onDisk))
  {
    var m := Materialized(RunResult(parser, s.index, scan, full));
    NextPathsAre(parser, s.index, scan, full);
    forall r | r in m.files && r.status != ScanError
      ensures TargetsOf(StoredImports(m, r.path))
          == KeepAll(Targets(parser, r.path, r.content, scan.onDisk), Paths(m.files))
    {
      RecordOrigin(parser, s.index, scan, full, r);
      var f :| f in scan.files && f.path == r.path && f.content == r.content;
      FileImportsCurrent(parser, s, scan, full, f);
    }
  }

  lemma StableFront(parser: Parser, events: seq<Event>)
    requires ValidHistory(events) && StableHistory(parser, events) && events != []
    ensures ValidHistory(events[..|events| - 1]) && StableHistory(parser, events[..|events| - 1])
  {
    var front := events[..|events| - 1];
    assert forall d :: d in front ==> d in events;
    forall k | 0 <= k < |front| && front[k].Run? && !front[k].full
        ensures StableImports(parser, Replay(parser, front[..k]), front[k].scan) {
      assert front[..k] == events[..k];
    }
  }

  lemma {:induction false} StableHistoryIsCurrent(parser: Parser, events: seq<Event>)
    requires ValidHistory(events) && StableHistory(parser, events)
    ensures ImportsCurrent(parser, Replay(parser, events))
  {
    if events != [] {
      var n := |events| - 1;
      var front, e := events[..n], events[n];
      StableFront(parser, events);
      StableHistoryIsCurrent(parser, front);
      HistoryIsFaithful(parser, front);
      if e.Run? {
        assert e in events;
        RunKeepsImportsCurrent(parser, Replay(parser, front), e.scan, e.full);
      }
    }
  }

  lemma FullIgnoresHistory(parser: Parser, before: Index, scan: Scan)
    requires scan.unreadable == {}
    ensures RunResult(parser, before, scan, true) == FullRun(parser, scan)
  {
    assert scan.unreadable * Paths(before.files) == {} == scan.unreadable * Paths(EMPTY_INDEX.files);
  }

  /** After a history whose reused imports stayed put, the edges too are the full run's, up to order. */
  lemma StableHistoryMatchesFullEdges(parser: Parser, events: seq<Event>, scan: Scan, full: bool)
    requires ValidHistory(events) && scan.Valid() && scan.unreadable == {}
    requires StableHistory(parser, events) && FailsAsUnit(parser)
    requires full || StableImports(parser, Replay(parser, events), scan)
    ensures Insertable(FullRun(parser, scan)) ==>
              multiset(After(parser, Replay(parser, events), Run(scan, full, false)).index.edges)
                  == multiset(Materialized(FullRun(parser, scan)).edges)
  {
    var s := Replay(parser, events);
    HistoryIsFaithful(parser, events);
    StableHistoryIsCurrent(parser, events);
    HistoryMatchesFull(parser, events, scan, full);
    if full {
      FullIgnoresHistory(parser, s.index, scan);
    } else {
      forall f | f in scan.files ensures ReuseSound(parser, s.index, scan, f) {
        if Reused(s.index, f) { StableReuseIsSound(parser, s, scan, f); }
      }
      EdgesMatchFullExactly(parser, s.index, scan);
    }
  }

  lemma StableReuseIsSound(parser: Parser, s: State, scan: Scan, f: ScannedFile)
    requires ImportsCurrent(parser, s) && StableImports(parser, s, scan) && FailsAsUnit(parser)
    requires scan.unreadable == {} && f in scan.files && Reused(s.index, f)
    ensures ReuseSound(parser, s.index, scan, f)
  {
    CarriedAreCurrent(parser, s, scan, f);
    assert NextPaths(s.index, scan) == scan.Paths();
  }

  // ----------------------------------------- where reuse and a full run part

  function ScanOf(files: seq<ScannedFile>): Scan { Scan(files, {}, set f | f in files :: f.path) }

  lemma ThreeFiles(a: ScannedFile, b: ScannedFile, c: ScannedFile)
    requires a.path != b.path && b.path != c.path && a.path != c.path
    ensures ScanOf([a, b]).Valid() && ScanOf([a, b]).Paths() == ScanOf([a, b]).onDisk == {a.path, b.path}
    ensures ScanOf([a, b, c]).Valid() && ScanOf([a, b, c]).Paths() == ScanOf([a, b, c]).onDisk
        == {a.path, b.path, c.path}
    ensures a in ScanOf([a, b]).files && a in ScanOf([a, b, c]).files
  {
    assert a in [a, b] && b in [a, b];
    assert a in [a, b, c] && b in [a, b, c] && c in [a, b, c];
  }

  lemma ShadowedTargets(parser: Parser, importer: ScannedFile, target: Path, shadow: Path, onDisk: set<Path>)
    requires Candidates(parser, importer.path, importer.content) == [[shadow, target]] && target in onDisk
    ensures Targets(parser, importer.path, importer.content, onDisk)
        == [Some(if shadow in onDisk then shadow else target)]
  {
    var probed := [shadow, target];
    assert probed[1..] == [target];
    assert FirstExisting([target], onDisk) == Some(target);
    assert FirstExisting(probed, onDisk) == Some(if shadow in onDisk then shadow else target);
    assert Candidates(parser, importer.path, importer.content)[0] == probed;
  }

  lemma KeptSingleton(t: Path, known: set<Path>)
    requires t in known
    ensures KeepAll([Some(t)], known) == [Some(t)]
  {
  }

  lemma FullRunTargets(parser: Parser, scan: Scan, f: ScannedFile)
    requires scan.Valid() && f in scan.files
    ensures TargetsOf(StoredImports(Materialized(FullRun(parser, scan)), f.path))
         == KeepAll(Targets(parser, f.path, f.content, scan.onDisk), NextPaths(EMPTY_INDEX, scan))
  {
    EmptyIsFaithful(parser);
    FileImportsCurrent(parser, NO_CACHE, scan, true, f);
  }

  /** A full run on a tree without the shadowing file resolves the import to its target. */
  lemma BeforeShadowing(parser: Parser, scan: Scan, importer: ScannedFile, target: Path, shadow: Path)
    requires Candidates(parser, importer.path, importer.content) == [[shadow, target]]
    requires scan.Valid() && importer in scan.files && target in scan.Paths() && target in scan.onDisk
        && shadow !in scan.onDisk
    ensures TargetsOf(StoredImports(Materialized(FullRun(parser, scan)), importer.path)) == [Some(target)]
  {
    FullRunTargets(parser, scan, importer);
    ShadowedTargets(parser, importer, target, shadow, scan.onDisk);
    KeptSingleton(target, NextPaths(EMPTY_INDEX, scan));
  }

  lemma FullRunIsFaithful(parser: Parser, scan: Scan)
    requires scan.Valid()
    ensures Faithful(parser, Materialized(FullRun(parser, scan)))
  {
    EmptyIsFaithful(parser);
    RunKeepsFaithful(parser, EMPTY_INDEX, scan, true);
    MaterializeKeepsFaithful(parser, FullRun(parser, scan));
  }

  lemma FreshRecord(parser: Parser, scan: Scan, f: ScannedFile)
    requires scan.Valid() && f in scan.files
    ensures RecordAt(FullRun(parser, scan).files, f.path)
        == Some(IndexedFile(f.path, f.content, StatusOf(parser, f.path, f.content)))
  {
    RunShows(parser, EMPTY_INDEX, scan, true, f);
    ScannedFaithful(parser, EMPTY_INDEX, scan, true, f);
  }

  lemma FreshIsReused(parser: Parser, scan: Scan, f: ScannedFile)
    requires scan.Valid() && f in scan.files
    ensures Reused(Materialized(FullRun(parser, scan)), f)
  {
    FreshRecord(parser, scan, f);
    RecordedIsReused(Materialized(FullRun(parser, scan)), f, StatusOf(parser, f.path, f.content));
  }

  lemma RecordedIsReused(x: Index, f: ScannedFile, status: FileStatus)
    requires RecordAt(x.files, f.path) == Some(IndexedFile(f.path, f.content, status)) && status != ScanError
    ensures Reused(x, f)
  {
  }

  /** Reuse is not always right: when a new file shadows an unchanged importer's target (a module beside the
      package it used to find), the incremental run keeps the old edge and the full run does not. */
  lemma ShadowingFileIsMissed(parser: Parser, importer: ScannedFile, target: ScannedFile, shadow: ScannedFile)
    requires Candidates(parser, importer.path, importer.content) == [[shadow.path, target.path]]
    requires importer.path != target.path && target.path != shadow.path && importer.path != shadow.path
    ensures var before, now := Materialized(FullRun(parser, ScanOf([importer, target]))),
        ScanOf([importer, target, shadow]);
            multiset(Materialized(RunResult(parser, before, now, false)).edges)
                != multiset(Materialized(FullRun(parser, now)).edges)
  {
    var early, now := ScanOf([importer, target]), ScanOf([importer, target, shadow]);
    ThreeFiles(importer, target, shadow);
    StaleReuse(parser, early, now, importer, target.path, shadow.path);
    EdgesMatchFullExactly(parser, Materialized(FullRun(parser, early)), now);
  }

  lemma StaleReuse(parser: Parser, early: Scan, now: Scan, importer: ScannedFile, target: Path, shadow: Path)
    requires Candidates(parser, importer.path, importer.content) == [[shadow, target]] && target != shadow
    requires early.Valid() && importer in early.files && target in early.Paths() && target in early.onDisk
        && shadow !in early.onDisk
    requires target in now.onDisk && shadow in now.onDisk && target in now.Paths() && shadow in now.Paths()
    ensures Faithful(parser, Materialized(FullRun(parser, early)))
    ensures !ReuseSound(parser, Materialized(FullRun(parser, early)), now, importer)
  {
    FullRunIsFaithful(parser, early);
    FreshIsReused(parser, early, importer);
    BeforeShadowing(parser, early, importer, target, shadow);
    ShadowedReuse(parser, Materialized(FullRun(parser, early)), now, importer, target, shadow);
  }

  lemma ShadowedReuse(parser: Parser, before: Index, now: Scan, importer: ScannedFile, target: Path, shadow: Path)
    requires Candidates(parser, importer.path, importer.content) == [[shadow, target]] && target != shadow
    requires target in now.onDisk && shadow in now.onDisk && target in now.Paths() && shadow in now.Paths()
    requires Reused(before, importer) && TargetsOf(StoredImports(before, importer.path)) == [Some(target)]
    ensures !ReuseSound(parser, before, now, importer)
  {
    ShadowedTargets(parser, importer, target, shadow, now.onDisk);
    NotPermuted(Some(target), Some(shadow));
    KeptSingleton(target, now.Paths());
    KeptSingleton(shadow, now.Paths());
  }

  lemma NotPermuted<T>(a: T, b: T)
    requires a != b
    ensures multiset([a]) != multiset([b])
  {
    assert a in multiset([a]) && a !in multiset([b]);
  }

  // -------------------------------------------- an update that finds nothing changed

  lemma KeptTwice(targets: seq<Option<Path>>, known: set<Path>)
    ensures KeepAll(KeepAll(targets, known), known) == KeepAll(targets, known)
  {
  }

  lemma FreshTargets(parser: Parser, scan: Scan, f: ScannedFile)
    requires scan.Valid() && scan.unreadable == {} && f in scan.files
    ensures CarriedTargets(Materialized(FullRun(parser, scan)), f, scan.Paths())
        == CurrentTargets(parser, f, scan.onDisk, scan.Paths())
  {
    FullRunTargets(parser, scan, f);
    NothingRetained(scan);
    CarriedFromTargets(parser, Materialized(FullRun(parser, scan)), f, scan.onDisk, scan.Paths());
  }

  lemma NothingRetained(scan: Scan)
    requires scan.unreadable == {}
    ensures NextPaths(EMPTY_INDEX, scan) == scan.Paths()
  {
  }

  lemma CarriedFromTargets(parser: Parser, stored: Index, f: ScannedFile, onDisk: set<Path>, known: set<Path>)
    requires TargetsOf(StoredImports(stored, f.path)) == KeepAll(Targets(parser, f.path, f.content, onDisk), known)
    ensures CarriedTargets(stored, f, known) == CurrentTargets(parser, f, onDisk, known)
  {
    KeptTwice(Targets(parser, f.path, f.content, onDisk), known);
  }

  /** Right after a full run on the same tree, reuse is sound for every file but those that parsing leaves without facts
      and the reference-only extraction does not. */
  lemma FreshReuseSound(parser: Parser, scan: Scan, f: ScannedFile)
    requires scan.Valid() && scan.unreadable == {} && f in scan.files
    ensures ReuseSound(parser, Materialized(FullRun(parser, scan)), scan, f)
        <==> (Parses(parser, f.path, f.content) || ReferencesOnly(parser, f.path, f.content) == [])
  {
    FreshIsReused(parser, scan, f);
    FreshTargets(parser, scan, f);
  }

  /** An update straight after a full run, with nothing changed on disk, keeps the edges exactly when no file that fails
      to parse yields references on their own. */
  lemma RepeatedRunKeepsEdgesExactly(parser: Parser, scan: Scan)
    requires scan.Valid() && scan.unreadable == {}
    ensures var stored := Materialized(FullRun(parser, scan));
            multiset(Materialized(RunResult(parser, stored, scan, false)).edges) == multiset(stored.edges)
            <==> forall f :: f in scan.files ==>
              Parses(parser, f.path, f.content) || ReferencesOnly(parser, f.path, f.content) == []
  {
    var stored := Materialized(FullRun(parser, scan));
    FullRunIsFaithful(parser, scan);
    EdgesMatchFullExactly(parser, stored, scan);
    forall f | f in scan.files
      ensures ReuseSound(parser, stored, scan, f)
          <==> Parses(parser, f.path, f.content) || ReferencesOnly(parser, f.path, f.content) == [] {
      FreshReuseSound(parser, scan, f);
    }
  }

  /** The smallest tree on which it does not: one file whose declarations cannot be extracted and whose references
      can. */
  lemma UnparsedFileGainsReferences(parser: Parser, f: ScannedFile)
    requires parser.declarations(f.path, f.content).None?
    requires parser.references(f.path, f.content).Some? && parser.references(f.path, f.content).value != []
    ensures var scan := ScanOf([f]);
            var stored := Materialized(FullRun(parser, scan));
            multiset(Materialized(RunResult(parser, stored, scan, false)).edges) != multiset(stored.edges)
  {
    OneFileScan(f);
    RepeatedRunKeepsEdgesExactly(parser, ScanOf([f]));
  }

  lemma OneFileScan(f: ScannedFile)
    ensures ScanOf([f]).Valid() && ScanOf([f]).unreadable == {} && f in ScanOf([f]).files
  {
  }
}
