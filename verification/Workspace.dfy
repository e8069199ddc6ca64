/** The write protocol of an update: cache first, canonical files second, cache discarded if those writes fail. */
module Workspaces {
  import opened Collections
  import opened CodeIndex
  import opened Cache
  import S = Scopes

  /** Everything an update decided to write. */
  datatype Changes = Changes(
    index: Index, scopes: Option<seq<Scope>>,
    semantic: seq<Entry>, logLines: seq<string>, decisions: seq<Entry>, constraints: seq<Entry>, notes: seq<Entry>,
    metric: Option<string>, project: Option<string>)

  /** The canonical files once the first `k` deferred writes are done: scopes, semantic, semantic log,
      decisions, constraints, notes, project. */
  function Written(c: Canonical, u: Changes, k: nat): Canonical {
    c.(
      scopes := if k > 0 && u.scopes.Some? then u.scopes.value else c.scopes,
      semantic := if k > 1 then c.semantic + u.semantic else c.semantic,
      decisions := if k > 3 then c.decisions + u.decisions else c.decisions,
      constraints := if k > 4 then c.constraints + u.constraints else c.constraints,
      notes := if k > 5 then c.notes + u.notes else c.notes)
  }

  function AllWritten(c: Canonical, u: Changes): Canonical { Written(c, u, 7) }

  /** Whether the `k`-th deferred write touches the disk at all. */
  predicate Writes(u: Changes, k: nat) {
    match k
    case 0 => u.scopes.Some?
    case 1 => u.semantic != []
    case 2 => u.logLines != []
    case 3 => u.decisions != []
    case 4 => u.constraints != []
    case 5 => u.notes != []
    case 6 => u.project.Some?
    case _ => false
  }

  /** The exception injected into one update, if any. */
  datatype Fault = NoFault | RebuildRaises | WriteRaises(at: nat)

  function Added(metric: Option<string>): seq<string> { if metric.Some? then [metric.value] else [] }

  function MetricsOf(cache: Option<Tables>): seq<string> { if cache.Some? then cache.value.metrics else [] }

  method InsertFiles(files: seq<IndexedFile>) returns (paths: Option<set<Path>>)
    ensures paths.None? <==> !DistinctRecords(files)
    ensures paths.Some? ==> paths.value == Paths(files)
  {
    var seen: set<Path> := {};
    for i := 0 to |files|
      invariant seen == Paths(files[..i]) && DistinctRecords(files[..i])
    {
      TakeSnoc(files, i);
      if files[i].path in seen {
        var f :| f in files[..i] && f.path == files[i].path;
        var j :| 0 <= j < i && files[j] == f;
        return None;
      }
      assert forall j :: 0 <= j < i ==> files[..i][j] in files[..i];
      seen := seen + {files[i].path};
    }
    TakeAll(files);
    return Some(seen);
  }

  ghost predicate SymbolsInsertable(symbols: seq<Symbol>, paths: set<Path>) {
    && DistinctSymbols(symbols)
    && (forall s :: s in symbols ==> s.file in paths)
  }

  method InsertSymbols(symbols: seq<Symbol>, paths: set<Path>) returns (ids: Option<set<string>>)
    ensures ids.None? <==> !SymbolsInsertable(symbols, paths)
    ensures ids.Some? ==> ids.value == SymbolIds(symbols)
  {
    var seen: set<string> := {};
    for i := 0 to |symbols|
      invariant seen == SymbolIds(symbols[..i]) && SymbolsInsertable(symbols[..i], paths)
    {
      var s := symbols[i];
      TakeSnoc(symbols, i);
      if s.id in seen {
        var t :| t in symbols[..i] && t.id == s.id;
        var j :| 0 <= j < i && symbols[j] == t;
        return None;
      }
      if s.file !in paths {
        assert s in symbols;
        return None;
      }
      assert forall j :: 0 <= j < i ==> symbols[..i][j] in symbols[..i];
      seen := seen + {s.id};
    }
    TakeAll(symbols);
    return Some(seen);
  }

  ghost predicate EdgeInsertable(e: Edge, paths: set<Path>, ids: set<string>) {
    e.sourceFile in paths && (e.sourceSymbol.Some? ==> e.sourceSymbol.value in ids)
  }

  method InsertEdges(edges: seq<Edge>, paths: set<Path>, ids: set<string>) returns (rows: Option<seq<Edge>>)
    ensures rows.None? <==> exists e :: e in edges && !EdgeInsertable(e, paths, ids)
    ensures rows.Some? ==> rows.value == NullAll(edges, paths, ids)
  {
    var stored: seq<Edge> := [];
    for i := 0 to |edges|
      invariant |stored| == i && forall j :: 0 <= j < i ==> stored[j] == NullDangling(edges[j], paths, ids)
      invariant forall j :: 0 <= j < i ==> EdgeInsertable(edges[j], paths, ids)
    {
      var e := edges[i];
      if e.sourceFile !in paths || (e.sourceSymbol.Some? && e.sourceSymbol.value !in ids) {
        assert !EdgeInsertable(e, paths, ids);
        return None;
      }
      stored := stored + [NullDangling(e, paths, ids)];
    }
    assert stored == NullAll(edges, paths, ids);
    return Some(stored);
  }

  /** The code index tables; a violated key raises. */
  method InsertCodeIndex(x: Index) returns (r: Option<Index>)
    ensures r.None? <==> !Insertable(x)
    ensures r.Some? ==> r.value == Materialized(x)
  {
    var paths := InsertFiles(x.files);
    if paths.None? { return None; }
    var ids := InsertSymbols(x.symbols, paths.value);
    if ids.None? { return None; }
    var rows := InsertEdges(x.edges, paths.value, ids.value);
    if rows.None? { return None; }
    return Some(Index(x.files, x.symbols, rows.value));
  }

  /** Scope rows; a membership whose target is not indexed is dropped, a repeated scope id raises. */
  method InsertScopes(scopes: seq<Scope>, files: set<Path>, symbols: set<string>)
    returns (ok: bool, rows: seq<ScopeRow>, scopeFiles: set<(string, Path)>, scopeSymbols: set<(string, string)>)
    ensures ok <==> S.UniqueIds(scopes)
    ensures ok ==> rows == ScopeRows(scopes)
    ensures ok ==> scopeFiles == ScopeFileRows(scopes, files) && scopeSymbols == ScopeSymbolRows(scopes, symbols)
  {
    rows, scopeFiles, scopeSymbols := [], {}, {};
    for i := 0 to |scopes|
      invariant forall j, k :: 0 <= j < k < i ==> scopes[j].id != scopes[k].id
      invariant rows == ScopeRows(scopes[..i])
      invariant scopeFiles == ScopeFileRows(scopes[..i], files) && scopeSymbols == ScopeSymbolRows(scopes[..i], symbols)
    {
      var s := scopes[i];
      TakeSnoc(scopes, i);
      if exists j :: 0 <= j < i && scopes[j].id == s.id {
        return false, rows, scopeFiles, scopeSymbols;
      }
      ghost var before := scopes[..i];
      rows := rows + [RowOfScope(s)];
      scopeFiles := scopeFiles + set f | f in s.files && f in files :: (s.id, f);
      scopeSymbols := scopeSymbols + set y | y in s.symbols && y in symbols :: (s.id, y);
      MembersSnoc(before, s, files, symbols);
    }
    TakeAll(scopes);
    ok := true;
  }

  lemma MembersSnoc(scopes: seq<Scope>, s: Scope, files: set<Path>, symbols: set<string>)
    ensures ScopeFileRows(scopes + [s], files) == ScopeFileRows(scopes, files) + set f | f in s.files
        && f in files :: (s.id, f)
    ensures ScopeSymbolRows(scopes + [s], symbols) == ScopeSymbolRows(scopes, symbols) + set y | y in s.symbols
        && y in symbols :: (s.id, y)
  {
    assert forall t :: t in scopes + [s] <==> t in scopes || t == s;
  }

  /** The repository's canonical files and its derived cache. */
  class Workspace {
    var cache: Option<Tables>
    var files: Canonical
    var semanticLog: seq<string>
    var project: string

    ghost predicate Valid()
      reads this
    {
      cache.Some? ==> NotAhead(cache.value, files)
    }

    /** One transaction: everything is replaced, or nothing is. */
    method RebuildCache(index: Index, source: Canonical, metric: Option<string>, raises: bool) returns (ok: bool)
      modifies this`cache
      ensures ok <==> !raises && Projectable(index, source)
      ensures ok ==> cache == Some(Project(index, source, MetricsOf(old(cache)) + Added(metric)))
      ensures !ok ==> cache == old(cache)
    {
      var stored := InsertCodeIndex(index);
      if stored.None? { return false; }
      var scoped, rows, scopeFiles, scopeSymbols :=
          InsertScopes(source.scopes, Paths(index.files), SymbolIds(index.symbols));
      if !scoped { return false; }
      var decisions := GroupCurrentById(source.decisions);
      var constraints := GroupCurrentById(source.constraints);
      var notes := GroupCurrentById(source.notes);
      var proposals := GroupCurrentById(source.proposals);
      var semantic := GroupCurrentById(source.semantic);
      if decisions.None? || constraints.None? || notes.None? || proposals.None? || semantic.None? || raises {
        return false;
      }
      cache := Some(Tables(
        stored.value, rows, scopeFiles, scopeSymbols,
        FamilyOf(decisions.value), FamilyOf(constraints.value), FamilyOf(notes.value),
        CurrentEntries(proposals.value), CurrentSemantic(semantic.value, ScopeIds(source.scopes)),
        MetricsOf(cache) + Added(metric)));
      return true;
    }

    /** An update's writes. A raising deferred write discards the cache, unless discarding raises too. */
    method Commit(u: Changes, fault: Fault, discardRaises: bool) returns (ok: bool)
      requires Valid()
      modifies this
      ensures ok <==> Projectable(u.index, AllWritten(old(files), u)) && fault != RebuildRaises
                      && !(fault.WriteRaises? && Writes(u, fault.at))
      ensures ok ==> files == AllWritten(old(files), u)
                     && cache == Some(Project(u.index, files, MetricsOf(old(cache)) + Added(u.metric)))
      ensures fault == RebuildRaises || !Projectable(u.index, AllWritten(old(files), u)) ==>
          files == old(files) && cache == old(cache)
      ensures fault.WriteRaises? && Writes(u, fault.at) && Projectable(u.index, AllWritten(old(files), u)) ==>
                && files == Written(old(files), u, fault.at)
                && cache == if discardRaises
                  then Some(Project(u.index, AllWritten(old(files), u), MetricsOf(old(cache)) + Added(u.metric)))
                  else None
      ensures project == if ok && u.project.Some? then u.project.value else old(project)
      ensures semanticLog
          == if ok || (fault.WriteRaises? && 3 <= fault.at && Projectable(u.index, AllWritten(old(files), u)))
               then old(semanticLog) + u.logLines else old(semanticLog)
      ensures !discardRaises ==> Valid()
    {
      var rebuilt := RebuildCache(u.index, AllWritten(files, u), u.metric, fault == RebuildRaises);
      if !rebuilt { return false; }
      ProjectionNotAhead(u.index, AllWritten(files, u), cache.value.metrics);
      var raised := WriteCanonical(u, fault);
      if raised {
        if !discardRaises { cache := None; }
        return false;
      }
      return true;
    }

    /** The scopes file, the summaries and their log. */
    method WriteScopes(u: Changes, fault: Fault) returns (raised: bool)
      modifies this`files, this`semanticLog
      ensures raised <==> fault.WriteRaises? && fault.at < 3 && Writes(u, fault.at)
      ensures files == Written(old(files), u, if raised then fault.at else 3)
      ensures semanticLog == if raised then old(semanticLog) else old(semanticLog) + u.logLines
    {
      ghost var c := files;
      raised := true;
      if u.scopes.Some? {
        if fault == WriteRaises(0) { return; }
        files := files.(scopes := u.scopes.value);
      }
      assert files == Written(c, u, 1);
      if u.semantic != [] {
        if fault == WriteRaises(1) { return; }
        files := files.(semantic := files.semantic + u.semantic);
      }
      assert files == Written(c, u, 2);
      if u.logLines != [] {
        if fault == WriteRaises(2) { return; }
        semanticLog := semanticLog + u.logLines;
      } else {
        AppendEmpty(semanticLog);
      }
      raised := false;
    }

    /** The record logs and the project file. */
    method WriteRecords(ghost c: Canonical, u: Changes, fault: Fault) returns (raised: bool)
      requires files == Written(c, u, 3)
      modifies this`files, this`project
      ensures raised <==> fault.WriteRaises? && fault.at >= 3 && Writes(u, fault.at)
      ensures files == Written(c, u, if raised then fault.at else 7)
      ensures project == if raised || u.project.None? then old(project) else u.project.value
    {
      raised := true;
      if u.decisions != [] {
        if fault == WriteRaises(3) { return; }
        files := files.(decisions := files.decisions + u.decisions);
      }
      assert files == Written(c, u, 4);
      if u.constraints != [] {
        if fault == WriteRaises(4) { return; }
        files := files.(constraints := files.constraints + u.constraints);
      }
      assert files == Written(c, u, 5);
      if u.notes != [] {
        if fault == WriteRaises(5) { return; }
        files := files.(notes := files.notes + u.notes);
      }
      assert files == Written(c, u, 6);
      if u.project.Some? {
        if fault == WriteRaises(6) { return; }
        project := u.project.value;
      }
      raised := false;
    }

    method WriteCanonical(u: Changes, fault: Fault) returns (raised: bool)
      modifies this`files, this`semanticLog, this`project
      ensures raised <==> fault.WriteRaises? && Writes(u, fault.at)
      ensures files == Written(old(files), u, if raised then fault.at else 7)
      ensures semanticLog == if raised && fault.at < 3 then old(semanticLog) else old(semanticLog) + u.logLines
      ensures project == if raised || u.project.None? then old(project) else u.project.value
    {
      ghost var c := files;
      raised := WriteScopes(u, fault);
      if !raised {
        raised := WriteRecords(c, u, fault);
      }
    }

    /** Rebuilds the cache from the canonical files and the index it already holds; a no-op without a cache. */
    method RefreshCache(raises: bool) returns (ok: bool)
      requires Valid()
      modifies this`cache
      ensures Valid()
      ensures old(cache).None? ==> cache.None? && ok
      ensures old(cache).Some? ==>
                && (ok <==> !raises && Projectable(old(cache).value.index, files))
                && cache == if ok then Some(Project(old(cache).value.index, files, old(cache).value.metrics))
                  else old(cache)
      ensures forall index, metrics ::
                old(cache) == Some(Project(index, files, metrics)) && Projectable(index, files) ==>
                  cache == old(cache) && (ok <==> !raises)
    {
      if cache.None? { return true; }
      ghost var index := cache.value.index;
      AppendEmpty(cache.value.metrics);
      ok := RebuildCache(cache.value.index, files, None, raises);
      if ok { ProjectionNotAhead(index, files, cache.value.metrics); }
      forall x, metrics | old(cache) == Some(Project(x, files, metrics)) && Projectable(x, files)
        ensures cache == old(cache) && (ok <==> !raises)
      {
        ReadBackIsIdentity(x, files, metrics);
        assert metrics + Added(None) == metrics;
      }
    }
  }

  // --------------------------------------- a failed discard, exactly

  ghost predicate Fresh(log: seq<Entry>, more: seq<Entry>) {
    forall e, f :: e in log && f in more && e.id == f.id ==> e.revision < f.revision
  }

  /** The updates whose interrupted canonical writes a surviving cache would run ahead of. */
  ghost predicate Overtakes(c: Canonical, u: Changes, k: nat) {
    || (k <= 1 && exists e :: e in u.semantic && e.id in ScopeIds(AllWritten(c, u).scopes))
    || (k <= 3 && u.decisions != [])
    || (k <= 4 && u.constraints != [])
    || (k <= 5 && u.notes != [])
  }

  lemma RowsOfAppendedLog(log: seq<Entry>, more: seq<Entry>)
    requires !Conflict(log + more) && Fresh(log, more)
    ensures RowsInLog(GroupOf(log + more), log + more)
    ensures RowsInLog(GroupOf(log + more), log) <==> more == []
  {
    GroupOfGroups(log + more);
    if more != [] {
      var e := more[0];
      assert e in log + more;
      assert e !in log;
    } else {
      assert log + more == log;
    }
  }

  /** A summary row of an existing scope that an update appends is in the projection of the extended log. */
  lemma AppendedRowCurrent(log: seq<Entry>, more: seq<Entry>, scopes: set<string>, e: Entry)
    requires !Conflict(log + more) && Fresh(log, more) && e in more && e.id in scopes
    ensures var m := CurrentSemantic(GroupOf(log + more), scopes); e.id in m && m[e.id] !in log
  {
    GroupOfGroups(log + more);
    var g := GroupOf(log + more);
    assert e in log + more;
    assert e.revision in g[e.id] && e.revision <= CurrentEntry(g, e.id).revision;
  }

  lemma SemanticOfAppendedLog(log: seq<Entry>, more: seq<Entry>, scopes: set<string>)
    requires !Conflict(log + more) && Fresh(log, more)
    ensures EntriesInLog(CurrentSemantic(GroupOf(log + more), scopes), log + more)
    ensures EntriesInLog(CurrentSemantic(GroupOf(log + more), scopes), log)
        <==> forall e :: e in more ==> e.id !in scopes
  {
    var m := CurrentSemantic(GroupOf(log + more), scopes);
    GroupOfGroups(log + more);
    if e :| e in more && e.id in scopes {
      AppendedRowCurrent(log, more, scopes, e);
    } else {
      forall id | id in m ensures m[id] in log {
        assert m[id] in log + more;
      }
    }
  }

  /** When discarding the cache itself raises, the cache left behind is ahead of the logs exactly for these updates. */
  lemma SurvivingCacheAheadExactly(c: Canonical, u: Changes, k: nat, metrics: seq<string>)
    requires Projectable(u.index, AllWritten(c, u)) && k < 7
    requires Fresh(c.decisions, u.decisions) && Fresh(c.constraints, u.constraints)
    requires Fresh(c.notes, u.notes) && Fresh(c.semantic, u.semantic)
    ensures NotAhead(Project(u.index, AllWritten(c, u), metrics), Written(c, u, k)) <==> !Overtakes(c, u, k)
  {
    RowsOfAppendedLog(c.decisions, u.decisions);
    RowsOfAppendedLog(c.constraints, u.constraints);
    RowsOfAppendedLog(c.notes, u.notes);
    SemanticOfAppendedLog(c.semantic, u.semantic, ScopeIds(AllWritten(c, u).scopes));
  }

  /** The smallest such update: one decision row, its write raising. The cache has the row and the log does not. */
  lemma UnwrittenDecisionAhead()
    ensures var c, row := Canonical([], [], [], [], [], []), Entry("d", 1, "");
            var u := Changes(EMPTY_INDEX, None, [], [], [row], [], [], None, None);
            && Projectable(u.index, AllWritten(c, u))
            && !NotAhead(Project(u.index, AllWritten(c, u), []), Written(c, u, 3))
  {
    var c, row := Canonical([], [], [], [], [], []), Entry("d", 1, "");
    var u := Changes(EMPTY_INDEX, None, [], [], [row], [], [], None, None);
    assert AllWritten(c, u).decisions == [row];
    SurvivingCacheAheadExactly(c, u, 3, []);
  }
}
