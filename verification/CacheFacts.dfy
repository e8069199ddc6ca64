/** What the derived cache holds, said of the canonical files and the index alone. */
module CacheFacts {
  import opened Collections
  import opened CodeIndex
  import opened Cache
  import opened Workspaces
  import S = Scopes

  /** The line is in the log, and no line of its record has a greater revision. */
  ghost predicate Newest(e: Entry, log: seq<Entry>) {
    e in log && forall d :: d in log && d.id == e.id ==> d.revision <= e.revision
  }

  ghost predicate Logged(id: string, log: seq<Entry>) { exists e :: e in log && e.id == id }

  /** The current revision of exactly the records of the log, and exactly the log's lines as rows. */
  ghost predicate FamilyShows(f: Family, log: seq<Entry>) {
    && (forall id :: id in f.current <==> Logged(id, log))
    && (forall id :: id in f.current ==> exists body :: Newest(Entry(id, f.current[id], body), log))
    && (forall id :: id in f.rows <==> Logged(id, log))
    && (forall e: Entry ::
          e in log <==> e.id in f.rows && e.revision in f.rows[e.id] && f.rows[e.id][e.revision] == e.body)
  }

  /** For exactly the records wanted that the log has, the newest line. */
  ghost predicate EntriesShow(m: map<string, Entry>, log: seq<Entry>, wanted: string -> bool) {
    && (forall id :: id in m <==> Logged(id, log) && wanted(id))
    && (forall id :: id in m ==> m[id].id == id && Newest(m[id], log))
  }

  lemma GroupIds(g: Grouped, log: seq<Entry>)
    requires Groups(g, log)
    ensures forall id :: id in g <==> Logged(id, log)
  {
    forall id | id in g ensures Logged(id, log) {
      var r :| r in g[id];
      assert Entry(id, r, g[id][r]) in log;
    }
  }

  lemma NewestOfGroup(g: Grouped, log: seq<Entry>, id: string)
    requires Groups(g, log) && id in g
    ensures Newest(Entry(id, Greatest(g[id]), g[id][Greatest(g[id])]), log)
  {
    forall d | d in log && d.id == id ensures d.revision <= Greatest(g[id]) { assert d.revision in g[id]; }
  }

  lemma FamilyOfGroup(g: Grouped, log: seq<Entry>)
    requires Groups(g, log)
    ensures FamilyShows(FamilyOf(g), log)
  {
    GroupIds(g, log);
    var f := FamilyOf(g);
    forall id | id in g ensures exists body :: Newest(Entry(id, f.current[id], body), log) {
      NewestOfGroup(g, log, id);
    }
    forall e: Entry | e.id in g && e.revision in g[e.id] && g[e.id][e.revision] == e.body ensures e in log {
      var id, r := e.id, e.revision;
      assert Entry(id, r, g[id][r]) in log;
      assert e == Entry(id, r, g[id][r]);
    }
  }

  lemma EntryOfGroup(g: Grouped, log: seq<Entry>, id: string)
    requires Groups(g, log) && id in g
    ensures CurrentEntry(g, id).id == id && Newest(CurrentEntry(g, id), log)
  {
    NewestOfGroup(g, log, id);
  }

  lemma EntriesOfGroup(g: Grouped, log: seq<Entry>)
    requires Groups(g, log)
    ensures EntriesShow(CurrentEntries(g), log, (id: string) => true)
  {
    GroupIds(g, log);
    var m := CurrentEntries(g);
    forall id | id in m ensures m[id].id == id && Newest(m[id], log) { EntryOfGroup(g, log, id); }
  }

  lemma SummariesOfGroup(g: Grouped, log: seq<Entry>, scopes: seq<Scope>)
    requires Groups(g, log)
    ensures EntriesShow(CurrentSemantic(g, ScopeIds(scopes)), log, (id: string) => ScopeIdKnown(id, scopes))
  {
    GroupIds(g, log);
    var m := CurrentSemantic(g, ScopeIds(scopes));
    assert forall id :: id in ScopeIds(scopes) <==> ScopeIdKnown(id, scopes);
    forall id | id in m ensures m[id].id == id && Newest(m[id], log) { EntryOfGroup(g, log, id); }
  }

  /** The tables a log is projected to. */
  lemma LogExactly(log: seq<Entry>, scopes: seq<Scope>)
    requires !Conflict(log)
    ensures FamilyShows(FamilyOf(GroupOf(log)), log)
    ensures EntriesShow(CurrentEntries(GroupOf(log)), log, (id: string) => true)
    ensures EntriesShow(CurrentSemantic(GroupOf(log), ScopeIds(scopes)), log, (id: string) => ScopeIdKnown(id, scopes))
  {
    var g := GroupOf(log);
    GroupOfGroups(log);
    FamilyOfGroup(g, log);
    EntriesOfGroup(g, log);
    SummariesOfGroup(g, log, scopes);
  }

  /** A target is stored exactly when the index has it. */
  ghost predicate Stores(kept: Option<string>, target: Option<string>, known: string -> bool) {
    if target.Some? && known(target.value) then kept == target else kept == None
  }

  /** The index as it is, with exactly the targets it does not have forgotten. */
  ghost predicate IndexShows(stored: Index, x: Index) {
    && stored.files == x.files && stored.symbols == x.symbols && |stored.edges| == |x.edges|
    && forall i :: 0 <= i < |x.edges| ==>
         var e, k := x.edges[i], stored.edges[i];
         && k == e.(targetFile := k.targetFile, targetSymbol := k.targetSymbol)
         && Stores(k.targetFile, e.targetFile, (p: string) => HasFile(x, p))
         && Stores(k.targetSymbol, e.targetSymbol, (id: string) => HasSymbol(x, id))
  }

  lemma IndexExactly(x: Index)
    ensures IndexShows(Materialized(x), x)
  {
  }

  /** A row per scope, and a row for exactly the members the index has. */
  ghost predicate ScopesShow(t: Tables, scopes: seq<Scope>, x: Index) {
    && |t.scopes| == |scopes|
    && (forall i :: 0 <= i < |scopes| ==>
          && t.scopes[i].id == scopes[i].id && t.scopes[i].name == scopes[i].name
          && t.scopes[i].locked == scopes[i].locked && t.scopes[i].source == scopes[i].source)
    && (forall id, p ::
          (id, p) in t.scopeFiles <==> HasFile(x, p) && exists s :: s in scopes && s.id == id && p in s.files)
    && (forall id, y ::
          (id, y) in t.scopeSymbols <==> HasSymbol(x, y) && exists s :: s in scopes && s.id == id && y in s.symbols)
  }

  lemma ScopesExactly(x: Index, c: Canonical, metrics: seq<string>)
    ensures ScopesShow(Project(x, c, metrics), c.scopes, x)
  {
    var t := Project(x, c, metrics);
    forall id, p
      ensures (id, p) in t.scopeFiles <==> HasFile(x, p) && exists s :: s in c.scopes && s.id == id && p in s.files
    {
      assert HasFile(x, p) <==> p in Paths(x.files);
    }
    forall id, y
      ensures (id, y) in t.scopeSymbols
          <==> HasSymbol(x, y) && exists s :: s in c.scopes && s.id == id && y in s.symbols
    {
      assert HasSymbol(x, y) <==> y in SymbolIds(x.symbols);
    }
  }

  ghost predicate ScopeIdKnown(id: string, scopes: seq<Scope>) { exists s :: s in scopes && s.id == id }

  /** A rebuilt cache: the index without dangling targets, the scopes with their indexed members, for each record of
      each log its newest line and all its rows, for each proposal and each summary of an existing scope the newest
      line, and the metrics. */
  lemma ProjectionExactly(x: Index, c: Canonical, metrics: seq<string>)
    requires Projectable(x, c)
    ensures var t := Project(x, c, metrics);
            && IndexShows(t.index, x) && ScopesShow(t, c.scopes, x)
            && FamilyShows(t.decisions, c.decisions) && FamilyShows(t.constraints, c.constraints)
            && FamilyShows(t.notes, c.notes)
            && EntriesShow(t.proposals, c.proposals, (id: string) => true)
            && EntriesShow(t.semantic, c.semantic, (id: string) => ScopeIdKnown(id, c.scopes))
            && t.metrics == metrics
  {
    IndexExactly(x);
    ScopesExactly(x, c, metrics);
    LogExactly(c.decisions, c.scopes);
    LogExactly(c.constraints, c.scopes);
    LogExactly(c.notes, c.scopes);
    LogExactly(c.proposals, c.scopes);
    LogExactly(c.semantic, c.scopes);
  }

  // -------------------------------------------------------------- deferred writes

  /** All of an update's writes: the scopes file replaced, every log extended, the proposals untouched. */
  lemma AllWrittenExactly(c: Canonical, u: Changes)
    ensures AllWritten(c, u) == Canonical(
      if u.scopes.Some? then u.scopes.value else c.scopes, c.decisions + u.decisions, c.constraints + u.constraints,
      c.notes + u.notes, c.proposals, c.semantic + u.semantic)
  {
  }

  /** A raising write leaves what came before it done and everything after it undone: scopes, summaries, their log,
      decisions, constraints, notes, in this order. */
  lemma WrittenInOrder(c: Canonical, u: Changes, k: nat)
    ensures var w, all := Written(c, u, k), AllWritten(c, u);
            && w.scopes == (if k >= 1 then all.scopes else c.scopes)
            && w.semantic == (if k >= 2 then all.semantic else c.semantic)
            && w.decisions == (if k >= 4 then all.decisions else c.decisions)
            && w.constraints == (if k >= 5 then all.constraints else c.constraints)
            && w.notes == (if k >= 6 then all.notes else c.notes) && w.proposals == c.proposals
    ensures k < 7 && !Writes(u, k) ==> Written(c, u, k + 1) == Written(c, u, k)
  {
  }
}
