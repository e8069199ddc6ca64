/** The derived cache: its projection from the canonical files, and the write protocol of an update. */
module Cache {
  import opened Collections
  import opened CodeIndex
  import S = Scopes

  type Scope = S.Scope

  /** A row of the `scopes` table. */
  datatype ScopeRow = ScopeRow(id: string, name: string, locked: bool, source: S.ScopeSource)

  /** One line of an append-only canonical log: a revision of a logical record. */
  datatype Entry = Entry(id: string, revision: nat, body: string)

  /** The canonical files. */
  datatype Canonical = Canonical(
    scopes: seq<Scope>, decisions: seq<Entry>, constraints: seq<Entry>, notes: seq<Entry>,
    proposals: seq<Entry>, semantic: seq<Entry>)

  type Grouped = map<string, map<nat, string>>

  /** Current revision per record, and every revision row. */
  datatype Family = Family(current: map<string, nat>, rows: Grouped)

  datatype Tables = Tables(
    index: Index, scopes: seq<ScopeRow>, scopeFiles: set<(string, Path)>, scopeSymbols: set<(string, string)>,
    decisions: Family, constraints: Family, notes: Family,
    proposals: map<string, Entry>, semantic: map<string, Entry>, metrics: seq<string>)

  // -------------------------------------------------------- grouping a log

  /** The same (id, revision) pair on two lines. */
  ghost predicate Conflict(log: seq<Entry>) {
    exists i, j :: 0 <= i < j < |log| && log[i].id == log[j].id && log[i].revision == log[j].revision
  }

  function RevisionsOf(g: Grouped, id: string): map<nat, string> { if id in g then g[id] else map[] }

  /** What a grouping of a log without conflicts has to be: its rows are exactly the log's lines. */
  ghost predicate Groups(g: Grouped, log: seq<Entry>) {
    && (forall e :: e in log ==> e.id in g && e.revision in g[e.id] && g[e.id][e.revision] == e.body)
    && (forall id, r :: id in g && r in g[id] ==> Entry(id, r, g[id][r]) in log)
    && (forall id :: id in g ==> g[id] != map[])
  }

  lemma GroupsUnique(a: Grouped, b: Grouped, log: seq<Entry>)
    requires Groups(a, log) && Groups(b, log)
    ensures a == b
  {
    forall id | id in a ensures id in b && a[id] == b[id] { SameGroup(a, b, log, id); }
    forall id | id in b ensures id in a { SameGroup(b, a, log, id); }
  }

  lemma SameGroup(a: Grouped, b: Grouped, log: seq<Entry>, id: string)
    requires Groups(a, log) && Groups(b, log) && id in a
    ensures id in b && a[id] == b[id]
  {
    var r :| r in a[id];
    assert Entry(id, r, a[id][r]) in log;
    forall q | q in a[id] ensures q in b[id] && b[id][q] == a[id][q] { assert Entry(id, q, a[id][q]) in log; }
    forall q | q in b[id] ensures q in a[id] { assert Entry(id, q, b[id][q]) in log; }
  }

  ghost function GroupOf(log: seq<Entry>): Grouped {
    map id | id in (set e | e in log :: e.id) :: RowsFor(log, id)
  }

  ghost function RowsFor(log: seq<Entry>, id: string): map<nat, string> {
    map r | r in (set e | e in log && e.id == id :: e.revision) :: BodyOf(log, id, r)
  }

  ghost function BodyOf(log: seq<Entry>, id: string, r: nat): string
    requires exists e :: e in log && e.id == id && e.revision == r
  {
    var e :| e in log && e.id == id && e.revision == r; e.body
  }

  lemma GroupOfGroups(log: seq<Entry>)
    requires !Conflict(log)
    ensures Groups(GroupOf(log), log)
  {
    var g := GroupOf(log);
    forall e | e in log ensures e.id in g && e.revision in g[e.id] && g[e.id][e.revision] == e.body {
      var d :| d in log && d.id == e.id && d.revision == e.revision && d.body == BodyOf(log, e.id, e.revision);
      var i :| 0 <= i < |log| && log[i] == e;
      var j :| 0 <= j < |log| && log[j] == d;
      assert i == j;
    }
    forall id, r | id in g && r in g[id] ensures Entry(id, r, g[id][r]) in log {
      var d :| d in log && d.id == id && d.revision == r && d.body == BodyOf(log, id, r);
      assert d == Entry(id, r, g[id][r]);
    }
    forall id | id in g ensures g[id] != map[] {
      var e :| e in log && e.id == id;
      assert e.revision in g[id];
    }
  }

  function Greatest(m: map<nat, string>): (r: nat)
    requires m != map[]
    ensures r in m && forall q :: q in m ==> q <= r
  {
    GreatestExists(m.Keys);
    assert m.Keys != {} && (forall r: nat :: IsGreatest(r, m.Keys) ==> r in m && forall q :: q in m ==> q <= r);
    var r :| r in m && forall q :: q in m ==> q <= r;
    r
  }

  ghost predicate IsGreatest(r: nat, s: set<nat>) { r in s && forall q :: q in s ==> q <= r }

  lemma GreaterOf(s: set<nat>, x: nat, r: nat)
    requires IsGreatest(r, s)
    ensures IsGreatest(if x <= r then r else x, s + {x})
  {
  }

  lemma {:induction false} GreatestExists(s: set<nat>)
    ensures s != {} ==> exists r :: IsGreatest(r, s)
    decreases |s|
  {
    if s != {} {
      var x :| x in s;
      var rest := s - {x};
      assert s == rest + {x};
      GreatestExists(rest);
      if rest == {} {
        assert IsGreatest(x, s);
      } else {
        var r :| IsGreatest(r, rest);
        GreaterOf(rest, x, r);
      }
    }
  }

  function FamilyOf(g: Grouped): Family {
    Family(map id | id in g && g[id] != map[] :: Greatest(g[id]), g)
  }

  function CurrentEntry(g: Grouped, id: string): Entry
    requires id in g && g[id] != map[]
  {
    var r := Greatest(g[id]); Entry(id, r, g[id][r])
  }

  function CurrentEntries(g: Grouped): map<string, Entry> {
    map id | id in g && g[id] != map[] :: CurrentEntry(g, id)
  }

  /** Groups a log by record and revision; None when two lines carry the same pair. */
  method GroupCurrentById(log: seq<Entry>) returns (r: Option<Grouped>)
    ensures r.None? <==> Conflict(log)
    ensures r.Some? ==> r.value == GroupOf(log) && Groups(r.value, log)
  {
    var g: Grouped := map[];
    for i := 0 to |log|
      invariant !Conflict(log[..i]) && Groups(g, log[..i])
    {
      var e := log[i];
      if e.revision in RevisionsOf(g, e.id) {
        assert Entry(e.id, e.revision, g[e.id][e.revision]) in log[..i];
        var j :| 0 <= j < i && log[j] == Entry(e.id, e.revision, g[e.id][e.revision]);
        return None;
      }
      TakeSnoc(log, i);
      GroupsSnoc(g, log[..i], e);
      g := g[e.id := RevisionsOf(g, e.id)[e.revision := e.body]];
    }
    TakeAll(log);
    GroupOfGroups(log);
    GroupsUnique(g, GroupOf(log), log);
    return Some(g);
  }

  lemma NoConflictSnoc(log: seq<Entry>, e: Entry)
    requires !Conflict(log) && forall d :: d in log ==> d.id != e.id || d.revision != e.revision
    ensures !Conflict(log + [e])
  {
    var more := log + [e];
    forall i, j | 0 <= i < j < |more| ensures more[i].id != more[j].id || more[i].revision != more[j].revision {
      if j == |log| { assert log[i] in log; }
    }
  }

  lemma GroupsSnoc(g: Grouped, log: seq<Entry>, e: Entry)
    requires !Conflict(log) && Groups(g, log) && e.revision !in RevisionsOf(g, e.id)
    ensures !Conflict(log + [e])
    ensures Groups(g[e.id := RevisionsOf(g, e.id)[e.revision := e.body]], log + [e])
  {
    forall d | d in log ensures d.id != e.id || d.revision != e.revision {}
    NoConflictSnoc(log, e);
    LinesGrouped(g, log, e);
    GroupedLines(g, log, e);
  }

  lemma LinesGrouped(g: Grouped, log: seq<Entry>, e: Entry)
    requires (forall d :: d in log ==> d.id in g && d.revision in g[d.id] && g[d.id][d.revision] == d.body)
    requires e.revision !in RevisionsOf(g, e.id)
    ensures var h := g[e.id := RevisionsOf(g, e.id)[e.revision := e.body]];
            forall d :: d in log + [e] ==> d.id in h && d.revision in h[d.id] && h[d.id][d.revision] == d.body
  {
  }

  lemma GroupedLines(g: Grouped, log: seq<Entry>, e: Entry)
    requires Groups(g, log)
    ensures var h := g[e.id := RevisionsOf(g, e.id)[e.revision := e.body]];
            && (forall id, r :: id in h && r in h[id] ==> Entry(id, r, h[id][r]) in log + [e])
            && (forall id :: id in h ==> h[id] != map[])
  {
    var h := g[e.id := RevisionsOf(g, e.id)[e.revision := e.body]];
    assert e.revision in h[e.id];
    forall id, r | id in h && r in h[id] ensures Entry(id, r, h[id][r]) in log + [e] {
      if id != e.id || r != e.revision { assert Entry(id, r, g[id][r]) in log; }
    }
  }

  // ------------------------------------------------------------ projection

  /** No rebuild step raises on these inputs. */
  ghost predicate Projectable(index: Index, c: Canonical) {
    && Insertable(index) && S.UniqueIds(c.scopes)
    && !Conflict(c.decisions) && !Conflict(c.constraints) && !Conflict(c.notes)
    && !Conflict(c.proposals) && !Conflict(c.semantic)
  }

  function ScopeIds(scopes: seq<Scope>): set<string> { set s | s in scopes :: s.id }

  function ScopeFileRows(scopes: seq<Scope>, known: set<Path>): set<(string, Path)> {
    set s, f | s in scopes && f in s.files && f in known :: (s.id, f)
  }

  function ScopeSymbolRows(scopes: seq<Scope>, known: set<string>): set<(string, string)> {
    set s, y | s in scopes && y in s.symbols && y in known :: (s.id, y)
  }

  function RowOfScope(s: Scope): ScopeRow { ScopeRow(s.id, s.name, s.locked, s.source) }

  function ScopeRows(scopes: seq<Scope>): seq<ScopeRow> {
    seq(|scopes|, i requires 0 <= i < |scopes| => RowOfScope(scopes[i]))
  }

  /** The cache content determined by the canonical files and a code index. */
  ghost function Project(index: Index, c: Canonical, metrics: seq<string>): Tables {
    Tables(
      Materialized(index), ScopeRows(c.scopes),
      ScopeFileRows(c.scopes, Paths(index.files)), ScopeSymbolRows(c.scopes, SymbolIds(index.symbols)),
      FamilyOf(GroupOf(c.decisions)), FamilyOf(GroupOf(c.constraints)), FamilyOf(GroupOf(c.notes)),
      CurrentEntries(GroupOf(c.proposals)), CurrentSemantic(GroupOf(c.semantic), ScopeIds(c.scopes)), metrics)
  }

  /** A summary whose scope is gone has no row. */
  function CurrentSemantic(g: Grouped, scopes: set<string>): map<string, Entry> {
    map id | id in g && g[id] != map[] && id in scopes :: CurrentEntry(g, id)
  }

  /** Rebuilding from the index read back out of a projection gives the projection again. */
  lemma ReadBackIsIdentity(index: Index, c: Canonical, metrics: seq<string>)
    ensures Project(Project(index, c, metrics).index, c, metrics) == Project(index, c, metrics)
    ensures Projectable(index, c) ==> Projectable(Project(index, c, metrics).index, c)
  {
    MaterializeIdempotent(index);
  }

  // -------------------------------------------------- never ahead of canonical

  ghost predicate RowsInLog(rows: Grouped, log: seq<Entry>) {
    forall id, r :: id in rows && r in rows[id] ==> Entry(id, r, rows[id][r]) in log
  }

  ghost predicate EntriesInLog(m: map<string, Entry>, log: seq<Entry>) {
    forall id :: id in m ==> m[id] in log
  }

  /** No decision, constraint, note or semantic revision in the cache is missing from its log. */
  ghost predicate NotAhead(t: Tables, c: Canonical) {
    && RowsInLog(t.decisions.rows, c.decisions)
    && RowsInLog(t.constraints.rows, c.constraints)
    && RowsInLog(t.notes.rows, c.notes)
    && EntriesInLog(t.semantic, c.semantic)
  }

  lemma ProjectionNotAhead(index: Index, c: Canonical, metrics: seq<string>)
    requires Projectable(index, c)
    ensures NotAhead(Project(index, c, metrics), c)
  {
    GroupOfGroups(c.decisions);
    GroupOfGroups(c.constraints);
    GroupOfGroups(c.notes);
    GroupOfGroups(c.semantic);
  }

  lemma GrowingLogsKeepNotAhead(t: Tables, c: Canonical, d: Canonical)
    requires NotAhead(t, c)
    requires c.decisions <= d.decisions && c.constraints <= d.constraints && c.notes <= d.notes
        && c.semantic <= d.semantic
    ensures NotAhead(t, d)
  {
    forall id, r | id in t.decisions.rows && r in t.decisions.rows[id]
        ensures Entry(id, r, t.decisions.rows[id][r]) in d.decisions {
      assert Entry(id, r, t.decisions.rows[id][r]) in c.decisions;
    }
    forall id, r | id in t.constraints.rows && r in t.constraints.rows[id]
        ensures Entry(id, r, t.constraints.rows[id][r]) in d.constraints {
      assert Entry(id, r, t.constraints.rows[id][r]) in c.constraints;
    }
    forall id, r | id in t.notes.rows && r in t.notes.rows[id] ensures Entry(id, r, t.notes.rows[id][r]) in d.notes {
      assert Entry(id, r, t.notes.rows[id][r]) in c.notes;
    }
    forall id | id in t.semantic ensures t.semantic[id] in d.semantic {
      assert t.semantic[id] in c.semantic;
    }
  }
}
