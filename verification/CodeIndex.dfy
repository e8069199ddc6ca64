/** The derived code index: files, symbols and edges, and their per-file views. */
module CodeIndex {
  import opened Collections

  type Path = string

  /** A file's bytes. Content hashing is ideal here, so the content is its own hash. */
  type Content = string

  datatype FileStatus = Ok | ParseError | ScanError

  datatype SymbolKind =
    Function | Class | Method | Interface | TypeAlias | Variable | Constant | Component

  datatype EdgeType = Imports | References | Calls | Extends | Implements

  /** The edge types a parser adapter may put on a raw reference. */
  type ReferenceType = t: EdgeType | t in {Calls, Extends, Implements} witness Calls

  datatype IndexedFile = IndexedFile(path: Path, content: Content, status: FileStatus)

  datatype Symbol = Symbol(id: string, file: Path, name: string, kind: SymbolKind, startLine: int, endLine: int)

  datatype Edge = Edge(
    sourceSymbol: Option<string>, sourceFile: Path,
    targetSymbol: Option<string>, targetFile: Option<Path>,
    edgeType: EdgeType, confidence: real)

  datatype RawReference = RawReference(name: string, edgeType: ReferenceType, line: int)

  /** The three tables, rows in insertion order. */
  datatype Index = Index(files: seq<IndexedFile>, symbols: seq<Symbol>, edges: seq<Edge>)

  const EMPTY_INDEX := Index([], [], [])

  function InFile(p: Path): Symbol -> bool { (s: Symbol) => s.file == p }

  function FromFile(p: Path): Edge -> bool { (e: Edge) => e.sourceFile == p }

  function IsImport(): Edge -> bool { (e: Edge) => e.edgeType == Imports }

  function SymbolsAt(symbols: seq<Symbol>, p: Path): seq<Symbol> { Filter(symbols, InFile(p)) }

  function EdgesFrom(edges: seq<Edge>, p: Path): seq<Edge> { Filter(edges, FromFile(p)) }

  function RecordAt(files: seq<IndexedFile>, p: Path): (r: Option<IndexedFile>)
    ensures r.Some? ==> r.value in files && r.value.path == p
    ensures r.None? ==> forall f :: f in files ==> f.path != p
  {
    if files == [] then None
    else if files[|files| - 1].path == p then Some(files[|files| - 1])
    else RecordAt(files[..|files| - 1], p)
  }

  /** The primary key of the `files` table. */
  ghost predicate DistinctRecords(files: seq<IndexedFile>) {
    forall i, j :: 0 <= i < j < |files| ==> files[i].path != files[j].path
  }

  /** The primary key of the `symbols` table. */
  ghost predicate DistinctSymbols(symbols: seq<Symbol>) {
    forall i, j :: 0 <= i < j < |symbols| ==> symbols[i].id != symbols[j].id
  }

  lemma RecordOf(files: seq<IndexedFile>, r: IndexedFile)
    requires DistinctRecords(files) && r in files
    ensures RecordAt(files, r.path) == Some(r)
  {
    var q := RecordAt(files, r.path);
    var i :| 0 <= i < |files| && files[i] == r;
    var j :| 0 <= j < |files| && files[j] == q.value;
  }

  function Paths(files: seq<IndexedFile>): set<Path> { set f | f in files :: f.path }

  function SymbolIds(symbols: seq<Symbol>): set<string> { set s | s in symbols :: s.id }

  ghost predicate HasFile(x: Index, p: Path) { exists r :: r in x.files && r.path == p }

  ghost predicate HasSymbol(x: Index, id: string) { exists s :: s in x.symbols && s.id == id }

  /** An edge list is determined, up to order, by what each source file contributes. */
  lemma EdgesBySource(a: seq<Edge>, b: seq<Edge>)
    requires forall p :: multiset(EdgesFrom(a, p)) == multiset(EdgesFrom(b, p))
    ensures multiset(a) == multiset(b)
  {
    forall e ensures multiset(a)[e] == multiset(b)[e] {
      assert multiset(EdgesFrom(a, e.sourceFile)) == multiset(EdgesFrom(b, e.sourceFile));
      FilterCount(a, FromFile(e.sourceFile), e);
      FilterCount(b, FromFile(e.sourceFile), e);
    }
  }

  /** Filtering respects equality up to order. */
  lemma FilterPermutation<T>(a: seq<T>, b: seq<T>, keep: T -> bool)
    requires multiset(a) == multiset(b)
    ensures multiset(Filter(a, keep)) == multiset(Filter(b, keep))
  {
    var x, y := multiset(Filter(a, keep)), multiset(Filter(b, keep));
    assert x <= y by {
      forall e | e in x ensures x[e] <= y[e] { FilterCount(a, keep, e); FilterCount(b, keep, e); }
    }
    assert y <= x by {
      forall e | e in y ensures y[e] <= x[e] { FilterCount(a, keep, e); FilterCount(b, keep, e); }
    }
  }

  // ------------------------------------------------- writing and reading back

  function Keep<T(==)>(target: Option<T>, known: set<T>): Option<T> {
    if target.Some? && target.value in known then target else None
  }

  /** A target this run no longer knows is stored as unresolved. */
  function NullDangling(e: Edge, files: set<Path>, ids: set<string>): Edge {
    e.(targetFile := Keep(e.targetFile, files), targetSymbol := Keep(e.targetSymbol, ids))
  }

  function NullAll(edges: seq<Edge>, files: set<Path>, ids: set<string>): (r: seq<Edge>)
    ensures |r| == |edges|
    ensures forall i :: 0 <= i < |r| ==> r[i] == NullDangling(edges[i], files, ids)
  {
    if edges == [] then []
      else NullAll(edges[..|edges| - 1], files, ids) + [NullDangling(edges[|edges| - 1], files, ids)]
  }

  lemma {:induction false} NullAllAppend(a: seq<Edge>, b: seq<Edge>, files: set<Path>, ids: set<string>)
    ensures NullAll(a + b, files, ids) == NullAll(a, files, ids) + NullAll(b, files, ids)
  {
  }

  lemma {:induction false} NullAllView(edges: seq<Edge>, files: set<Path>, ids: set<string>, p: Path)
    ensures EdgesFrom(NullAll(edges, files, ids), p) == NullAll(EdgesFrom(edges, p), files, ids)
  {
    if edges != [] {
      var n := |edges| - 1;
      NullAllView(edges[..n], files, ids, p);
      var all := NullAll(edges, files, ids);
      assert all[..|all| - 1] == NullAll(edges[..n], files, ids);
      assert EdgesFrom(edges, p) == EdgesFrom(edges[..n], p) + (if edges[n].sourceFile == p then [edges[n]] else []);
      NullAllAppend(EdgesFrom(edges[..n], p), [edges[n]], files, ids);
    }
  }

  /** What the primary and foreign keys of the three tables demand of an index. */
  ghost predicate Insertable(x: Index) {
    && DistinctRecords(x.files)
    && DistinctSymbols(x.symbols)
    && (forall s :: s in x.symbols ==> s.file in Paths(x.files))
    && (forall e :: e in x.edges ==>
          e.sourceFile in Paths(x.files) && (e.sourceSymbol.Some? ==> e.sourceSymbol.value in SymbolIds(x.symbols)))
  }

  function Materialized(x: Index): Index {
    x.(edges := NullAll(x.edges, Paths(x.files), SymbolIds(x.symbols)))
  }

  /** Reading the stored index back and storing it again changes nothing. */
  lemma MaterializeIdempotent(x: Index)
    ensures Materialized(Materialized(x)) == Materialized(x)
    ensures Insertable(x) ==> Insertable(Materialized(x))
  {
    var once := Materialized(x);
    assert Materialized(once).edges == once.edges;
    if Insertable(x) {
      forall e | e in once.edges
        ensures e.sourceFile in Paths(x.files) && (e.sourceSymbol.Some? ==>
            e.sourceSymbol.value in SymbolIds(x.symbols))
      {
        var i :| 0 <= i < |once.edges| && once.edges[i] == e;
        assert x.edges[i] in x.edges;
      }
    }
  }
}
