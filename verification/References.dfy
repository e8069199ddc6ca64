/** Name-based resolution of one file's call and inheritance references. */
module References {
  import opened Collections
  import opened CodeIndex

  const LOCAL_MATCH := 0.8
  const IMPORTED_MATCH := 0.6
  const UNRESOLVED := 0.3

  type SymbolTable = map<Path, seq<Symbol>>

  function Lookup(table: SymbolTable, p: Path): seq<Symbol> { if p in table then table[p] else [] }

  predicate Inherits(ref: RawReference) { ref.edgeType == Extends || ref.edgeType == Implements }

  predicate IsType(kind: SymbolKind) { kind == Class || kind == Interface }

  predicate IsCallable(kind: SymbolKind) { kind == Function || kind == Method }

  function Answers(ref: RawReference): Symbol -> bool {
    (s: Symbol) => s.name == ref.name && (Inherits(ref) ==> IsType(s.kind))
  }

  function Encloses(ref: RawReference): Symbol -> bool {
    (s: Symbol) => (if Inherits(ref) then IsType(s.kind) else IsCallable(s.kind))
        && s.startLine <= ref.line <= s.endLine
  }

  function Matches(table: SymbolTable, p: Path, ref: RawReference): seq<Symbol> {
    Filter(Lookup(table, p), Answers(ref))
  }

  /** The first symbol with the smallest line range. */
  function Narrowest(s: seq<Symbol>): (r: Symbol)
    requires s != []
    ensures r in s && forall x :: x in s ==> r.endLine - r.startLine <= x.endLine - x.startLine
  {
    if |s| == 1 then s[0]
    else
      var rest := Narrowest(s[1..]);
      assert s == [s[0]] + s[1..];
      if s[0].endLine - s[0].startLine <= rest.endLine - rest.startLine then s[0] else rest
  }

  function SourceSymbol(local: seq<Symbol>, ref: RawReference): Option<string> {
    var candidates := Filter(local, Encloses(ref));
    if candidates == [] then None else Some(Narrowest(candidates).id)
  }

  /** The first path of `order` that has a match. */
  function FirstImported(order: seq<Path>, table: SymbolTable, ref: RawReference): Option<Path> {
    if order == [] then None
    else if Matches(table, order[0], ref) != [] then Some(order[0])
    else FirstImported(order[1..], table, ref)
  }

  function ResolvedEdge(file: Path, ref: RawReference, table: SymbolTable, source: Option<Path>): Edge
    requires source.Some? ==> Matches(table, source.value, ref) != []
  {
    Edge(
      SourceSymbol(Lookup(table, file), ref), file,
      if source.Some? then Some(Matches(table, source.value, ref)[0].id) else None, source,
      ref.edgeType,
      if source.None? then UNRESOLVED else if source.value == file && Matches(table, file, ref) != []
        then LOCAL_MATCH else IMPORTED_MATCH)
  }

  /** Where the reference's target lives: this file first, then the least imported file that declares the name. */
  function TargetFile(file: Path, ref: RawReference, table: SymbolTable, imported: set<Path>): (r: Option<Path>)
    ensures r.Some? ==> Matches(table, r.value, ref) != []
  {
    if Matches(table, file, ref) != [] then Some(file)
    else
      FirstImportedIsLeast(Sorted(imported), table, ref);
      FirstImported(Sorted(imported), table, ref)
  }

  function Resolve(file: Path, refs: seq<RawReference>, table: SymbolTable, imported: set<Path>): (r: seq<Edge>)
    ensures |r| == |refs|
    ensures forall e :: e in r ==> e.sourceFile == file && e.edgeType != Imports
  {
    if refs == [] then []
    else
      var ref := refs[|refs| - 1];
      Resolve(file, refs[..|refs| - 1], table, imported)
          + [ResolvedEdge(file, ref, table, TargetFile(file, ref, table, imported))]
  }

  lemma {:induction false} FirstImportedIsLeast(order: seq<Path>, table: SymbolTable, ref: RawReference)
    requires Ascending(order)
    ensures var r := FirstImported(order, table, ref);
            && (r.None? <==> forall q :: q in order ==> Matches(table, q, ref) == [])
            && (r.Some? ==> r.value in order && Matches(table, r.value, ref) != []
                            && forall q :: q in order && Matches(table, q, ref) != [] ==> Leq(r.value, q))
  {
    if order != [] {
      assert order == [order[0]] + order[1..];
      LeqTotal(order[0], order[0]);
      FirstImportedIsLeast(order[1..], table, ref);
    }
  }

  /** The target found is independent of how the imported set is enumerated: a match in the file itself wins,
      otherwise the least imported path that has one, and the reference stays unresolved only if there is none. */
  lemma TargetFileCharacterized(file: Path, ref: RawReference, table: SymbolTable, imported: set<Path>)
    ensures var t := TargetFile(file, ref, table, imported);
            && (t.None?
                <==> Matches(table, file, ref) == [] && forall q :: q in imported ==> Matches(table, q, ref) == [])
            && (t.Some? && Matches(table, file, ref) != [] ==> t.value == file)
            && (t.Some? && Matches(table, file, ref) == [] ==>
                  t.value in imported && forall q :: q in imported && Matches(table, q, ref) != [] ==> Leq(t.value, q))
  {
    FirstImportedIsLeast(Sorted(imported), table, ref);
  }

  /** Only the declared symbols, and the imported files that declare some, influence the resolution. */
  lemma {:induction false} ResolveDependsOnViews(
    file: Path, refs: seq<RawReference>, a: SymbolTable, b: SymbolTable, importedA: set<Path>, importedB: set<Path>)
    requires forall q :: Lookup(a, q) == Lookup(b, q)
    requires forall q :: Lookup(a, q) != [] ==> (q in importedA <==> q in importedB)
    ensures Resolve(file, refs, a, importedA) == Resolve(file, refs, b, importedB)
  {
    if refs != [] {
      var ref := refs[|refs| - 1];
      ResolveDependsOnViews(file, refs[..|refs| - 1], a, b, importedA, importedB);
      assert forall q :: Matches(a, q, ref) == Matches(b, q, ref);
      assert forall q :: Matches(a, q, ref) != [] ==> Lookup(a, q) != [];
      TargetFileCharacterized(file, ref, a, importedA);
      TargetFileCharacterized(file, ref, b, importedB);
      var x, y := TargetFile(file, ref, a, importedA), TargetFile(file, ref, b, importedB);
      if x.Some? && y.Some? && Matches(a, file, ref) == [] {
        LeqAntisymmetric(x.value, y.value);
      }
      assert x == y;
    }
  }

  method GroupSymbolsByPath(symbols: seq<Symbol>) returns (byPath: SymbolTable)
    ensures forall p :: Lookup(byPath, p) == SymbolsAt(symbols, p)
  {
    byPath := map[];
    for i := 0 to |symbols|
      invariant forall p :: Lookup(byPath, p) == SymbolsAt(symbols[..i], p)
    {
      var s := symbols[i];
      TakeSnoc(symbols, i);
      ghost var before := byPath;
      byPath := byPath[s.file := Lookup(byPath, s.file) + [s]];
      forall p ensures Lookup(byPath, p) == SymbolsAt(symbols[..i + 1], p) {
        assert Lookup(before, p) == SymbolsAt(symbols[..i], p);
      }
    }
    TakeAll(symbols);
  }

  lemma FirstImportedStep(order: seq<Path>, j: nat, table: SymbolTable, ref: RawReference)
    requires j < |order| && Matches(table, order[j], ref) == []
    ensures FirstImported(order[j..], table, ref) == FirstImported(order[j + 1..], table, ref)
  {
    assert order[j..][1..] == order[j + 1..];
  }

  /** The search for one reference's target: this file's symbols, then each imported file in path order. */
  method FindTarget(file: Path, ref: RawReference, table: SymbolTable, imported: set<Path>)
    returns (targetSymbol: Option<string>, targetFile: Option<Path>, confidence: real)
    ensures targetFile == TargetFile(file, ref, table, imported)
    ensures targetSymbol == if targetFile.Some? then Some(Matches(table, targetFile.value, ref)[0].id) else None
    ensures confidence
        == if targetFile.None? then UNRESOLVED else if Matches(table, file, ref) != []
        then LOCAL_MATCH else IMPORTED_MATCH
  {
    var localMatches := Matches(table, file, ref);
    if localMatches != [] {
      return Some(localMatches[0].id), Some(file), LOCAL_MATCH;
    }
    var order := Sorted(imported);
    var j := 0;
    while j < |order|
      invariant 0 <= j <= |order|
      invariant FirstImported(order, table, ref) == FirstImported(order[j..], table, ref)
    {
      var candidates := Matches(table, order[j], ref);
      if candidates != [] {
        return Some(candidates[0].id), Some(order[j]), IMPORTED_MATCH;
      }
      FirstImportedStep(order, j, table, ref);
      j := j + 1;
    }
    return None, None, UNRESOLVED;
  }

  method ResolveReferences(file: Path, refs: seq<RawReference>, table: SymbolTable, imported: set<Path>)
    returns (edges: seq<Edge>)
    ensures edges == Resolve(file, refs, table, imported)
  {
    edges := [];
    for i := 0 to |refs|
      invariant edges == Resolve(file, refs[..i], table, imported)
    {
      var ref := refs[i];
      var targetSymbol, targetFile, confidence := FindTarget(file, ref, table, imported);
      var e := Edge(SourceSymbol(Lookup(table, file), ref), file, targetSymbol, targetFile, ref.edgeType, confidence);
      assert e == ResolvedEdge(file, ref, table, targetFile) by {
        FirstImportedIsLeast(Sorted(imported), table, ref);
      }
      TakeSnoc(refs, i);
      edges := edges + [e];
    }
    TakeAll(refs);
  }
}
