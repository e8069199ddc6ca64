/** The incremental indexing run: what it computes from the previous index and a scan of the tree. */
module Update {
  import opened Collections
  import opened CodeIndex
  import opened References

  datatype Declaration = Declaration(id: string, name: string, kind: SymbolKind, startLine: int, endLine: int)

  /** Parsing is a function of path and content; a stage that raises yields None.
      `imports` lists, per import statement, the paths its resolution probes on disk, in probing order. */
  datatype Parser = Parser(
    declarations: (Path, Content) -> Option<seq<Declaration>>,
    imports: (Path, Content) -> Option<seq<seq<Path>>>,
    references: (Path, Content) -> Option<seq<RawReference>>,
    syntaxError: (Path, Content) -> Option<bool>)

  datatype ScannedFile = ScannedFile(path: Path, content: Content)

  /** One scan: the files read, the paths that could not be read, and every path that is a file on disk. */
  datatype Scan = Scan(files: seq<ScannedFile>, unreadable: set<Path>, onDisk: set<Path>) {
    ghost predicate Valid() {
      && (forall i, j :: 0 <= i < j < |files| ==> files[i].path != files[j].path)
      && (forall f :: f in files ==> f.path !in unreadable)
    }

    function Paths(): set<Path> { set f | f in files :: f.path }
  }

  // ---------------------------------------------------------------- one file

  function FirstExisting(candidates: seq<Path>, onDisk: set<Path>): Option<Path> {
    if candidates == [] then None
    else if candidates[0] in onDisk then Some(candidates[0])
    else FirstExisting(candidates[1..], onDisk)
  }

  function ImportRow(p: Path, target: Option<Path>): Edge { Edge(None, p, None, target, Imports, 1.0) }

  function ImportRows(p: Path, targets: seq<Option<Path>>): seq<Edge> {
    seq(|targets|, i requires 0 <= i < |targets| => ImportRow(p, targets[i]))
  }

  function TargetsOf(rows: seq<Edge>): seq<Option<Path>> {
    seq(|rows|, i requires 0 <= i < |rows| => rows[i].targetFile)
  }

  function KeepAll(targets: seq<Option<Path>>, known: set<Path>): seq<Option<Path>> {
    seq(|targets|, i requires 0 <= i < |targets| => Keep(targets[i], known))
  }

  predicate Parses(parser: Parser, p: Path, c: Content) {
    parser.declarations(p, c).Some? && parser.imports(p, c).Some? && parser.references(p, c).Some?
        && parser.syntaxError(p, c).Some?
  }

  /** A file's facts when it is parsed afresh; any raising stage leaves none of them. */
  function Declared(parser: Parser, p: Path, c: Content): (r: seq<Symbol>)
    ensures forall s :: s in r ==> s.file == p
  {
    if Parses(parser, p, c) then
      var d := parser.declarations(p, c).value;
      seq(|d|, i requires 0 <= i < |d| => Symbol(d[i].id, p, d[i].name, d[i].kind, d[i].startLine, d[i].endLine))
    else []
  }

  function Candidates(parser: Parser, p: Path, c: Content): seq<seq<Path>> {
    if Parses(parser, p, c) then parser.imports(p, c).value else []
  }

  function Targets(parser: Parser, p: Path, c: Content, onDisk: set<Path>): seq<Option<Path>> {
    var cs := Candidates(parser, p, c);
    seq(|cs|, i requires 0 <= i < |cs| => FirstExisting(cs[i], onDisk))
  }

  function ParsedReferences(parser: Parser, p: Path, c: Content): seq<RawReference> {
    if Parses(parser, p, c) then parser.references(p, c).value else []
  }

  function StatusOf(parser: Parser, p: Path, c: Content): FileStatus {
    if Parses(parser, p, c) && !parser.syntaxError(p, c).value then FileStatus.Ok else ParseError
  }

  /** The reference-only extraction used for unchanged files: it fails on its own, not with the whole file. */
  function ReferencesOnly(parser: Parser, p: Path, c: Content): seq<RawReference> {
    if parser.references(p, c).Some? then parser.references(p, c).value else []
  }

  /** What one file puts into the index before references are resolved. */
  datatype Contribution = Contribution(
    record: IndexedFile, symbols: seq<Symbol>, edges: seq<Edge>, pending: Option<seq<RawReference>>)
  {
    ghost predicate Owned() {
      && (forall s :: s in symbols ==> s.file == record.path)
      && (forall e :: e in edges ==> e.sourceFile == record.path)
    }
  }

  function Parsed(parser: Parser, f: ScannedFile, onDisk: set<Path>): Contribution {
    Contribution(
      IndexedFile(f.path, f.content, StatusOf(parser, f.path, f.content)),
      Declared(parser, f.path, f.content),
      ImportRows(f.path, Targets(parser, f.path, f.content, onDisk)),
      Some(ParsedReferences(parser, f.path, f.content)))
  }

  function StoredImports(x: Index, p: Path): seq<Edge> { Filter(EdgesFrom(x.edges, p), IsImport()) }

  function Carried(parser: Parser, previous: Index, f: ScannedFile, status: FileStatus): Contribution {
    Contribution(
      IndexedFile(f.path, f.content, status), SymbolsAt(previous.symbols, f.path), StoredImports(previous, f.path),
      Some(ReferencesOnly(parser, f.path, f.content)))
  }

  /** An unreadable file keeps every last-known fact and is marked. */
  function Retained(before: Index, r: IndexedFile): Contribution {
    Contribution(r.(status := ScanError), SymbolsAt(before.symbols, r.path), EdgesFrom(before.edges, r.path), None)
  }

  predicate Unchanged(previous: Index, f: ScannedFile) {
    var r := RecordAt(previous.files, f.path);
    r.Some? && r.value.content == f.content
  }

  /** Same content as before and last read without a scan error: its symbols and import rows are reused. */
  predicate Reused(previous: Index, f: ScannedFile) {
    Unchanged(previous, f) && RecordAt(previous.files, f.path).value.status != ScanError
  }

  function ContributionOf(parser: Parser, previous: Index, f: ScannedFile, onDisk: set<Path>): Contribution {
    if Reused(previous, f) then Carried(parser, previous, f, RecordAt(previous.files, f.path).value.status)
    else Parsed(parser, f, onDisk)
  }

  // ----------------------------------------------------------------- the run

  function IsUnchanged(previous: Index): ScannedFile -> bool { (f: ScannedFile) => Unchanged(previous, f) }

  function IsAdded(previous: Index): ScannedFile -> bool { (f: ScannedFile) => RecordAt(previous.files, f.path).None? }

  function IsModified(previous: Index): ScannedFile -> bool {
    (f: ScannedFile) => RecordAt(previous.files, f.path).Some? && !Unchanged(previous, f)
  }

  /** Unchanged files first, then added, then modified, each in scan order. */
  function Order(previous: Index, files: seq<ScannedFile>): seq<ScannedFile> {
    Filter(files, IsUnchanged(previous)) + (Filter(files, IsAdded(previous)) + Filter(files, IsModified(previous)))
  }

  function ScannedContributions(parser: Parser, previous: Index, files: seq<ScannedFile>,
      onDisk: set<Path>): seq<Contribution> {
    seq(|files|, i requires 0 <= i < |files| => ContributionOf(parser, previous, files[i], onDisk))
  }

  function RetainedContributions(before: Index, paths: seq<Path>): seq<Contribution>
    requires forall p :: p in paths ==> RecordAt(before.files, p).Some?
  {
    seq(|paths|, i requires 0 <= i < |paths| => Retained(before, RecordAt(before.files, paths[i]).value))
  }

  function RetainedPaths(before: Index, scan: Scan): (r: seq<Path>)
    ensures forall p :: p in r ==> RecordAt(before.files, p).Some?
    ensures Distinct(r) && forall p :: p in r <==> p in scan.unreadable && p in Paths(before.files)
  {
    Sorted(scan.unreadable * Paths(before.files))
  }

  function Contributions(parser: Parser, before: Index, scan: Scan, full: bool): seq<Contribution> {
    var previous := if full then EMPTY_INDEX else before;
    ScannedContributions(parser, previous, Order(previous, scan.files), scan.onDisk)
      + RetainedContributions(before, RetainedPaths(before, scan))
  }

  function RecordOfContribution(c: Contribution): seq<IndexedFile> { [c.record] }
  function SymbolsOfContribution(c: Contribution): seq<Symbol> { c.symbols }
  function EdgesOfContribution(c: Contribution): seq<Edge> { c.edges }

  function TableOf(symbols: seq<Symbol>): SymbolTable {
    map p | p in (set s | s in symbols :: s.file) :: SymbolsAt(symbols, p)
  }

  lemma TableOfIsGrouping(symbols: seq<Symbol>)
    ensures forall p :: Lookup(TableOf(symbols), p) == SymbolsAt(symbols, p)
  {
    forall p | p !in TableOf(symbols) ensures SymbolsAt(symbols, p) == [] { FilterNothing(symbols, InFile(p)); }
  }

  function Imported(edges: seq<Edge>, p: Path): set<Path> {
    set e | e in edges && e.sourceFile == p && e.edgeType == Imports && e.targetFile.Some? :: e.targetFile.value
  }

  function PendingEdges(symbols: seq<Symbol>, base: seq<Edge>): Contribution -> seq<Edge> {
    (c: Contribution) =>
      if c.pending.None? then []
      else Resolve(c.record.path, c.pending.value, TableOf(symbols), Imported(base, c.record.path))
  }

  function Assemble(cs: seq<Contribution>): Index {
    var symbols := Flat(cs, SymbolsOfContribution);
    var base := Flat(cs, EdgesOfContribution);
    Index(Flat(cs, RecordOfContribution), symbols, base + Flat(cs, PendingEdges(symbols, base)))
  }

  /** The index a run computes, before dangling targets are nulled by the write. */
  function RunResult(parser: Parser, before: Index, scan: Scan, full: bool): Index {
    Assemble(Contributions(parser, before, scan, full))
  }

  // ------------------------------------------------------- the imperative run

  method DiffAgainstPrevious(current: seq<ScannedFile>, previous: Index)
    returns (added: seq<ScannedFile>, modified: seq<ScannedFile>, same: seq<ScannedFile>, deleted: set<Path>)
    ensures added == Filter(current, IsAdded(previous))
    ensures modified == Filter(current, IsModified(previous))
    ensures same == Filter(current, IsUnchanged(previous))
    ensures forall p :: p in deleted <==> p in Paths(previous.files) && forall f :: f in current ==> f.path != p
  {
    added, modified, same := [], [], [];
    var currentPaths := {};
    for i := 0 to |current|
      invariant added == Filter(current[..i], IsAdded(previous))
      invariant modified == Filter(current[..i], IsModified(previous))
      invariant same == Filter(current[..i], IsUnchanged(previous))
      invariant currentPaths == set f | f in current[..i] :: f.path
    {
      var scanned := current[i];
      TakeSnoc(current, i);
      currentPaths := currentPaths + {scanned.path};
      var previousHash := RecordAt(previous.files, scanned.path);
      if previousHash.None? {
        added := added + [scanned];
      } else if previousHash.value.content != scanned.content {
        modified := modified + [scanned];
      } else {
        same := same + [scanned];
      }
    }
    TakeAll(current);
    deleted := set f | f in previous.files && f.path !in currentPaths :: f.path;
  }

  lemma FlatSnoc<B>(cs: seq<Contribution>, c: Contribution, f: Contribution -> seq<B>)
    ensures Flat(cs + [c], f) == Flat(cs, f) + f(c)
  {
    assert (cs + [c])[..|cs|] == cs;
  }

  lemma ImportedIgnoresResolved(base: seq<Edge>, extra: seq<Edge>, p: Path)
    requires forall e :: e in extra ==> e.edgeType != Imports
    ensures Imported(base + extra, p) == Imported(base, p)
  {
  }

  lemma ScannedSnoc(parser: Parser, previous: Index, files: seq<ScannedFile>, f: ScannedFile, onDisk: set<Path>)
    ensures ScannedContributions(parser, previous, files + [f], onDisk)
         == ScannedContributions(parser, previous, files, onDisk) + [ContributionOf(parser, previous, f, onDisk)]
  {
  }

  lemma RetainedSnoc(before: Index, paths: seq<Path>, p: Path)
    requires forall q :: q in paths + [p] ==> RecordAt(before.files, q).Some?
    ensures forall q :: q in paths ==> q in paths + [p]
    ensures p in paths + [p]
    ensures RetainedContributions(before, paths + [p])
         == RetainedContributions(before, paths) + [Retained(before, RecordAt(before.files, p).value)]
  {
    assert (paths + [p])[|paths|] == p;
  }

  /** The tables under construction. */
  datatype Draft = Draft(
    files: seq<IndexedFile>, symbols: seq<Symbol>, edges: seq<Edge>, pending: seq<(Path, seq<RawReference>)>)

  function Extend(d: Draft, c: Contribution): Draft {
    Draft(d.files + [c.record], d.symbols + c.symbols, d.edges + c.edges,
      d.pending + if c.pending.None? then [] else [(c.record.path, c.pending.value)])
  }

  /** What a run has collected after the given contributions. */
  function DraftOf(cs: seq<Contribution>): Draft {
    if cs == [] then Draft([], [], [], []) else Extend(DraftOf(cs[..|cs| - 1]), cs[|cs| - 1])
  }

  lemma DraftSnoc(cs: seq<Contribution>, c: Contribution)
    ensures DraftOf(cs + [c]) == Extend(DraftOf(cs), c)
  {
    assert (cs + [c])[..|cs|] == cs;
  }

  /** One scanned file, reused or parsed. */
  method CollectFile(parser: Parser, previous: Index, f: ScannedFile, onDisk: set<Path>, start: Draft, isSame: bool)
      returns (d: Draft)
    requires isSame <==> Unchanged(previous, f)
    ensures d == Extend(start, ContributionOf(parser, previous, f, onDisk))
  {
    var record := RecordAt(previous.files, f.path);
    if isSame && record.value.status != ScanError {
      return Draft(
        start.files + [IndexedFile(f.path, f.content, record.value.status)],
        start.symbols + SymbolsAt(previous.symbols, f.path),
        start.edges + StoredImports(previous, f.path),
        start.pending + [(f.path, ReferencesOnly(parser, f.path, f.content))]);
    }
    var parsed := Parsed(parser, f, onDisk);
    return Draft(
      start.files + [parsed.record], start.symbols + parsed.symbols, start.edges + parsed.edges,
      start.pending + [(f.path, parsed.pending.value)]);
  }

  method CollectScanned(parser: Parser, previous: Index, scan: Scan) returns (d: Draft)
    ensures d == DraftOf(ScannedContributions(parser, previous, Order(previous, scan.files), scan.onDisk))
  {
    var added, modified, same, _ := DiffAgainstPrevious(scan.files, previous);
    var order := same + (added + modified);
    d := Draft([], [], [], []);
    for i := 0 to |order|
      invariant d == DraftOf(ScannedContributions(parser, previous, order[..i], scan.onDisk))
    {
      ScannedStep(parser, previous, order, i, scan.onDisk);
      OrderSplit(previous, scan.files, i);
      d := CollectFile(parser, previous, order[i], scan.onDisk, d, i < |same|);
    }
    TakeAll(order);
  }

  /** The unchanged files come first. */
  lemma OrderSplit(previous: Index, files: seq<ScannedFile>, i: nat)
    requires i < |Order(previous, files)|
    ensures i < |Filter(files, IsUnchanged(previous))| <==> Unchanged(previous, Order(previous, files)[i])
  {
    var same, added, modified := Filter(files, IsUnchanged(previous)), Filter(files, IsAdded(previous)),
        Filter(files, IsModified(previous));
    var f := Order(previous, files)[i];
    if i < |same| {
      assert f in same;
    } else {
      assert f in added + modified;
      assert f in added || f in modified;
    }
  }

  lemma ScannedStep(parser: Parser, previous: Index, order: seq<ScannedFile>, i: nat, onDisk: set<Path>)
    requires i < |order|
    ensures DraftOf(ScannedContributions(parser, previous, order[..i + 1], onDisk))
         == Extend(DraftOf(ScannedContributions(parser, previous, order[..i], onDisk)),
           ContributionOf(parser, previous, order[i], onDisk))
  {
    TakeSnoc(order, i);
    ScannedSnoc(parser, previous, order[..i], order[i], onDisk);
    DraftSnoc(ScannedContributions(parser, previous, order[..i], onDisk),
        ContributionOf(parser, previous, order[i], onDisk));
  }

  /** What a run has collected once the retained files of these paths are added. */
  function WithRetained(start: Draft, before: Index, paths: seq<Path>): Draft {
    if paths == [] then start
    else
      var front, r := WithRetained(start, before, paths[..|paths| - 1]), RecordAt(before.files, paths[|paths| - 1]);
      if r.None? then front else Extend(front, Retained(before, r.value))
  }

  lemma {:induction false} WithRetainedIs(scanned: seq<Contribution>, before: Index, paths: seq<Path>)
    requires forall p :: p in paths ==> RecordAt(before.files, p).Some?
    ensures WithRetained(DraftOf(scanned), before, paths) == DraftOf(scanned + RetainedContributions(before, paths))
  {
    if paths == [] {
      assert scanned + RetainedContributions(before, paths) == scanned;
    } else {
      var front, p := paths[..|paths| - 1], paths[|paths| - 1];
      assert paths == front + [p];
      WithRetainedIs(scanned, before, front);
      RetainedSnoc(before, front, p);
      AppendSnoc(scanned, RetainedContributions(before, front), Retained(before, RecordAt(before.files, p).value));
      DraftSnoc(scanned + RetainedContributions(before, front), Retained(before, RecordAt(before.files, p).value));
    }
  }

  lemma WithRetainedStep(start: Draft, before: Index, kept: seq<Path>, i: nat)
    requires i < |kept| && RecordAt(before.files, kept[i]).Some?
    ensures WithRetained(start, before, kept[..i + 1])
         == Extend(WithRetained(start, before, kept[..i]), Retained(before, RecordAt(before.files, kept[i]).value))
  {
    TakeSnoc(kept, i);
  }

  lemma ExtendRetained(d: Draft, before: Index, r: IndexedFile)
    ensures var c := Retained(before, r);
            Extend(d, c) == Draft(d.files + [c.record], d.symbols + c.symbols, d.edges + c.edges, d.pending)
  {
  }

  method CollectRetained(before: Index, scan: Scan, start: Draft, ghost scanned: seq<Contribution>) returns (d: Draft)
    requires start == DraftOf(scanned)
    ensures d == DraftOf(scanned + RetainedContributions(before, RetainedPaths(before, scan)))
  {
    d := start;
    var kept := RetainedPaths(before, scan);
    for i := 0 to |kept|
      invariant d == WithRetained(start, before, kept[..i])
    {
      assert kept[i] in kept;
      var record := RecordAt(before.files, kept[i]).value;
      WithRetainedStep(start, before, kept, i);
      ExtendRetained(d, before, record);
      var c := Retained(before, record);
      d := Draft(d.files + [c.record], d.symbols + c.symbols, d.edges + c.edges, d.pending);
    }
    TakeAll(kept);
    WithRetainedIs(scanned, before, kept);
  }

  /** One file's turn: its imports are read from the edge list as extended so far. */
  method ResolveFile(path: Path, refs: seq<RawReference>, byPath: SymbolTable, edges: seq<Edge>,
      ghost symbols: seq<Symbol>, ghost base: seq<Edge>, ghost resolved: seq<Edge>)
    returns (more: seq<Edge>)
    requires edges == base + resolved && forall e :: e in resolved ==> e.edgeType != Imports
    requires forall p :: Lookup(byPath, p) == SymbolsAt(symbols, p)
    ensures more == Resolve(path, refs, TableOf(symbols), Imported(base, path))
  {
    var imported := Imported(edges, path);
    ImportedIgnoresResolved(base, resolved, path);
    more := ResolveReferences(path, refs, byPath, imported);
    TableOfIsGrouping(symbols);
    ResolveDependsOnViews(path, refs, byPath, TableOf(symbols), imported, imported);
  }

  /** Resolves every pending file against the complete symbol table, reading the edge list it is extending. */
  method ResolvePending(d: Draft) returns (edges: seq<Edge>)
    ensures edges == d.edges + ResolvedPending(d.pending, d.symbols, d.edges)
  {
    edges := d.edges;
    var byPath := GroupSymbolsByPath(d.symbols);
    ghost var resolved := [];
    for i := 0 to |d.pending|
      invariant resolved == ResolvedPending(d.pending[..i], d.symbols, d.edges)
      invariant edges == d.edges + resolved
    {
      var (path, refs) := d.pending[i];
      var more := ResolveFile(path, refs, byPath, edges, d.symbols, d.edges, resolved);
      ResolvedPendingSnoc(d.pending[..i], path, refs, d.symbols, d.edges);
      TakeSnoc(d.pending, i);
      AppendAssociates(d.edges, resolved, more);
      edges := edges + more;
      resolved := resolved + more;
    }
    TakeAll(d.pending);
  }

  /** The in-memory part of a run. */
  method ComputeIndex(parser: Parser, before: Index, scan: Scan, full: bool) returns (next: Index)
    ensures next == RunResult(parser, before, scan, full)
  {
    var previous := if full then EMPTY_INDEX else before;
    var d := CollectScanned(parser, previous, scan);
    d := CollectRetained(before, scan, d, ScannedContributions(parser, previous, Order(previous, scan.files),
        scan.onDisk));
    var edges := ResolvePending(d);
    DraftIsAssembled(Contributions(parser, before, scan, full));
    PendingAsContributions(Contributions(parser, before, scan, full), d.symbols, d.edges);
    next := Index(d.files, d.symbols, edges);
  }

  lemma AppendSnoc<T>(a: seq<T>, b: seq<T>, x: T)
    ensures a + (b + [x]) == (a + b) + [x]
  {
  }

  lemma {:induction false} DraftIsAssembled(cs: seq<Contribution>)
    ensures DraftOf(cs) == Draft(
      Flat(cs, RecordOfContribution), Flat(cs, SymbolsOfContribution), Flat(cs, EdgesOfContribution), Pending(cs))
  {
    if cs != [] {
      DraftIsAssembled(cs[..|cs| - 1]);
    }
  }

  function Pending(cs: seq<Contribution>): seq<(Path, seq<RawReference>)> {
    if cs == [] then []
    else
      var c := cs[|cs| - 1];
      Pending(cs[..|cs| - 1]) + if c.pending.None? then [] else [(c.record.path, c.pending.value)]
  }

  ghost function ResolvedPending(pending: seq<(Path, seq<RawReference>)>, symbols: seq<Symbol>,
      base: seq<Edge>): (r: seq<Edge>)
    ensures forall e :: e in r ==> e.edgeType != Imports
  {
    if pending == [] then []
    else
      var (p, refs) := pending[|pending| - 1];
      ResolvedPending(pending[..|pending| - 1], symbols, base) + Resolve(p, refs, TableOf(symbols), Imported(base, p))
  }

  lemma {:induction false} PendingAsContributions(cs: seq<Contribution>, symbols: seq<Symbol>, base: seq<Edge>)
    ensures ResolvedPending(Pending(cs), symbols, base) == Flat(cs, PendingEdges(symbols, base))
  {
    if cs != [] {
      var front, c := cs[..|cs| - 1], cs[|cs| - 1];
      PendingAsContributions(front, symbols, base);
      assert cs == front + [c];
      FlatSnoc(front, c, PendingEdges(symbols, base));
      PendingSnoc(front, c);
      if c.pending.Some? {
        ResolvedPendingSnoc(Pending(front), c.record.path, c.pending.value, symbols, base);
        assert Pending(cs) == Pending(front) + [(c.record.path, c.pending.value)];
        assert PendingEdges(symbols, base)(c) == Resolve(c.record.path, c.pending.value, TableOf(symbols),
            Imported(base, c.record.path));
      } else {
        assert Pending(cs) == Pending(front);
        assert PendingEdges(symbols, base)(c) == [];
      }
    }
  }

  lemma PendingSnoc(cs: seq<Contribution>, c: Contribution)
    ensures Pending(cs + [c]) == Pending(cs) + if c.pending.None? then [] else [(c.record.path, c.pending.value)]
  {
    assert (cs + [c])[..|cs|] == cs;
  }

  lemma ResolvedPendingSnoc(pending: seq<(Path, seq<RawReference>)>, p: Path, refs: seq<RawReference>,
      symbols: seq<Symbol>, base: seq<Edge>)
    ensures ResolvedPending(pending + [(p, refs)], symbols, base)
         == ResolvedPending(pending, symbols, base) + Resolve(p, refs, TableOf(symbols), Imported(base, p))
  {
    assert (pending + [(p, refs)])[..|pending|] == pending;
  }
}
