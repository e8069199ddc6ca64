/** What an indexing run records of each file, said of the tree, the parser and the index before alone. */
module IndexFacts {
  import opened Collections
  import opened CodeIndex
  import opened References
  import opened Update
  import opened UpdateAgreement
  import opened IndexHistory

  // ------------------------------------------------------------- order in a filtered list

  /** Any kept element is in the list, and what is kept before it there is kept before it in the result. */
  lemma {:induction false} KeptInOrder<T>(s: seq<T>, keep: T -> bool, k: nat) returns (i: nat)
    requires k < |Filter(s, keep)|
    ensures i < |s| && s[i] == Filter(s, keep)[k]
    ensures forall j :: 0 <= j < i && keep(s[j]) ==> exists h :: 0 <= h < k && Filter(s, keep)[h] == s[j]
  {
    var n := |s| - 1;
    var front := Filter(s[..n], keep);
    if k < |front| {
      i := KeptInOrder(s[..n], keep, k);
      forall j | 0 <= j < i && keep(s[j]) ensures exists h :: 0 <= h < k && Filter(s, keep)[h] == s[j] {
        assert s[..n][j] == s[j];
        var h :| 0 <= h < k && front[h] == s[..n][j];
        assert Filter(s, keep)[h] == s[j];
      }
    } else {
      i := n;
      forall j | 0 <= j < n && keep(s[j]) ensures exists h :: 0 <= h < k && Filter(s, keep)[h] == s[j] {
        assert s[..n][j] in front;
        var h :| 0 <= h < |front| && front[h] == s[..n][j];
        assert Filter(s, keep)[h] == s[j];
      }
    }
  }

  lemma {:induction false} FilterTwice<T>(s: seq<T>, a: T -> bool, b: T -> bool, both: T -> bool)
    requires forall x :: both(x) <==> a(x) && b(x)
    ensures Filter(Filter(s, a), b) == Filter(s, both)
  {
    if s != [] {
      var n := |s| - 1;
      FilterTwice(s[..n], a, b, both);
      if a(s[n]) { FilterSnoc(Filter(s[..n], a), s[n], b); }
    }
  }

  function Width(s: Symbol): int { s.endLine - s.startLine }

  /** The narrowest symbol, and of equals the first. */
  lemma {:induction false} NarrowestIsFirst(s: seq<Symbol>) returns (k: nat)
    requires s != []
    ensures k < |s| && s[k] == Narrowest(s)
    ensures forall j :: 0 <= j < |s| ==> Width(s[k]) <= Width(s[j]) && (j < k ==> Width(s[k]) < Width(s[j]))
  {
    if |s| == 1 { return 0; }
    var h := NarrowestIsFirst(s[1..]);
    assert forall j :: 1 <= j < |s| ==> s[1..][j - 1] == s[j];
    if Width(s[0]) <= Width(s[1..][h]) { return 0; }
    return h + 1;
  }

  // ------------------------------------------------------------------ one reference

  ghost predicate Inheriting(ref: RawReference) { ref.edgeType == Extends || ref.edgeType == Implements }

  ghost predicate TypeKind(s: Symbol) { s.kind == Class || s.kind == Interface }

  /** `s`, declared in `q`, is something the reference can mean. */
  ghost predicate Answering(s: Symbol, q: Path, ref: RawReference) {
    s.file == q && s.name == ref.name && (Inheriting(ref) ==> TypeKind(s))
  }

  /** `s`, declared in `p`, is something the reference can stand in. */
  ghost predicate Around(s: Symbol, p: Path, ref: RawReference) {
    && s.file == p && s.startLine <= ref.line && ref.line <= s.endLine
    && (Inheriting(ref) ==> TypeKind(s)) && (!Inheriting(ref) ==> s.kind == Function || s.kind == Method)
  }

  ghost predicate Declares(symbols: seq<Symbol>, q: Path, ref: RawReference) {
    exists s :: s in symbols && Answering(s, q, ref)
  }

  ghost predicate FirstAnswer(symbols: seq<Symbol>, q: Path, ref: RawReference, id: string) {
    exists i :: 0 <= i < |symbols| && Answering(symbols[i], q, ref) && symbols[i].id == id
                && forall j :: 0 <= j < i ==> !Answering(symbols[j], q, ref)
  }

  /** `id` is the narrowest symbol around the reference, and of equals the first. */
  ghost predicate StandsIn(symbols: seq<Symbol>, p: Path, ref: RawReference, id: string) {
    exists i :: 0 <= i < |symbols| && Around(symbols[i], p, ref) && symbols[i].id == id
                && forall j :: 0 <= j < |symbols| && Around(symbols[j], p, ref) ==>
                     Width(symbols[i]) <= Width(symbols[j]) && (j < i ==> Width(symbols[i]) < Width(symbols[j]))
  }

  lemma MatchesAre(symbols: seq<Symbol>, q: Path, ref: RawReference)
    ensures forall s :: s in Matches(TableOf(symbols), q, ref) <==> s in symbols && Answering(s, q, ref)
    ensures Matches(TableOf(symbols), q, ref) != [] <==> Declares(symbols, q, ref)
    ensures Matches(TableOf(symbols), q, ref) != [] ==>
      FirstAnswer(symbols, q, ref, Matches(TableOf(symbols), q, ref)[0].id)
  {
    TableOfIsGrouping(symbols);
    var both := (s: Symbol) => InFile(q)(s) && Answers(ref)(s);
    FilterTwice(symbols, InFile(q), Answers(ref), both);
    assert Matches(TableOf(symbols), q, ref) == Filter(symbols, both);
    AnswersAre(ref, q, both);
    if Filter(symbols, both) != [] { FirstKeptAnswers(symbols, q, ref, both); }
  }

  lemma FirstKeptAnswers(symbols: seq<Symbol>, q: Path, ref: RawReference, both: Symbol -> bool)
    requires (forall s :: both(s) <==> Answering(s, q, ref)) && Filter(symbols, both) != []
    ensures FirstAnswer(symbols, q, ref, Filter(symbols, both)[0].id)
  {
    assert Filter(symbols, both)[0] in symbols;
    var i := KeptInOrder(symbols, both, 0);
    assert Answering(symbols[i], q, ref);
  }

  lemma AnswersAre(ref: RawReference, q: Path, both: Symbol -> bool)
    requires forall s :: both(s) <==> InFile(q)(s) && Answers(ref)(s)
    ensures forall s :: both(s) <==> Answering(s, q, ref)
  {
  }

  lemma EnclosesAre(ref: RawReference, p: Path, both: Symbol -> bool)
    requires forall s :: both(s) <==> InFile(p)(s) && Encloses(ref)(s)
    ensures forall s :: both(s) <==> Around(s, p, ref)
  {
  }

  lemma SourceIs(symbols: seq<Symbol>, p: Path, ref: RawReference)
    ensures var id := SourceSymbol(Lookup(TableOf(symbols), p), ref);
            && (id.None? <==> forall s :: s in symbols ==> !Around(s, p, ref))
            && (id.Some? ==> StandsIn(symbols, p, ref, id.value))
  {
    TableOfIsGrouping(symbols);
    var both := (s: Symbol) => InFile(p)(s) && Encloses(ref)(s);
    FilterTwice(symbols, InFile(p), Encloses(ref), both);
    EnclosesAre(ref, p, both);
    var kept := Filter(symbols, both);
    assert Filter(Lookup(TableOf(symbols), p), Encloses(ref)) == kept;
    if kept != [] {
      var k := NarrowestIsFirst(kept);
      var i := KeptInOrder(symbols, both, k);
      NarrowestStands(symbols, p, ref, both, k, i);
    }
  }

  lemma NarrowestStands(symbols: seq<Symbol>, p: Path, ref: RawReference, both: Symbol -> bool, k: nat, i: nat)
    requires forall s :: both(s) <==> Around(s, p, ref)
    requires var kept := Filter(symbols, both);
             && k < |kept| && i < |symbols| && symbols[i] == kept[k]
             && (forall j :: 0 <= j < i && both(symbols[j]) ==> exists h :: 0 <= h < k && kept[h] == symbols[j])
             && forall j :: 0 <= j < |kept| ==>
               Width(kept[k]) <= Width(kept[j]) && (j < k ==> Width(kept[k]) < Width(kept[j]))
    ensures StandsIn(symbols, p, ref, symbols[i].id)
  {
    var kept := Filter(symbols, both);
    forall j | 0 <= j < |symbols| && Around(symbols[j], p, ref)
      ensures Width(symbols[i]) <= Width(symbols[j]) && (j < i ==> Width(symbols[i]) < Width(symbols[j]))
    {
      assert both(symbols[j]) && symbols[j] in kept;
      if j < i {
        var h :| 0 <= h < k && kept[h] == symbols[j];
      }
    }
    assert Around(symbols[i], p, ref) by { assert kept[k] in kept; }
  }

  /** A reference's edge: from the narrowest symbol around it; to the first symbol it can mean in its own file, or
      else in the least imported file that has one; unresolved only when none has. */
  ghost predicate RightEdge(symbols: seq<Symbol>, imported: set<Path>, p: Path, ref: RawReference, e: Edge) {
    && e.sourceFile == p && e.edgeType == ref.edgeType
    && (e.sourceSymbol == None <==> forall s :: s in symbols ==> !Around(s, p, ref))
    && (e.sourceSymbol.Some? ==> StandsIn(symbols, p, ref, e.sourceSymbol.value))
    && (Declares(symbols, p, ref) ==>
          e.targetFile == Some(p) && e.confidence == 0.8
          && e.targetSymbol.Some? && FirstAnswer(symbols, p, ref, e.targetSymbol.value))
    && (!Declares(symbols, p, ref) && (forall q :: q in imported ==> !Declares(symbols, q, ref)) ==>
          e.targetFile == None && e.targetSymbol == None && e.confidence == 0.3)
    && (!Declares(symbols, p, ref) && (exists q :: q in imported && Declares(symbols, q, ref)) ==>
          && e.targetFile.Some? && e.targetFile.value in imported && e.confidence == 0.6
          && (forall q :: q in imported && Declares(symbols, q, ref) ==> Leq(e.targetFile.value, q))
          && e.targetSymbol.Some? && FirstAnswer(symbols, e.targetFile.value, ref, e.targetSymbol.value))
  }

  lemma TargetIs(symbols: seq<Symbol>, imported: set<Path>, p: Path, ref: RawReference)
    ensures var t := TargetFile(p, ref, TableOf(symbols), imported);
            && (t == None <==> !Declares(symbols, p, ref) && forall q :: q in imported ==> !Declares(symbols, q, ref))
            && (Declares(symbols, p, ref) ==> t == Some(p))
            && (t.Some? ==> FirstAnswer(symbols, t.value, ref, Matches(TableOf(symbols), t.value, ref)[0].id))
            && (t.Some? && !Declares(symbols, p, ref) ==>
                  t.value in imported && forall q :: q in imported && Declares(symbols, q, ref) ==> Leq(t.value, q))
  {
    TargetFileCharacterized(p, ref, TableOf(symbols), imported);
    forall q ensures Matches(TableOf(symbols), q, ref) != [] <==> Declares(symbols, q, ref) {
      MatchesAre(symbols, q, ref);
    }
    var t := TargetFile(p, ref, TableOf(symbols), imported);
    if t.Some? { MatchesAre(symbols, t.value, ref); }
  }

  lemma ResolvedIsRight(symbols: seq<Symbol>, imported: set<Path>, p: Path, ref: RawReference)
    ensures RightEdge(symbols, imported, p, ref,
                      ResolvedEdge(p, ref, TableOf(symbols), TargetFile(p, ref, TableOf(symbols), imported)))
  {
    SourceIs(symbols, p, ref);
    TargetIs(symbols, imported, p, ref);
    MatchesAre(symbols, p, ref);
  }

  lemma {:induction false} EachReferenceIsRight(
    symbols: seq<Symbol>, imported: set<Path>, p: Path, refs: seq<RawReference>, i: nat)
    requires i < |refs|
    ensures RightEdge(symbols, imported, p, refs[i], Resolve(p, refs, TableOf(symbols), imported)[i])
  {
    if i < |refs| - 1 {
      EachReferenceIsRight(symbols, imported, p, refs[..|refs| - 1], i);
    } else {
      ResolvedIsRight(symbols, imported, p, refs[i]);
    }
  }

  // ------------------------------------------------------------- one parsed file

  /** Every stage of parsing returned. */
  ghost predicate Reads(parser: Parser, p: Path, c: Content) {
    && parser.declarations(p, c) != None && parser.imports(p, c) != None
    && parser.references(p, c) != None && parser.syntaxError(p, c) != None
  }

  /** An import statement's row: to the first path of those it probes that is a file. */
  ghost predicate RightImport(p: Path, candidates: seq<Path>, onDisk: set<Path>, e: Edge) {
    && e.sourceFile == p && e.sourceSymbol == None && e.targetSymbol == None && e.edgeType == Imports
      && e.confidence == 1.0
    && (e.targetFile == None <==> forall q :: q in candidates ==> q !in onDisk)
    && (e.targetFile.Some? ==> FirstOnDisk(candidates, onDisk, e.targetFile.value))
  }

  ghost predicate FirstOnDisk(candidates: seq<Path>, onDisk: set<Path>, t: Path) {
    exists j :: 0 <= j < |candidates| && candidates[j] == t && t in onDisk
                && forall k :: 0 <= k < j ==> candidates[k] !in onDisk
  }

  lemma {:induction false} FirstExistingIs(candidates: seq<Path>, onDisk: set<Path>)
    ensures var t := FirstExisting(candidates, onDisk);
            && (t == None <==> forall q :: q in candidates ==> q !in onDisk)
            && (t.Some? ==> FirstOnDisk(candidates, onDisk, t.value))
  {
    if candidates != [] {
      assert candidates == [candidates[0]] + candidates[1..];
      if candidates[0] !in onDisk {
        FirstExistingIs(candidates[1..], onDisk);
        var t := FirstExisting(candidates[1..], onDisk);
        if t.Some? { LaterOnDisk(candidates, onDisk, t.value); }
      }
    }
  }

  lemma LaterOnDisk(candidates: seq<Path>, onDisk: set<Path>, t: Path)
    requires candidates != [] && candidates[0] !in onDisk && FirstOnDisk(candidates[1..], onDisk, t)
    ensures FirstOnDisk(candidates, onDisk, t)
  {
    var rest := candidates[1..];
    var j :| 0 <= j < |rest| && rest[j] == t && t in onDisk && forall k :: 0 <= k < j ==> rest[k] !in onDisk;
    assert candidates[j + 1] == t;
    assert forall k :: 1 <= k < j + 1 ==> candidates[k] == rest[k - 1];
  }

  /** The declarations, one symbol each. */
  ghost predicate SymbolsOf(d: seq<Declaration>, p: Path, symbols: seq<Symbol>) {
    |symbols| == |d| && forall i :: 0 <= i < |d| ==>
      && symbols[i].id == d[i].id && symbols[i].file == p && symbols[i].name == d[i].name
        && symbols[i].kind == d[i].kind
      && symbols[i].startLine == d[i].startLine && symbols[i].endLine == d[i].endLine
  }

  ghost predicate ImportsOf(imports: seq<seq<Path>>, p: Path, onDisk: set<Path>, rows: seq<Edge>) {
    |rows| == |imports| && forall i :: 0 <= i < |imports| ==> RightImport(p, imports[i], onDisk, rows[i])
  }

  ghost predicate ReferencesOf(
    refs: seq<RawReference>, p: Path, symbols: seq<Symbol>, imported: set<Path>, rows: seq<Edge>)
  {
    |rows| == |refs| && forall i :: 0 <= i < |refs| ==> RightEdge(symbols, imported, p, refs[i], rows[i])
  }

  /** The files the import rows of `p` point to. */
  ghost predicate ImportedIs(imported: set<Path>, edges: seq<Edge>, p: Path) {
    forall q :: q in imported
      <==> exists e :: e in edges && e.sourceFile == p && e.edgeType == Imports && e.targetFile == Some(q)
  }

  lemma ImportsAre(parser: Parser, p: Path, c: Content, onDisk: set<Path>)
    ensures var rows := ImportRows(p, Targets(parser, p, c, onDisk));
            if Reads(parser, p, c) then ImportsOf(parser.imports(p, c).value, p, onDisk, rows) else rows == []
  {
    if Reads(parser, p, c) {
      var cs := parser.imports(p, c).value;
      forall i | 0 <= i < |cs| ensures RightImport(p, cs[i], onDisk, ImportRows(p, Targets(parser, p, c, onDisk))[i]) {
        FirstExistingIs(cs[i], onDisk);
      }
    }
  }

  lemma ImportedOfFile(x: Index, c: Contribution)
    requires Shows(x, c) && c.Owned()
    ensures ImportedIs(Imported(c.edges, c.record.path), x.edges, c.record.path)
  {
    var p := c.record.path;
    forall e: Edge | e.edgeType == Imports && e.sourceFile == p ensures e in c.edges <==> e in x.edges {
      assert e in EdgesFrom(x.edges, p) <==> e in FinalEdges(x.symbols, c);
    }
  }

  lemma AllReferencesAreRight(symbols: seq<Symbol>, imported: set<Path>, p: Path, refs: seq<RawReference>)
    ensures ReferencesOf(refs, p, symbols, imported, Resolve(p, refs, TableOf(symbols), imported))
  {
    forall i | 0 <= i < |refs|
      ensures RightEdge(symbols, imported, p, refs[i], Resolve(p, refs, TableOf(symbols), imported)[i])
    {
      EachReferenceIsRight(symbols, imported, p, refs, i);
    }
  }

  /** The edges of a file are its import rows and then one for each reference, resolved against all symbols. */
  ghost predicate EdgesAre(
    x: Index, p: Path, imports: seq<Edge>, refs: seq<RawReference>, imported: set<Path>, rows: seq<Edge>)
  {
    && ImportedIs(imported, x.edges, p) && ReferencesOf(refs, p, x.symbols, imported, rows)
    && EdgesFrom(x.edges, p) == imports + rows
  }

  lemma EdgesOfFile(x: Index, c: Contribution)
    requires Shows(x, c) && c.Owned() && c.pending.Some?
    ensures exists imported, rows :: EdgesAre(x, c.record.path, c.edges, c.pending.value, imported, rows)
  {
    var p, refs, imported := c.record.path, c.pending.value, Imported(c.edges, c.record.path);
    var rows := Resolve(p, refs, TableOf(x.symbols), imported);
    ImportedOfFile(x, c);
    AllReferencesAreRight(x.symbols, imported, p, refs);
    assert EdgesFrom(x.edges, p) == c.edges + rows;
    assert EdgesAre(x, p, c.edges, refs, imported, rows);
  }

  // ---------------------------------------------------------------- a whole run

  /** Two indexes hold the same rows of this file. */
  ghost predicate SameRows(x: Index, y: Index, p: Path) {
    && (forall s: Symbol :: s.file == p ==> multiset(x.symbols)[s] == multiset(y.symbols)[s])
    && (forall e: Edge :: e.sourceFile == p ==> multiset(x.edges)[e] == multiset(y.edges)[e])
  }

  lemma SameViewsSameRows(x: Index, y: Index, p: Path)
    requires SymbolsAt(x.symbols, p) == SymbolsAt(y.symbols, p) && EdgesFrom(x.edges, p) == EdgesFrom(y.edges, p)
    ensures SameRows(x, y, p)
  {
    forall s: Symbol | s.file == p ensures multiset(x.symbols)[s] == multiset(y.symbols)[s] {
      FilterCount(x.symbols, InFile(p), s);
      FilterCount(y.symbols, InFile(p), s);
    }
    forall e: Edge | e.sourceFile == p ensures multiset(x.edges)[e] == multiset(y.edges)[e] {
      FilterCount(x.edges, FromFile(p), e);
      FilterCount(y.edges, FromFile(p), e);
    }
  }

  /** A file that was indexed and cannot be read keeps its record, marked, and every symbol and edge it had, in a full
      run as in an incremental one. */
  lemma UnreadableKeepsEverything(parser: Parser, before: Index, scan: Scan, full: bool, r: IndexedFile)
    requires scan.Valid() && DistinctRecords(before.files) && r in before.files && r.path in scan.unreadable
    ensures var x := RunResult(parser, before, scan, full);
            && (forall q :: q in x.files && q.path == r.path <==> q == IndexedFile(r.path, r.content, ScanError))
            && SymbolsAt(x.symbols, r.path) == SymbolsAt(before.symbols, r.path)
            && EdgesFrom(x.edges, r.path) == EdgesFrom(before.edges, r.path)
            && SameRows(x, before, r.path)
  {
    var x := RunResult(parser, before, scan, full);
    RecordOf(before.files, r);
    ContributionsAre(parser, before, scan, full);
    AssembledShows(Contributions(parser, before, scan, full), Retained(before, r));
    RunRecordsDistinct(parser, before, scan, full);
    SameViewsSameRows(x, before, r.path);
    forall q | q in x.files && q.path == r.path ensures q == IndexedFile(r.path, r.content, ScanError) {
      RecordOf(x.files, q);
    }
  }

  lemma RunRecordsDistinct(parser: Parser, before: Index, scan: Scan, full: bool)
    requires scan.Valid()
    ensures DistinctRecords(RunResult(parser, before, scan, full).files)
  {
    ContributionsAre(parser, before, scan, full);
    FlatRecords(Contributions(parser, before, scan, full));
  }

  /** A file that is neither scanned, nor unreadable and indexed before, is gone with all its rows. */
  lemma OthersAreGone(parser: Parser, before: Index, scan: Scan, full: bool, p: Path)
    requires scan.Valid() && (forall f :: f in scan.files ==> f.path != p)
    requires p in scan.unreadable ==> forall r :: r in before.files ==> r.path != p
    ensures var x := RunResult(parser, before, scan, full);
            && (forall r :: r in x.files ==> r.path != p) && (forall s :: s in x.symbols ==> s.file != p)
            && (forall e :: e in x.edges ==> e.sourceFile != p)
  {
    var cs, x := Contributions(parser, before, scan, full), RunResult(parser, before, scan, full);
    ContributionsAre(parser, before, scan, full);
    forall c | c in cs ensures c.record.path != p {
      ContributionPath(parser, before, scan, full, c);
    }
    AssembledElsewhere(cs, p);
    forall s | s in x.symbols ensures s.file != p { assert s.file == p ==> s in SymbolsAt(x.symbols, p); }
    forall e | e in x.edges ensures e.sourceFile != p { assert e.sourceFile == p ==> e in EdgesFrom(x.edges, p); }
  }

  lemma ContributionPath(parser: Parser, before: Index, scan: Scan, full: bool, c: Contribution)
    requires var previous := if full then EMPTY_INDEX else before;
             FromScan(parser, previous, scan, c) || FromRetention(before, scan, c)
    ensures (exists f :: f in scan.files && f.path == c.record.path)
         || (c.record.path in scan.unreadable && exists r :: r in before.files && r.path == c.record.path)
  {
    var previous := if full then EMPTY_INDEX else before;
    if FromScan(parser, previous, scan, c) {
      var f :| f in scan.files && c == ContributionOf(parser, previous, f, scan.onDisk);
      ContributionOwned(parser, previous, f, scan.onDisk);
    } else {
      var p :| p in scan.unreadable && p in Paths(before.files)
          && c == Retained(before, RecordAt(before.files, p).value);
      assert RecordAt(before.files, p).value in before.files;
    }
  }

  /** The run takes the file as it was: the last run of it read the same content, and the run is incremental. */
  ghost predicate TakenOver(before: Index, f: ScannedFile, full: bool, r: IndexedFile) {
    !full && r in before.files && r.path == f.path && r.content == f.content && r.status != ScanError
  }

  lemma TakenOverIsReused(before: Index, f: ScannedFile, full: bool)
    requires DistinctRecords(before.files)
    ensures var previous := if full then EMPTY_INDEX else before;
            && (Reused(previous, f) <==> exists r :: TakenOver(before, f, full, r))
            && (forall r :: TakenOver(before, f, full, r) ==> RecordAt(before.files, f.path) == Some(r))
  {
    forall r | TakenOver(before, f, full, r) ensures RecordAt(before.files, f.path) == Some(r) {
      RecordOf(before.files, r);
    }
    if !full && Reused(before, f) { assert TakenOver(before, f, full, RecordAt(before.files, f.path).value); }
  }

  /** What a stage that may raise returned, or nothing. */
  function Returned(refs: Option<seq<RawReference>>): seq<RawReference> {
    match refs
    case Some(found) => found
    case None => []
  }

  /** `rows` are the import rows of `p` in this index. */
  ghost predicate ImportsStored(before: Index, p: Path, rows: seq<Edge>) {
    && (forall e :: e in rows ==> e.sourceFile == p && e.edgeType == Imports)
    && (forall e: Edge :: e.sourceFile == p && e.edgeType == Imports ==> multiset(rows)[e] == multiset(before.edges)[e])
  }

  lemma StoredAreImports(before: Index, p: Path)
    ensures ImportsStored(before, p, StoredImports(before, p))
  {
    forall e: Edge | e.sourceFile == p && e.edgeType == Imports
      ensures multiset(StoredImports(before, p))[e] == multiset(before.edges)[e]
    {
      FilterCount(EdgesFrom(before.edges, p), IsImport(), e);
      FilterCount(before.edges, FromFile(p), e);
    }
  }

  /** A file read before, with the same content, keeps its status, symbols and import rows as they were stored; only its
      references are read and resolved again, against the symbols of this run. */
  lemma TakenOverFile(parser: Parser, before: Index, scan: Scan, full: bool, f: ScannedFile, r: IndexedFile)
    requires scan.Valid() && f in scan.files && DistinctRecords(before.files) && TakenOver(before, f, full, r)
    ensures var x, p := RunResult(parser, before, scan, full), f.path;
            && RecordAt(x.files, p) == Some(IndexedFile(p, f.content, r.status))
            && SymbolsAt(x.symbols, p) == SymbolsAt(before.symbols, p)
            && exists imports, imported, rows ::
                 && ImportsStored(before, p, imports)
                 && EdgesAre(x, p, imports, Returned(parser.references(p, f.content)), imported, rows)
  {
    TakenOverIsReused(before, f, full);
    RunShows(parser, before, scan, full, f);
    CarriedShows(parser, before, f, r.status, RunResult(parser, before, scan, full));
  }

  lemma CarriedShows(parser: Parser, before: Index, f: ScannedFile, status: FileStatus, x: Index)
    requires Shows(x, Carried(parser, before, f, status))
    ensures RecordAt(x.files, f.path) == Some(IndexedFile(f.path, f.content, status))
    ensures SymbolsAt(x.symbols, f.path) == SymbolsAt(before.symbols, f.path)
    ensures exists imports, imported, rows ::
      && ImportsStored(before, f.path, imports)
      && EdgesAre(x, f.path, imports, Returned(parser.references(f.path, f.content)), imported, rows)
  {
    var c := Carried(parser, before, f, status);
    EdgesOfFile(x, c);
    StoredAreImports(before, f.path);
    assert c.pending == Some(Returned(parser.references(f.path, f.content)));
  }

  /** Any other file is parsed: its status tells whether every stage returned without a syntax error, and its symbols,
      import rows and reference edges are what the stages returned, or nothing at all when one did not. */
  lemma ParsedFile(parser: Parser, before: Index, scan: Scan, full: bool, f: ScannedFile)
    requires scan.Valid() && f in scan.files && DistinctRecords(before.files)
    requires forall r :: !TakenOver(before, f, full, r)
    ensures var x, p, c := RunResult(parser, before, scan, full), f.path, f.content;
            var readable := Reads(parser, p, c);
            && RecordAt(x.files, p)
               == Some(IndexedFile(p, c,
                 if readable && !parser.syntaxError(p, c).value then FileStatus.Ok else ParseError))
            && (readable ==> SymbolsOf(parser.declarations(p, c).value, p, SymbolsAt(x.symbols, p)))
            && (!readable ==> SymbolsAt(x.symbols, p) == [] && EdgesFrom(x.edges, p) == [])
            && (readable ==> exists imports, imported, rows ::
                  && ImportsOf(parser.imports(p, c).value, p, scan.onDisk, imports)
                  && EdgesAre(x, p, imports, parser.references(p, c).value, imported, rows))
  {
    var previous, x := if full then EMPTY_INDEX else before, RunResult(parser, before, scan, full);
    TakenOverIsReused(before, f, full);
    RunShows(parser, before, scan, full, f);
    var c := ContributionOf(parser, previous, f, scan.onDisk);
    ContributionOwned(parser, previous, f, scan.onDisk);
    ImportsAre(parser, f.path, f.content, scan.onDisk);
    EdgesOfFile(x, c);
    ParsedParts(parser, f, scan.onDisk);
  }

  lemma ParsedParts(parser: Parser, f: ScannedFile, onDisk: set<Path>)
    ensures var c, readable := Parsed(parser, f, onDisk), Reads(parser, f.path, f.content);
            && c.record == IndexedFile(f.path, f.content,
                 if readable && !parser.syntaxError(f.path, f.content).value then FileStatus.Ok else ParseError)
            && (readable ==> SymbolsOf(parser.declarations(f.path, f.content).value, f.path, c.symbols))
            && (!readable ==> c.symbols == [] && c.edges == [])
            && c.pending == Some(if readable then parser.references(f.path, f.content).value else [])
            && c.edges == ImportRows(f.path, Targets(parser, f.path, f.content, onDisk))
  {
  }

  // ------------------------------------------------------------------ in what order

  function PathsOf(files: seq<IndexedFile>): seq<Path> { seq(|files|, i requires 0 <= i < |files| => files[i].path) }

  function ScannedPaths(files: seq<ScannedFile>): seq<Path> {
    seq(|files|, i requires 0 <= i < |files| => files[i].path)
  }

  ghost predicate Known(previous: Index, f: ScannedFile) { exists r :: r in previous.files && r.path == f.path }

  ghost predicate KnownSame(previous: Index, f: ScannedFile) {
    exists r :: r in previous.files && r.path == f.path && r.content == f.content
  }

  /** The files as scanned, those kept the same first, then the new, then the changed. */
  ghost predicate ScanOrder(previous: Index, files: seq<ScannedFile>, order: seq<ScannedFile>) {
    exists same, added, modified ::
      && order == same + added + modified
      && same == Filter(files, IsUnchanged(previous))
        && (forall f :: f in same <==> f in files && KnownSame(previous, f))
      && added == Filter(files, IsAdded(previous)) && (forall f :: f in added <==> f in files && !Known(previous, f))
      && modified == Filter(files, IsModified(previous))
      && (forall f :: f in modified <==> f in files && Known(previous, f) && !KnownSame(previous, f))
  }

  lemma OrderExactly(previous: Index, files: seq<ScannedFile>)
    requires DistinctRecords(previous.files)
    ensures ScanOrder(previous, files, Order(previous, files))
  {
    forall f ensures Unchanged(previous, f) <==> KnownSame(previous, f) {
      forall r | r in previous.files && r.path == f.path ensures RecordAt(previous.files, f.path) == Some(r) {
        RecordOf(previous.files, r);
      }
    }
    forall f: ScannedFile ensures RecordAt(previous.files, f.path).Some? <==> Known(previous, f) {}
    var same, added, modified := Filter(files, IsUnchanged(previous)), Filter(files, IsAdded(previous)),
        Filter(files, IsModified(previous));
    AppendAssociates(same, added, modified);
  }

  ghost predicate KeptUnread(before: Index, scan: Scan, kept: seq<Path>) {
    && Ascending(kept) && Distinct(kept)
    && forall p :: p in kept <==> p in scan.unreadable && exists r :: r in before.files && r.path == p
  }

  lemma RecordPaths(parser: Parser, before: Index, scan: Scan, full: bool)
    ensures PathsOf(RunResult(parser, before, scan, full).files)
         == ScannedPaths(Order(if full then EMPTY_INDEX else before, scan.files)) + RetainedPaths(before, scan)
  {
    FlatRecords(Contributions(parser, before, scan, full));
    ContributionPaths(parser, before, scan, full);
  }

  /** The records of a run: unchanged, new, changed files as scanned, and then the unreadable ones that are kept, by
      path. */
  lemma RecordsInOrder(parser: Parser, before: Index, scan: Scan, full: bool)
    requires scan.Valid() && DistinctRecords(before.files)
    ensures var previous := if full then EMPTY_INDEX else before;
            exists order, kept ::
              && ScanOrder(previous, scan.files, order) && KeptUnread(before, scan, kept)
              && PathsOf(RunResult(parser, before, scan, full).files) == ScannedPaths(order) + kept
  {
    OrderExactly(if full then EMPTY_INDEX else before, scan.files);
    RecordPaths(parser, before, scan, full);
    assert KeptUnread(before, scan, RetainedPaths(before, scan));
  }

  lemma ContributionPaths(parser: Parser, before: Index, scan: Scan, full: bool)
    ensures var previous, cs := if full then EMPTY_INDEX else before, Contributions(parser, before, scan, full);
            var paths := ScannedPaths(Order(previous, scan.files)) + RetainedPaths(before, scan);
            |cs| == |paths| && forall i :: 0 <= i < |cs| ==> cs[i].record.path == paths[i]
  {
    var previous := if full then EMPTY_INDEX else before;
    var order, kept := Order(previous, scan.files), RetainedPaths(before, scan);
    forall i | 0 <= i < |order|
      ensures ScannedContributions(parser, previous, order, scan.onDisk)[i].record.path == order[i].path
    {
      ContributionOwned(parser, previous, order[i], scan.onDisk);
    }
    forall i | 0 <= i < |kept| ensures RetainedContributions(before, kept)[i].record.path == kept[i] {
      assert kept[i] in kept;
    }
  }

  /** Symbols are stored file by file, in the order of the records. */
  lemma {:induction false} SymbolsInOrder(cs: seq<Contribution>)
    requires DistinctContributions(cs)
    ensures Assemble(cs).symbols == Flat(Assemble(cs).files,
        (r: IndexedFile) => SymbolsAt(Assemble(cs).symbols, r.path))
  {
    var x := Assemble(cs);
    FlatRecords(cs);
    forall i | 0 <= i < |cs| ensures SymbolsAt(x.symbols, x.files[i].path) == cs[i].symbols {
      assert cs[i] in cs;
      AssembledShows(cs, cs[i]);
    }
    SameFlat(cs, x.files, SymbolsOfContribution, (r: IndexedFile) => SymbolsAt(x.symbols, r.path));
  }

  lemma {:induction false} SameFlat<A, B, C>(xs: seq<A>, ys: seq<B>, f: A -> seq<C>, g: B -> seq<C>)
    requires |xs| == |ys| && forall i :: 0 <= i < |xs| ==> f(xs[i]) == g(ys[i])
    ensures Flat(xs, f) == Flat(ys, g)
  {
    if xs != [] { SameFlat(xs[..|xs| - 1], ys[..|ys| - 1], f, g); }
  }
}
