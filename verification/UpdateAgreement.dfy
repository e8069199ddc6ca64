/** Incremental runs agree with full runs: files, statuses and symbols always, edges under an exact condition. */
module UpdateAgreement {
  import opened Collections
  import opened CodeIndex
  import opened References
  import opened Update

  // ------------------------------------------------------ per-file views

  ghost predicate DistinctContributions(cs: seq<Contribution>) {
    && (forall i, j :: 0 <= i < j < |cs| ==> cs[i].record.path != cs[j].record.path)
    && (forall c :: c in cs ==> c.Owned())
  }

  lemma {:induction false} FlatView<X>(cs: seq<Contribution>, f: Contribution -> seq<X>, keep: X -> bool, p: Path)
    requires forall i, j :: 0 <= i < j < |cs| ==> cs[i].record.path != cs[j].record.path
    requires forall c, x :: c in cs && x in f(c) ==> (keep(x) <==> c.record.path == p)
    ensures forall c :: c in cs && c.record.path == p ==> Filter(Flat(cs, f), keep) == f(c)
    ensures (forall c :: c in cs ==> c.record.path != p) ==> Filter(Flat(cs, f), keep) == []
  {
    if cs != [] {
      var front, last := cs[..|cs| - 1], cs[|cs| - 1];
      assert cs == front + [last];
      assert forall c :: c in front ==> c in cs;
      FlatView(front, f, keep, p);
      FilterAppend(Flat(front, f), f(last), keep);
      if last.record.path == p {
        FilterAll(f(last), keep);
        assert forall c :: c in front ==> c.record.path != p;
      } else {
        FilterNothing(f(last), keep);
      }
    }
  }

  lemma {:induction false} FlatRecords(cs: seq<Contribution>)
    ensures |Flat(cs, RecordOfContribution)| == |cs|
    ensures forall i :: 0 <= i < |cs| ==> Flat(cs, RecordOfContribution)[i] == cs[i].record
  {
    if cs != [] {
      FlatRecords(cs[..|cs| - 1]);
    }
  }

  ghost predicate ViewIs(x: Index, c: Contribution, resolved: seq<Edge>) {
    && RecordAt(x.files, c.record.path) == Some(c.record)
    && SymbolsAt(x.symbols, c.record.path) == c.symbols
    && EdgesFrom(x.edges, c.record.path) == c.edges + resolved
  }

  ghost function Resolved(x: Index, cs: seq<Contribution>, c: Contribution): seq<Edge> {
    PendingEdges(x.symbols, Flat(cs, EdgesOfContribution))(c)
  }

  lemma AssembledView(cs: seq<Contribution>, c: Contribution)
    requires DistinctContributions(cs) && c in cs
    ensures ViewIs(Assemble(cs), c, Resolved(Assemble(cs), cs, c))
  {
    var x, p := Assemble(cs), c.record.path;
    FlatRecords(cs);
    var i :| 0 <= i < |cs| && cs[i] == c;
    assert x.files[i] == c.record;
    RecordOf(x.files, c.record);
    FlatView(cs, SymbolsOfContribution, InFile(p), p);
    FlatView(cs, EdgesOfContribution, FromFile(p), p);
    var base := Flat(cs, EdgesOfContribution);
    FlatView(cs, PendingEdges(x.symbols, base), FromFile(p), p);
    FilterAppend(base, Flat(cs, PendingEdges(x.symbols, base)), FromFile(p));
  }

  lemma AssembledElsewhere(cs: seq<Contribution>, p: Path)
    requires DistinctContributions(cs) && forall c :: c in cs ==> c.record.path != p
    ensures var x := Assemble(cs);
            RecordAt(x.files, p) == None && SymbolsAt(x.symbols, p) == [] && EdgesFrom(x.edges, p) == []
  {
    var x := Assemble(cs);
    FlatRecords(cs);
    FlatView(cs, SymbolsOfContribution, InFile(p), p);
    FlatView(cs, EdgesOfContribution, FromFile(p), p);
    var base := Flat(cs, EdgesOfContribution);
    FlatView(cs, PendingEdges(x.symbols, base), FromFile(p), p);
    FilterAppend(base, Flat(cs, PendingEdges(x.symbols, base)), FromFile(p));
  }

  lemma OrderIsScan(previous: Index, scan: Scan)
    requires scan.Valid()
    ensures forall f :: f in Order(previous, scan.files) <==> f in scan.files
    ensures Distinct(Order(previous, scan.files))
  {
    var same, added, modified := Filter(scan.files, IsUnchanged(previous)), Filter(scan.files, IsAdded(previous)),
        Filter(scan.files, IsModified(previous));
    FilterDistinct(scan.files, IsUnchanged(previous));
    FilterDistinct(scan.files, IsAdded(previous));
    FilterDistinct(scan.files, IsModified(previous));
    DistinctAppend(added, modified);
    DistinctAppend(same, added + modified);
  }

  lemma DistinctAppend<T>(a: seq<T>, b: seq<T>)
    requires Distinct(a) && Distinct(b) && forall x :: x in a ==> x !in b
    ensures Distinct(a + b) && forall x :: x in a + b <==> x in a || x in b
  {
    forall i, j | 0 <= i < j < |a + b| ensures (a + b)[i] != (a + b)[j] {
      if i < |a| <= j { assert a[i] in a && b[j - |a|] in b; }
    }
  }

  ghost predicate FromScan(parser: Parser, previous: Index, scan: Scan, c: Contribution) {
    exists f :: f in scan.files && c == ContributionOf(parser, previous, f, scan.onDisk)
  }

  ghost predicate FromRetention(before: Index, scan: Scan, c: Contribution) {
    exists p :: p in scan.unreadable && p in Paths(before.files)
        && c == Retained(before, RecordAt(before.files, p).value)
  }

  lemma ContributionOwned(parser: Parser, previous: Index, f: ScannedFile, onDisk: set<Path>)
    ensures ContributionOf(parser, previous, f, onDisk).Owned()
    ensures ContributionOf(parser, previous, f, onDisk).record.path == f.path
    ensures ContributionOf(parser, previous, f, onDisk).record.content == f.content
  {
  }

  lemma DistinctByPosition(cs: seq<Contribution>)
    requires forall i :: 0 <= i < |cs| ==> cs[i].Owned()
    requires forall i, j :: 0 <= i < j < |cs| ==> cs[i].record.path != cs[j].record.path
    ensures DistinctContributions(cs)
  {
  }

  lemma ScannedDistinct(parser: Parser, previous: Index, scan: Scan)
    requires scan.Valid()
    ensures DistinctContributions(ScannedContributions(parser, previous, Order(previous, scan.files), scan.onDisk))
  {
    var order := Order(previous, scan.files);
    OrderIsScan(previous, scan);
    forall i | 0 <= i < |order| ensures order[i] in scan.files {
      assert order[i] in order;
    }
    var a := ScannedContributions(parser, previous, order, scan.onDisk);
    forall i | 0 <= i < |a| ensures a[i].Owned() && a[i].record.path == order[i].path {
      ContributionOwned(parser, previous, order[i], scan.onDisk);
    }
    forall i, j | 0 <= i < j < |a| ensures a[i].record.path != a[j].record.path {
      assert order[i] != order[j];
    }
    DistinctByPosition(a);
  }

  lemma ScannedMembers(parser: Parser, previous: Index, scan: Scan)
    requires scan.Valid()
    ensures var a := ScannedContributions(parser, previous, Order(previous, scan.files), scan.onDisk);
            && (forall f :: f in scan.files ==> ContributionOf(parser, previous, f, scan.onDisk) in a)
            && (forall c :: c in a ==> FromScan(parser, previous, scan, c) && c.record.path !in scan.unreadable)
  {
    var order := Order(previous, scan.files);
    var a := ScannedContributions(parser, previous, order, scan.onDisk);
    OrderIsScan(previous, scan);
    forall f | f in scan.files ensures ContributionOf(parser, previous, f, scan.onDisk) in a {
      assert f in order;
      var i :| 0 <= i < |order| && order[i] == f;
      assert a[i] in a;
    }
    forall c | c in a ensures FromScan(parser, previous, scan, c) && c.record.path !in scan.unreadable {
      var i :| 0 <= i < |a| && a[i] == c;
      assert order[i] in order;
      ContributionOwned(parser, previous, order[i], scan.onDisk);
    }
  }

  lemma RetainedDistinct(before: Index, scan: Scan)
    ensures DistinctContributions(RetainedContributions(before, RetainedPaths(before, scan)))
  {
    var kept := RetainedPaths(before, scan);
    var b := RetainedContributions(before, kept);
    forall i | 0 <= i < |b| ensures b[i].Owned() && b[i].record.path == kept[i] {
      assert kept[i] in kept;
    }
    DistinctByPosition(b);
  }

  lemma RetainedListed(before: Index, scan: Scan, p: Path)
    requires p in scan.unreadable && p in Paths(before.files)
    ensures Retained(before, RecordAt(before.files, p).value) in RetainedContributions(before,
        RetainedPaths(before, scan))
  {
    var kept := RetainedPaths(before, scan);
    assert p in kept;
    var i :| 0 <= i < |kept| && kept[i] == p;
    assert RetainedContributions(before, kept)[i] == Retained(before, RecordAt(before.files, p).value);
  }

  lemma RetainedFrom(before: Index, scan: Scan, c: Contribution)
    requires c in RetainedContributions(before, RetainedPaths(before, scan))
    ensures FromRetention(before, scan, c) && c.record.path in scan.unreadable
  {
    var kept := RetainedPaths(before, scan);
    var b := RetainedContributions(before, kept);
    var i :| 0 <= i < |b| && b[i] == c;
    assert kept[i] in kept;
  }

  lemma RetainedMembers(before: Index, scan: Scan)
    ensures var b := RetainedContributions(before, RetainedPaths(before, scan));
            && (forall p :: p in scan.unreadable && p in Paths(before.files) ==>
              Retained(before, RecordAt(before.files, p).value) in b)
            && (forall c :: c in b ==> FromRetention(before, scan, c) && c.record.path in scan.unreadable)
  {
    var b := RetainedContributions(before, RetainedPaths(before, scan));
    forall p | p in scan.unreadable && p in Paths(before.files)
        ensures Retained(before, RecordAt(before.files, p).value) in b {
      RetainedListed(before, scan, p);
    }
    forall c | c in b ensures FromRetention(before, scan, c) && c.record.path in scan.unreadable {
      RetainedFrom(before, scan, c);
    }
  }

  /** A run's contributions: one per scanned file and one per unreadable file still indexed. */
  lemma ContributionsAre(parser: Parser, before: Index, scan: Scan, full: bool)
    requires scan.Valid()
    ensures var cs, previous := Contributions(parser, before, scan, full), if full then EMPTY_INDEX else before;
            && DistinctContributions(cs)
            && (forall f :: f in scan.files ==> ContributionOf(parser, previous, f, scan.onDisk) in cs)
            && (forall p :: p in scan.unreadable && p in Paths(before.files) ==>
              Retained(before, RecordAt(before.files, p).value) in cs)
            && (forall c :: c in cs ==> FromScan(parser, previous, scan, c) || FromRetention(before, scan, c))
  {
    var previous := if full then EMPTY_INDEX else before;
    ScannedDistinct(parser, previous, scan);
    ScannedMembers(parser, previous, scan);
    RetainedDistinct(before, scan);
    RetainedMembers(before, scan);
    var a := ScannedContributions(parser, previous, Order(previous, scan.files), scan.onDisk);
    var b := RetainedContributions(before, RetainedPaths(before, scan));
    JoinDistinct(a, b);
  }

  lemma JoinDistinct(a: seq<Contribution>, b: seq<Contribution>)
    requires DistinctContributions(a) && DistinctContributions(b)
    requires forall c, d :: c in a && d in b ==> c.record.path != d.record.path
    ensures DistinctContributions(a + b)
  {
    forall i, j | 0 <= i < j < |a + b| ensures (a + b)[i].record.path != (a + b)[j].record.path {
      if i < |a| <= j {
        assert a[i] in a && b[j - |a|] in b;
      }
    }
  }

  /** The edges of one file once its pending references are resolved against the run's symbols. */
  function FinalEdges(symbols: seq<Symbol>, c: Contribution): seq<Edge> {
    c.edges + if c.pending.None?
        then [] else Resolve(c.record.path, c.pending.value, TableOf(symbols), Imported(c.edges, c.record.path))
  }

  ghost predicate Shows(x: Index, c: Contribution) {
    && RecordAt(x.files, c.record.path) == Some(c.record)
    && SymbolsAt(x.symbols, c.record.path) == c.symbols
    && EdgesFrom(x.edges, c.record.path) == FinalEdges(x.symbols, c)
  }

  lemma AssembledShows(cs: seq<Contribution>, c: Contribution)
    requires DistinctContributions(cs) && c in cs
    ensures Shows(Assemble(cs), c)
  {
    AssembledView(cs, c);
    var base, p := Flat(cs, EdgesOfContribution), c.record.path;
    FlatView(cs, EdgesOfContribution, FromFile(p), p);
    assert EdgesFrom(base, p) == c.edges;
    assert Imported(base, p) == Imported(c.edges, p) by {
      assert forall e :: e in c.edges <==> e in base && e.sourceFile == p;
    }
  }

  lemma RecordsComeFrom(cs: seq<Contribution>, r: IndexedFile)
    requires r in Assemble(cs).files
    ensures exists c :: c in cs && c.record == r
  {
    FlatRecords(cs);
    var i :| 0 <= i < |cs| && Assemble(cs).files[i] == r;
    assert cs[i] in cs;
  }

  // ------------------------------------------------- what every run keeps

  /** The source symbols of an index's edges are declared in the edge's own file. */
  ghost predicate SourcesDeclared(x: Index) {
    forall e :: e in x.edges && e.sourceSymbol.Some? ==>
        e.sourceSymbol.value in SymbolIds(SymbolsAt(x.symbols, e.sourceFile))
  }

  ghost predicate RowsShaped(x: Index) {
    && (forall e :: e in x.edges && e.edgeType == Imports ==> e == ImportRow(e.sourceFile, e.targetFile))
    && (forall e :: e in x.edges ==> e.sourceFile in Paths(x.files))
    && (forall s :: s in x.symbols ==> s.file in Paths(x.files))
  }

  ghost predicate RecordFaithful(parser: Parser, x: Index, r: IndexedFile) {
    r.status != ScanError ==>
      r.status == StatusOf(parser, r.path, r.content)
          && SymbolsAt(x.symbols, r.path) == Declared(parser, r.path, r.content)
  }

  /** Every file not marked unreadable carries exactly what parsing its recorded content yields. */
  ghost predicate Faithful(parser: Parser, x: Index) {
    && DistinctRecords(x.files)
    && (forall r :: r in x.files ==> RecordFaithful(parser, x, r))
    && RowsShaped(x)
    && SourcesDeclared(x)
  }

  lemma ScannedFaithful(parser: Parser, before: Index, scan: Scan, full: bool, f: ScannedFile)
    requires Faithful(parser, before) && f in scan.files
    ensures var previous := if full then EMPTY_INDEX else before;
            var c := ContributionOf(parser, previous, f, scan.onDisk);
            && c.record == IndexedFile(f.path, f.content, StatusOf(parser, f.path, f.content))
            && c.symbols == Declared(parser, f.path, f.content)
  {
    if !full && Reused(before, f) {
      assert RecordFaithful(parser, before, RecordAt(before.files, f.path).value);
    }
  }

  lemma EdgeRowShaped(parser: Parser, before: Index, scan: Scan, full: bool, c: Contribution, e: Edge,
      symbols: seq<Symbol>)
    requires Faithful(parser, before) && e in FinalEdges(symbols, c) && SymbolsAt(symbols, c.record.path) == c.symbols
    requires FromScan(parser, if full then EMPTY_INDEX else before, scan, c) || FromRetention(before, scan, c)
    ensures e.sourceFile == c.record.path
    ensures e.edgeType == Imports ==> e == ImportRow(e.sourceFile, e.targetFile)
    ensures e.sourceSymbol.Some? ==> e.sourceSymbol.value in SymbolIds(c.symbols)
  {
    if e in c.edges {
      if FromRetention(before, scan, c) {
        RetainedEdgeShaped(parser, before, scan, c, e);
      } else {
        ScannedEdgeShaped(parser, if full then EMPTY_INDEX else before, scan, c, e);
      }
    } else {
      ResolvedSources(c.record.path, c.pending.value, TableOf(symbols), Imported(c.edges, c.record.path), e);
      TableOfIsGrouping(symbols);
    }
  }

  lemma RetainedEdgeShaped(parser: Parser, before: Index, scan: Scan, c: Contribution, e: Edge)
    requires Faithful(parser, before) && e in c.edges && FromRetention(before, scan, c)
    ensures e.sourceFile == c.record.path
    ensures e.edgeType == Imports ==> e == ImportRow(e.sourceFile, e.targetFile)
    ensures e.sourceSymbol.Some? ==> e.sourceSymbol.value in SymbolIds(c.symbols)
  {
    assert c.symbols == SymbolsAt(before.symbols, c.record.path);
  }

  lemma ScannedEdgeShaped(parser: Parser, previous: Index, scan: Scan, c: Contribution, e: Edge)
    requires e in c.edges && FromScan(parser, previous, scan, c) && RowsShaped(previous)
    ensures e.sourceFile == c.record.path
    ensures e.edgeType == Imports ==> e == ImportRow(e.sourceFile, e.targetFile)
    ensures e.sourceSymbol == None
  {
  }

  lemma {:induction false} ResolvedSources(file: Path, refs: seq<RawReference>, table: SymbolTable,
      imported: set<Path>, e: Edge)
    requires e in Resolve(file, refs, table, imported)
    ensures e.sourceSymbol.Some? ==> e.sourceSymbol.value in SymbolIds(Lookup(table, file))
  {
    if refs != [] && e in Resolve(file, refs[..|refs| - 1], table, imported) {
      ResolvedSources(file, refs[..|refs| - 1], table, imported, e);
    }
  }

  lemma RunKeepsFaithful(parser: Parser, before: Index, scan: Scan, full: bool)
    requires Faithful(parser, before) && scan.Valid()
    ensures Faithful(parser, RunResult(parser, before, scan, full))
  {
    var cs, x := Contributions(parser, before, scan, full), RunResult(parser, before, scan, full);
    ContributionsAre(parser, before, scan, full);
    FlatRecords(cs);
    forall r | r in x.files ensures RecordFaithful(parser, x, r) {
      RecordsComeFrom(cs, r);
      var c :| c in cs && c.record == r;
      AssembledShows(cs, c);
      if FromScan(parser, if full then EMPTY_INDEX else before, scan, c) {
        var f :| f in scan.files && c == ContributionOf(parser, if full then EMPTY_INDEX else before, f, scan.onDisk);
        ScannedFaithful(parser, before, scan, full, f);
      }
    }
    forall s | s in x.symbols ensures s.file in Paths(x.files) {
      assert s in SymbolsAt(x.symbols, s.file);
      OwnerExists(cs, s.file);
      var c :| c in cs && c.record.path == s.file;
      AssembledShows(cs, c);
      assert RecordAt(x.files, s.file).value in x.files;
    }
    forall e | e in x.edges
      ensures e.sourceFile in Paths(x.files)
      ensures e.edgeType == Imports ==> e == ImportRow(e.sourceFile, e.targetFile)
      ensures e.sourceSymbol.Some? ==> e.sourceSymbol.value in SymbolIds(SymbolsAt(x.symbols, e.sourceFile))
    {
      assert e in EdgesFrom(x.edges, e.sourceFile);
      OwnerExists(cs, e.sourceFile);
      var c :| c in cs && c.record.path == e.sourceFile;
      AssembledShows(cs, c);
      assert RecordAt(x.files, e.sourceFile).value in x.files;
      EdgeRowShaped(parser, before, scan, full, c, e, x.symbols);
    }
  }

  lemma OwnerExists(cs: seq<Contribution>, p: Path)
    requires DistinctContributions(cs)
    requires SymbolsAt(Assemble(cs).symbols, p) != [] || EdgesFrom(Assemble(cs).edges, p) != []
    ensures exists c :: c in cs && c.record.path == p
  {
    if forall c :: c in cs ==> c.record.path != p {
      AssembledElsewhere(cs, p);
    }
  }

  lemma MaterializeKeepsFaithful(parser: Parser, x: Index)
    requires Faithful(parser, x)
    ensures Faithful(parser, Materialized(x))
  {
    var m := Materialized(x);
    forall e | e in m.edges
      ensures e.sourceFile in Paths(x.files)
      ensures e.edgeType == Imports ==> e == ImportRow(e.sourceFile, e.targetFile)
      ensures e.sourceSymbol.Some? ==> e.sourceSymbol.value in SymbolIds(SymbolsAt(x.symbols, e.sourceFile))
    {
      var i :| 0 <= i < |m.edges| && m.edges[i] == e;
      assert x.edges[i] in x.edges;
    }
    forall r | r in m.files ensures RecordFaithful(parser, m, r) {
      assert RecordFaithful(parser, x, r);
    }
  }
}
