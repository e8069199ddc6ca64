/** Which files join which scopes, and what a reconcile reports, said of the scopes and the index alone. */
module Membership {
  import opened Collections
  import opened CodeIndex
  import opened Scopes
  import opened Reconcile

  // --------------------------------------------------------------- what points where

  /** The last symbol row with this id is declared in this file. */
  ghost predicate DeclaredIn(y: string, f: Path, x: Index) {
    exists i :: 0 <= i < |x.symbols| && x.symbols[i].id == y && x.symbols[i].file == f
                && forall j :: i < j < |x.symbols| ==> x.symbols[j].id != y
  }

  lemma {:induction false} OwnersExactly(symbols: seq<Symbol>, y: string)
    ensures y in Owners(symbols) <==> exists s :: s in symbols && s.id == y
    ensures y in Owners(symbols) ==>
      exists i :: 0 <= i < |symbols| && symbols[i].id == y && symbols[i].file == Owners(symbols)[y]
                  && forall j :: i < j < |symbols| ==> symbols[j].id != y
  {
    if symbols != [] {
      var n := |symbols| - 1;
      assert symbols == symbols[..n] + [symbols[n]];
      OwnersExactly(symbols[..n], y);
      if symbols[n].id != y && y in Owners(symbols[..n]) {
        var i :| 0 <= i < n && symbols[..n][i].id == y && symbols[..n][i].file == Owners(symbols[..n])[y]
                 && forall j :: i < j < n ==> symbols[..n][j].id != y;
        assert symbols[i].id == y && symbols[i].file == Owners(symbols)[y];
        assert forall j :: i < j < n ==> symbols[j] == symbols[..n][j];
      }
    }
  }

  lemma DeclaredIsOwner(y: string, f: Path, x: Index)
    ensures DeclaredIn(y, f, x) <==> y in Owners(x.symbols) && Owners(x.symbols)[y] == f
  {
    OwnersExactly(x.symbols, y);
    if DeclaredIn(y, f, x) {
      var i :| 0 <= i < |x.symbols| && x.symbols[i].id == y && x.symbols[i].file == f
               && forall j :: i < j < |x.symbols| ==> x.symbols[j].id != y;
      assert x.symbols[i] in x.symbols;
    }
  }

  /** A symbol of the file is a member of the scope. */
  ghost predicate HasSymbolIn(s: Scope, f: Path, x: Index) { exists y :: y in s.symbols && DeclaredIn(y, f, x) }

  ghost predicate Covers(s: Scope, f: Path, x: Index) { f in s.files || HasSymbolIn(s, f, x) }

  ghost predicate Imported(e: Edge, p: Path, f: Path, x: Index) {
    e in x.edges && e.sourceFile == p && e.edgeType == Imports && e.confidence == 1.0 && e.targetFile == Some(f)
  }

  /** The path imports, with full confidence, a file the scope covers, and the scope is not locked. */
  ghost predicate PointsTo(p: Path, s: Scope, x: Index) {
    && !s.locked
    && exists e, f :: Imported(e, p, f, x) && Covers(s, f, x)
  }

  /** The path points to this scope and to no other. */
  ghost predicate PointsOnlyTo(p: Path, s: Scope, scopes: seq<Scope>, x: Index) {
    PointsTo(p, s, x) && forall t :: t in scopes && t.id != s.id ==> !PointsTo(p, t, x)
  }

  lemma CoversIsMember(s: Scope, f: Path, x: Index)
    ensures Covers(s, f, x) <==> f in MemberFiles(s, Owners(x.symbols))
  {
    forall y ensures DeclaredIn(y, f, x) <==> y in Owners(x.symbols) && Owners(x.symbols)[y] == f {
      DeclaredIsOwner(y, f, x);
    }
  }

  /** A candidate is an unlocked scope that covers a file this path imports with full confidence. */
  lemma CandidateExactly(scopes: seq<Scope>, x: Index, p: Path, s: Scope)
    requires UniqueIds(scopes) && s in scopes
    ensures s.id in Candidates(scopes, x)(p) <==> PointsTo(p, s, x)
  {
    CandidateMeaning(scopes, x, p, s);
    var members := MemberFiles(s, Owners(x.symbols));
    forall f ensures Covers(s, f, x) <==> f in members { CoversIsMember(s, f, x); }
    if PointsInto(x.edges, p, members) {
      var e :| e in x.edges && Evidence(e, p) && e.targetFile.value in members;
      assert Imported(e, p, e.targetFile.value, x) && Covers(s, e.targetFile.value, x);
    }
    if e, f :| Imported(e, p, f, x) && Covers(s, f, x) { assert Evidence(e, p); }
  }

  lemma CandidateIsScope(scopes: seq<Scope>, x: Index, p: Path, id: string)
    requires id in Candidates(scopes, x)(p)
    ensures exists s :: s in scopes && s.id == id
  {
    CandidatesAreScopes(scopes, Owners(x.symbols), id);
  }

  lemma SoleCandidate(scopes: seq<Scope>, x: Index, p: Path, s: Scope)
    requires UniqueIds(scopes) && s in scopes
    ensures Candidates(scopes, x)(p) == {s.id} <==> PointsOnlyTo(p, s, scopes, x)
  {
    var c := Candidates(scopes, x)(p);
    forall t | t in scopes ensures t.id in c <==> PointsTo(p, t, x) { CandidateExactly(scopes, x, p, t); }
    forall id | id in c ensures exists t :: t in scopes && t.id == id && PointsTo(p, t, x) {
      CandidateIsScope(scopes, x, p, id);
    }
  }

  // ------------------------------------------------------------------ assignment

  /** A scope keeps all it had but its files, and gains exactly the new files that point to it and to no other; its
      files are sorted once it gains one, each new one listed once. */
  lemma AssignedExactly(scopes: seq<Scope>, x: Index, added: set<Path>, i: nat)
    requires UniqueIds(scopes) && i < |scopes|
    ensures var after, s := AssignFold(scopes, Candidates(scopes, x), Sorted(added)), scopes[i];
            && |after| == |scopes| && after[i] == s.(files := after[i].files)
            && (forall f :: f in after[i].files <==> f in s.files || (f in added && PointsOnlyTo(f, s, scopes, x)))
            && (after[i] != s ==> Ascending(after[i].files))
            && (forall f :: f !in s.files ==> multiset(after[i].files)[f] <= 1)
            && (forall f :: f in s.files ==> multiset(after[i].files)[f] == multiset(s.files)[f])
  {
    WritersOnlyAdd(scopes, x, added, i);
    AssignIsGrowth(scopes, Candidates(scopes, x), Sorted(added));
    GrownCounts(scopes[i], Candidates(scopes, x), Sorted(added));
    forall f ensures Candidates(scopes, x)(f) == {scopes[i].id} <==> PointsOnlyTo(f, scopes[i], scopes, x) {
      SoleCandidate(scopes, x, f, scopes[i]);
    }
  }

  lemma GrownCounts(s: Scope, candidates: Path -> set<string>, ordered: seq<Path>)
    requires Distinct(ordered)
    ensures var after := Grow(s, Filter(ordered, GoesTo(s, candidates)));
            && (after != s ==> Ascending(after.files))
            && (forall f :: f !in s.files ==> multiset(after.files)[f] <= 1)
            && (forall f :: f in s.files ==> multiset(after.files)[f] == multiset(s.files)[f])
  {
    var gained := Filter(ordered, GoesTo(s, candidates));
    FilterDistinct(ordered, GoesTo(s, candidates));
    forall f ensures multiset(gained)[f] <= 1 && (f in s.files ==> multiset(gained)[f] == 0) {
      DistinctCount(gained, f);
    }
    if gained != [] { assert multiset(SortStrings(s.files + gained)) == multiset(s.files) + multiset(gained); }
  }

  lemma {:induction false} DistinctCount(s: seq<Path>, f: Path)
    requires Distinct(s)
    ensures multiset(s)[f] == if f in s then 1 else 0
  {
    if s != [] {
      var front, last := s[..|s| - 1], s[|s| - 1];
      DistinctFront(s);
      DistinctCount(front, f);
    }
  }

  /** The ids reported are exactly those of the scopes that gained a file. */
  lemma ReportedExactly(scopes: seq<Scope>, x: Index, added: set<Path>, i: nat)
    requires UniqueIds(scopes) && i < |scopes|
    ensures scopes[i].id in ChangedIds(scopes, Candidates(scopes, x), Sorted(added))
        <==> exists f :: f in added && f !in scopes[i].files && PointsOnlyTo(f, scopes[i], scopes, x)
  {
    var goes := GoesTo(scopes[i], Candidates(scopes, x));
    ChangedIdsMeaning(scopes, Candidates(scopes, x), Sorted(added), i);
    forall f ensures goes(f) <==> f !in scopes[i].files && PointsOnlyTo(f, scopes[i], scopes, x) {
      SoleCandidate(scopes, x, f, scopes[i]);
    }
    if Filter(Sorted(added), goes) != [] {
      var f := Filter(Sorted(added), goes)[0];
      assert f in Filter(Sorted(added), goes);
    }
  }

  // -------------------------------------------------------------------- reconcile

  /** An indexed file that no scope covers. */
  ghost predicate Free(f: Path, scopes: seq<Scope>, x: Index) {
    HasFile(x, f) && forall s :: s in scopes ==> !Covers(s, f, x)
  }

  lemma FreeIsUnassigned(scopes: seq<Scope>, x: Index, f: Path)
    ensures f in Unassigned(scopes, x) <==> Free(f, scopes, x)
  {
    assert HasFile(x, f) <==> f in Paths(x.files);
    forall s | s in scopes ensures Covers(s, f, x) <==> f in MemberFiles(s, Owners(x.symbols)) {
      CoversIsMember(s, f, x);
    }
    assert f in ListedFiles(scopes) + CoveredFiles(scopes, Owners(x.symbols))
      <==> exists s :: s in scopes && f in MemberFiles(s, Owners(x.symbols));
  }

  /** The free files that point to one scope only. */
  ghost function Lone(scopes: seq<Scope>, x: Index): set<Path> {
    set f | f in Unassigned(scopes, x) && exists s :: s in scopes && PointsOnlyTo(f, s, scopes, x)
  }

  lemma PairsStep(candidates: Path -> set<string>, front: seq<Path>, p: Path)
    requires p !in front
    ensures |AutoPairs(candidates, front + [p])| == |AutoPairs(candidates, front)|
        + if |candidates(p)| == 1 then 1 else 0
    ensures |set f | f in front + [p] && |candidates(f)| == 1|
         == |set f | f in front && |candidates(f)| == 1| + if |candidates(p)| == 1 then 1 else 0
  {
    AutoPairsSnoc(candidates, front, p);
    var before, after := set f | f in front && |candidates(f)| == 1, set f | f in front + [p] && |candidates(f)| == 1;
    if |candidates(p)| == 1 { assert after == before + {p}; } else { assert after == before; }
  }

  lemma {:induction false} PairsCounted(candidates: Path -> set<string>, ordered: seq<Path>)
    requires Distinct(ordered)
    ensures |AutoPairs(candidates, ordered)| == |set f | f in ordered && |candidates(f)| == 1|
  {
    if ordered != [] {
      var front, p := ordered[..|ordered| - 1], ordered[|ordered| - 1];
      DistinctFront(ordered);
      PairsCounted(candidates, front);
      PairsStep(candidates, front, p);
      assert ordered == front + [p];
    } else {
      assert (set f | f in ordered && |candidates(f)| == 1) == {};
    }
  }

  lemma SingleCandidate(scopes: seq<Scope>, x: Index, f: Path)
    requires UniqueIds(scopes)
    ensures |Candidates(scopes, x)(f)| == 1 <==> exists s :: s in scopes && PointsOnlyTo(f, s, scopes, x)
  {
    var c := Candidates(scopes, x)(f);
    if |c| == 1 {
      var id := Least(c);
      OnlyElement(c, id);
      CandidateIsScope(scopes, x, f, id);
      var s :| s in scopes && s.id == id;
      SoleCandidate(scopes, x, f, s);
    }
    if s :| s in scopes && PointsOnlyTo(f, s, scopes, x) { SoleCandidate(scopes, x, f, s); }
  }

  lemma LoneCounted(scopes: seq<Scope>, x: Index)
    requires UniqueIds(scopes)
    ensures |AutoPairs(Candidates(scopes, x), Sorted(Unassigned(scopes, x)))| == |Lone(scopes, x)|
  {
    var candidates, ordered := Candidates(scopes, x), Sorted(Unassigned(scopes, x));
    PairsCounted(candidates, ordered);
    forall f ensures |candidates(f)| == 1 <==> exists s :: s in scopes && PointsOnlyTo(f, s, scopes, x) {
      SingleCandidate(scopes, x, f);
    }
    assert (set f | f in ordered && |candidates(f)| == 1) == Lone(scopes, x);
  }

  lemma LoneExactly(scopes: seq<Scope>, x: Index, f: Path)
    ensures f in Lone(scopes, x) <==> Free(f, scopes, x) && exists s :: s in scopes && PointsOnlyTo(f, s, scopes, x)
  {
    FreeIsUnassigned(scopes, x, f);
  }

  /** `after` is the scopes with exactly the lone files added, each to the scope it points to. */
  ghost predicate LoneAdded(scopes: seq<Scope>, x: Index, after: seq<Scope>) {
    |after| == |scopes| && forall i :: 0 <= i < |scopes| ==>
      && after[i] == scopes[i].(files := after[i].files)
      && forall f :: f in after[i].files
           <==> f in scopes[i].files || (f in Lone(scopes, x) && PointsOnlyTo(f, scopes[i], scopes, x))
  }

  lemma AssignedLone(scopes: seq<Scope>, x: Index)
    requires UniqueIds(scopes)
    ensures LoneAdded(scopes, x, AssignFold(scopes, Candidates(scopes, x), Sorted(Unassigned(scopes, x))))
  {
    var after := AssignFold(scopes, Candidates(scopes, x), Sorted(Unassigned(scopes, x)));
    if scopes == [] { AssignIsGrowth(scopes, Candidates(scopes, x), Sorted(Unassigned(scopes, x))); }
    forall i | 0 <= i < |scopes|
      ensures |after| == |scopes| && after[i] == scopes[i].(files := after[i].files)
      ensures forall f :: f in after[i].files
                <==> f in scopes[i].files || (f in Lone(scopes, x) && PointsOnlyTo(f, scopes[i], scopes, x))
    {
      AssignedExactly(scopes, x, Unassigned(scopes, x), i);
    }
  }

  /** Reconcile writes exactly when it is not a full run and the free files that point to one scope only are some, and
      no more than the threshold; it then adds each of them to that scope, and nothing else. */
  lemma ReconcileWritesExactly(scopes: seq<Scope>, x: Index, full: bool, threshold: nat)
    requires UniqueIds(scopes)
    ensures var r := Reconciled(scopes, x, full, threshold);
            && (r.Some? <==> !full && 0 < |Lone(scopes, x)| <= threshold)
            && (r.Some? ==> LoneAdded(scopes, x, r.value))
  {
    LoneCounted(scopes, x);
    ReconcileIsAssignment(scopes, x, full, threshold);
    AssignedLone(scopes, x);
  }
}
