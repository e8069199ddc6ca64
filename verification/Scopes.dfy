/** Automatic scope membership: the update's assignment rule, and the reconcile report that applies the same rule. */
module Scopes {
  import opened Collections
  import opened CodeIndex

  datatype ScopeSource = FromAuto | FromModel | FromHuman

  datatype Scope = Scope(id: string, name: string, locked: bool, source: ScopeSource, files: seq<Path>,
      symbols: seq<string>)

  /** `symbol_id` to file, the last row winning. */
  function Owners(symbols: seq<Symbol>): map<string, Path> {
    if symbols == [] then map[]
    else var s := symbols[|symbols| - 1]; Owners(symbols[..|symbols| - 1])[s.id := s.file]
  }

  /** The files a scope covers: those it lists, and those declaring a symbol it lists. */
  function MemberFiles(s: Scope, owner: map<string, Path>): set<Path> {
    (set f | f in s.files) + set y | y in s.symbols && y in owner :: owner[y]
  }

  function MemberFilesByUnlockedScope(scopes: seq<Scope>, owner: map<string, Path>): map<string, set<Path>> {
    if scopes == [] then map[]
    else
      var front, s := MemberFilesByUnlockedScope(scopes[..|scopes| - 1], owner), scopes[|scopes| - 1];
      if s.locked then front else front[s.id := MemberFiles(s, owner)]
  }

  /** An import edge certain enough to act on. */
  predicate Evidence(e: Edge, path: Path) {
    e.sourceFile == path && e.edgeType == Imports && e.confidence == 1.0 && e.targetFile.Some?
  }

  predicate PointsInto(edges: seq<Edge>, path: Path, members: set<Path>) {
    exists e :: e in edges && Evidence(e, path) && e.targetFile.value in members
  }

  function ImportCandidates(byScope: map<string, set<Path>>, path: Path, edges: seq<Edge>): set<string> {
    set id | id in byScope && PointsInto(edges, path, byScope[id])
  }

  function Candidates(scopes: seq<Scope>, x: Index): Path -> set<string> {
    var byScope := MemberFilesByUnlockedScope(scopes, Owners(x.symbols));
    (p: Path) => ImportCandidates(byScope, p, x.edges)
  }

  ghost predicate UniqueIds(scopes: seq<Scope>) {
    forall i, j :: 0 <= i < j < |scopes| ==> scopes[i].id != scopes[j].id
  }

  lemma SameIdSameScope(scopes: seq<Scope>, u: Scope, s: Scope)
    requires UniqueIds(scopes) && u in scopes && s in scopes
    ensures u.id == s.id ==> u == s
  {
  }

  lemma {:induction false} ByScopeMeaning(scopes: seq<Scope>, owner: map<string, Path>)
    requires UniqueIds(scopes)
    ensures var m := MemberFilesByUnlockedScope(scopes, owner);
            && (forall s :: s in scopes && !s.locked ==> s.id in m && m[s.id] == MemberFiles(s, owner))
            && (forall id :: id in m ==> exists s :: s in scopes && !s.locked && s.id == id)
  {
    if scopes != [] {
      var n := |scopes| - 1;
      ByScopeMeaning(scopes[..n], owner);
      assert scopes == scopes[..n] + [scopes[n]];
      assert forall s :: s in scopes[..n] ==> s.id != scopes[n].id;
    }
  }

  /** A candidate is an unlocked scope that covers a file this path certainly imports. */
  lemma CandidateMeaning(scopes: seq<Scope>, x: Index, path: Path, s: Scope)
    requires UniqueIds(scopes) && s in scopes
    ensures s.id in Candidates(scopes, x)(path)
        <==> !s.locked && PointsInto(x.edges, path, MemberFiles(s, Owners(x.symbols)))
  {
    ByScopeMeaning(scopes, Owners(x.symbols));
    assert forall t :: t in scopes && t.id == s.id ==> t == s;
  }

  lemma {:induction false} CandidatesAreScopes(scopes: seq<Scope>, owner: map<string, Path>, id: string)
    requires id in MemberFilesByUnlockedScope(scopes, owner)
    ensures exists s :: s in scopes && s.id == id
  {
    var n := |scopes| - 1;
    assert scopes == scopes[..n] + [scopes[n]];
    if id in MemberFilesByUnlockedScope(scopes[..n], owner) {
      CandidatesAreScopes(scopes[..n], owner, id);
    } else {
      assert scopes[n] in scopes;
    }
  }

  // -------------------------------------------------------- the two ways of writing

  function AddMember(s: Scope, path: Path): Scope { s.(files := SortStrings(s.files + [path])) }

  /** `get_scope`: the first scope with the id. */
  function FirstIndex(scopes: seq<Scope>, id: string): (i: nat)
    ensures i <= |scopes| && (i < |scopes| ==> scopes[i].id == id)
    ensures forall j :: 0 <= j < i ==> scopes[j].id != id
  {
    if scopes == [] || scopes[0].id == id then 0 else 1 + FirstIndex(scopes[1..], id)
  }

  /** The `{id: index}` dictionary: the last scope with the id. */
  function LastIndex(scopes: seq<Scope>, id: string): (i: nat)
    ensures i <= |scopes| && (i < |scopes| ==> scopes[i].id == id)
    ensures i == |scopes| ==> forall j :: 0 <= j < |scopes| ==> scopes[j].id != id
  {
    if scopes == [] then 0
    else if scopes[|scopes| - 1].id == id then |scopes| - 1
    else
      var i := LastIndex(scopes[..|scopes| - 1], id);
      if i == |scopes| - 1 then |scopes| else i
  }

  function AddAt(scopes: seq<Scope>, i: nat, path: Path): seq<Scope> {
    if i >= |scopes| || path in scopes[i].files then scopes else scopes[i := AddMember(scopes[i], path)]
  }

  /** What `assign_new_files_from_imports` leaves: one path at a time, into the first scope with the candidate's id. */
  function AssignFold(scopes: seq<Scope>, candidates: Path -> set<string>, ordered: seq<Path>): (r: seq<Scope>) {
    if ordered == [] then scopes
    else
      var current, p := AssignFold(scopes, candidates, ordered[..|ordered| - 1]), ordered[|ordered| - 1];
      if |candidates(p)| != 1 then current else AddAt(current, FirstIndex(current, Least(candidates(p))), p)
  }

  /** What `reconcile` stages: the collected pairs, each into the last scope with its id. */
  function StageFold(scopes: seq<Scope>, pairs: seq<(Path, string)>): seq<Scope> {
    if pairs == [] then scopes
    else
      var pair := pairs[|pairs| - 1];
      AddAt(StageFold(scopes, pairs[..|pairs| - 1]), LastIndex(scopes, pair.1), pair.0)
  }

  function AutoPairs(candidates: Path -> set<string>, ordered: seq<Path>): seq<(Path, string)> {
    if ordered == [] then []
    else
      var p := ordered[|ordered| - 1];
      AutoPairs(candidates, ordered[..|ordered| - 1]) + if |candidates(p)| == 1 then [(p, Least(candidates(p)))] else []
  }

  // --------------------------------------------------------------- what they write

  function GoesTo(s: Scope, candidates: Path -> set<string>): Path -> bool {
    (p: Path) => candidates(p) == {s.id} && p !in s.files
  }

  function Grow(s: Scope, added: seq<Path>): Scope {
    if added == [] then s else s.(files := SortStrings(s.files + added))
  }

  /** Every scope with the new files that point to it alone. */
  function GrowAll(scopes: seq<Scope>, candidates: Path -> set<string>, ordered: seq<Path>): (r: seq<Scope>)
    ensures |r| == |scopes|
  {
    seq(|scopes|, i requires 0 <= i < |scopes| => Grow(scopes[i], Filter(ordered, GoesTo(scopes[i], candidates))))
  }

  lemma SortedMultiset(a: seq<string>, b: seq<string>)
    requires multiset(a) == multiset(b)
    ensures SortStrings(a) == SortStrings(b)
  {
    AscendingUnique(SortStrings(a), SortStrings(b));
  }

  lemma GrowSnoc(s: Scope, added: seq<Path>, p: Path)
    ensures AddMember(Grow(s, added), p) == Grow(s, added + [p])
  {
    if added == [] {
      assert added + [p] == [p];
    } else {
      assert multiset(SortStrings(s.files + added) + [p]) == multiset(s.files + (added + [p]));
      SortedMultiset(SortStrings(s.files + added) + [p], s.files + (added + [p]));
    }
  }

  lemma GrowMembers(s: Scope, added: seq<Path>)
    ensures forall f :: f in Grow(s, added).files <==> f in s.files || f in added
  {
    SortStringsMembers(s.files + added);
  }

  /** One more path grows exactly the scope it points to alone. */
  lemma GrowAllStep(scopes: seq<Scope>, candidates: Path -> set<string>, ordered: seq<Path>, p: Path)
    ensures GrowAll(scopes, candidates, ordered + [p])
         == seq(|scopes|, i requires 0 <= i < |scopes| =>
              if GoesTo(scopes[i], candidates)(p)
                then AddMember(GrowAll(scopes, candidates, ordered)[i], p) else GrowAll(scopes, candidates, ordered)[i])
  {
    forall i | 0 <= i < |scopes|
      ensures GrowAll(scopes, candidates, ordered + [p])[i]
           == if GoesTo(scopes[i], candidates)(p)
             then AddMember(GrowAll(scopes, candidates, ordered)[i], p) else GrowAll(scopes, candidates, ordered)[i] {
      FilterSnoc(ordered, p, GoesTo(scopes[i], candidates));
      GrowSnoc(scopes[i], Filter(ordered, GoesTo(scopes[i], candidates)), p);
    }
  }

  lemma OnlyElement(s: set<string>, id: string)
    requires |s| == 1
    ensures s == {id} <==> Least(s) == id
  {
    var m := Least(s);
    assert s == {m} by { assert |s - {m}| == 0; }
  }

  /** The step both writers take for one path, when ids are unique. */
  lemma AddAtGrows(scopes: seq<Scope>, candidates: Path -> set<string>, ordered: seq<Path>, p: Path, at: nat)
    requires UniqueIds(scopes) && p !in ordered && |candidates(p)| == 1
    requires at <= |scopes| && (at < |scopes| ==> scopes[at].id == Least(candidates(p)))
    requires at == |scopes| ==> forall j :: 0 <= j < |scopes| ==> scopes[j].id != Least(candidates(p))
    ensures AddAt(GrowAll(scopes, candidates, ordered), at, p) == GrowAll(scopes, candidates, ordered + [p])
  {
    GrowAllStep(scopes, candidates, ordered, p);
    forall i | 0 <= i < |scopes| ensures GoesTo(scopes[i], candidates)(p) <==> i == at && p !in scopes[i].files {
      OnlyElement(candidates(p), scopes[i].id);
    }
    if at < |scopes| { GrowMembers(scopes[at], Filter(ordered, GoesTo(scopes[at], candidates))); }
  }

  lemma NoCandidateNoGrowth(scopes: seq<Scope>, candidates: Path -> set<string>, ordered: seq<Path>, p: Path)
    requires |candidates(p)| != 1
    ensures GrowAll(scopes, candidates, ordered + [p]) == GrowAll(scopes, candidates, ordered)
  {
    GrowAllStep(scopes, candidates, ordered, p);
    assert forall i :: 0 <= i < |scopes| ==> !GoesTo(scopes[i], candidates)(p) by {
      assert forall id: string :: |{id}| == 1;
    }
  }

  lemma GrowNothing(scopes: seq<Scope>, candidates: Path -> set<string>)
    ensures GrowAll(scopes, candidates, []) == scopes
  {
  }

  lemma IndexesOfGrown(scopes: seq<Scope>, candidates: Path -> set<string>, ordered: seq<Path>, id: string)
    ensures FirstIndex(GrowAll(scopes, candidates, ordered), id) == FirstIndex(scopes, id)
  {
    var grown := GrowAll(scopes, candidates, ordered);
    assert forall i :: 0 <= i < |scopes| ==> grown[i].id == scopes[i].id;
  }

  lemma DistinctFront(ordered: seq<Path>)
    requires Distinct(ordered) && ordered != []
    ensures Distinct(ordered[..|ordered| - 1]) && ordered[|ordered| - 1] !in ordered[..|ordered| - 1]
    ensures ordered == ordered[..|ordered| - 1] + [ordered[|ordered| - 1]]
  {
  }

  lemma {:induction false} AssignIsGrowth(scopes: seq<Scope>, candidates: Path -> set<string>, ordered: seq<Path>)
    requires UniqueIds(scopes) && Distinct(ordered)
    ensures AssignFold(scopes, candidates, ordered) == GrowAll(scopes, candidates, ordered)
  {
    if ordered == [] {
      GrowNothing(scopes, candidates);
    } else {
      var front, p := ordered[..|ordered| - 1], ordered[|ordered| - 1];
      DistinctFront(ordered);
      AssignIsGrowth(scopes, candidates, front);
      if |candidates(p)| == 1 {
        IndexesOfGrown(scopes, candidates, front, Least(candidates(p)));
        AddAtGrows(scopes, candidates, front, p, FirstIndex(scopes, Least(candidates(p))));
      } else {
        NoCandidateNoGrowth(scopes, candidates, front, p);
      }
    }
  }

  lemma {:induction false} StageIsGrowth(scopes: seq<Scope>, candidates: Path -> set<string>, ordered: seq<Path>)
    requires UniqueIds(scopes) && Distinct(ordered)
    ensures StageFold(scopes, AutoPairs(candidates, ordered)) == GrowAll(scopes, candidates, ordered)
  {
    if ordered == [] {
      GrowNothing(scopes, candidates);
    } else {
      var front, p := ordered[..|ordered| - 1], ordered[|ordered| - 1];
      DistinctFront(ordered);
      StageIsGrowth(scopes, candidates, front);
      if |candidates(p)| == 1 {
        var pair := (p, Least(candidates(p)));
        assert (AutoPairs(candidates, front) + [pair])[..|AutoPairs(candidates, front)|]
            == AutoPairs(candidates, front);
        AddAtGrows(scopes, candidates, front, p, LastIndex(scopes, pair.1));
      } else {
        NoCandidateNoGrowth(scopes, candidates, front, p);
        assert AutoPairs(candidates, ordered) == AutoPairs(candidates, front);
      }
    }
  }

  // ------------------------------------------------------------ the update's writer

  class ScopesFile {
    var scopes: seq<Scope>

    constructor (scopes: seq<Scope>)
      ensures this.scopes == scopes
    {
      this.scopes := scopes;
    }

    method AssignNewFilesFromImports(added: set<Path>, x: Index) returns (changed: seq<string>)
      modifies this
      ensures scopes == AssignFold(old(scopes), Candidates(old(scopes), x), Sorted(added))
      ensures changed == ChangedIds(old(scopes), Candidates(old(scopes), x), Sorted(added))
    {
      changed := [];
      var memberFilesByScope := MemberFilesByUnlockedScope(scopes, Owners(x.symbols));
      var ordered := Sorted(added);
      ghost var candidates := Candidates(scopes, x);
      for k := 0 to |ordered|
        invariant scopes == AssignFold(old(scopes), candidates, ordered[..k])
        invariant changed == ChangedIds(old(scopes), candidates, ordered[..k])
      {
        var path := ordered[k];
        AssignStep(old(scopes), candidates, ordered, k);
        var candidateIds := ImportCandidates(memberFilesByScope, path, x.edges);
        if |candidateIds| != 1 { continue; }
        var id := Least(candidateIds);
        var i := FirstIndex(scopes, id);
        CandidateFound(old(scopes), Owners(x.symbols), candidates, ordered[..k], id);
        if path in scopes[i].files { continue; }
        scopes := scopes[i := AddMember(scopes[i], path)];
        changed := changed + [id];
      }
      TakeAll(ordered);
    }
  }

  /** What one path does to the scopes and the reported ids. */
  lemma AssignStep(scopes: seq<Scope>, candidates: Path -> set<string>, ordered: seq<Path>, k: nat)
    requires k < |ordered|
    ensures var current, changed, p := AssignFold(scopes, candidates, ordered[..k]),
        ChangedIds(scopes, candidates, ordered[..k]), ordered[k];
            var next, nextChanged := AssignFold(scopes, candidates, ordered[..k + 1]),
                ChangedIds(scopes, candidates, ordered[..k + 1]);
            if |candidates(p)| != 1 then next == current && nextChanged == changed
            else
              var i := FirstIndex(current, Least(candidates(p)));
              && next == AddAt(current, i, p)
              && nextChanged == if i >= |current| || p in current[i].files
                then changed else changed + [Least(candidates(p))]
  {
    TakeSnoc(ordered, k);
  }

  /** The ids of the scopes that grew, once per new file. */
  function ChangedIds(scopes: seq<Scope>, candidates: Path -> set<string>, ordered: seq<Path>): seq<string> {
    if ordered == [] then []
    else
      var front, p := ordered[..|ordered| - 1], ordered[|ordered| - 1];
      var current, changed := AssignFold(scopes, candidates, front), ChangedIds(scopes, candidates, front);
      if |candidates(p)| != 1 then changed
      else
        var id := Least(candidates(p));
        var i := FirstIndex(current, id);
        if i >= |current| || p in current[i].files then changed else changed + [id]
  }

  lemma {:induction false} AssignKeepsIds(scopes: seq<Scope>, candidates: Path -> set<string>, ordered: seq<Path>)
    ensures var r := AssignFold(scopes, candidates, ordered);
        |r| == |scopes| && forall i :: 0 <= i < |r| ==> r[i].id == scopes[i].id
  {
    if ordered != [] { AssignKeepsIds(scopes, candidates, ordered[..|ordered| - 1]); }
  }

  lemma CandidateFound(scopes: seq<Scope>, owner: map<string, Path>, candidates: Path -> set<string>,
      ordered: seq<Path>, id: string)
    requires id in MemberFilesByUnlockedScope(scopes, owner)
    ensures var r := AssignFold(scopes, candidates, ordered); FirstIndex(r, id) < |r|
  {
    AssignKeepsIds(scopes, candidates, ordered);
    CandidatesAreScopes(scopes, owner, id);
    var r := AssignFold(scopes, candidates, ordered);
    var i :| 0 <= i < |scopes| && scopes[i].id == id;
    assert r[i].id == id;
  }

  lemma GrownFiles(scopes: seq<Scope>, candidates: Path -> set<string>, front: seq<Path>, p: Path, at: nat)
    requires at < |scopes| && p !in front
    ensures p in GrowAll(scopes, candidates, front)[at].files <==> p in scopes[at].files
  {
    GrowMembers(scopes[at], Filter(front, GoesTo(scopes[at], candidates)));
  }

  lemma ReportedStep(scopes: seq<Scope>, candidates: Path -> set<string>, front: seq<Path>, p: Path)
    requires UniqueIds(scopes) && Distinct(front) && p !in front && |candidates(p)| == 1
    ensures var at := FirstIndex(scopes, Least(candidates(p)));
            ChangedIds(scopes, candidates, front + [p])
            == ChangedIds(scopes, candidates, front)
              + if at < |scopes| && p !in scopes[at].files then [Least(candidates(p))] else []
  {
    var at := FirstIndex(scopes, Least(candidates(p)));
    assert (front + [p])[..|front|] == front;
    AssignIsGrowth(scopes, candidates, front);
    IndexesOfGrown(scopes, candidates, front, Least(candidates(p)));
    if at < |scopes| { GrownFiles(scopes, candidates, front, p, at); }
  }

  lemma AtFirstIndex(scopes: seq<Scope>, id: string, i: nat)
    requires UniqueIds(scopes) && i < |scopes|
    ensures scopes[i].id == id <==> i == FirstIndex(scopes, id)
  {
    if scopes[i].id == id { assert FirstIndex(scopes, id) <= i; }
  }

  /** One more path with a single candidate. */
  lemma ChangedStep(scopes: seq<Scope>, candidates: Path -> set<string>, front: seq<Path>, p: Path, i: nat)
    requires UniqueIds(scopes) && Distinct(front) && p !in front && i < |scopes| && |candidates(p)| == 1
    ensures scopes[i].id in ChangedIds(scopes, candidates, front + [p])
        <==> scopes[i].id in ChangedIds(scopes, candidates, front) || GoesTo(scopes[i], candidates)(p)
  {
    ReportedStep(scopes, candidates, front, p);
    OnlyElement(candidates(p), scopes[i].id);
    AtFirstIndex(scopes, Least(candidates(p)), i);
  }

  lemma UnchangedStep(scopes: seq<Scope>, candidates: Path -> set<string>, front: seq<Path>, p: Path, i: nat)
    requires i < |scopes| && |candidates(p)| != 1
    ensures ChangedIds(scopes, candidates, front + [p]) == ChangedIds(scopes, candidates, front)
    ensures !GoesTo(scopes[i], candidates)(p)
  {
    assert (front + [p])[..|front|] == front;
    assert |{scopes[i].id}| == 1;
  }

  /** The reported ids are exactly those of the scopes that changed. */
  lemma {:induction false} ChangedIdsMeaning(scopes: seq<Scope>, candidates: Path -> set<string>, ordered: seq<Path>,
      i: nat)
    requires UniqueIds(scopes) && Distinct(ordered) && i < |scopes|
    ensures scopes[i].id in ChangedIds(scopes, candidates, ordered)
        <==> Filter(ordered, GoesTo(scopes[i], candidates)) != []
  {
    if ordered != [] {
      var front, p := ordered[..|ordered| - 1], ordered[|ordered| - 1];
      DistinctFront(ordered);
      ChangedIdsMeaning(scopes, candidates, front, i);
      FilterSnoc(front, p, GoesTo(scopes[i], candidates));
      if |candidates(p)| == 1 {
        ChangedStep(scopes, candidates, front, p, i);
      } else {
        UnchangedStep(scopes, candidates, front, p, i);
      }
    }
  }

  // ------------------------------------------------------------------- reconcile

  function ListedFiles(scopes: seq<Scope>): set<Path> { set s, f | s in scopes && f in s.files :: f }

  function CoveredFiles(scopes: seq<Scope>, owner: map<string, Path>): set<Path> {
    set s, y | s in scopes && y in s.symbols && y in owner :: owner[y]
  }

  /** Indexed files that no scope lists and no scope's symbol sits in. */
  function Unassigned(scopes: seq<Scope>, x: Index): set<Path> {
    Paths(x.files) - (ListedFiles(scopes) + CoveredFiles(scopes, Owners(x.symbols)))
  }

  /** What `reconcile` writes: nothing in full mode, without an AUTO file, or above the churn threshold. */
  function Reconciled(scopes: seq<Scope>, x: Index, full: bool, threshold: nat): Option<seq<Scope>> {
    var pairs := AutoPairs(Candidates(scopes, x), Sorted(Unassigned(scopes, x)));
    if !full && pairs != [] && |pairs| <= threshold then Some(StageFold(scopes, pairs)) else None
  }

  /** When reconcile writes, it writes what the update's rule would on the unassigned indexed files. */
  lemma ReconcileIsAssignment(scopes: seq<Scope>, x: Index, full: bool, threshold: nat)
    requires UniqueIds(scopes)
    ensures Reconciled(scopes, x, full, threshold).Some? ==>
              Reconciled(scopes, x, full, threshold).value
                  == AssignFold(scopes, Candidates(scopes, x), Sorted(Unassigned(scopes, x)))
  {
    AssignIsGrowth(scopes, Candidates(scopes, x), Sorted(Unassigned(scopes, x)));
    StageIsGrowth(scopes, Candidates(scopes, x), Sorted(Unassigned(scopes, x)));
  }

  /** Either writer: a locked scope is untouched; an unlocked one keeps every member and all else, and gains exactly
      the paths that point to it alone. */
  lemma WritersOnlyAdd(scopes: seq<Scope>, x: Index, added: set<Path>, i: nat)
    requires UniqueIds(scopes) && i < |scopes|
    ensures var after := AssignFold(scopes, Candidates(scopes, x), Sorted(added));
            && |after| == |scopes|
            && (scopes[i].locked ==> after[i] == scopes[i])
            && after[i] == scopes[i].(files := after[i].files)
            && forall f ::
                 f in after[i].files
                 <==> f in scopes[i].files || (f in added && Candidates(scopes, x)(f) == {scopes[i].id})
  {
    var candidates := Candidates(scopes, x);
    AssignIsGrowth(scopes, candidates, Sorted(added));
    GrowMembers(scopes[i], Filter(Sorted(added), GoesTo(scopes[i], candidates)));
    if scopes[i].locked {
      forall p | p in Sorted(added) ensures !GoesTo(scopes[i], candidates)(p) {
        CandidateMeaning(scopes, x, p, scopes[i]);
      }
      FilterNothing(Sorted(added), GoesTo(scopes[i], candidates));
    }
  }

  // --------------------------------------------------------- reconciling repeatedly

  /** Reconcile and save. */
  function Round(scopes: seq<Scope>, x: Index, threshold: nat): seq<Scope> {
    var r := Reconciled(scopes, x, false, threshold);
    if r.Some? then r.value else scopes
  }

  /** The scopes, and how many rounds have written them so far. */
  datatype Tally = Tally(scopes: seq<Scope>, writes: nat)

  function Again(x: Index, threshold: nat): Tally -> Tally {
    (t: Tally) => Tally(Round(t.scopes, x, threshold), t.writes
        + if Reconciled(t.scopes, x, false, threshold).Some? then 1 else 0)
  }

  function Iterate<S>(f: S -> S, s: S, n: nat): S { if n == 0 then s else f(Iterate(f, s, n - 1)) }

  lemma {:induction false} IterateKeeps<S(!new)>(f: S -> S, s: S, n: nat, inv: S -> bool)
    requires inv(s) && forall t :: inv(t) ==> inv(f(t))
    ensures inv(Iterate(f, s, n))
  {
    if n > 0 { IterateKeeps(f, s, n - 1, inv); }
  }

  /** Reconciling and saving `n` times on a fixed index. */
  function Rounds(scopes: seq<Scope>, x: Index, threshold: nat, n: nat): Tally {
    Iterate(Again(x, threshold), Tally(scopes, 0), n)
  }

  ghost predicate Wider(s: Scope, t: Scope) { t == s.(files := t.files) && forall f :: f in s.files ==> f in t.files }

  ghost predicate Extends(a: seq<Scope>, b: seq<Scope>) { |a| == |b| && forall i :: 0 <= i < |a| ==> Wider(a[i], b[i]) }

  lemma ExtendsUnique(a: seq<Scope>, b: seq<Scope>)
    requires Extends(a, b) && UniqueIds(a)
    ensures UniqueIds(b)
  {
    assert forall i :: 0 <= i < |a| ==> Wider(a[i], b[i]);
  }

  lemma RoundExtends(scopes: seq<Scope>, x: Index, threshold: nat)
    requires UniqueIds(scopes)
    ensures Extends(scopes, Round(scopes, x, threshold)) && UniqueIds(Round(scopes, x, threshold))
  {
    var after := Round(scopes, x, threshold);
    if Reconciled(scopes, x, false, threshold).Some? {
      ReconcileIsAssignment(scopes, x, false, threshold);
      AssignKeepsIds(scopes, Candidates(scopes, x), Sorted(Unassigned(scopes, x)));
      forall i | 0 <= i < |scopes| ensures Wider(scopes[i], after[i]) {
        WritersOnlyAdd(scopes, x, Unassigned(scopes, x), i);
      }
    }
    ExtendsUnique(scopes, after);
  }

  lemma ExtendsUnassigned(a: seq<Scope>, b: seq<Scope>, x: Index)
    requires Extends(a, b)
    ensures Unassigned(b, x) <= Unassigned(a, x)
  {
    forall f | f in ListedFiles(a) ensures f in ListedFiles(b) {
      var i :| 0 <= i < |a| && f in a[i].files;
      assert Wider(a[i], b[i]) && b[i] in b;
    }
    forall f | f in CoveredFiles(a, Owners(x.symbols)) ensures f in CoveredFiles(b, Owners(x.symbols)) {
      var s, y :| s in a && y in s.symbols && y in Owners(x.symbols) && Owners(x.symbols)[y] == f;
      var i :| 0 <= i < |a| && a[i] == s;
      assert Wider(a[i], b[i]) && b[i] in b && y in b[i].symbols;
    }
  }

  /** Evidence only grows as scopes grow: no candidate of a file is ever lost. */
  lemma ExtendsCandidates(a: seq<Scope>, b: seq<Scope>, x: Index, path: Path)
    requires UniqueIds(a) && UniqueIds(b) && Extends(a, b)
    ensures Candidates(a, x)(path) <= Candidates(b, x)(path)
  {
    var owner := Owners(x.symbols);
    forall id | id in Candidates(a, x)(path) ensures id in Candidates(b, x)(path) {
      CandidatesAreScopes(a, owner, id);
      var i :| 0 <= i < |a| && a[i].id == id;
      CandidateMeaning(a, x, path, a[i]);
      CandidateMeaning(b, x, path, b[i]);
      assert Wider(a[i], b[i]);
      assert MemberFiles(a[i], owner) <= MemberFiles(b[i], owner);
    }
  }

  lemma {:induction false} AutoPairsMeaning(candidates: Path -> set<string>, ordered: seq<Path>)
    ensures forall pair :: pair in AutoPairs(candidates, ordered) ==>
        pair.0 in ordered && candidates(pair.0) == {pair.1}
    ensures forall p :: p in ordered && |candidates(p)| == 1 ==> exists id :: (p, id) in AutoPairs(candidates, ordered)
  {
    if ordered != [] {
      var front, p := ordered[..|ordered| - 1], ordered[|ordered| - 1];
      AutoPairsMeaning(candidates, front);
      assert ordered == front + [p];
      if |candidates(p)| == 1 {
        OnlyElement(candidates(p), Least(candidates(p)));
        assert (p, Least(candidates(p))) in AutoPairs(candidates, ordered);
        assert AutoPairs(candidates, ordered) == AutoPairs(candidates, front) + [(p, Least(candidates(p)))];
      }
      assert forall pair :: pair in AutoPairs(candidates, front) ==> pair in AutoPairs(candidates, ordered);
    }
  }

  /** A round that writes assigns at least one file that was unassigned. */
  lemma WriteAssigns(scopes: seq<Scope>, x: Index, threshold: nat)
    requires UniqueIds(scopes) && Reconciled(scopes, x, false, threshold).Some?
    ensures Unassigned(Round(scopes, x, threshold), x) < Unassigned(scopes, x)
  {
    var candidates, after := Candidates(scopes, x), Round(scopes, x, threshold);
    var pairs := AutoPairs(candidates, Sorted(Unassigned(scopes, x)));
    AutoPairsMeaning(candidates, Sorted(Unassigned(scopes, x)));
    RoundExtends(scopes, x, threshold);
    ExtendsUnassigned(scopes, after, x);
    ReconcileIsAssignment(scopes, x, false, threshold);
    var p, id := pairs[0].0, pairs[0].1;
    assert pairs[0] in pairs && id in candidates(p);
    CandidatesAreScopes(scopes, Owners(x.symbols), id);
    var i :| 0 <= i < |scopes| && scopes[i].id == id;
    WritersOnlyAdd(scopes, x, Unassigned(scopes, x), i);
    assert after[i] in after && p in after[i].files;
  }

  lemma ProperSubsetSmaller<T>(a: set<T>, b: set<T>)
    requires a < b
    ensures |a| < |b|
  {
    assert b == a + (b - a) && b - a != {};
  }

  ghost predicate Within(t: Tally, x: Index, bound: nat) {
    UniqueIds(t.scopes) && t.writes + |Unassigned(t.scopes, x)| <= bound
  }

  lemma RoundStaysWithin(t: Tally, x: Index, threshold: nat, bound: nat)
    requires Within(t, x, bound)
    ensures Within(Again(x, threshold)(t), x, bound)
  {
    RoundExtends(t.scopes, x, threshold);
    if Reconciled(t.scopes, x, false, threshold).Some? {
      WriteAssigns(t.scopes, x, threshold);
      ProperSubsetSmaller(Unassigned(Round(t.scopes, x, threshold), x), Unassigned(t.scopes, x));
    }
  }

  /** On a fixed index, reconciling again and again writes at most once per unassigned file. */
  lemma WritesAreBounded(scopes: seq<Scope>, x: Index, threshold: nat, n: nat)
    requires UniqueIds(scopes)
    ensures Rounds(scopes, x, threshold, n).writes
        + |Unassigned(Rounds(scopes, x, threshold, n).scopes, x)| <= |Unassigned(scopes, x)|
  {
    var bound := |Unassigned(scopes, x)|;
    forall t | Within(t, x, bound) ensures Within(Again(x, threshold)(t), x, bound) {
      RoundStaysWithin(t, x, threshold, bound);
    }
    IterateKeeps(Again(x, threshold), Tally(scopes, 0), n, t => Within(t, x, bound));
  }

  ghost predicate Ambiguous(scopes: seq<Scope>, x: Index, p: Path) {
    UniqueIds(scopes) && p in Unassigned(scopes, x) && |Candidates(scopes, x)(p)| > 1
  }

  /** A file with two candidates stays unassigned and ambiguous for ever: no round makes it AUTO. */
  lemma AmbiguousNeverAuto(scopes: seq<Scope>, x: Index, threshold: nat, n: nat, p: Path)
    requires Ambiguous(scopes, x, p)
    ensures Ambiguous(Rounds(scopes, x, threshold, n).scopes, x, p)
  {
    forall t: Tally | Ambiguous(t.scopes, x, p) ensures Ambiguous(Again(x, threshold)(t).scopes, x, p) {
      StillAmbiguous(t.scopes, x, threshold, p);
    }
    IterateKeeps(Again(x, threshold), Tally(scopes, 0), n, (t: Tally) => Ambiguous(t.scopes, x, p));
  }

  lemma StillAmbiguous(scopes: seq<Scope>, x: Index, threshold: nat, p: Path)
    requires Ambiguous(scopes, x, p)
    ensures Ambiguous(Round(scopes, x, threshold), x, p)
  {
    var after := Round(scopes, x, threshold);
    RoundExtends(scopes, x, threshold);
    ExtendsCandidates(scopes, after, x, p);
    SubsetSize(Candidates(scopes, x)(p), Candidates(after, x)(p));
    StillUnassigned(scopes, x, threshold, p);
  }

  lemma NotAdded(scopes: seq<Scope>, x: Index, threshold: nat, p: Path, i: nat)
    requires Ambiguous(scopes, x, p) && i < |scopes|
    ensures |Round(scopes, x, threshold)| == |scopes|
    ensures p !in Round(scopes, x, threshold)[i].files && Round(scopes, x, threshold)[i].symbols == scopes[i].symbols
  {
    assert p !in scopes[i].files by { assert scopes[i] in scopes; }
    assert |{scopes[i].id}| == 1;
    ReconcileIsAssignment(scopes, x, false, threshold);
    WritersOnlyAdd(scopes, x, Unassigned(scopes, x), i);
  }

  lemma StillUnassigned(scopes: seq<Scope>, x: Index, threshold: nat, p: Path)
    requires Ambiguous(scopes, x, p)
    ensures p in Unassigned(Round(scopes, x, threshold), x)
  {
    var after := Round(scopes, x, threshold);
    RoundExtends(scopes, x, threshold);
    forall i | 0 <= i < |after| ensures after[i].symbols == scopes[i].symbols && p !in after[i].files {
      NotAdded(scopes, x, threshold, p, i);
    }
    NotListed(scopes, after, Owners(x.symbols), p);
  }

  lemma NotListed(a: seq<Scope>, b: seq<Scope>, owner: map<string, Path>, p: Path)
    requires |a| == |b| && forall i :: 0 <= i < |b| ==> b[i].symbols == a[i].symbols && p !in b[i].files
    ensures p !in ListedFiles(b) && CoveredFiles(b, owner) == CoveredFiles(a, owner)
  {
    SameSymbolsCovered(a, b, owner);
    SameSymbolsCovered(b, a, owner);
  }

  lemma SameSymbolsCovered(a: seq<Scope>, b: seq<Scope>, owner: map<string, Path>)
    requires |a| == |b| && forall i :: 0 <= i < |a| ==> a[i].symbols == b[i].symbols
    ensures CoveredFiles(a, owner) <= CoveredFiles(b, owner)
  {
    forall s, y | s in a && y in s.symbols && y in owner ensures owner[y] in CoveredFiles(b, owner) {
      var i :| 0 <= i < |a| && a[i] == s;
      assert b[i] in b && y in b[i].symbols;
    }
  }

  lemma SubsetSize<T>(a: set<T>, b: set<T>)
    requires a <= b
    ensures |a| <= |b|
  {
    assert b == a + (b - a);
  }
}
