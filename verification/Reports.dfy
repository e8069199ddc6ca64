/** Every entry of a reconcile report, said of the scopes and the index alone. */
module Reports {
  import opened Collections
  import opened CodeIndex
  import opened Scopes
  import opened Reconcile
  import opened Membership
  import V = ReconcileVerdicts

  ghost predicate Guarded(s: Scope) { s.locked || s.source == FromHuman }

  // ----------------------------------------------------------------- memberships

  /** A member is kept while it is indexed, which only a full report says; a missing one is broken in a guarded scope
      and put up for review in any other. */
  ghost predicate SaidOfMember(e: Entry, s: Scope, present: bool, full: bool) {
    && e.scopeId == Some(s.id) && !e.applied && e.candidates == []
    && (present ==> full && e.classification == Keep && e.reason == StillIndexed)
    && (!present && Guarded(s) ==> e.classification == Broken && e.reason == ProtectedMissing)
    && (!present && !Guarded(s) ==> e.classification == Review && e.reason == UnprotectedMissing)
  }

  ghost predicate MemberSaid(scopes: seq<Scope>, x: Index, full: bool, e: Entry) {
    exists s :: s in scopes
      && (e.targetType == FileTarget ==> e.target in s.files && SaidOfMember(e, s, HasFile(x, e.target), full))
      && (e.targetType == SymbolTarget ==> e.target in s.symbols && SaidOfMember(e, s, HasSymbol(x, e.target), full))
  }

  /** Scopes are reported in the order of their ids, and those with one id in the order of the file. */
  ghost predicate ById(scopes: seq<Scope>) { forall i, j :: 0 <= i < j < |scopes| ==> Leq(scopes[i].id, scopes[j].id) }

  lemma InsertedById(s: Scope, sorted: seq<Scope>)
    requires ById(sorted)
    ensures ById(InsertById(s, sorted))
  {
    if sorted != [] && !(s.id != sorted[0].id && Leq(s.id, sorted[0].id)) {
      InsertedById(s, sorted[1..]);
      LeqTotal(s.id, sorted[0].id);
      LeqTotal(s.id, s.id);
      HeadStays(sorted, s, InsertById(s, sorted[1..]));
    } else if sorted != [] {
      forall i | 0 <= i < |sorted| ensures Leq(s.id, sorted[i].id) {
        if i > 0 { LeqTransitive(s.id, sorted[0].id, sorted[i].id); }
      }
    }
  }

  lemma HeadStays(sorted: seq<Scope>, s: Scope, rest: seq<Scope>)
    requires sorted != [] && ById(sorted) && ById(rest) && Leq(sorted[0].id, s.id)
    requires multiset(rest) == multiset(sorted[1..]) + multiset{s}
    ensures ById([sorted[0]] + rest)
  {
    forall i | 0 <= i < |rest| ensures Leq(sorted[0].id, rest[i].id) {
      assert rest[i] in multiset(rest);
      if rest[i] != s {
        assert rest[i] in sorted[1..];
        var j :| 0 <= j < |sorted[1..]| && sorted[1..][j] == rest[i];
        assert sorted[j + 1] == rest[i];
      }
    }
  }

  lemma {:induction false} SortedById(scopes: seq<Scope>)
    ensures ById(SortById(scopes)) && multiset(SortById(scopes)) == multiset(scopes)
  {
    if scopes != [] {
      SortedById(scopes[..|scopes| - 1]);
      InsertedById(scopes[|scopes| - 1], SortById(scopes[..|scopes| - 1]));
    }
  }

  /** The four parts of a report. */
  datatype Parts = Parts(members: seq<Entry>, files: seq<Entry>, partly: seq<Entry>, merged: seq<Entry>)

  ghost predicate PartsOk(p: Parts) {
    && (forall e :: e in p.members ==> e.reason in {StillIndexed, ProtectedMissing, UnprotectedMissing})
    && (forall e :: e in p.files ==> e.reason in {OneCandidate, NoCandidate, Ambiguous}) && ByTarget(p.files)
    && (forall e :: e in p.partly ==> e.reason.PartlyCovered?) && ByTarget(p.partly)
    && (forall e :: e in p.merged ==> e.reason == MergeAffected)
  }

  ghost function PartsOf(scopes: seq<Scope>, x: Index, full: bool, applied: bool, since: Option<seq<Scope>>): Parts {
    Parts(Filter(AllMemberships(scopes, x), Emitted(full)),
          FileEntries(Sorted(Unassigned(scopes, x)), Candidates(scopes, x), applied),
          PartialEntries(scopes, x), MergePart(scopes, x, since))
  }

  lemma FilesByTarget(paths: seq<Path>, candidates: Path -> set<string>, applied: bool)
    requires Ascending(paths)
    ensures ByTarget(FileEntries(paths, candidates, applied))
    ensures forall e :: e in FileEntries(paths, candidates, applied) ==>
        e.reason in {OneCandidate, NoCandidate, Ambiguous}
  {
    V.FileEntriesAboutFiles(paths, candidates, applied);
  }

  lemma PartlyByTarget(paths: seq<Path>, scopes: seq<Scope>, x: Index)
    requires Ascending(paths)
    ensures ByTarget(CoverageEntries(paths, scopes, x))
    ensures forall e :: e in CoverageEntries(paths, scopes, x) ==> e.reason.PartlyCovered?
  {
    V.CoverageAboutFiles(paths, scopes, x);
  }

  lemma PartsInOrder(scopes: seq<Scope>, x: Index, full: bool, applied: bool, since: Option<seq<Scope>>)
    ensures PartsOk(PartsOf(scopes, x, full, applied, since))
  {
    MemberReasons(scopes, x);
    FilesByTarget(Sorted(Unassigned(scopes, x)), Candidates(scopes, x), applied);
    PartlyByTarget(Sorted(PartialPaths(scopes, Owners(x.symbols))), scopes, x);
    MergeReviews(scopes, x, since);
  }

  /** Members, then free files in order, then partly covered ones in order, then what a merge brought. */
  lemma ReportInOrder(scopes: seq<Scope>, x: Index, full: bool, threshold: nat, since: Option<seq<Scope>>)
    ensures exists p: Parts ::
      PartsOk(p) && ReportOf(scopes, x, full, threshold, since).entries == p.members + p.files + p.partly + p.merged
  {
    PartsInOrder(scopes, x, full, Reconciled(scopes, x, full, threshold).Some?, since);
  }

  ghost predicate ByTarget(entries: seq<Entry>) {
    forall i, j :: 0 <= i < j < |entries| ==> Leq(entries[i].target, entries[j].target)
  }

  lemma MemberReasons(scopes: seq<Scope>, x: Index)
    ensures forall e :: e in AllMemberships(scopes, x) ==>
        e.reason in {StillIndexed, ProtectedMissing, UnprotectedMissing}
  {
    forall e | e in AllMemberships(scopes, x) ensures e.reason in {StillIndexed, ProtectedMissing, UnprotectedMissing} {
      FlatMember(SortById(scopes), ScopeEntries(x), e);
      var s :| s in SortById(scopes) && e in ScopeEntries(x)(s);
      TargetSaid(s, FileTarget, SortStrings(s.files), Paths(x.files), true, e);
      TargetSaid(s, SymbolTarget, SortStrings(s.symbols), SymbolSet(x), true, e);
    }
  }

  lemma TargetSaid(s: Scope, kind: TargetType, targets: seq<string>, known: set<string>, full: bool, e: Entry)
    ensures e in MembershipEntries(s, kind, targets, known) && Emitted(full)(e)
        <==> e.targetType == kind && e.target in targets && SaidOfMember(e, s, e.target in known, full)
  {
    if e.targetType == kind && e.target in targets && SaidOfMember(e, s, e.target in known, full) {
      var i :| 0 <= i < |targets| && targets[i] == e.target;
      assert MembershipEntries(s, kind, targets, known)[i] == e;
    }
  }

  lemma ScopeSaid(s: Scope, x: Index, full: bool, e: Entry)
    ensures e in ScopeEntries(x)(s) && Emitted(full)(e)
        <==> && (e.targetType == FileTarget ==> e.target in s.files && SaidOfMember(e, s, HasFile(x, e.target), full))
             && (e.targetType == SymbolTarget ==>
               e.target in s.symbols && SaidOfMember(e, s, HasSymbol(x, e.target), full))
  {
    TargetSaid(s, FileTarget, SortStrings(s.files), Paths(x.files), full, e);
    TargetSaid(s, SymbolTarget, SortStrings(s.symbols), SymbolSet(x), full, e);
    SortStringsMembers(s.files);
    SortStringsMembers(s.symbols);
    assert HasFile(x, e.target) <==> e.target in Paths(x.files);
    assert HasSymbol(x, e.target) <==> e.target in SymbolSet(x);
  }

  lemma MembersSaid(scopes: seq<Scope>, x: Index, full: bool, e: Entry)
    ensures e in Filter(AllMemberships(scopes, x), Emitted(full)) <==> MemberSaid(scopes, x, full, e)
  {
    FlatMember(SortById(scopes), ScopeEntries(x), e);
    SortByIdMembers(scopes);
    forall s | s in scopes
      ensures e in ScopeEntries(x)(s) && Emitted(full)(e)
        <==> && (e.targetType == FileTarget ==> e.target in s.files && SaidOfMember(e, s, HasFile(x, e.target), full))
             && (e.targetType == SymbolTarget ==>
               e.target in s.symbols && SaidOfMember(e, s, HasSymbol(x, e.target), full))
    {
      ScopeSaid(s, x, full, e);
    }
  }

  // ------------------------------------------------------------------------ files

  /** The ids, sorted, of exactly the scopes a file points to. */
  ghost predicate CandidatesAre(ids: seq<string>, p: Path, scopes: seq<Scope>, x: Index) {
    && Ascending(ids) && Distinct(ids)
    && forall id :: id in ids <==> exists s :: s in scopes && s.id == id && PointsTo(p, s, x)
  }

  lemma SortedCandidates(scopes: seq<Scope>, x: Index, p: Path)
    requires UniqueIds(scopes)
    ensures CandidatesAre(Sorted(Candidates(scopes, x)(p)), p, scopes, x)
    ensures forall ids :: CandidatesAre(ids, p, scopes, x) ==> ids == Sorted(Candidates(scopes, x)(p))
  {
    var c := Candidates(scopes, x)(p);
    forall s | s in scopes ensures s.id in c <==> PointsTo(p, s, x) { CandidateExactly(scopes, x, p, s); }
    forall id | id in c ensures exists s :: s in scopes && s.id == id && PointsTo(p, s, x) {
      CandidateIsScope(scopes, x, p, id);
    }
    forall ids | CandidatesAre(ids, p, scopes, x) ensures ids == Sorted(c) { SameSorted(ids, Sorted(c)); }
  }

  lemma SameSorted(a: seq<string>, b: seq<string>)
    requires Ascending(a) && Distinct(a) && Ascending(b) && Distinct(b) && forall x :: x in a <==> x in b
    ensures a == b
  {
    forall x ensures multiset(a)[x] == multiset(b)[x] {
      DistinctCount(a, x);
      DistinctCount(b, x);
    }
    assert multiset(a) == multiset(b);
    AscendingUnique(a, b);
  }

  ghost predicate OwnedByOne(p: Path, scopes: seq<Scope>, x: Index) {
    exists s :: s in scopes && PointsOnlyTo(p, s, scopes, x)
  }

  ghost predicate AutoSaid(scopes: seq<Scope>, x: Index, written: bool, e: Entry) {
    exists s :: s in scopes && PointsOnlyTo(e.target, s, scopes, x)
      && e == Entry(Some(s.id), FileTarget, e.target, Auto, written, [], OneCandidate)
  }

  ghost predicate ReviewSaid(scopes: seq<Scope>, x: Index, e: Entry) {
    && CandidatesAre(e.candidates, e.target, scopes, x)
    && e == Entry(None, FileTarget, e.target, Review, false, e.candidates,
                  if e.candidates == [] then NoCandidate else Ambiguous)
  }

  /** A free file that points to one scope only is said to belong there, and as done when the run writes; any other free
      file is put up for review, with the scopes it points to. */
  ghost predicate FileSaid(scopes: seq<Scope>, x: Index, written: bool, e: Entry) {
    && Free(e.target, scopes, x)
    && if OwnedByOne(e.target, scopes, x) then AutoSaid(scopes, x, written, e) else ReviewSaid(scopes, x, e)
  }

  lemma AutoEntryIs(scopes: seq<Scope>, x: Index, p: Path, s: Scope, written: bool)
    requires UniqueIds(scopes) && s in scopes && PointsOnlyTo(p, s, scopes, x)
    ensures FileEntry(p, Candidates(scopes, x)(p), written)
         == Entry(Some(s.id), FileTarget, p, Auto, written, [], OneCandidate)
  {
    SoleCandidate(scopes, x, p, s);
    assert |{s.id}| == 1;
    OnlyElement(Candidates(scopes, x)(p), s.id);
  }

  lemma ReviewEntryIs(scopes: seq<Scope>, x: Index, p: Path, written: bool, e: Entry)
    requires UniqueIds(scopes) && !OwnedByOne(p, scopes, x) && e.target == p
    ensures e == FileEntry(p, Candidates(scopes, x)(p), written) <==> ReviewSaid(scopes, x, e)
  {
    SingleCandidate(scopes, x, p);
    SortedCandidates(scopes, x, p);
    ReviewEntryOf(p, Candidates(scopes, x)(p), written);
  }

  lemma ReviewEntryOf(p: Path, c: set<string>, written: bool)
    requires |c| != 1
    ensures FileEntry(p, c, written)
         == Entry(None, FileTarget, p, Review, false, Sorted(c), if Sorted(c) == [] then NoCandidate else Ambiguous)
  {
    assert Sorted(c) == [] <==> c == {};
  }

  lemma FileEntryIs(scopes: seq<Scope>, x: Index, written: bool, e: Entry)
    requires UniqueIds(scopes) && Free(e.target, scopes, x)
    ensures e == FileEntry(e.target, Candidates(scopes, x)(e.target), written) <==> FileSaid(scopes, x, written, e)
  {
    var p := e.target;
    if OwnedByOne(p, scopes, x) {
      forall s | s in scopes && PointsOnlyTo(p, s, scopes, x)
        ensures FileEntry(p, Candidates(scopes, x)(p), written)
             == Entry(Some(s.id), FileTarget, p, Auto, written, [], OneCandidate)
      {
        AutoEntryIs(scopes, x, p, s, written);
      }
    } else {
      ReviewEntryIs(scopes, x, p, written, e);
    }
  }

  lemma FileListed(paths: seq<Path>, candidates: Path -> set<string>, written: bool, e: Entry)
    ensures e in FileEntries(paths, candidates, written)
        <==> e.target in paths && e == FileEntry(e.target, candidates(e.target), written)
  {
    if e in FileEntries(paths, candidates, written) {
      var i :| 0 <= i < |paths| && FileEntries(paths, candidates, written)[i] == e;
      assert paths[i] in paths && e.target == paths[i];
    }
    if e.target in paths && e == FileEntry(e.target, candidates(e.target), written) {
      var i :| 0 <= i < |paths| && paths[i] == e.target;
      assert FileEntries(paths, candidates, written)[i] == e;
    }
  }

  lemma FilesSaid(scopes: seq<Scope>, x: Index, written: bool, e: Entry)
    requires UniqueIds(scopes)
    ensures e in FileEntries(Sorted(Unassigned(scopes, x)), Candidates(scopes, x), written)
        <==> FileSaid(scopes, x, written, e)
  {
    FileListed(Sorted(Unassigned(scopes, x)), Candidates(scopes, x), written, e);
    FreeIsUnassigned(scopes, x, e.target);
    if Free(e.target, scopes, x) { FileEntryIs(scopes, x, written, e); }
  }

  // ------------------------------------------------------------- partly covered

  /** The ids, sorted, of exactly the scopes that have a symbol of the file and do not list it. */
  ghost predicate ReachersAre(ids: seq<string>, p: Path, scopes: seq<Scope>, x: Index) {
    && Ascending(ids) && Distinct(ids)
    && forall id :: id in ids <==> exists s :: s in scopes && s.id == id && HasSymbolIn(s, p, x) && p !in s.files
  }

  /** How many of the file's symbol rows some scope has as a member. */
  ghost function MemberRows(symbols: seq<Symbol>, p: Path, scopes: seq<Scope>): nat {
    if symbols == [] then 0
    else
      var y := symbols[|symbols| - 1];
      MemberRows(symbols[..|symbols| - 1], p, scopes)
      + if y.file == p && exists s :: s in scopes && y.id in s.symbols then 1 else 0
  }

  ghost function Rows(symbols: seq<Symbol>, p: Path): nat {
    if symbols == [] then 0 else Rows(symbols[..|symbols| - 1], p) + if symbols[|symbols| - 1].file == p then 1 else 0
  }

  lemma {:induction false} RowsCounted(symbols: seq<Symbol>, p: Path, scopes: seq<Scope>)
    ensures |SymbolsAt(symbols, p)| == Rows(symbols, p)
    ensures |Filter(SymbolsAt(symbols, p), IsMember(MemberSymbolIds(scopes)))| == MemberRows(symbols, p, scopes)
  {
    if symbols != [] {
      var front, y := symbols[..|symbols| - 1], symbols[|symbols| - 1];
      RowsCounted(front, p, scopes);
      assert symbols == front + [y];
      FilterSnoc(front, y, InFile(p));
      if y.file == p { FilterSnoc(SymbolsAt(front, p), y, IsMember(MemberSymbolIds(scopes))); }
      assert y.id in MemberSymbolIds(scopes) <==> exists s :: s in scopes && y.id in s.symbols;
    }
  }

  /** A file that a scope has a symbol of without listing it is said to be partly covered, and by which scopes. */
  ghost predicate PartlySaid(scopes: seq<Scope>, x: Index, e: Entry) {
    && (exists s :: s in scopes && HasSymbolIn(s, e.target, x) && e.target !in s.files)
    && e == Entry(None, FileTarget, e.target, Review, false, e.candidates,
                  PartlyCovered(MemberRows(x.symbols, e.target, scopes), Rows(x.symbols, e.target)))
    && ReachersAre(e.candidates, e.target, scopes, x)
  }

  lemma ReachersCovering(scopes: seq<Scope>, x: Index, p: Path)
    ensures ReachersAre(Sorted(Covering(scopes, Owners(x.symbols), p)), p, scopes, x)
    ensures forall ids :: ReachersAre(ids, p, scopes, x) ==> ids == Sorted(Covering(scopes, Owners(x.symbols), p))
    ensures p in PartialPaths(scopes, Owners(x.symbols))
        <==> exists s :: s in scopes && HasSymbolIn(s, p, x) && p !in s.files
  {
    var owner := Owners(x.symbols);
    forall y ensures DeclaredIn(y, p, x) <==> y in owner && owner[y] == p { DeclaredIsOwner(y, p, x); }
    var c := Covering(scopes, owner, p);
    forall ids | ReachersAre(ids, p, scopes, x) ensures ids == Sorted(c) { SameSorted(ids, Sorted(c)); }
  }

  lemma PartialsSaid(scopes: seq<Scope>, x: Index, e: Entry)
    ensures e in PartialEntries(scopes, x) <==> PartlySaid(scopes, x, e)
  {
    ReachersCovering(scopes, x, e.target);
    RowsCounted(x.symbols, e.target, scopes);
    PartialListed(scopes, x, e);
  }

  lemma PartialListed(scopes: seq<Scope>, x: Index, e: Entry)
    ensures e in PartialEntries(scopes, x)
        <==> e.target in PartialPaths(scopes, Owners(x.symbols))
             && e == PartialEntry(e.target, Covering(scopes, Owners(x.symbols), e.target), MemberSymbolIds(scopes), x)
  {
    var paths := Sorted(PartialPaths(scopes, Owners(x.symbols)));
    if e in PartialEntries(scopes, x) {
      var i :| 0 <= i < |paths| && PartialEntries(scopes, x)[i] == e;
      V.PartialTarget(paths[i], Covering(scopes, Owners(x.symbols), paths[i]), MemberSymbolIds(scopes), x);
      assert paths[i] in paths;
    }
    if e.target in paths && e == PartialEntry(e.target, Covering(scopes, Owners(x.symbols), e.target),
        MemberSymbolIds(scopes), x) {
      var i :| 0 <= i < |paths| && paths[i] == e.target;
      assert PartialEntries(scopes, x)[i] == e;
    }
  }

  // ----------------------------------------------------------------------- merges

  /** The last scope with the id in the earlier file lists the path. */
  ghost predicate ListedBefore(previous: seq<Scope>, id: string, p: Path) {
    exists i :: 0 <= i < |previous| && previous[i].id == id && p in previous[i].files
                && forall j :: i < j < |previous| ==> previous[j].id != id
  }

  lemma {:induction false} PreviousFilesAre(previous: seq<Scope>, id: string, p: Path)
    ensures id in PreviousFiles(previous) && p in PreviousFiles(previous)[id] <==> ListedBefore(previous, id, p)
  {
    if previous != [] {
      var n := |previous| - 1;
      PreviousFilesAre(previous[..n], id, p);
      ListedBeforeSnoc(previous[..n], previous[n], id, p);
      assert previous == previous[..n] + [previous[n]];
    }
  }

  lemma ListedBeforeSnoc(front: seq<Scope>, last: Scope, id: string, p: Path)
    ensures ListedBefore(front + [last], id, p)
        <==> if last.id == id then p in last.files else ListedBefore(front, id, p)
  {
    var all := front + [last];
    assert all[|front|] == last;
    if last.id != id && ListedBefore(front, id, p) {
      var i :| 0 <= i < |front| && front[i].id == id && p in front[i].files
          && forall j :: i < j < |front| ==> front[j].id != id;
      assert all[i] == front[i];
      assert forall j :: i < j < |all| ==> all[j] == if j < |front| then front[j] else last;
    }
    if last.id != id && ListedBefore(all, id, p) {
      var i :| 0 <= i < |all| && all[i].id == id && p in all[i].files && forall j :: i < j < |all| ==> all[j].id != id;
      assert front[i] == all[i];
      assert forall j :: i < j < |front| ==> all[j] == front[j];
    }
    if last.id == id && ListedBefore(all, id, p) {
      var i :| 0 <= i < |all| && all[i].id == id && p in all[i].files && forall j :: i < j < |all| ==> all[j].id != id;
      assert i == |front|;
    }
  }

  /** A member that a scope, not guarded, has gained since the base is put up for review when it is indexed and does not
      point to this scope only. */
  ghost predicate MergeSaid(scopes: seq<Scope>, x: Index, since: Option<seq<Scope>>, e: Entry) {
    && since.Some? && CandidatesAre(e.candidates, e.target, scopes, x)
    && exists s :: s in scopes && !Guarded(s) && e.target in s.files && !ListedBefore(since.value, s.id, e.target)
         && HasFile(x, e.target) && !PointsOnlyTo(e.target, s, scopes, x)
         && e == Entry(Some(s.id), FileTarget, e.target, Review, false, e.candidates, MergeAffected)
  }

  ghost predicate MergedIn(scopes: seq<Scope>, x: Index, previous: seq<Scope>, s: Scope, e: Entry) {
    && !Guarded(s) && e.target in s.files && !ListedBefore(previous, s.id, e.target)
    && HasFile(x, e.target) && !PointsOnlyTo(e.target, s, scopes, x)
    && e == Entry(Some(s.id), FileTarget, e.target, Review, false, e.candidates, MergeAffected)
    && CandidatesAre(e.candidates, e.target, scopes, x)
  }

  lemma ScopeMerged(scopes: seq<Scope>, x: Index, previous: seq<Scope>, s: Scope, e: Entry)
    requires UniqueIds(scopes) && s in scopes
    ensures e in ScopeMergeEntries(x, Candidates(scopes, x), PreviousFiles(previous))(s)
        <==> MergedIn(scopes, x, previous, s, e)
  {
    var candidates, before := Candidates(scopes, x), PreviousFiles(previous);
    SortedCandidates(scopes, x, e.target);
    StillUnsettled(scopes, x, previous, s, e.target);
    MergeListed(s.id, Filter(Sorted(NewlyAdded(s, before)), Unsettled(s.id, Paths(x.files), candidates)), candidates,
        e);
  }

  lemma StillUnsettled(scopes: seq<Scope>, x: Index, previous: seq<Scope>, s: Scope, p: Path)
    requires UniqueIds(scopes) && s in scopes
    ensures p in Filter(Sorted(NewlyAdded(s, PreviousFiles(previous))),
        Unsettled(s.id, Paths(x.files), Candidates(scopes, x)))
        <==> p in s.files && !ListedBefore(previous, s.id, p) && HasFile(x, p) && !PointsOnlyTo(p, s, scopes, x)
  {
    PreviousFilesAre(previous, s.id, p);
    SoleCandidate(scopes, x, p, s);
    KeptUnsettled(s, PreviousFiles(previous), Paths(x.files), Candidates(scopes, x), p);
    assert HasFile(x, p) <==> p in Paths(x.files);
  }

  lemma KeptUnsettled(
    s: Scope, before: map<string, set<Path>>, files: set<Path>, candidates: Path -> set<string>, p: Path)
    ensures p in Filter(Sorted(NewlyAdded(s, before)), Unsettled(s.id, files, candidates))
        <==> p in s.files && !(s.id in before && p in before[s.id]) && p in files && candidates(p) != {s.id}
  {
  }

  lemma MergeListed(id: string, paths: seq<Path>, candidates: Path -> set<string>, e: Entry)
    ensures e in MergeEntries(id, paths, candidates)
        <==> e.target in paths
             && e == Entry(Some(id), FileTarget, e.target, Review, false, Sorted(candidates(e.target)), MergeAffected)
  {
    if e in MergeEntries(id, paths, candidates) {
      var i :| 0 <= i < |paths| && MergeEntries(id, paths, candidates)[i] == e;
      assert paths[i] in paths;
    }
    if e.target in paths
      && e == Entry(Some(id), FileTarget, e.target, Review, false, Sorted(candidates(e.target)), MergeAffected)
    {
      var i :| 0 <= i < |paths| && paths[i] == e.target;
      assert MergeEntries(id, paths, candidates)[i] == e;
    }
  }

  lemma MergesSaid(scopes: seq<Scope>, x: Index, since: Option<seq<Scope>>, e: Entry)
    requires UniqueIds(scopes)
    ensures e in MergePart(scopes, x, since) <==> MergeSaid(scopes, x, since, e)
  {
    if since.Some? {
      FlatMember(SortById(scopes), ScopeMergeEntries(x, Candidates(scopes, x), PreviousFiles(since.value)), e);
      SortByIdMembers(scopes);
      forall s | s in scopes
        ensures e in ScopeMergeEntries(x, Candidates(scopes, x), PreviousFiles(since.value))(s)
          <==> MergedIn(scopes, x, since.value, s, e)
      {
        ScopeMerged(scopes, x, since.value, s, e);
      }
    }
  }

  // ------------------------------------------------------------------- the report

  /** A report says exactly this: of each member whether it is still there, of each free file where it belongs, of each
      partly covered file by which scopes, and of each member a merge brought whether the imports still agree. */
  lemma ReportSaysExactly(scopes: seq<Scope>, x: Index, full: bool, threshold: nat, since: Option<seq<Scope>>, e: Entry)
    requires UniqueIds(scopes)
    ensures var written := !full && 0 < |Lone(scopes, x)| <= threshold;
            e in ReportOf(scopes, x, full, threshold, since).entries <==>
              || MemberSaid(scopes, x, full, e) || FileSaid(scopes, x, written, e)
              || PartlySaid(scopes, x, e) || MergeSaid(scopes, x, since, e)
  {
    ReconcileWritesExactly(scopes, x, full, threshold);
    MembersSaid(scopes, x, full, e);
    FilesSaid(scopes, x, Reconciled(scopes, x, full, threshold).Some?, e);
    PartialsSaid(scopes, x, e);
    MergesSaid(scopes, x, since, e);
  }

  function ClassIs(c: Classification): Entry -> bool { (e: Entry) => e.classification == c }

  lemma CountIs(entries: seq<Entry>, c: Classification)
    ensures CountClass(entries, c) == |Filter(entries, ClassIs(c))|
  {
    FilterSame(entries, IsClass(c), ClassIs(c));
  }

  lemma {:induction false} EmittedKeepsClass(all: seq<Entry>, full: bool, c: Classification)
    requires full || c != Keep
    ensures CountClass(Filter(all, Emitted(full)), c) == CountClass(all, c)
  {
    if all != [] {
      var n := |all| - 1;
      EmittedKeepsClass(all[..n], full, c);
      assert all == all[..n] + [all[n]];
      CountClassSnoc(all[..n], all[n], c);
      if Emitted(full)(all[n]) { CountClassSnoc(Filter(all[..n], Emitted(full)), all[n], c); }
    }
  }

  /** Keep and broken entries are about members. */
  lemma MemberClasses(scopes: seq<Scope>, x: Index, full: bool, applied: bool, since: Option<seq<Scope>>,
      c: Classification)
    requires c == Broken || (c == Keep && full)
    ensures CountClass(EntriesOf(scopes, x, full, applied, since), c) == CountClass(AllMemberships(scopes, x), c)
  {
    CountFour(scopes, x, full, applied, since, c);
    EmittedKeepsClass(AllMemberships(scopes, x), full, c);
    FilesHaveNone(Sorted(Unassigned(scopes, x)), Candidates(scopes, x), applied, c);
    OthersHaveNone(scopes, x, since, c);
  }

  lemma FilesHaveNone(paths: seq<Path>, candidates: Path -> set<string>, applied: bool, c: Classification)
    requires c == Broken || c == Keep
    ensures CountClass(FileEntries(paths, candidates, applied), c) == 0
  {
    FilterNoneAt(FileEntries(paths, candidates, applied), IsClass(c));
  }

  lemma OthersHaveNone(scopes: seq<Scope>, x: Index, since: Option<seq<Scope>>, c: Classification)
    requires c == Broken || c == Keep
    ensures CountClass(PartialEntries(scopes, x), c) == 0 == CountClass(MergePart(scopes, x, since), c)
  {
    FilterNoneAt(PartialEntries(scopes, x), IsClass(c));
    MergeReviews(scopes, x, since);
    FilterNothing(MergePart(scopes, x, since), IsClass(c));
  }

  /** What the counters count: the free files that point to one scope only, the entries of each class, and for the
      members kept those a full report would list. */
  lemma CountersExactly(scopes: seq<Scope>, x: Index, full: bool, threshold: nat, since: Option<seq<Scope>>)
    requires UniqueIds(scopes)
    ensures var r, all := ReportOf(scopes, x, full, threshold, since), ReportOf(scopes, x, true, threshold, since);
            && r.full == full && r.autoCount == |Lone(scopes, x)| == |Filter(r.entries, ClassIs(Auto))|
            && r.reviewCount == |Filter(r.entries, ClassIs(Review))|
            && r.brokenCount == |Filter(r.entries, ClassIs(Broken))|
            && r.keepCount == |Filter(all.entries, ClassIs(Keep))|
            && (r.suspiciousChurn <==> |Lone(scopes, x)| > threshold)
            && (r.applied <==> !full && 0 < |Lone(scopes, x)| <= threshold)
  {
    var r, all := ReportOf(scopes, x, full, threshold, since), ReportOf(scopes, x, true, threshold, since);
    ReconcileWritesExactly(scopes, x, full, threshold);
    LoneCounted(scopes, x);
    AutoCounted(scopes, x, full, r.applied, since);
    MemberClasses(scopes, x, full, r.applied, since, Broken);
    MemberClasses(scopes, x, true, all.applied, since, Keep);
    CountIs(r.entries, Auto);
    CountIs(r.entries, Review);
    CountIs(r.entries, Broken);
    CountIs(all.entries, Keep);
  }
}
