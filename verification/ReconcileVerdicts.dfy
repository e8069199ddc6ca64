/** One verdict per membership and per file, in the report itself. */
module ReconcileVerdicts {
  import opened Collections
  import opened CodeIndex
  import opened Scopes
  import opened Reconcile

  // ---------------------------------------------------------------- memberships

  /** The entries about one membership, whatever they say of it. */
  function AboutMembership(id: string, kind: TargetType, target: string): Entry -> bool {
    (e: Entry) => e.scopeId == Some(id) && e.targetType == kind && e.target == target
  }

  lemma {:induction false} FlatFilterUnique<A, B>(xs: seq<A>, f: A -> seq<B>, keep: B -> bool, s: A)
    requires multiset(xs)[s] == 1
    requires forall t :: t in xs && t != s ==> Filter(f(t), keep) == []
    ensures Filter(Flat(xs, f), keep) == Filter(f(s), keep)
  {
    var front, last := xs[..|xs| - 1], xs[|xs| - 1];
    assert xs == front + [last];
    FilterAppend(Flat(front, f), f(last), keep);
    if last == s {
      assert multiset(xs)[s] == multiset(front)[s] + 1;
      FlatFilterNothing(front, f, keep);
    } else {
      FlatFilterUnique(front, f, keep, s);
    }
  }

  lemma {:induction false} FlatFilterNothing<A, B>(xs: seq<A>, f: A -> seq<B>, keep: B -> bool)
    requires forall t :: t in xs ==> Filter(f(t), keep) == []
    ensures Filter(Flat(xs, f), keep) == []
  {
    if xs != [] {
      FlatFilterNothing(xs[..|xs| - 1], f, keep);
      FilterAppend(Flat(xs[..|xs| - 1], f), f(xs[|xs| - 1]), keep);
    }
  }

  function Repeat<T>(x: T, n: nat): seq<T> { seq(n, _ => x) }

  lemma {:induction false} TargetVerdicts(s: Scope, kind: TargetType, targets: seq<string>, known: set<string>,
      t: string)
    ensures Filter(MembershipEntries(s, kind, targets, known), AboutMembership(s.id, kind, t))
        == Repeat(MembershipEntry(s, kind, t, known), multiset(targets)[t])
  {
    if targets != [] {
      var front, last := targets[..|targets| - 1], targets[|targets| - 1];
      TargetVerdicts(s, kind, front, known, t);
      assert targets == front + [last];
      assert multiset(targets)[t] == multiset(front)[t] + if last == t then 1 else 0;
      assert MembershipEntries(s, kind, targets, known)
          == MembershipEntries(s, kind, front, known) + [MembershipEntry(s, kind, last, known)];
      FilterSnoc(MembershipEntries(s, kind, front, known), MembershipEntry(s, kind, last, known),
          AboutMembership(s.id, kind, t));
    }
  }

  lemma OtherTargets(s: Scope, kind: TargetType, targets: seq<string>, known: set<string>, keep: Entry -> bool)
    requires forall e :: e in MembershipEntries(s, kind, targets, known) ==> !keep(e)
    ensures Filter(MembershipEntries(s, kind, targets, known), keep) == []
  {
    FilterNothing(MembershipEntries(s, kind, targets, known), keep);
  }

  /** The list a membership kind is in, and what is indexed of that kind. */
  function Targets(s: Scope, kind: TargetType): seq<string> { if kind == FileTarget then s.files else s.symbols }

  function Indexed(x: Index, kind: TargetType): set<string> {
    if kind == FileTarget then Paths(x.files) else SymbolSet(x)
  }

  lemma SortedCount(s: seq<string>, t: string)
    ensures multiset(SortStrings(s))[t] == multiset(s)[t]
  {
  }

  lemma FileVerdictsOfScope(x: Index, s: Scope, t: string)
    ensures Filter(ScopeEntries(x)(s), AboutMembership(s.id, FileTarget, t))
        == Repeat(MembershipEntry(s, FileTarget, t, Paths(x.files)), multiset(s.files)[t])
  {
    var fs, ys := SortStrings(s.files), SortStrings(s.symbols);
    FilterAppend(MembershipEntries(s, FileTarget, fs, Paths(x.files)),
        MembershipEntries(s, SymbolTarget, ys, SymbolSet(x)), AboutMembership(s.id, FileTarget, t));
    SortedCount(s.files, t);
    TargetVerdicts(s, FileTarget, fs, Paths(x.files), t);
    OtherTargets(s, SymbolTarget, ys, SymbolSet(x), AboutMembership(s.id, FileTarget, t));
  }

  lemma SymbolVerdictsOfScope(x: Index, s: Scope, t: string)
    ensures Filter(ScopeEntries(x)(s), AboutMembership(s.id, SymbolTarget, t))
        == Repeat(MembershipEntry(s, SymbolTarget, t, SymbolSet(x)), multiset(s.symbols)[t])
  {
    var fs, ys := SortStrings(s.files), SortStrings(s.symbols);
    FilterAppend(MembershipEntries(s, FileTarget, fs, Paths(x.files)),
        MembershipEntries(s, SymbolTarget, ys, SymbolSet(x)), AboutMembership(s.id, SymbolTarget, t));
    SortedCount(s.symbols, t);
    TargetVerdicts(s, SymbolTarget, ys, SymbolSet(x), t);
    OtherTargets(s, FileTarget, fs, Paths(x.files), AboutMembership(s.id, SymbolTarget, t));
  }

  lemma ScopeVerdicts(x: Index, s: Scope, kind: TargetType, t: string)
    ensures Filter(ScopeEntries(x)(s), AboutMembership(s.id, kind, t))
         == Repeat(MembershipEntry(s, kind, t, Indexed(x, kind)), multiset(Targets(s, kind))[t])
  {
    if kind == FileTarget { FileVerdictsOfScope(x, s, t); } else { SymbolVerdictsOfScope(x, s, t); }
  }

  lemma OtherScope(x: Index, u: Scope, id: string, kind: TargetType, t: string)
    requires u.id != id
    ensures Filter(ScopeEntries(x)(u), AboutMembership(id, kind, t)) == []
  {
    NamesOwnScope(u, FileTarget, SortStrings(u.files), Paths(x.files));
    NamesOwnScope(u, SymbolTarget, SortStrings(u.symbols), SymbolSet(x));
    FilterNothing(ScopeEntries(x)(u), AboutMembership(id, kind, t));
  }

  lemma NamesOwnScope(u: Scope, kind: TargetType, targets: seq<string>, known: set<string>)
    ensures forall e :: e in MembershipEntries(u, kind, targets, known) ==> e.scopeId == Some(u.id)
  {
  }

  lemma {:induction false} UniqueOnce(scopes: seq<Scope>, s: Scope)
    requires UniqueIds(scopes) && s in scopes
    ensures multiset(scopes)[s] == 1
  {
    var n := |scopes| - 1;
    assert scopes == scopes[..n] + [scopes[n]];
    if s in scopes[..n] {
      UniqueOnce(scopes[..n], s);
      assert scopes[n].id != s.id;
    }
  }

  lemma SortedOnce(scopes: seq<Scope>, s: Scope)
    requires UniqueIds(scopes) && s in scopes
    ensures multiset(SortById(scopes))[s] == 1
    ensures forall u :: u in SortById(scopes) && u != s ==> u.id != s.id
  {
    UniqueOnce(scopes, s);
    SortByIdMembers(scopes);
    forall u | u in SortById(scopes) && u != s ensures u.id != s.id {
      SameIdSameScope(scopes, u, s);
    }
  }

  /** Of every membership there are as many verdicts as the scope lists it, all of them the same one of KEEP, BROKEN and
      REVIEW, and no others. */
  lemma MembershipVerdicts(scopes: seq<Scope>, x: Index, s: Scope, kind: TargetType, t: string)
    requires UniqueIds(scopes) && s in scopes
    ensures Filter(AllMemberships(scopes, x), AboutMembership(s.id, kind, t))
         == Repeat(MembershipEntry(s, kind, t, Indexed(x, kind)), multiset(Targets(s, kind))[t])
  {
    SortedOnce(scopes, s);
    forall u | u in SortById(scopes) && u != s
        ensures Filter(ScopeEntries(x)(u), AboutMembership(s.id, kind, t)) == [] {
      OtherScope(x, u, s.id, kind, t);
    }
    FlatFilterUnique(SortById(scopes), ScopeEntries(x), AboutMembership(s.id, kind, t), s);
    ScopeVerdicts(x, s, kind, t);
  }

  lemma FileMembershipVerdict(scopes: seq<Scope>, x: Index, s: Scope, f: Path)
    requires UniqueIds(scopes) && s in scopes
    ensures |Filter(AllMemberships(scopes, x), AboutMembership(s.id, FileTarget, f))| == multiset(s.files)[f]
    ensures forall e :: e in Filter(AllMemberships(scopes, x), AboutMembership(s.id, FileTarget, f)) ==>
              e.classification == if f in Paths(x.files) then Keep else if IsProtected(s) then Broken else Review
  {
    MembershipVerdicts(scopes, x, s, FileTarget, f);
  }

  lemma SymbolMembershipVerdict(scopes: seq<Scope>, x: Index, s: Scope, y: string)
    requires UniqueIds(scopes) && s in scopes
    ensures |Filter(AllMemberships(scopes, x), AboutMembership(s.id, SymbolTarget, y))| == multiset(s.symbols)[y]
    ensures forall e :: e in Filter(AllMemberships(scopes, x), AboutMembership(s.id, SymbolTarget, y)) ==>
              e.classification == if y in SymbolSet(x) then Keep else if IsProtected(s) then Broken else Review
  {
    MembershipVerdicts(scopes, x, s, SymbolTarget, y);
  }

  // -------------------------------------------------------------------- in the report

  lemma {:induction false} FilterCommutes<T>(s: seq<T>, p: T -> bool, q: T -> bool)
    ensures Filter(Filter(s, p), q) == Filter(Filter(s, q), p)
  {
    if s != [] {
      var front, x := s[..|s| - 1], s[|s| - 1];
      FilterCommutes(front, p, q);
      if p(x) { FilterSnoc(Filter(front, p), x, q); }
      if q(x) { FilterSnoc(Filter(front, q), x, p); }
    }
  }

  lemma FileEntriesElsewhere(paths: seq<Path>, candidates: Path -> set<string>, applied: bool, keep: Entry -> bool)
    requires forall e :: e in FileEntries(paths, candidates, applied) ==> !keep(e)
    ensures Filter(FileEntries(paths, candidates, applied), keep) == []
  {
    FilterNothing(FileEntries(paths, candidates, applied), keep);
  }

  lemma PartsOfReport(scopes: seq<Scope>, x: Index, full: bool, threshold: nat, since: Option<seq<Scope>>,
      keep: Entry -> bool)
    ensures Filter(ReportOf(scopes, x, full, threshold, since).entries, keep)
         == Filter(Filter(AllMemberships(scopes, x), Emitted(full)), keep)
            + Filter(FileEntries(Sorted(Unassigned(scopes, x)), Candidates(scopes, x),
                Reconciled(scopes, x, full, threshold).Some?), keep)
            + Filter(PartialEntries(scopes, x), keep) + Filter(MergePart(scopes, x, since), keep)
  {
    FilterFour(Filter(AllMemberships(scopes, x), Emitted(full)),
               FileEntries(Sorted(Unassigned(scopes, x)), Candidates(scopes, x),
                   Reconciled(scopes, x, full, threshold).Some?),
               PartialEntries(scopes, x), MergePart(scopes, x, since), keep);
  }

  /** Without a merge base, the report says exactly that verdict of a membership, once per listing; KEEP only in full
      mode. */
  lemma ReportedMembership(scopes: seq<Scope>, x: Index, full: bool, threshold: nat, s: Scope, kind: TargetType,
      t: string)
    requires UniqueIds(scopes) && s in scopes && t in Targets(s, kind)
    ensures var e := MembershipEntry(s, kind, t, Indexed(x, kind));
            Filter(ReportOf(scopes, x, full, threshold, None).entries, AboutMembership(s.id, kind, t))
            == if Emitted(full)(e) then Repeat(e, multiset(Targets(s, kind))[t]) else []
  {
    EmittedVerdicts(scopes, x, full, s, kind, t);
    ListedNotUnassigned(scopes, x, s, kind, t, Reconciled(scopes, x, full, threshold).Some?);
    PartialNamesNoScope(scopes, x, s.id, kind, t);
    OnlyMembershipPart(scopes, x, full, threshold, AboutMembership(s.id, kind, t));
  }

  lemma OnlyMembershipPart(scopes: seq<Scope>, x: Index, full: bool, threshold: nat, keep: Entry -> bool)
    requires Filter(FileEntries(Sorted(Unassigned(scopes, x)), Candidates(scopes, x),
        Reconciled(scopes, x, full, threshold).Some?), keep) == []
    requires Filter(PartialEntries(scopes, x), keep) == []
    ensures Filter(ReportOf(scopes, x, full, threshold, None).entries, keep)
        == Filter(Filter(AllMemberships(scopes, x), Emitted(full)), keep)
  {
    PartsOfReport(scopes, x, full, threshold, None, keep);
    OnlyFirst(Filter(Filter(AllMemberships(scopes, x), Emitted(full)), keep));
  }

  lemma OnlyFirst<T>(a: seq<T>)
    ensures a + [] + [] + [] == a
  {
  }

  lemma PartialNamesNoScope(scopes: seq<Scope>, x: Index, id: string, kind: TargetType, t: string)
    ensures Filter(PartialEntries(scopes, x), AboutMembership(id, kind, t)) == []
  {
    FilterNoneAt(PartialEntries(scopes, x), AboutMembership(id, kind, t));
  }

  lemma FilterRepeat<T>(e: T, n: nat, keep: T -> bool)
    ensures Filter(Repeat(e, n), keep) == if keep(e) then Repeat(e, n) else []
  {
    if keep(e) { FilterAll(Repeat(e, n), keep); } else { FilterNothing(Repeat(e, n), keep); }
  }

  lemma EmittedVerdicts(scopes: seq<Scope>, x: Index, full: bool, s: Scope, kind: TargetType, t: string)
    requires UniqueIds(scopes) && s in scopes
    ensures var e := MembershipEntry(s, kind, t, Indexed(x, kind));
            Filter(Filter(AllMemberships(scopes, x), Emitted(full)), AboutMembership(s.id, kind, t))
            == if Emitted(full)(e) then Repeat(e, multiset(Targets(s, kind))[t]) else []
  {
    MembershipVerdicts(scopes, x, s, kind, t);
    FilterCommutes(AllMemberships(scopes, x), Emitted(full), AboutMembership(s.id, kind, t));
    FilterRepeat(MembershipEntry(s, kind, t, Indexed(x, kind)), multiset(Targets(s, kind))[t], Emitted(full));
  }

  /** Entries about these files, one each, in order. */
  ghost predicate AboutFiles(entries: seq<Entry>, paths: seq<Path>) {
    |entries| == |paths|
        && forall i :: 0 <= i < |entries| ==> entries[i].targetType == FileTarget && entries[i].target == paths[i]
  }

  lemma FileEntriesAboutFiles(paths: seq<Path>, candidates: Path -> set<string>, applied: bool)
    ensures AboutFiles(FileEntries(paths, candidates, applied), paths)
  {
  }

  lemma NoneAboutMembership(entries: seq<Entry>, paths: seq<Path>, id: string, kind: TargetType, t: string)
    requires AboutFiles(entries, paths) && (kind == FileTarget ==> t !in paths)
    ensures Filter(entries, AboutMembership(id, kind, t)) == []
  {
    FilterNoneAt(entries, AboutMembership(id, kind, t));
  }

  lemma ListedNotUnassigned(scopes: seq<Scope>, x: Index, s: Scope, kind: TargetType, t: string, applied: bool)
    requires s in scopes && t in Targets(s, kind)
    ensures Filter(FileEntries(Sorted(Unassigned(scopes, x)), Candidates(scopes, x), applied),
        AboutMembership(s.id, kind, t)) == []
  {
    var paths := Sorted(Unassigned(scopes, x));
    FileEntriesAboutFiles(paths, Candidates(scopes, x), applied);
    NoneAboutMembership(FileEntries(paths, Candidates(scopes, x), applied), paths, s.id, kind, t);
  }

  // ----------------------------------------------------------------------- files

  function About(f: Path): Entry -> bool { (e: Entry) => e.targetType == FileTarget && e.target == f }

  lemma {:induction false} AboutOnce(entries: seq<Entry>, paths: seq<Path>, f: Path)
    requires AboutFiles(entries, paths) && Distinct(paths)
    ensures |Filter(entries, About(f))| == if f in paths then 1 else 0
  {
    if paths != [] {
      DistinctFront(paths);
      AboutOnce(entries[..|entries| - 1], paths[..|paths| - 1], f);
    }
  }

  lemma UnassignedCount(paths: set<Path>, candidates: Path -> set<string>, applied: bool, f: Path)
    ensures |Filter(FileEntries(Sorted(paths), candidates, applied), About(f))| == if f in paths then 1 else 0
  {
    FileEntriesAboutFiles(Sorted(paths), candidates, applied);
    AboutOnce(FileEntries(Sorted(paths), candidates, applied), Sorted(paths), f);
  }

  lemma CoverageAboutFiles(paths: seq<Path>, scopes: seq<Scope>, x: Index)
    ensures AboutFiles(CoverageEntries(paths, scopes, x), paths)
  {
    forall i | 0 <= i < |paths|
      ensures var e := CoverageEntries(paths, scopes, x)[i]; e.targetType == FileTarget && e.target == paths[i]
    {
      PartialTarget(paths[i], Covering(scopes, Owners(x.symbols), paths[i]), MemberSymbolIds(scopes), x);
    }
  }

  lemma PartialTarget(path: Path, scopeIds: set<string>, members: set<string>, x: Index)
    ensures PartialEntry(path, scopeIds, members, x).targetType == FileTarget
    ensures PartialEntry(path, scopeIds, members, x).target == path
  {
  }

  lemma PartialCount(scopes: seq<Scope>, x: Index, f: Path)
    ensures |Filter(PartialEntries(scopes, x), About(f))|
        == if f in PartialPaths(scopes, Owners(x.symbols)) then 1 else 0
  {
    CoverageAboutFiles(Sorted(PartialPaths(scopes, Owners(x.symbols))), scopes, x);
    AboutOnce(PartialEntries(scopes, x), Sorted(PartialPaths(scopes, Owners(x.symbols))), f);
  }

  lemma PartialIsCovered(scopes: seq<Scope>, owner: map<string, Path>, f: Path)
    ensures f in PartialPaths(scopes, owner) ==> f in CoveredFiles(scopes, owner)
    ensures f in CoveredFiles(scopes, owner) && f !in ListedFiles(scopes) ==> f in PartialPaths(scopes, owner)
  {
  }

  /** Neither memberships nor merge entries speak of a file that no scope lists. */
  lemma UnlistedElsewhere(scopes: seq<Scope>, x: Index, since: Option<seq<Scope>>, f: Path)
    requires f !in ListedFiles(scopes)
    ensures Filter(AllMemberships(scopes, x), About(f)) == [] && Filter(MergePart(scopes, x, since), About(f)) == []
  {
    SortedUnlisted(scopes, f);
    UnlistedMemberships(SortById(scopes), x, f);
    if since.Some? { UnlistedMerges(SortById(scopes), x, Candidates(scopes, x), PreviousFiles(since.value), f); }
  }

  lemma SortedUnlisted(scopes: seq<Scope>, f: Path)
    requires f !in ListedFiles(scopes)
    ensures forall s :: s in SortById(scopes) ==> f !in s.files
  {
    var sorted := SortById(scopes);
    forall s | s in sorted ensures f !in s.files { assert s in multiset(sorted); assert s in scopes; }
  }

  lemma UnlistedMemberships(sorted: seq<Scope>, x: Index, f: Path)
    requires forall s :: s in sorted ==> f !in s.files
    ensures Filter(Flat(sorted, ScopeEntries(x)), About(f)) == []
  {
    forall s | s in sorted ensures Filter(ScopeEntries(x)(s), About(f)) == [] { NoFileMembership(x, s, f); }
    FlatFilterNothing(sorted, ScopeEntries(x), About(f));
  }

  lemma UnlistedMerges(sorted: seq<Scope>, x: Index, candidates: Path -> set<string>, before: map<string, set<Path>>,
      f: Path)
    requires forall s :: s in sorted ==> f !in s.files
    ensures Filter(Flat(sorted, ScopeMergeEntries(x, candidates, before)), About(f)) == []
  {
    forall s | s in sorted ensures Filter(ScopeMergeEntries(x, candidates, before)(s), About(f)) == [] {
      NoMergeEntry(x, s, candidates, before, f);
    }
    FlatFilterNothing(sorted, ScopeMergeEntries(x, candidates, before), About(f));
  }

  lemma NoneAboutFile(s: Scope, kind: TargetType, targets: seq<string>, known: set<string>, f: Path)
    requires kind == FileTarget ==> f !in targets
    ensures Filter(MembershipEntries(s, kind, targets, known), About(f)) == []
  {
    FilterNoneAt(MembershipEntries(s, kind, targets, known), About(f));
  }

  lemma NoFileMembership(x: Index, s: Scope, f: Path)
    requires f !in s.files
    ensures Filter(ScopeEntries(x)(s), About(f)) == []
  {
    var fs, ys := SortStrings(s.files), SortStrings(s.symbols);
    SortStringsMembers(s.files);
    FilterAppend(MembershipEntries(s, FileTarget, fs, Paths(x.files)),
        MembershipEntries(s, SymbolTarget, ys, SymbolSet(x)), About(f));
    NoneAboutFile(s, FileTarget, fs, Paths(x.files), f);
    NoneAboutFile(s, SymbolTarget, ys, SymbolSet(x), f);
  }

  lemma MergeEntriesAboutFiles(id: string, paths: seq<Path>, candidates: Path -> set<string>)
    ensures AboutFiles(MergeEntries(id, paths, candidates), paths)
    ensures forall i :: 0 <= i < |paths| ==> MergeEntries(id, paths, candidates)[i].scopeId == Some(id)
  {
  }

  lemma NoneAbout(entries: seq<Entry>, paths: seq<Path>, f: Path)
    requires AboutFiles(entries, paths) && f !in paths
    ensures Filter(entries, About(f)) == []
  {
    FilterNoneAt(entries, About(f));
  }

  lemma NoMergeEntry(x: Index, s: Scope, candidates: Path -> set<string>, before: map<string, set<Path>>, f: Path)
    requires f !in s.files
    ensures Filter(ScopeMergeEntries(x, candidates, before)(s), About(f)) == []
  {
    var paths := Filter(Sorted(NewlyAdded(s, before)), Unsettled(s.id, Paths(x.files), candidates));
    assert f !in Sorted(NewlyAdded(s, before));
    MergeEntriesAboutFiles(s.id, paths, candidates);
    NoneAbout(MergeEntries(s.id, paths, candidates), paths, f);
  }

  /** The report says exactly one thing of an indexed file that no scope lists: AUTO, REVIEW, or partly covered. */
  lemma OneVerdictPerFile(scopes: seq<Scope>, x: Index, full: bool, threshold: nat, since: Option<seq<Scope>>, f: Path)
    requires f in Paths(x.files) && f !in ListedFiles(scopes)
    ensures |Filter(ReportOf(scopes, x, full, threshold, since).entries, About(f))| == 1
  {
    PartsOfReport(scopes, x, full, threshold, since, About(f));
    UnlistedElsewhere(scopes, x, since, f);
    FilterCommutes(AllMemberships(scopes, x), Emitted(full), About(f));
    UnassignedCount(Unassigned(scopes, x), Candidates(scopes, x), Reconciled(scopes, x, full, threshold).Some?, f);
    PartialCount(scopes, x, f);
    PartialIsCovered(scopes, Owners(x.symbols), f);
  }

  /** An entry saying that a file is in no scope's file list, though symbols of it are members. */
  function SaysUnlisted(f: Path): Entry -> bool { (e: Entry) => e.reason.PartlyCovered? && e.target == f }

  lemma OnlyPartialSaysUnlisted(scopes: seq<Scope>, x: Index, full: bool, threshold: nat, since: Option<seq<Scope>>,
      f: Path)
    ensures Filter(ReportOf(scopes, x, full, threshold, since).entries, SaysUnlisted(f))
        == Filter(PartialEntries(scopes, x), About(f))
  {
    PartsOfReport(scopes, x, full, threshold, since, SaysUnlisted(f));
    MembershipReasons(scopes, x);
    FilterNothing(Filter(AllMemberships(scopes, x), Emitted(full)), SaysUnlisted(f));
    FileReasons(Sorted(Unassigned(scopes, x)), Candidates(scopes, x), Reconciled(scopes, x, full, threshold).Some?, f);
    MergeReasons(scopes, x, since, f);
    PartialReasons(scopes, x, f);
  }

  lemma FileReasons(paths: seq<Path>, candidates: Path -> set<string>, applied: bool, f: Path)
    ensures Filter(FileEntries(paths, candidates, applied), SaysUnlisted(f)) == []
  {
    FileEntriesElsewhere(paths, candidates, applied, SaysUnlisted(f));
  }

  lemma MergeReasons(scopes: seq<Scope>, x: Index, since: Option<seq<Scope>>, f: Path)
    ensures Filter(MergePart(scopes, x, since), SaysUnlisted(f)) == []
  {
    MergeReviews(scopes, x, since);
    FilterNothing(MergePart(scopes, x, since), SaysUnlisted(f));
  }

  lemma PartialReasons(scopes: seq<Scope>, x: Index, f: Path)
    ensures Filter(PartialEntries(scopes, x), SaysUnlisted(f)) == Filter(PartialEntries(scopes, x), About(f))
  {
    FilterSame(PartialEntries(scopes, x), SaysUnlisted(f), About(f));
  }

  lemma TargetReasons(s: Scope, kind: TargetType, targets: seq<string>, known: set<string>)
    ensures forall e :: e in MembershipEntries(s, kind, targets, known) ==> !e.reason.PartlyCovered?
  {
  }

  lemma MembershipReasons(scopes: seq<Scope>, x: Index)
    ensures forall e :: e in AllMemberships(scopes, x) ==> !e.reason.PartlyCovered?
  {
    forall e | e in AllMemberships(scopes, x) ensures !e.reason.PartlyCovered? {
      FlatMember(SortById(scopes), ScopeEntries(x), e);
      var s :| s in SortById(scopes) && e in ScopeEntries(x)(s);
      TargetReasons(s, FileTarget, SortStrings(s.files), Paths(x.files));
      TargetReasons(s, SymbolTarget, SortStrings(s.symbols), SymbolSet(x));
    }
  }

  /** Some scope has a symbol of the file and does not list the file. */
  ghost predicate ReachedUnlisted(scopes: seq<Scope>, owner: map<string, Path>, f: Path) {
    exists s, y :: s in scopes && y in s.symbols && y in owner && owner[y] == f && f !in s.files
  }

  /** The report says of a file that no scope lists it exactly when some scope so reaches it: also of a file that
      another scope lists. */
  lemma SaidUnlistedExactly(scopes: seq<Scope>, x: Index, full: bool, threshold: nat, since: Option<seq<Scope>>,
      f: Path)
    ensures |Filter(ReportOf(scopes, x, full, threshold, since).entries, SaysUnlisted(f))|
        == if ReachedUnlisted(scopes, Owners(x.symbols), f) then 1 else 0
  {
    OnlyPartialSaysUnlisted(scopes, x, full, threshold, since, f);
    PartialCount(scopes, x, f);
  }

  /** So what it says is right of every file exactly when every scope with a symbol of a listed file lists the file. */
  lemma SaidUnlistedRightly(scopes: seq<Scope>, x: Index, full: bool, threshold: nat, since: Option<seq<Scope>>)
    ensures (forall f :: f in ListedFiles(scopes) ==>
        |Filter(ReportOf(scopes, x, full, threshold, since).entries, SaysUnlisted(f))| == 0)
        <==> forall f :: f in ListedFiles(scopes) ==> !ReachedUnlisted(scopes, Owners(x.symbols), f)
  {
    forall f ensures |Filter(ReportOf(scopes, x, full, threshold, since).entries, SaysUnlisted(f))| == 0
        <==> !ReachedUnlisted(scopes, Owners(x.symbols), f) {
      SaidUnlistedExactly(scopes, x, full, threshold, since, f);
    }
  }

  /** One file, listed by one scope and reached by another through a symbol: it is said to be listed by none. */
  lemma ListedYetSaidUnlisted(full: bool, threshold: nat, since: Option<seq<Scope>>)
    ensures var scopes := [Scope("a", "", false, FromAuto, ["f"], []), Scope("b", "", false, FromAuto, [], ["y"])];
            var x := Index([IndexedFile("f", "", FileStatus.Ok)], [Symbol("y", "f", "y", Function, 1, 1)], []);
            "f" in ListedFiles(scopes) && |Filter(ReportOf(scopes, x, full, threshold, since).entries,
                SaysUnlisted("f"))| == 1
  {
    var scopes := [Scope("a", "", false, FromAuto, ["f"], []), Scope("b", "", false, FromAuto, [], ["y"])];
    var x := Index([IndexedFile("f", "", FileStatus.Ok)], [Symbol("y", "f", "y", Function, 1, 1)], []);
    var owner := Owners(x.symbols);
    OneOwner(x.symbols[0]);
    assert scopes[0] in scopes && "f" in scopes[0].files;
    assert scopes[1] in scopes && "y" in scopes[1].symbols && "y" in owner && owner["y"] == "f"
        && "f" !in scopes[1].files;
    assert ReachedUnlisted(scopes, owner, "f");
    SaidUnlistedExactly(scopes, x, full, threshold, since, "f");
  }

  lemma OneOwner(y: Symbol)
    ensures Owners([y]) == map[y.id := y.file]
  {
    assert [y][..0] == [];
  }

  // ----------------------------------------------------------------------- merges

  lemma {:induction false} MergeEntriesOnce(id: string, paths: seq<Path>, candidates: Path -> set<string>, p: Path)
    requires Distinct(paths)
    ensures |Filter(MergeEntries(id, paths, candidates), AboutMembership(id, FileTarget, p))|
        == if p in paths then 1 else 0
  {
    if paths != [] {
      var front, last := paths[..|paths| - 1], paths[|paths| - 1];
      DistinctFront(paths);
      MergeEntriesOnce(id, front, candidates, p);
      var e := Entry(Some(id), FileTarget, last, Review, false, Sorted(candidates(last)), MergeAffected);
      assert MergeEntries(id, paths, candidates) == MergeEntries(id, front, candidates) + [e];
      FilterSnoc(MergeEntries(id, front, candidates), e, AboutMembership(id, FileTarget, p));
    }
  }

  lemma MergeNamesOwnScope(x: Index, u: Scope, candidates: Path -> set<string>, before: map<string, set<Path>>)
    ensures var entries := ScopeMergeEntries(x, candidates, before)(u);
            forall i :: 0 <= i < |entries| ==> entries[i].scopeId == Some(u.id)
  {
    MergeEntriesAboutFiles(u.id, Filter(Sorted(NewlyAdded(u, before)), Unsettled(u.id, Paths(x.files), candidates)),
        candidates);
  }

  lemma OtherMerge(x: Index, u: Scope, candidates: Path -> set<string>, before: map<string, set<Path>>, id: string,
      p: Path)
    requires u.id != id
    ensures Filter(ScopeMergeEntries(x, candidates, before)(u), AboutMembership(id, FileTarget, p)) == []
  {
    MergeNamesOwnScope(x, u, candidates, before);
    FilterNoneAt(ScopeMergeEntries(x, candidates, before)(u), AboutMembership(id, FileTarget, p));
  }

  /** A membership is put up for review after a merge, once, exactly when its scope is unprotected, it was not in the
      scope at the base, its file is indexed, and the imports no longer point to this scope alone. */
  lemma MergeReviewedExactly(scopes: seq<Scope>, x: Index, previous: seq<Scope>, s: Scope, p: Path)
    requires UniqueIds(scopes) && s in scopes
    ensures |Filter(MergePart(scopes, x, Some(previous)), AboutMembership(s.id, FileTarget, p))|
         == if !IsProtected(s) && p in NewlyAdded(s, PreviousFiles(previous)) && p in Paths(x.files)
           && Candidates(scopes, x)(p) != {s.id}
            then 1 else 0
  {
    MergeOfScope(scopes, x, Candidates(scopes, x), PreviousFiles(previous), s, p);
    UnsettledOnce(s, x, Candidates(scopes, x), PreviousFiles(previous), p);
  }

  lemma MergeOfScope(scopes: seq<Scope>, x: Index, candidates: Path -> set<string>, before: map<string, set<Path>>,
      s: Scope, p: Path)
    requires UniqueIds(scopes) && s in scopes
    ensures Filter(Flat(SortById(scopes), ScopeMergeEntries(x, candidates, before)),
        AboutMembership(s.id, FileTarget, p))
         == Filter(ScopeMergeEntries(x, candidates, before)(s), AboutMembership(s.id, FileTarget, p))
  {
    SortedOnce(scopes, s);
    forall u | u in SortById(scopes) && u != s
      ensures Filter(ScopeMergeEntries(x, candidates, before)(u), AboutMembership(s.id, FileTarget, p)) == [] {
      OtherMerge(x, u, candidates, before, s.id, p);
    }
    FlatFilterUnique(SortById(scopes), ScopeMergeEntries(x, candidates, before),
        AboutMembership(s.id, FileTarget, p), s);
  }

  lemma UnsettledOnce(s: Scope, x: Index, candidates: Path -> set<string>, before: map<string, set<Path>>, p: Path)
    ensures |Filter(ScopeMergeEntries(x, candidates, before)(s), AboutMembership(s.id, FileTarget, p))|
         == if !IsProtected(s) && p in NewlyAdded(s, before) && p in Paths(x.files) && candidates(p) != {s.id}
           then 1 else 0
  {
    if !IsProtected(s) {
      var added := Sorted(NewlyAdded(s, before));
      FilterDistinct(added, Unsettled(s.id, Paths(x.files), candidates));
      MergeEntriesOnce(s.id, Filter(added, Unsettled(s.id, Paths(x.files), candidates)), candidates, p);
    }
  }
}
