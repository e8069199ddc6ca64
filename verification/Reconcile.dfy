/** The reconcile report: one verdict per membership and per file, and counters that agree with them. */
module Reconcile {
  import opened Collections
  import opened CodeIndex
  import opened References
  import opened Scopes

  datatype TargetType = FileTarget | SymbolTarget

  datatype Classification = Auto | Keep | Review | Broken

  /** Why an entry is there. A partly covered file is said to be listed by no scope. */
  datatype Reason =
    | StillIndexed | ProtectedMissing | UnprotectedMissing
    | OneCandidate | NoCandidate | Ambiguous
    | PartlyCovered(covered: nat, indexed: nat)
    | MergeAffected

  datatype Entry = Entry(
    scopeId: Option<string>, targetType: TargetType, target: string, classification: Classification,
    applied: bool, candidates: seq<string>, reason: Reason)

  datatype Report = Report(
    full: bool, entries: seq<Entry>, autoCount: nat, reviewCount: nat, keepCount: nat, brokenCount: nat,
    suspiciousChurn: bool, applied: bool)

  predicate IsProtected(s: Scope) { s.locked || s.source == FromHuman }

  // --------------------------------------------------------------- memberships

  function MembershipVerdict(s: Scope, present: bool): Classification {
    if present then Keep else if IsProtected(s) then Broken else Review
  }

  function MembershipReason(s: Scope, present: bool): Reason {
    if present then StillIndexed else if IsProtected(s) then ProtectedMissing else UnprotectedMissing
  }

  function MembershipEntry(s: Scope, kind: TargetType, target: string, known: set<string>): Entry {
    Entry(Some(s.id), kind, target, MembershipVerdict(s, target in known), false, [],
        MembershipReason(s, target in known))
  }

  function MembershipEntries(s: Scope, kind: TargetType, targets: seq<string>, known: set<string>): seq<Entry> {
    seq(|targets|, i requires 0 <= i < |targets| => MembershipEntry(s, kind, targets[i], known))
  }

  function SymbolSet(x: Index): set<string> { set s | s in x.symbols :: s.id }

  /** The verdict on every membership of one scope. */
  function ScopeEntries(x: Index): Scope -> seq<Entry> {
    (s: Scope) => MembershipEntries(s, FileTarget, SortStrings(s.files), Paths(x.files))
                + MembershipEntries(s, SymbolTarget, SortStrings(s.symbols), SymbolSet(x))
  }

  function InsertById(s: Scope, sorted: seq<Scope>): (r: seq<Scope>)
    ensures multiset(r) == multiset(sorted) + multiset{s}
  {
    if sorted == [] || (s.id != sorted[0].id && Leq(s.id, sorted[0].id)) then [s] + sorted
    else
      assert sorted == [sorted[0]] + sorted[1..];
      [sorted[0]] + InsertById(s, sorted[1..])
  }

  /** `sorted(scopes, key=id)`: stable. */
  function SortById(scopes: seq<Scope>): (r: seq<Scope>)
    ensures multiset(r) == multiset(scopes)
  {
    if scopes == [] then []
    else
      assert scopes == scopes[..|scopes| - 1] + [scopes[|scopes| - 1]];
      InsertById(scopes[|scopes| - 1], SortById(scopes[..|scopes| - 1]))
  }

  lemma SortByIdMembers(scopes: seq<Scope>)
    ensures forall s :: s in SortById(scopes) <==> s in scopes
  {
    forall s ensures s in SortById(scopes) <==> s in scopes {
      assert s in SortById(scopes) <==> s in multiset(SortById(scopes));
    }
  }

  /** The verdict on every membership of every scope. */
  function AllMemberships(scopes: seq<Scope>, x: Index): seq<Entry> { Flat(SortById(scopes), ScopeEntries(x)) }

  // --------------------------------------------------------------------- files

  function FileEntry(path: Path, candidates: set<string>, applied: bool): Entry {
    if |candidates| == 1 then Entry(Some(Least(candidates)), FileTarget, path, Auto, applied, [], OneCandidate)
    else Entry(None, FileTarget, path, Review, false, Sorted(candidates),
      if candidates == {} then NoCandidate else Ambiguous)
  }

  function FileEntries(paths: seq<Path>, candidates: Path -> set<string>, applied: bool): seq<Entry> {
    seq(|paths|, i requires 0 <= i < |paths| => FileEntry(paths[i], candidates(paths[i]), applied))
  }

  /** The scopes that reach a file through one of their symbols and do not list it. */
  function Covering(scopes: seq<Scope>, owner: map<string, Path>, path: Path): set<string> {
    set s, y | s in scopes && y in s.symbols && y in owner && owner[y] == path && path !in s.files :: s.id
  }

  function PartialPaths(scopes: seq<Scope>, owner: map<string, Path>): set<Path> {
    set s, y | s in scopes && y in s.symbols && y in owner && owner[y] !in s.files :: owner[y]
  }

  function MemberSymbolIds(scopes: seq<Scope>): set<string> { set s, y | s in scopes && y in s.symbols :: y }

  function IsMember(ids: set<string>): Symbol -> bool { (y: Symbol) => y.id in ids }

  function PartialEntry(path: Path, scopeIds: set<string>, members: set<string>, x: Index): Entry {
    var indexed := SymbolsAt(x.symbols, path);
    Entry(None, FileTarget, path, Review, false, Sorted(scopeIds),
        PartlyCovered(|Filter(indexed, IsMember(members))|, |indexed|))
  }

  function CoverageEntries(paths: seq<Path>, scopes: seq<Scope>, x: Index): seq<Entry> {
    seq(|paths|, i requires 0 <= i < |paths| => PartialEntry(paths[i], Covering(scopes, Owners(x.symbols), paths[i]),
        MemberSymbolIds(scopes), x))
  }

  function PartialEntries(scopes: seq<Scope>, x: Index): seq<Entry> {
    CoverageEntries(Sorted(PartialPaths(scopes, Owners(x.symbols))), scopes, x)
  }

  // ------------------------------------------------- memberships a merge introduced

  /** The files each scope listed at an earlier commit, the last scope with an id winning. */
  function PreviousFiles(previous: seq<Scope>): map<string, set<Path>> {
    if previous == [] then map[]
    else var s := previous[|previous| - 1]; PreviousFiles(previous[..|previous| - 1])[s.id := ToSet(s.files)]
  }

  function NewlyAdded(s: Scope, before: map<string, set<Path>>): set<Path> {
    ToSet(s.files) - if s.id in before then before[s.id] else {}
  }

  /** Still indexed, but no longer pointing to this scope alone. */
  function Unsettled(id: string, files: set<Path>, candidates: Path -> set<string>): Path -> bool {
    (p: Path) => p in files && candidates(p) != {id}
  }

  function MergeEntries(id: string, paths: seq<Path>, candidates: Path -> set<string>): seq<Entry> {
    seq(|paths|, i requires 0 <= i < |paths| => Entry(Some(id), FileTarget, paths[i], Review, false,
        Sorted(candidates(paths[i])), MergeAffected))
  }

  function ScopeMergeEntries(x: Index, candidates: Path -> set<string>,
      before: map<string, set<Path>>): Scope -> seq<Entry> {
    (s: Scope) =>
      if IsProtected(s) then []
      else MergeEntries(s.id, Filter(Sorted(NewlyAdded(s, before)), Unsettled(s.id, Paths(x.files), candidates)),
        candidates)
  }

  /** `since` is the scopes file at the earlier commit, if one is asked for. */
  function MergePart(scopes: seq<Scope>, x: Index, since: Option<seq<Scope>>): seq<Entry> {
    if since.None? then []
      else Flat(SortById(scopes), ScopeMergeEntries(x, Candidates(scopes, x), PreviousFiles(since.value)))
  }

  // --------------------------------------------------------------------- report

  function IsClass(c: Classification): Entry -> bool { (e: Entry) => e.classification == c }

  function Emitted(full: bool): Entry -> bool { (e: Entry) => full || e.classification != Keep }

  function CountClass(entries: seq<Entry>, c: Classification): nat { |Filter(entries, IsClass(c))| }

  /** Memberships (KEEP only in full mode), then unassigned files, then partial coverage. */
  function BaseEntries(scopes: seq<Scope>, x: Index, full: bool, applied: bool): seq<Entry> {
    Filter(AllMemberships(scopes, x), Emitted(full))
      + FileEntries(Sorted(Unassigned(scopes, x)), Candidates(scopes, x), applied)
      + PartialEntries(scopes, x)
  }

  /** The report's entries: those, then what a merge unsettled. */
  function EntriesOf(scopes: seq<Scope>, x: Index, full: bool, applied: bool, since: Option<seq<Scope>>): seq<Entry> {
    BaseEntries(scopes, x, full, applied) + MergePart(scopes, x, since)
  }

  function Tally(entries: seq<Entry>, memberships: seq<Entry>, full: bool, threshold: nat, written: bool): Report {
    Report(full, entries, CountClass(entries, Auto), CountClass(entries, Review), CountClass(memberships, Keep),
        CountClass(memberships, Broken),
           CountClass(entries, Auto) > threshold, written)
  }

  function ReportOf(scopes: seq<Scope>, x: Index, full: bool, threshold: nat, since: Option<seq<Scope>>): Report {
    var written := Reconciled(scopes, x, full, threshold).Some?;
    Tally(EntriesOf(scopes, x, full, written, since), AllMemberships(scopes, x), full, threshold, written)
  }

  // ------------------------------------------------------------------ the method

  /** One scope's files, or its symbols. */
  method ReportTargets(s: Scope, kind: TargetType, targets: seq<string>, known: set<string>, full: bool)
    returns (entries: seq<Entry>, keepCount: nat, brokenCount: nat)
    ensures var all := MembershipEntries(s, kind, targets, known);
            entries == Filter(all, Emitted(full)) && keepCount == CountClass(all, Keep)
                && brokenCount == CountClass(all, Broken)
  {
    entries, keepCount, brokenCount := [], 0, 0;
    for i := 0 to |targets|
      invariant entries == Filter(MembershipEntries(s, kind, targets[..i], known), Emitted(full))
      invariant keepCount == CountClass(MembershipEntries(s, kind, targets[..i], known), Keep)
      invariant brokenCount == CountClass(MembershipEntries(s, kind, targets[..i], known), Broken)
    {
      var target := targets[i];
      TargetStep(s, kind, targets, known, i, full);
      if target in known {
        keepCount := keepCount + 1;
        if full { entries := entries + [Entry(Some(s.id), kind, target, Keep, false, [], StillIndexed)]; }
        continue;
      }
      if IsProtected(s) {
        entries := entries + [Entry(Some(s.id), kind, target, Broken, false, [], ProtectedMissing)];
        brokenCount := brokenCount + 1;
      } else {
        entries := entries + [Entry(Some(s.id), kind, target, Review, false, [], UnprotectedMissing)];
      }
    }
    TakeAll(targets);
  }

  lemma TargetStep(s: Scope, kind: TargetType, targets: seq<string>, known: set<string>, i: nat, full: bool)
    requires i < |targets|
    ensures var before, after, e := MembershipEntries(s, kind, targets[..i], known),
        MembershipEntries(s, kind, targets[..i + 1], known), MembershipEntry(s, kind, targets[i], known);
            && Filter(after, Emitted(full))
              == (if Emitted(full)(e) then Filter(before, Emitted(full)) + [e] else Filter(before, Emitted(full)))
            && CountClass(after, Keep) == CountClass(before, Keep) + (if e.classification == Keep then 1 else 0)
            && CountClass(after, Broken) == CountClass(before, Broken) + (if e.classification == Broken then 1 else 0)
  {
    var before, e := MembershipEntries(s, kind, targets[..i], known), MembershipEntry(s, kind, targets[i], known);
    assert MembershipEntries(s, kind, targets[..i + 1], known) == before + [e];
    FilterSnoc(before, e, Emitted(full));
    CountClassSnoc(before, e, Keep);
    CountClassSnoc(before, e, Broken);
  }

  method ReportMemberships(scopes: seq<Scope>, x: Index, full: bool)
      returns (entries: seq<Entry>, keepCount: nat, brokenCount: nat)
    ensures var all := AllMemberships(scopes, x);
            entries == Filter(all, Emitted(full)) && keepCount == CountClass(all, Keep)
                && brokenCount == CountClass(all, Broken)
  {
    entries, keepCount, brokenCount := [], 0, 0;
    var sorted := SortById(scopes);
    for i := 0 to |sorted|
      invariant entries == Filter(Flat(sorted[..i], ScopeEntries(x)), Emitted(full))
      invariant keepCount == CountClass(Flat(sorted[..i], ScopeEntries(x)), Keep)
      invariant brokenCount == CountClass(Flat(sorted[..i], ScopeEntries(x)), Broken)
    {
      var s := sorted[i];
      FlatTake(sorted, i, ScopeEntries(x));
      ScopeStep(Flat(sorted[..i], ScopeEntries(x)), s, x, full);
      var fs, fk, fb := ReportTargets(s, FileTarget, SortStrings(s.files), Paths(x.files), full);
      var ys, yk, yb := ReportTargets(s, SymbolTarget, SortStrings(s.symbols), SymbolSet(x), full);
      entries := entries + fs + ys;
      keepCount := keepCount + fk + yk;
      brokenCount := brokenCount + fb + yb;
    }
    TakeAll(sorted);
  }

  lemma FilterThree(a: seq<Entry>, b: seq<Entry>, c: seq<Entry>, keep: Entry -> bool)
    ensures Filter(a + (b + c), keep) == Filter(a, keep) + Filter(b, keep) + Filter(c, keep)
  {
    FilterAppend(a, b + c, keep);
    FilterAppend(b, c, keep);
  }

  lemma ScopeStep(before: seq<Entry>, s: Scope, x: Index, full: bool)
    ensures var fs := MembershipEntries(s, FileTarget, SortStrings(s.files), Paths(x.files));
            var ys := MembershipEntries(s, SymbolTarget, SortStrings(s.symbols), SymbolSet(x));
            var after := before + ScopeEntries(x)(s);
            && Filter(after, Emitted(full)) == Filter(before, Emitted(full)) + Filter(fs, Emitted(full))
              + Filter(ys, Emitted(full))
            && CountClass(after, Keep) == CountClass(before, Keep) + CountClass(fs, Keep) + CountClass(ys, Keep)
            && CountClass(after, Broken) == CountClass(before, Broken) + CountClass(fs, Broken) + CountClass(ys, Broken)
  {
    var fs := MembershipEntries(s, FileTarget, SortStrings(s.files), Paths(x.files));
    var ys := MembershipEntries(s, SymbolTarget, SortStrings(s.symbols), SymbolSet(x));
    FilterThree(before, fs, ys, Emitted(full));
    FilterThree(before, fs, ys, IsClass(Keep));
    FilterThree(before, fs, ys, IsClass(Broken));
  }

  lemma AutoPairsSnoc(candidates: Path -> set<string>, front: seq<Path>, p: Path)
    ensures AutoPairs(candidates, front + [p])
         == AutoPairs(candidates, front) + if |candidates(p)| == 1 then [(p, Least(candidates(p)))] else []
  {
    assert (front + [p])[..|front|] == front;
  }

  lemma ClassifyStep(paths: seq<Path>, i: nat, candidates: Path -> set<string>)
    requires i < |paths|
    ensures FileEntries(paths[..i + 1], candidates, false)
        == FileEntries(paths[..i], candidates, false) + [FileEntry(paths[i], candidates(paths[i]), false)]
    ensures AutoPairs(candidates, paths[..i + 1])
         == AutoPairs(candidates, paths[..i])
           + if |candidates(paths[i])| == 1 then [(paths[i], Least(candidates(paths[i])))] else []
  {
    TakeSnoc(paths, i);
    FileEntriesSnoc(paths[..i], paths[i], candidates, false);
    AutoPairsSnoc(candidates, paths[..i], paths[i]);
  }

  method ClassifyFiles(paths: seq<Path>, byScope: map<string, set<Path>>, edges: seq<Edge>,
      ghost candidates: Path -> set<string>)
    returns (entries: seq<Entry>, pairs: seq<(Path, string)>)
    requires forall p :: candidates(p) == ImportCandidates(byScope, p, edges)
    ensures entries == FileEntries(paths, candidates, false) && pairs == AutoPairs(candidates, paths)
  {
    entries, pairs := [], [];
    for i := 0 to |paths|
      invariant entries == FileEntries(paths[..i], candidates, false) && pairs == AutoPairs(candidates, paths[..i])
    {
      var path := paths[i];
      ClassifyStep(paths, i, candidates);
      var found := ImportCandidates(byScope, path, edges);
      if |found| == 1 {
        var id := Least(found);
        entries := entries + [Entry(Some(id), FileTarget, path, Auto, false, [], OneCandidate)];
        pairs := pairs + [(path, id)];
      } else if found == {} {
        entries := entries + [Entry(None, FileTarget, path, Review, false, [], NoCandidate)];
      } else {
        entries := entries + [Entry(None, FileTarget, path, Review, false, Sorted(found), Ambiguous)];
      }
    }
    TakeAll(paths);
  }

  function ReachedBy(m: map<Path, set<string>>, p: Path): set<string> { if p in m then m[p] else {} }

  /** One scope's symbols, added to the files-to-scopes map. */
  function CoverSymbols(m: map<Path, set<string>>, s: Scope, symbols: seq<string>,
      owner: map<string, Path>): map<Path, set<string>> {
    if symbols == [] then m
    else
      var front, y := CoverSymbols(m, s, symbols[..|symbols| - 1], owner), symbols[|symbols| - 1];
      if y in owner && owner[y] !in s.files then front[owner[y] := ReachedBy(front, owner[y]) + {s.id}] else front
  }

  function CoverScopes(scopes: seq<Scope>, owner: map<string, Path>): map<Path, set<string>> {
    if scopes == [] then map[]
    else
      var s := scopes[|scopes| - 1];
      CoverSymbols(CoverScopes(scopes[..|scopes| - 1], owner), s, s.symbols, owner)
  }

  predicate Reaches(s: Scope, symbols: seq<string>, owner: map<string, Path>, p: Path) {
    p !in s.files && exists y :: y in symbols && y in owner && owner[y] == p
  }

  lemma {:induction false} CoverSymbolsMeaning(m: map<Path, set<string>>, s: Scope, symbols: seq<string>,
      owner: map<string, Path>, p: Path)
    ensures var r := CoverSymbols(m, s, symbols, owner);
            && (p in r <==> p in m || Reaches(s, symbols, owner, p))
            && ReachedBy(r, p) == ReachedBy(m, p) + if Reaches(s, symbols, owner, p) then {s.id} else {}
  {
    if symbols != [] {
      var n := |symbols| - 1;
      CoverSymbolsMeaning(m, s, symbols[..n], owner, p);
      assert symbols == symbols[..n] + [symbols[n]];
      assert Reaches(s, symbols, owner, p) <==>
        Reaches(s, symbols[..n], owner, p) || (symbols[n] in owner && owner[symbols[n]] == p && p !in s.files);
    }
  }

  lemma {:induction false} CoverScopesMeaning(scopes: seq<Scope>, owner: map<string, Path>, p: Path)
    ensures p in CoverScopes(scopes, owner) <==> p in PartialPaths(scopes, owner)
    ensures ReachedBy(CoverScopes(scopes, owner), p) == Covering(scopes, owner, p)
  {
    if scopes != [] {
      var n := |scopes| - 1;
      CoverScopesMeaning(scopes[..n], owner, p);
      CoverSymbolsMeaning(CoverScopes(scopes[..n], owner), scopes[n], scopes[n].symbols, owner, p);
      assert scopes == scopes[..n] + [scopes[n]];
      CoveringSnoc(scopes[..n], scopes[n], owner, p);
    }
  }

  lemma CoveringSnoc(before: seq<Scope>, s: Scope, owner: map<string, Path>, p: Path)
    ensures p in PartialPaths(before + [s], owner)
        <==> p in PartialPaths(before, owner) || Reaches(s, s.symbols, owner, p)
    ensures Covering(before + [s], owner, p) == Covering(before, owner, p)
        + if Reaches(s, s.symbols, owner, p) then {s.id} else {}
  {
    assert forall t :: t in before + [s] <==> t in before || t == s;
  }

  /** The files some scope reaches through a symbol, each with those scopes. */
  method CoveringScopes(scopes: seq<Scope>, owner: map<string, Path>) returns (covering: map<Path, set<string>>)
    ensures covering.Keys == PartialPaths(scopes, owner)
        && forall p :: p in covering ==> covering[p] == Covering(scopes, owner, p)
  {
    covering := map[];
    for i := 0 to |scopes|
      invariant covering == CoverScopes(scopes[..i], owner)
    {
      var s := scopes[i];
      TakeSnoc(scopes, i);
      ghost var start := covering;
      for j := 0 to |s.symbols|
        invariant covering == CoverSymbols(start, s, s.symbols[..j], owner)
      {
        var y := s.symbols[j];
        TakeSnoc(s.symbols, j);
        if y in owner && owner[y] !in s.files {
          covering := covering[owner[y] := (if owner[y] in covering then covering[owner[y]] else {}) + {s.id}];
        }
      }
      TakeAll(s.symbols);
    }
    TakeAll(scopes);
    forall p ensures (p in covering <==> p in PartialPaths(scopes, owner))
        && ReachedBy(covering, p) == Covering(scopes, owner, p) {
      CoverScopesMeaning(scopes, owner, p);
    }
    assert forall p :: p in covering ==> covering[p] == ReachedBy(covering, p);
  }

  method PartialCoverage(scopes: seq<Scope>, x: Index) returns (entries: seq<Entry>)
    ensures entries == PartialEntries(scopes, x)
  {
    var indexedByFile := GroupSymbolsByPath(x.symbols);
    var members := MemberSymbolIds(scopes);
    var covering := CoveringScopes(scopes, Owners(x.symbols));
    var paths := Sorted(covering.Keys);
    entries := [];
    for i := 0 to |paths|
      invariant entries == CoverageEntries(paths[..i], scopes, x)
    {
      var path := paths[i];
      CoverageSnoc(paths, i, scopes, x);
      var indexed := Lookup(indexedByFile, path);
      var covered := Filter(indexed, IsMember(members));
      entries := entries
          + [Entry(None, FileTarget, path, Review, false, Sorted(covering[path]), PartlyCovered(|covered|, |indexed|))];
    }
    TakeAll(paths);
  }

  lemma CoverageSnoc(paths: seq<Path>, i: nat, scopes: seq<Scope>, x: Index)
    requires i < |paths|
    ensures CoverageEntries(paths[..i + 1], scopes, x)
         == CoverageEntries(paths[..i], scopes, x)
           + [PartialEntry(paths[i], Covering(scopes, Owners(x.symbols), paths[i]), MemberSymbolIds(scopes), x)]
  {
    TakeSnoc(paths, i);
  }

  /** One unprotected scope's newly added files. */
  method ReviewMergedScope(s: Scope, x: Index, byScope: map<string, set<Path>>,
      ghost candidates: Path -> set<string>, before: map<string, set<Path>>)
    returns (entries: seq<Entry>)
    requires !IsProtected(s) && forall p :: candidates(p) == ImportCandidates(byScope, p, x.edges)
    ensures entries == ScopeMergeEntries(x, candidates, before)(s)
  {
    entries := [];
    var added := Sorted(NewlyAdded(s, before));
    for k := 0 to |added|
      invariant entries == MergeEntries(s.id, Filter(added[..k], Unsettled(s.id, Paths(x.files), candidates)),
          candidates)
    {
      var path := added[k];
      MergeStep(s.id, added, k, Paths(x.files), candidates);
      if path !in Paths(x.files) { continue; }
      var found := ImportCandidates(byScope, path, x.edges);
      if found == {s.id} { continue; }
      entries := entries + [Entry(Some(s.id), FileTarget, path, Review, false, Sorted(found), MergeAffected)];
    }
    TakeAll(added);
  }

  lemma MergeStep(id: string, added: seq<Path>, k: nat, files: set<Path>, candidates: Path -> set<string>)
    requires k < |added|
    ensures MergeEntries(id, Filter(added[..k + 1], Unsettled(id, files, candidates)), candidates)
         == MergeEntries(id, Filter(added[..k], Unsettled(id, files, candidates)), candidates)
            + if Unsettled(id, files, candidates)(added[k])
              then [Entry(Some(id), FileTarget, added[k], Review, false, Sorted(candidates(added[k])),
                MergeAffected)] else []
  {
    TakeSnoc(added, k);
    FilterSnoc(added[..k], added[k], Unsettled(id, files, candidates));
  }

  method ReviewMergedScopes(
    sorted: seq<Scope>, x: Index, byScope: map<string, set<Path>>, ghost candidates: Path -> set<string>,
        before: map<string, set<Path>>)
    returns (entries: seq<Entry>)
    requires forall p :: candidates(p) == ImportCandidates(byScope, p, x.edges)
    ensures entries == Flat(sorted, ScopeMergeEntries(x, candidates, before))
  {
    entries := [];
    for i := 0 to |sorted|
      invariant entries == Flat(sorted[..i], ScopeMergeEntries(x, candidates, before))
    {
      FlatTake(sorted, i, ScopeMergeEntries(x, candidates, before));
      if IsProtected(sorted[i]) { continue; }
      var more := ReviewMergedScope(sorted[i], x, byScope, candidates, before);
      entries := entries + more;
    }
    TakeAll(sorted);
  }

  method ReviewMerge(scopes: seq<Scope>, x: Index, since: Option<seq<Scope>>) returns (entries: seq<Entry>)
    ensures entries == MergePart(scopes, x, since)
  {
    if since.None? { return []; }
    var byScope := MemberFilesByUnlockedScope(scopes, Owners(x.symbols));
    entries := ReviewMergedScopes(SortById(scopes), x, byScope, Candidates(scopes, x), PreviousFiles(since.value));
  }

  function MarkApplied(entries: seq<Entry>): seq<Entry> {
    seq(|entries|, i requires 0 <= i < |entries| => if entries[i].classification
        == Auto then entries[i].(applied := true) else entries[i])
  }

  method StageAll(scopes: seq<Scope>, pairs: seq<(Path, string)>) returns (staged: seq<Scope>)
    ensures staged == StageFold(scopes, pairs)
  {
    staged := scopes;
    for k := 0 to |pairs|
      invariant staged == StageFold(scopes, pairs[..k])
    {
      var path, at := pairs[k].0, LastIndex(scopes, pairs[k].1);
      StageStep(scopes, pairs, k);
      if at < |scopes| && path !in staged[at].files {
        staged := staged[at := AddMember(staged[at], path)];
      }
    }
    TakeAll(pairs);
  }

  lemma StageStep(scopes: seq<Scope>, pairs: seq<(Path, string)>, k: nat)
    requires k < |pairs|
    ensures StageFold(scopes, pairs[..k + 1]) == AddAt(StageFold(scopes, pairs[..k]), LastIndex(scopes, pairs[k].1),
        pairs[k].0)
    ensures |StageFold(scopes, pairs[..k])| == |scopes|
  {
    TakeSnoc(pairs, k);
    StageKeepsLength(scopes, pairs[..k]);
  }

  lemma {:induction false} StageKeepsLength(scopes: seq<Scope>, pairs: seq<(Path, string)>)
    ensures |StageFold(scopes, pairs)| == |scopes|
  {
    if pairs != [] { StageKeepsLength(scopes, pairs[..|pairs| - 1]); }
  }

  /** The report's entries before anything is applied, the two membership counters, and the pairs to write. */
  method Classify(scopes: seq<Scope>, x: Index, full: bool, since: Option<seq<Scope>>)
    returns (entries: seq<Entry>, keepCount: nat, brokenCount: nat, pairs: seq<(Path, string)>)
    ensures entries == EntriesOf(scopes, x, full, false, since)
        && pairs == AutoPairs(Candidates(scopes, x), Sorted(Unassigned(scopes, x)))
    ensures keepCount == CountClass(AllMemberships(scopes, x), Keep)
        && brokenCount == CountClass(AllMemberships(scopes, x), Broken)
  {
    var owner := Owners(x.symbols);
    var memberships, files, partials, merged;
    memberships, keepCount, brokenCount := ReportMemberships(scopes, x, full);
    files, pairs := ClassifyFiles(Sorted(Unassigned(scopes, x)), MemberFilesByUnlockedScope(scopes, owner), x.edges,
        Candidates(scopes, x));
    partials := PartialCoverage(scopes, x);
    merged := ReviewMerge(scopes, x, since);
    entries := memberships + files + partials + merged;
  }

  method ReconcileScopes(scopes: seq<Scope>, x: Index, full: bool, threshold: nat, since: Option<seq<Scope>>)
    returns (r: Report, updated: Option<seq<Scope>>)
    ensures r == ReportOf(scopes, x, full, threshold, since)
    ensures updated == Reconciled(scopes, x, full, threshold)
  {
    var entries, keepCount, brokenCount, pairs := Classify(scopes, x, full, since);
    var autoCount := |pairs|;
    var reviewCount := CountClass(entries, Review);
    var suspiciousChurn := autoCount > threshold;
    updated := None;
    if !full && pairs != [] && !suspiciousChurn {
      var staged := StageAll(scopes, pairs);
      updated := Some(staged);
      MarkedEntries(scopes, x, full, since);
      entries := MarkApplied(entries);
    }
    ReportAssembled(scopes, x, full, threshold, since, entries, updated.Some?);
    r := Report(full, entries, autoCount, reviewCount, keepCount, brokenCount, suspiciousChurn, updated.Some?);
  }

  lemma ReportAssembled(scopes: seq<Scope>, x: Index, full: bool, threshold: nat, since: Option<seq<Scope>>,
      entries: seq<Entry>, applied: bool)
    requires applied == Reconciled(scopes, x, full, threshold).Some?
        && entries == EntriesOf(scopes, x, full, applied, since)
    ensures var autoCount := |AutoPairs(Candidates(scopes, x), Sorted(Unassigned(scopes, x)))|;
            ReportOf(scopes, x, full, threshold, since)
            == Report(full, entries, autoCount, CountClass(EntriesOf(scopes, x, full, false, since), Review),
                      CountClass(AllMemberships(scopes, x), Keep), CountClass(AllMemberships(scopes, x), Broken),
                          autoCount > threshold, applied)
  {
    ClassesKept(scopes, x, full, since, applied);
  }

  // ---------------------------------------------------------------- the counters

  lemma FileEntriesSnoc(paths: seq<Path>, p: Path, candidates: Path -> set<string>, applied: bool)
    ensures FileEntries(paths + [p], candidates, applied)
        == FileEntries(paths, candidates, applied) + [FileEntry(p, candidates(p), applied)]
    ensures AutoPairs(candidates, paths + [p]) == AutoPairs(candidates, paths)
        + if |candidates(p)| == 1 then [(p, Least(candidates(p)))] else []
  {
    assert (paths + [p])[..|paths|] == paths;
  }

  lemma CountClassSnoc(entries: seq<Entry>, e: Entry, c: Classification)
    ensures CountClass(entries + [e], c) == CountClass(entries, c) + if e.classification == c then 1 else 0
  {
    FilterSnoc(entries, e, IsClass(c));
  }

  lemma ClassesStep(front: seq<Path>, p: Path, candidates: Path -> set<string>, applied: bool)
    ensures var before, after := FileEntries(front, candidates, applied), FileEntries(front + [p], candidates, applied);
            && CountClass(after, Auto) == CountClass(before, Auto) + (if |candidates(p)| == 1 then 1 else 0)
            && CountClass(after, Review) == CountClass(before, Review) + (if |candidates(p)| == 1 then 0 else 1)
  {
    FileEntriesSnoc(front, p, candidates, applied);
    CountClassSnoc(FileEntries(front, candidates, applied), FileEntry(p, candidates(p), applied), Auto);
    CountClassSnoc(FileEntries(front, candidates, applied), FileEntry(p, candidates(p), applied), Review);
  }

  lemma {:induction false} FileEntriesClasses(paths: seq<Path>, candidates: Path -> set<string>, applied: bool)
    ensures CountClass(FileEntries(paths, candidates, applied), Auto) == |AutoPairs(candidates, paths)|
    ensures CountClass(FileEntries(paths, candidates, applied), Review) == |paths| - |AutoPairs(candidates, paths)|
  {
    if paths == [] {
      assert FileEntries(paths, candidates, applied) == [];
    } else {
      var front, p := paths[..|paths| - 1], paths[|paths| - 1];
      assert paths == front + [p];
      FileEntriesClasses(front, candidates, applied);
      AutoPairsSnoc(candidates, front, p);
      ClassesStep(front, p, candidates, applied);
    }
  }

  ghost predicate IsMembership(e: Entry) { e.classification != Auto && !e.applied }

  lemma ScopeEntriesPlain(x: Index, s: Scope)
    ensures forall e :: e in ScopeEntries(x)(s) ==> IsMembership(e)
  {
    TargetsPlain(s, FileTarget, SortStrings(s.files), Paths(x.files));
    TargetsPlain(s, SymbolTarget, SortStrings(s.symbols), SymbolSet(x));
  }

  lemma TargetsPlain(s: Scope, kind: TargetType, targets: seq<string>, known: set<string>)
    ensures forall e :: e in MembershipEntries(s, kind, targets, known) ==> IsMembership(e)
  {
  }

  lemma MembershipClasses(scopes: seq<Scope>, x: Index)
    ensures forall e :: e in Flat(scopes, ScopeEntries(x)) ==> IsMembership(e)
  {
    forall e | e in Flat(scopes, ScopeEntries(x)) ensures IsMembership(e) {
      FlatMember(scopes, ScopeEntries(x), e);
      var s :| s in scopes && e in ScopeEntries(x)(s);
      ScopeEntriesPlain(x, s);
    }
  }

  /** Coverage and merge entries are reviews and never applied. */
  ghost predicate IsReview(e: Entry) { e.classification == Review && !e.applied }

  ghost predicate IsMergeReview(e: Entry) { IsReview(e) && e.reason == MergeAffected && e.scopeId.Some? }

  lemma ScopeMergeReviews(s: Scope, x: Index, candidates: Path -> set<string>, before: map<string, set<Path>>)
    ensures forall e :: e in ScopeMergeEntries(x, candidates, before)(s) ==> IsMergeReview(e)
  {
  }

  lemma MergeReviews(scopes: seq<Scope>, x: Index, since: Option<seq<Scope>>)
    ensures forall e :: e in MergePart(scopes, x, since) ==> IsMergeReview(e)
  {
    if since.Some? {
      var part := ScopeMergeEntries(x, Candidates(scopes, x), PreviousFiles(since.value));
      forall e | e in Flat(SortById(scopes), part) ensures IsMergeReview(e) {
        FlatMember(SortById(scopes), part, e);
        var s :| s in SortById(scopes) && e in part(s);
        ScopeMergeReviews(s, x, Candidates(scopes, x), PreviousFiles(since.value));
      }
    }
  }

  lemma FilterFour(a: seq<Entry>, b: seq<Entry>, c: seq<Entry>, d: seq<Entry>, keep: Entry -> bool)
    ensures Filter(a + b + c + d, keep) == Filter(a, keep) + Filter(b, keep) + Filter(c, keep) + Filter(d, keep)
  {
    FilterAppend(a + b + c, d, keep);
    FilterAppend(a + b, c, keep);
    FilterAppend(a, b, keep);
  }

  lemma CountFour(scopes: seq<Scope>, x: Index, full: bool, applied: bool, since: Option<seq<Scope>>, c: Classification)
    ensures CountClass(EntriesOf(scopes, x, full, applied, since), c)
         == CountClass(Filter(AllMemberships(scopes, x), Emitted(full)), c)
            + CountClass(FileEntries(Sorted(Unassigned(scopes, x)), Candidates(scopes, x), applied), c)
            + CountClass(PartialEntries(scopes, x), c) + CountClass(MergePart(scopes, x, since), c)
  {
    FilterFour(Filter(AllMemberships(scopes, x), Emitted(full)),
        FileEntries(Sorted(Unassigned(scopes, x)), Candidates(scopes, x), applied),
               PartialEntries(scopes, x), MergePart(scopes, x, since), IsClass(c));
  }

  lemma MembershipCounts(scopes: seq<Scope>, x: Index, full: bool)
    ensures CountClass(Filter(AllMemberships(scopes, x), Emitted(full)), Auto) == 0
    ensures CountClass(Filter(AllMemberships(scopes, x), Emitted(full)), Review)
        == CountClass(AllMemberships(scopes, x), Review)
  {
    MembershipClasses(SortById(scopes), x);
    FilterNothing(Filter(AllMemberships(scopes, x), Emitted(full)), IsClass(Auto));
    FilterTwice(AllMemberships(scopes, x), full);
  }

  lemma ReviewsOnly(entries: seq<Entry>)
    requires forall e :: e in entries ==> e.classification == Review
    ensures CountClass(entries, Auto) == 0 && CountClass(entries, Review) == |entries|
  {
    FilterNothing(entries, IsClass(Auto));
    FilterAll(entries, IsClass(Review));
  }

  lemma PartCounts(scopes: seq<Scope>, x: Index, since: Option<seq<Scope>>)
    ensures CountClass(PartialEntries(scopes, x), Auto) == 0 == CountClass(MergePart(scopes, x, since), Auto)
    ensures CountClass(PartialEntries(scopes, x), Review) == |PartialPaths(scopes, Owners(x.symbols))|
    ensures CountClass(MergePart(scopes, x, since), Review) == |MergePart(scopes, x, since)|
  {
    MergeReviews(scopes, x, since);
    ReviewsOnly(PartialEntries(scopes, x));
    ReviewsOnly(MergePart(scopes, x, since));
  }

  /** AUTO entries are exactly the pairs that would be written. */
  lemma AutoCounted(scopes: seq<Scope>, x: Index, full: bool, applied: bool, since: Option<seq<Scope>>)
    ensures CountClass(EntriesOf(scopes, x, full, applied, since), Auto)
        == |AutoPairs(Candidates(scopes, x), Sorted(Unassigned(scopes, x)))|
  {
    CountFour(scopes, x, full, applied, since, Auto);
    MembershipCounts(scopes, x, full);
    PartCounts(scopes, x, since);
    FileEntriesClasses(Sorted(Unassigned(scopes, x)), Candidates(scopes, x), applied);
  }

  lemma ReviewsCounted(scopes: seq<Scope>, x: Index, full: bool, applied: bool, since: Option<seq<Scope>>)
    ensures CountClass(EntriesOf(scopes, x, full, applied, since), Review)
         == CountClass(AllMemberships(scopes, x), Review)
            + |Unassigned(scopes, x)| - |AutoPairs(Candidates(scopes, x), Sorted(Unassigned(scopes, x)))|
            + |PartialPaths(scopes, Owners(x.symbols))| + |MergePart(scopes, x, since)|
  {
    CountFour(scopes, x, full, applied, since, Review);
    MembershipCounts(scopes, x, full);
    PartCounts(scopes, x, since);
    FileEntriesClasses(Sorted(Unassigned(scopes, x)), Candidates(scopes, x), applied);
  }

  lemma {:induction false} FilterTwice(all: seq<Entry>, full: bool)
    ensures Filter(Filter(all, Emitted(full)), IsClass(Review)) == Filter(all, IsClass(Review))
  {
    if all != [] {
      var n := |all| - 1;
      FilterTwice(all[..n], full);
      if Emitted(full)(all[n]) { FilterSnoc(Filter(all[..n], Emitted(full)), all[n], IsClass(Review)); }
    }
  }

  /** Applying changes no counter. */
  lemma ClassesKept(scopes: seq<Scope>, x: Index, full: bool, since: Option<seq<Scope>>, applied: bool)
    ensures CountClass(EntriesOf(scopes, x, full, applied, since), Review)
        == CountClass(EntriesOf(scopes, x, full, false, since), Review)
    ensures CountClass(EntriesOf(scopes, x, full, applied, since), Auto)
        == |AutoPairs(Candidates(scopes, x), Sorted(Unassigned(scopes, x)))|
  {
    AutoCounted(scopes, x, full, applied, since);
    ReviewsCounted(scopes, x, full, applied, since);
    ReviewsCounted(scopes, x, full, false, since);
  }

  lemma MarkAppend(a: seq<Entry>, b: seq<Entry>, c: seq<Entry>, d: seq<Entry>)
    ensures MarkApplied(a + b + c + d) == MarkApplied(a) + MarkApplied(b) + MarkApplied(c) + MarkApplied(d)
  {
  }

  lemma MarkNothing(a: seq<Entry>)
    requires forall e :: e in a ==> e.classification != Auto
    ensures MarkApplied(a) == a
  {
    assert forall i :: 0 <= i < |a| ==> a[i] in a;
  }

  lemma MarkFiles(paths: seq<Path>, candidates: Path -> set<string>)
    ensures MarkApplied(FileEntries(paths, candidates, false)) == FileEntries(paths, candidates, true)
  {
  }

  lemma MarkedEntries(scopes: seq<Scope>, x: Index, full: bool, since: Option<seq<Scope>>)
    ensures MarkApplied(EntriesOf(scopes, x, full, false, since)) == EntriesOf(scopes, x, full, true, since)
  {
    var ms := Filter(AllMemberships(scopes, x), Emitted(full));
    var paths, candidates := Sorted(Unassigned(scopes, x)), Candidates(scopes, x);
    var ps, gs := PartialEntries(scopes, x), MergePart(scopes, x, since);
    MembershipClasses(SortById(scopes), x);
    MergeReviews(scopes, x, since);
    MarkAppend(ms, FileEntries(paths, candidates, false), ps, gs);
    MarkNothing(ms);
    MarkNothing(ps);
    MarkNothing(gs);
    MarkFiles(paths, candidates);
  }

  lemma {:induction false} FourClasses(entries: seq<Entry>)
    ensures CountClass(entries, Auto) + CountClass(entries, Keep) + CountClass(entries, Review)
        + CountClass(entries, Broken) == |entries|
  {
    if entries != [] { FourClasses(entries[..|entries| - 1]); }
  }

  /** The counters add up: every membership, unassigned file, partly covered file and merge entry is counted once. */
  lemma CountersAgree(scopes: seq<Scope>, x: Index, full: bool, threshold: nat, since: Option<seq<Scope>>)
    ensures ReportOf(scopes, x, full, threshold, since).keepCount
        + ReportOf(scopes, x, full, threshold, since).brokenCount
            + ReportOf(scopes, x, full, threshold, since).reviewCount
                + ReportOf(scopes, x, full, threshold, since).autoCount
         == |AllMemberships(scopes, x)| + |Unassigned(scopes, x)| + |PartialPaths(scopes, Owners(x.symbols))|
           + |MergePart(scopes, x, since)|
  {
    AutoCounted(scopes, x, full, Reconciled(scopes, x, full, threshold).Some?, since);
    ReviewsCounted(scopes, x, full, Reconciled(scopes, x, full, threshold).Some?, since);
    FourClasses(AllMemberships(scopes, x));
    MembershipClasses(SortById(scopes), x);
    FilterNothing(AllMemberships(scopes, x), IsClass(Auto));
  }

  lemma TallyMore(entries: seq<Entry>, more: seq<Entry>, memberships: seq<Entry>, full: bool, threshold: nat,
      written: bool)
    requires forall e :: e in more ==> e.classification == Review
    ensures var before := Tally(entries, memberships, full, threshold, written);
            Tally(entries + more, memberships, full, threshold, written)
            == before.(entries := entries + more, reviewCount := before.reviewCount + |more|)
  {
    FilterAppend(entries, more, IsClass(Auto));
    FilterAppend(entries, more, IsClass(Review));
    ReviewsOnly(more);
  }

  lemma ReportWithoutBase(scopes: seq<Scope>, x: Index, full: bool, threshold: nat)
    ensures var written := Reconciled(scopes, x, full, threshold).Some?;
            ReportOf(scopes, x, full, threshold, None)
            == Tally(BaseEntries(scopes, x, full, written), AllMemberships(scopes, x), full, threshold, written)
  {
    AppendEmpty(BaseEntries(scopes, x, full, Reconciled(scopes, x, full, threshold).Some?));
  }

  lemma TallyWithMerge(scopes: seq<Scope>, x: Index, since: Option<seq<Scope>>, base: seq<Entry>, full: bool,
      threshold: nat, written: bool)
    ensures var before, more := Tally(base, AllMemberships(scopes, x), full, threshold, written),
        MergePart(scopes, x, since);
            Tally(base + more, AllMemberships(scopes, x), full, threshold, written)
            == before.(entries := base + more, reviewCount := before.reviewCount + |more|)
  {
    var more := MergePart(scopes, x, since);
    MergeReviews(scopes, x, since);
    TallyMore(base, more, AllMemberships(scopes, x), full, threshold, written);
  }

  lemma ReportWithBase(scopes: seq<Scope>, x: Index, full: bool, threshold: nat, since: Option<seq<Scope>>)
    ensures var written := Reconciled(scopes, x, full, threshold).Some?;
            ReportOf(scopes, x, full, threshold, since)
            == Tally(BaseEntries(scopes, x, full, written) + MergePart(scopes, x, since), AllMemberships(scopes, x),
              full, threshold, written)
  {
  }

  /** Asking about a merge only adds REVIEW entries: no other entry, counter or decision to write changes. */
  lemma SinceOnlyAddsReviews(scopes: seq<Scope>, x: Index, full: bool, threshold: nat, since: Option<seq<Scope>>)
    ensures var without, more := ReportOf(scopes, x, full, threshold, None), MergePart(scopes, x, since);
            ReportOf(scopes, x, full, threshold, since)
            == without.(entries := without.entries + more, reviewCount := without.reviewCount + |more|)
  {
    var written := Reconciled(scopes, x, full, threshold).Some?;
    ReportWithoutBase(scopes, x, full, threshold);
    ReportWithBase(scopes, x, full, threshold, since);
    TallyWithMerge(scopes, x, since, BaseEntries(scopes, x, full, written), full, threshold, written);
  }
}
