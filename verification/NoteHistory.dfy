/** What happens to one note over any sequence of updates: when it is flagged, and when its source binding is lost. */
module NoteHistory {
  import opened Collections
  import opened Hashes
  import opened Records
  import opened Staleness

  function NoteSnapshot(n: Note, s: Snapshot): map<string, Digest> {
    SourceHashes(n.files, n.symbols, s.files, s.owner)
  }

  /** Neither orphaned nor expired in this run. */
  predicate Passes(n: Note, run: Run) {
    (forall id :: id in n.scopes ==> id in run.snapshot.scopes) && (n.expiresAt.Some? ==> run.now < n.expiresAt.value)
  }

  /** None of the files the note covers is indexed. */
  predicate FindsNone(n: Note, run: Run) {
    forall p :: p in Covered(n.files, n.symbols, run.snapshot.owner) ==> p !in run.snapshot.files
  }

  /** A bound note loses its binding, going stale with an empty snapshot, exactly in a run that finds none of its
      files. */
  lemma BindingLostExactly(n: Note, run: Run)
    requires !NoteTerminal(n.status) && n.sourceHashes != map[] && Passes(n, run)
    ensures var next := NoteTransition(n, run.snapshot, run.now);
            (next.Some? && next.value.sourceHashes == map[] <==> FindsNone(n, run))
            && (next.Some? ==> next.value.status == NoteStale)
  {
    SnapshotEmptyExactly(n, run);
  }

  lemma SnapshotEmptyExactly(n: Note, run: Run)
    ensures NoteSnapshot(n, run.snapshot) == map[] <==> FindsNone(n, run)
  {
    var hashes := NoteSnapshot(n, run.snapshot);
    if p :| p in Covered(n.files, n.symbols, run.snapshot.owner) && p in run.snapshot.files {
      assert p in hashes;
    }
    if hashes != map[] {
      var p :| p in hashes;
    }
  }

  // ------------------------------------------------------------------ many runs

  /** The revisions the updates append for one note. */
  function AppendedNotes(n: Note, runs: seq<Run>): seq<Note>
    decreases |runs|
  {
    if runs == [] then []
    else
      match NoteTransition(n, runs[0].snapshot, runs[0].now)
      case None => AppendedNotes(n, runs[1..])
      case Some(next) => [next] + AppendedNotes(next, runs[1..])
  }

  /** The runs before the first that orphans or expires the note. */
  function Passing(n: Note, runs: seq<Run>): (k: nat)
    ensures k <= |runs|
    ensures forall i :: 0 <= i < k ==> Passes(n, runs[i])
    ensures k < |runs| ==> !Passes(n, runs[k])
    decreases |runs|
  {
    if runs == [] || !Passes(n, runs[0]) then 0 else 1 + Passing(n, runs[1..])
  }

  /** The runs up to and including the first that finds none of the note's files. */
  function UntilLost(n: Note, runs: seq<Run>): (k: nat)
    ensures k <= |runs|
    ensures forall i :: 0 <= i < k - 1 ==> !FindsNone(n, runs[i])
    ensures if k < |runs| then k > 0 && FindsNone(n, runs[k - 1]) else true
    decreases |runs|
  {
    if runs == [] then 0 else if FindsNone(n, runs[0]) then 1 else 1 + UntilLost(n, runs[1..])
  }

  /** The runs that see another snapshot of the note's files than the run before, starting from `previous`. */
  function Changes(n: Note, previous: map<string, Digest>, runs: seq<Run>): seq<Run>
    decreases |runs|
  {
    if runs == [] then []
    else
      var now := NoteSnapshot(n, runs[0].snapshot);
      (if now != previous then [runs[0]] else []) + Changes(n, now, runs[1..])
  }

  /** The runs in which a note with these hashes is still bound. */
  function BoundRuns(n: Note, hashes: map<string, Digest>, runs: seq<Run>): (k: nat)
    ensures k <= |runs|
  {
    if hashes == map[] then 0 else UntilLost(n, runs)
  }

  /** The flag of a run: written at its time, with the snapshot it saw. */
  ghost predicate FlaggedIn(n: Note, run: Run, m: Note) {
    m.status == NoteStale && m.source == SystemStaleness && m.lastVerifiedAt == run.now
        && m.sourceHashes == NoteSnapshot(n, run.snapshot)
  }

  /** The last revision: a missing scope orphans the note, otherwise it has expired; it keeps the hashes stored last. */
  ghost predicate EndedIn(n: Note, run: Run, hashes: map<string, Digest>, m: Note) {
    && m.status == (if exists id :: id in n.scopes && id !in run.snapshot.scopes then NoteOrphaned else NoteExpired)
    && m.lastVerifiedAt == run.now && m.sourceHashes == hashes
  }

  function LastHashes(n: Note, hashes: map<string, Digest>, flagged: seq<Run>): map<string, Digest> {
    if flagged == [] then hashes else NoteSnapshot(n, flagged[|flagged| - 1].snapshot)
  }

  /** One flag per run in `flagged`, in order, then at most one revision that ends the note. */
  ghost predicate FlagsThenEnd(n: Note, hashes: map<string, Digest>, from: nat, rows: seq<Note>, flagged: seq<Run>,
      end: Option<Run>) {
    && |rows| == |flagged| + (if end.Some? then 1 else 0)
    && (forall i :: 0 <= i < |rows| ==> rows[i].revision == from + i + 1)
    && (forall i :: 0 <= i < |flagged| ==> FlaggedIn(n, flagged[i], rows[i]))
    && (end.Some? ==> EndedIn(n, end.value, LastHashes(n, hashes, flagged), rows[|flagged|]))
  }

  ghost predicate SameNote(n: Note, m: Note) {
    m.scopes == n.scopes && m.files == n.files && m.symbols == n.symbols && m.expiresAt == n.expiresAt
  }

  lemma {:induction false} SameNoteSameRuns(n: Note, m: Note, previous: map<string, Digest>, runs: seq<Run>)
    requires SameNote(n, m)
    ensures Passing(m, runs) == Passing(n, runs) && UntilLost(m, runs) == UntilLost(n, runs)
    ensures Changes(m, previous, runs) == Changes(n, previous, runs)
    decreases |runs|
  {
    if runs != [] {
      assert Passes(m, runs[0]) == Passes(n, runs[0]) && FindsNone(m, runs[0]) == FindsNone(n, runs[0]);
      SameNoteSameRuns(n, m, NoteSnapshot(n, runs[0].snapshot), runs[1..]);
    }
  }

  function AfterNoteRun(n: Note, run: Run): Note { AfterStep(n, NoteStep(run.snapshot, run.now)) }

  lemma AppendedNotesStep(n: Note, runs: seq<Run>)
    requires runs != []
    ensures var next := NoteTransition(n, runs[0].snapshot, runs[0].now);
            AppendedNotes(n, runs)
                == (if next.Some? then [next.value] else []) + AppendedNotes(AfterNoteRun(n, runs[0]), runs[1..])
  {
  }

  /** One run that neither orphans nor expires the note. */
  lemma PassingRun(n: Note, run: Run)
    requires !NoteTerminal(n.status) && Passes(n, run)
    ensures var next, m := NoteTransition(n, run.snapshot, run.now), AfterNoteRun(n, run);
            && (next.Some? <==> n.sourceHashes != map[] && NoteSnapshot(n, run.snapshot) != n.sourceHashes)
            && (next.Some? ==> m == next.value && m.revision == n.revision + 1 && FlaggedIn(n, run, m))
            && SameNote(n, m) && !NoteTerminal(m.status)
            && m.sourceHashes == (if n.sourceHashes == map[] then map[] else NoteSnapshot(n, run.snapshot))
            && (next.None? ==> m == n)
  {
  }

  lemma {:induction false} EndedIsSilent(n: Note, runs: seq<Run>)
    requires NoteTerminal(n.status)
    ensures AppendedNotes(n, runs) == []
    decreases |runs|
  {
    if runs != [] { EndedIsSilent(n, runs[1..]); }
  }

  lemma PrependFlag(n: Note, hashes: map<string, Digest>, run: Run, x: Note, rows: seq<Note>,
                    from: nat, flagged: seq<Run>, end: Option<Run>)
    requires x.revision == from + 1 && FlaggedIn(n, run, x)
    requires FlagsThenEnd(n, x.sourceHashes, from + 1, rows, flagged, end)
    ensures FlagsThenEnd(n, hashes, from, [x] + rows, [run] + flagged, end)
  {
    var all, runs := [x] + rows, [run] + flagged;
    forall i | 0 <= i < |all| ensures all[i].revision == from + i + 1 {
      if i > 0 { assert all[i] == rows[i - 1]; }
    }
    forall i | 0 <= i < |runs| ensures FlaggedIn(n, runs[i], all[i]) {
      if i > 0 { assert all[i] == rows[i - 1] && runs[i] == flagged[i - 1]; }
    }
    assert end.Some? ==> all[|runs|] == rows[|flagged|];
    assert LastHashes(n, hashes, runs) == LastHashes(n, x.sourceHashes, flagged);
  }

  lemma SameNoteSameRows(
    n: Note, m: Note, hashes: map<string, Digest>, from: nat, rows: seq<Note>, flagged: seq<Run>, end: Option<Run>)
    requires SameNote(n, m) && FlagsThenEnd(m, hashes, from, rows, flagged, end)
    ensures FlagsThenEnd(n, hashes, from, rows, flagged, end)
  {
    forall i | 0 <= i < |flagged| ensures FlaggedIn(n, flagged[i], rows[i]) {
      assert FlaggedIn(m, flagged[i], rows[i]);
    }
  }

  /** The runs that flag a note with these hashes. */
  function Flags(n: Note, hashes: map<string, Digest>, runs: seq<Run>): seq<Run> {
    Changes(n, hashes, runs[..BoundRuns(n, hashes, runs)])
  }

  lemma FlagsStep(n: Note, m: Note, runs: seq<Run>)
    requires runs != [] && SameNote(n, m)
    requires m.sourceHashes == if n.sourceHashes == map[] then map[] else NoteSnapshot(n, runs[0].snapshot)
    ensures Flags(n, n.sourceHashes, runs)
         == (if m.sourceHashes != n.sourceHashes then [runs[0]] else []) + Flags(m, m.sourceHashes, runs[1..])
  {
    if n.sourceHashes != map[] {
      SnapshotEmptyExactly(n, runs[0]);
      var k := UntilLost(n, runs);
      assert runs[..k][1..] == runs[1..][..k - 1];
      SameNoteSameRuns(n, m, m.sourceHashes, runs[1..]);
      SameNoteSameRuns(n, m, m.sourceHashes, runs[1..][..k - 1]);
    }
  }

  /** What any runs append to one note. */
  ghost predicate HistoryIs(n: Note, runs: seq<Run>) {
    var k := Passing(n, runs);
    FlagsThenEnd(n, n.sourceHashes, n.revision, AppendedNotes(n, runs), Flags(n, n.sourceHashes, runs[..k]),
        EndingRun(runs, k))
  }

  /** Over any runs, a note is flagged once per change of its files' snapshot up to and including the first run that
      finds none of them, in that run and with that snapshot, and never after; the run that orphans or expires it adds
      one last revision. */
  lemma {:induction false} NoteRows(n: Note, runs: seq<Run>)
    requires !NoteTerminal(n.status)
    ensures HistoryIs(n, runs)
    decreases |runs|
  {
    if runs != [] {
      if Passing(n, runs) == 0 {
        FirstRunEnds(n, runs);
      } else {
        var m := AfterNoteRun(n, runs[0]);
        PassingRun(n, runs[0]);
        NoteRows(m, runs[1..]);
        RowsStep(n, m, runs);
      }
    }
  }

  lemma FirstRunEnds(n: Note, runs: seq<Run>)
    requires !NoteTerminal(n.status) && runs != [] && !Passes(n, runs[0])
    ensures HistoryIs(n, runs)
  {
    AppendedNotesStep(n, runs);
    EndedIsSilent(AfterNoteRun(n, runs[0]), runs[1..]);
    assert runs[..0] == [] && Flags(n, n.sourceHashes, []) == [];
  }

  lemma RowsStep(n: Note, m: Note, runs: seq<Run>)
    requires !NoteTerminal(n.status) && runs != [] && Passes(n, runs[0]) && m == AfterNoteRun(n, runs[0])
    requires HistoryIs(m, runs[1..])
    ensures HistoryIs(n, runs)
  {
    var rest, later := AppendedNotes(m, runs[1..]), runs[1..];
    var flagged, end := Flags(m, m.sourceHashes, later[..Passing(m, later)]), EndingRun(later, Passing(m, later));
    PassingCases(n, runs);
    PassingStep(n, m, runs);
    SameNoteSameRows(n, m, m.sourceHashes, m.revision, rest, flagged, end);
    if m.sourceHashes != n.sourceHashes {
      PrependFlag(n, n.sourceHashes, runs[0], m, rest, n.revision, flagged, end);
    } else {
      assert [] + flagged == flagged;
    }
  }

  lemma PassingStep(n: Note, m: Note, runs: seq<Run>)
    requires !NoteTerminal(n.status) && runs != [] && Passes(n, runs[0]) && m == AfterNoteRun(n, runs[0])
    ensures var k, later := Passing(n, runs), runs[1..];
            && k == 1 + Passing(m, later) && EndingRun(runs, k) == EndingRun(later, k - 1)
            && Flags(n, n.sourceHashes, runs[..k])
               == (if m.sourceHashes != n.sourceHashes then [runs[0]] else [])
                 + Flags(m, m.sourceHashes, later[..k - 1])
  {
    var later := runs[1..];
    PassingRun(n, runs[0]);
    SameNoteSameRuns(n, m, m.sourceHashes, later);
    FrontOfRest(runs, Passing(m, later));
    FlagsStep(n, m, runs[..1 + Passing(m, later)]);
  }

  lemma PassingCases(n: Note, runs: seq<Run>)
    requires !NoteTerminal(n.status) && runs != [] && Passes(n, runs[0])
    ensures var m := AfterNoteRun(n, runs[0]);
            && SameNote(n, m)
            && if m.sourceHashes != n.sourceHashes
               then AppendedNotes(n, runs) == [m] + AppendedNotes(m, runs[1..]) && m.revision == n.revision + 1
                 && FlaggedIn(n, runs[0], m)
               else m == n && AppendedNotes(n, runs) == AppendedNotes(m, runs[1..])
  {
    PassingRun(n, runs[0]);
    AppendedNotesStep(n, runs);
  }

  // --------------------------------------------- flagged on every change, exactly

  lemma {:induction false} ChangesSplit(n: Note, previous: map<string, Digest>, a: seq<Run>, b: seq<Run>)
    ensures Changes(n, previous, a + b)
         == Changes(n, previous, a) + Changes(n, if a == [] then previous else NoteSnapshot(n, a[|a| - 1].snapshot), b)
    decreases |a|
  {
    if a == [] {
      assert a + b == b;
    } else {
      assert (a + b)[1..] == a[1..] + b;
      ChangesSplit(n, NoteSnapshot(n, a[0].snapshot), a[1..], b);
    }
  }

  lemma {:induction false} NoChangesExactly(n: Note, previous: map<string, Digest>, runs: seq<Run>)
    ensures Changes(n, previous, runs) == []
        <==> forall i :: 0 <= i < |runs| ==> NoteSnapshot(n, runs[i].snapshot) == previous
    decreases |runs|
  {
    if runs != [] {
      var now := NoteSnapshot(n, runs[0].snapshot);
      NoChangesExactly(n, now, runs[1..]);
      var rest := runs[1..];
      if forall i :: 0 <= i < |runs| ==> NoteSnapshot(n, runs[i].snapshot) == previous {
        forall i | 0 <= i < |rest| ensures NoteSnapshot(n, rest[i].snapshot) == now { assert rest[i] == runs[i + 1]; }
      }
      if Changes(n, previous, runs) == [] {
        forall i | 0 <= i < |runs| ensures NoteSnapshot(n, runs[i].snapshot) == previous {
          if i > 0 { assert rest[i - 1] == runs[i]; }
        }
      }
    }
  }

  /** Once a run finds none of the note's files, no later one finds any. */
  ghost predicate NeverBack(n: Note, runs: seq<Run>) {
    forall i, j :: 0 <= i < j < |runs| && FindsNone(n, runs[i]) ==> FindsNone(n, runs[j])
  }

  /** After the run that found nothing, no flag is owed exactly when nothing comes back. */
  lemma NothingOwedExactly(n: Note, runs: seq<Run>)
    requires UntilLost(n, runs) < |runs|
    ensures Changes(n, map[], runs[UntilLost(n, runs)..]) == [] <==> NeverBack(n, runs)
  {
    NoChangesExactly(n, map[], runs[UntilLost(n, runs)..]);
    BackExactly(n, runs);
  }

  lemma ChangesUntilLost(n: Note, runs: seq<Run>)
    requires UntilLost(n, runs) < |runs|
    ensures var k := UntilLost(n, runs);
            Changes(n, n.sourceHashes, runs) == Changes(n, n.sourceHashes, runs[..k]) + Changes(n, map[], runs[k..])
  {
    var k := UntilLost(n, runs);
    assert runs == runs[..k] + runs[k..];
    ChangesSplit(n, n.sourceHashes, runs[..k], runs[k..]);
    SnapshotEmptyExactly(n, runs[k - 1]);
  }

  lemma NeverLost(n: Note, runs: seq<Run>)
    requires UntilLost(n, runs) == |runs| && n.sourceHashes != map[]
    ensures NeverBack(n, runs) && Flags(n, n.sourceHashes, runs) == Changes(n, n.sourceHashes, runs)
  {
    TakeAll(runs);
    assert forall i :: 0 <= i < |runs| - 1 ==> !FindsNone(n, runs[i]);
  }

  /** A bound note is flagged on every change of its files, as documented, exactly when its files do not come back
      after a run that found none of them. */
  lemma FlaggedOnEveryChangeExactly(n: Note, runs: seq<Run>)
    requires !NoteTerminal(n.status) && n.sourceHashes != map[] && Passing(n, runs) == |runs|
    ensures |AppendedNotes(n, runs)| == |Changes(n, n.sourceHashes, runs)| <==> NeverBack(n, runs)
  {
    NoteRows(n, runs);
    TakeAll(runs);
    if UntilLost(n, runs) < |runs| {
      ChangesUntilLost(n, runs);
      NothingOwedExactly(n, runs);
    } else {
      NeverLost(n, runs);
    }
  }

  lemma BackExactly(n: Note, runs: seq<Run>)
    requires UntilLost(n, runs) < |runs|
    ensures NeverBack(n, runs)
        <==> forall i :: 0 <= i < |runs| - UntilLost(n, runs) ==>
          NoteSnapshot(n, runs[UntilLost(n, runs)..][i].snapshot) == map[]
  {
    var k := UntilLost(n, runs);
    var b := runs[k..];
    forall i | k <= i < |runs| ensures FindsNone(n, runs[i]) <==> NoteSnapshot(n, b[i - k].snapshot) == map[] {
      SnapshotEmptyExactly(n, runs[i]);
    }
    assert forall i :: 0 <= i < |b| ==> b[i] == runs[k + i];
    if NeverBack(n, runs) {
      forall i | 0 <= i < |b| ensures NoteSnapshot(n, b[i].snapshot) == map[] { assert FindsNone(n, runs[k + i]); }
    }
    if forall i :: 0 <= i < |b| ==> NoteSnapshot(n, b[i].snapshot) == map[] {
      forall i, j | 0 <= i < j < |runs| && FindsNone(n, runs[i]) ensures FindsNone(n, runs[j]) {
        assert j >= k;
        assert NoteSnapshot(n, b[j - k].snapshot) == map[];
      }
    }
  }

  function NoteSteps(runs: seq<Run>): seq<Note -> Option<Note>> {
    seq(|runs|, i requires 0 <= i < |runs| => NoteStep(runs[i].snapshot, runs[i].now))
  }

  lemma {:induction false} AppendedNotesAreSuccessors(n: Note, runs: seq<Run>)
    ensures AppendedNotes(n, runs) == Successors(n, NoteSteps(runs))
    decreases |runs|
  {
    if runs != [] {
      AppendedNotesStep(n, runs);
      SuccessorsStep(n, NoteSteps(runs));
      assert NoteSteps(runs)[1..] == NoteSteps(runs[1..]);
      AppendedNotesAreSuccessors(AfterNoteRun(n, runs[0]), runs[1..]);
    }
  }

  /** The note log over any updates holds, for each note, the lines it had and then that history. */
  lemma NoteRowsOverRuns(log: seq<Note>, runs: seq<Run>, n: Note, keep: Note -> bool)
    requires Current(log, NoteKey, n.id) == Some(n) && forall m :: keep(m) <==> m.id == n.id
    ensures Filter(PassesLog(log, NoteKey, NoteSteps(runs)), keep) == Filter(log, keep) + AppendedNotes(n, runs)
  {
    forall i | 0 <= i < |runs| ensures Advances(NoteSteps(runs)[i], NoteKey) {
      NoteStepRules(runs[i].snapshot, runs[i].now);
    }
    AppendedNotesAreSuccessors(n, runs);
    RecordRowsOverPasses(log, NoteKey, NoteSteps(runs), n, keep);
  }

  // ----------------------------------------------------------------- one such note

  const BOUND_NOTE: Note := Note("n", 1, "", [], ["a"], [], Human, 0, 0, None, map["a" := "1"], NoteActive)

  const FILE_GONE: Run := Run(Snapshot(map[], map[], map[]), 1)

  const FILE_BACK_CHANGED: Run := Run(Snapshot(map["a" := "2"], map[], map[]), 2)

  /** The file of a note is deleted and comes back with other content: its snapshot changes twice, and the note is
      flagged only the first time. */
  lemma GoneAndBackFlaggedOnce()
    ensures Changes(BOUND_NOTE, BOUND_NOTE.sourceHashes, [FILE_GONE, FILE_BACK_CHANGED])
        == [FILE_GONE, FILE_BACK_CHANGED]
    ensures |AppendedNotes(BOUND_NOTE, [FILE_GONE, FILE_BACK_CHANGED])| == 1
    ensures AppendedNotes(BOUND_NOTE, [FILE_GONE, FILE_BACK_CHANGED])[0].sourceHashes == map[]
  {
    var runs := [FILE_GONE, FILE_BACK_CHANGED];
    var flagged := AfterNoteRun(BOUND_NOTE, FILE_GONE);
    OneFile(BOUND_NOTE, FILE_GONE);
    OneFile(BOUND_NOTE, FILE_BACK_CHANGED);
    assert runs[1..] == [FILE_BACK_CHANGED] && [FILE_BACK_CHANGED][1..] == [];
    assert "a" in BOUND_NOTE.sourceHashes && "a" in NoteSnapshot(BOUND_NOTE, FILE_BACK_CHANGED.snapshot);
    assert Changes(BOUND_NOTE, map[], [FILE_BACK_CHANGED]) == [FILE_BACK_CHANGED];
    PassingCases(BOUND_NOTE, runs);
    PassingCases(flagged, runs[1..]);
    PassingRun(BOUND_NOTE, FILE_GONE);
    PassingRun(flagged, FILE_BACK_CHANGED);
  }

  lemma OneFile(n: Note, run: Run)
    requires n.files == ["a"] && n.symbols == []
    ensures NoteSnapshot(n, run.snapshot)
        == if "a" in run.snapshot.files then map["a" := run.snapshot.files["a"]] else map[]
  {
    assert Covered(n.files, n.symbols, run.snapshot.owner) == {"a"};
  }
}
