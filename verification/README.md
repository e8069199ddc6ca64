# RepoRune, modelled and verified in Dafny

RepoRune keeps append-only canonical logs (decisions, constraints, notes, proposals, scope summaries), a code index
it recomputes incrementally, and a SQLite cache derived from both. A host plugin injects what the cache knows into an
agent's prompt. This project models the parts of it that carry guarantees and proves those guarantees for every input,
every run and every crash point the code is written for.

One module per component:

| file | component |
| --- | --- |
| `Collections.dfy` | sequences, filtering, code-point order, sorting |
| `CodeIndex.dfy`, `References.dfy` | index tables and their stored form; name-based reference resolution |
| `Update.dfy`, `UpdateAgreement.dfy`, `IndexHistory.dfy`, `IndexFacts.dfy` | the incremental indexing run; its per-file invariant; any history of runs against one full run; what a run records of each file |
| `Cache.dfy`, `Workspace.dfy`, `CacheFacts.dfy` | the projection into the cache; the cache-first, canonical-second write protocol; what the cache holds |
| `Hashes.dfy` | tree fingerprint, membership hash, source snapshots |
| `Records.dfy`, `Staleness.dfy`, `Detection.dfy`, `NoteHistory.dfy` | revision logs; lifecycle transitions and repeated passes; what a pass answers for each record; the life of one note |
| `Governance.dfy`, `GovernanceRuns.dfy`, `Approvals.dfy` | the proposal flow with crashes; what holds across its operations; what each one refuses and writes |
| `Plugin.dfy`, `PluginSteps.dfy`, `RuneBlock.dfy` | the host plugin's session protocol; what each step does; the managed prompt region |
| `Scopes.dfy`, `Reconcile.dfy`, `ReconcileVerdicts.dfy`, `Membership.dfy`, `Reports.dfy` | automatic scope membership; the reconcile report; its verdicts; which files join which scopes; every entry of a report |
| `UpdateRuns.dfy`, `UpdateFacts.dfy` | one whole update, from the tree to the canonical files; any history of updates and governance operations; what an update decides and leaves |
| `Semantic.dfy`, `SummaryHistory.dfy`, `Refreshes.dfy` | the summary retry ladder, the budgeted run, repeated runs; the summary log over any updates; what a refresh does |
| `Glob.dfy`, `Check.dfy`, `Names.dfy`, `Declarations.dfy` | glob compiler; constraint lookup in batches; the two qualified-name algorithms; which nodes are declared |

Code that updates state in place is a class or a method with a loop, proved equal to a specification function; the
properties are lemmas about those functions. `Detection`, `Approvals`, `IndexFacts`, `CacheFacts`, `Refreshes`,
`Membership`, `Reports`, `UpdateFacts`, `PluginSteps` and `Declarations` say what those functions come to without naming
the functions they are built from: in terms of the index, the scopes, the logs and the answers alone.
`dafny verify dfyconfig.toml` checks everything.

## Reading the model

- Hashing is ideal: a file's content is its own hash, and a digest is the text fed to the hasher. UTF-8 is injective,
  so pre-images are compared as text.
- Parsing is an arbitrary function of path and content, stage by stage, each of which may raise. Import resolution
  probes an arbitrary list of candidate paths against the files on disk.
- SQLite tables are rows in insertion order with their keys; a transaction is atomic. Logs are sequences, one append
  is atomic, and there is one writer, as `canonical.py` assumes. Proposal ids are fresh.
- Strings are ordered by code point. Redaction, field validation, provider answers and the clock are parameters.
- Scope ids are unique where a theorem says so; `create_scope` refuses a repeated one.
- In the plugin a step is one synchronous stretch between awaits; promises settle in any order. Contexts, pending-path
  maps and promises are identified by number, so that object identity is explicit.
- A symbol's id is a hash of its path, qualified name and kind. Parsing is arbitrary, so the one theorem that needs it
  says so: no two files declare the same id.
- A record is written as one line: its id, its revision and an arbitrary text.
- A syntax tree is abstract: node type, field label, text, children. The body of a class is never itself a class.

## Where the code and its documentation part

- `update.py:292-297` says import rows of an unchanged file can be reused because they depend on that file alone.
  Resolution probes the disk, so a new file can shadow an old target. `EdgesMatchFullExactly` gives the exact
  condition, `ShadowingFileIsMissed` a failing family.
- The same condition needs a file whose parse raises to yield no references, because the reference-only extraction
  swallows its own errors. Without it an update that finds nothing changed changes the index: right after a full run
  the edges stay exactly when every unparsed file yields no references (`RepeatedRunKeepsEdgesExactly`);
  `UnparsedFileGainsReferences` is one file on which they do not.
- `update.py:546-555` discards the cache when a deferred write raises, and suppresses a failure of that discard. Then
  the cache stays ahead of the logs exactly for the updates `SurvivingCacheAheadExactly` describes;
  `UnwrittenDecisionAhead` is the smallest. `FailedDiscardExactly` says it of the rows an update really decides.
- `models.py:211-212` says a stale summary has content. A failed attempt over an empty summary leaves it stale and empty,
  as two failures in a row do for any scope (`TwoFailuresStaleAndEmpty`). Over any updates a stale summary has content
  exactly when a generation of its scope has succeeded before (`StaleHasContentExactly`).
- `reconcile.py:280-284` says of a partly covered file that no scope lists it. It is said whenever some scope has a symbol
  of the file and does not list it, also when another scope lists it (`SaidUnlistedExactly`); it is right of every file
  exactly when every scope with a symbol of a listed file lists the file (`SaidUnlistedRightly`); `ListedYetSaidUnlisted`
  is one file on which it is wrong.
- `DATA_MODEL.md:776` has a source-bound note flagged whenever its files no longer match its snapshot. A note whose files
  have all vanished gets an empty snapshot, which reads as never bound. The binding is lost exactly in a run that finds none
  of the files (`BindingLostExactly`); a note is flagged on every change exactly when its files do not come back after such
  a run (`FlaggedOnEveryChangeExactly`); `GoneAndBackFlaggedOnce` is the smallest case that fails.
- A rejected proposal may have been written. A crash inside `approve` followed by `reject` leaves the content in force
  exactly when the crash fell between the two appends (`RejectedYetWrittenExactly`), and over whole runs a rejected proposal
  was never written exactly when no approval of it was so cut (`RejectedNeverWrittenExactly`).
- The soft bootstrap has no incarnation check. It reaches its own incarnation exactly when the session was not deleted in
  between (`SoftReachesOwnExactly`, and `HardReachesOwnExactly` for the hard one); `CrossingRunCrosses` is a run in which a later incarnation shows it.

## Model

| member | source | states |
|---|---|---|
| Update.DiffAgainstPrevious | src/rune/core/index/scanner.py:163-187 | Splits a scan into added, modified and unchanged files, in scan order, and finds the deleted paths. |
| Update.CollectScanned | src/rune/core/update.py:259-311 | Reused files contribute their stored symbols and import rows, all others a fresh parse, unchanged files first. |
| Update.CollectRetained | src/rune/core/update.py:313-327 | Each unreadable indexed file keeps its last facts and is marked; sorted by path. What that comes to for each is `IndexFacts.UnreadableKeepsEverything`. |
| Update.ResolvePending | src/rune/core/update.py:329-345 | Resolving in a loop that reads the edge list it extends gives what resolving each file against its own import rows gives. |
| Update.ComputeIndex | src/rune/core/update.py:242-345 | The whole in-memory run equals the index assembled from one contribution per file; what each file then has is `IndexFacts.ParsedFile`, `TakenOverFile` and `UnreadableKeepsEverything`. |
| Update.ImportedIgnoresResolved | src/rune/core/update.py:336-342 | Reference edges appended earlier never change a file's imported set. |
| References.ResolveReferences | src/rune/core/index/references.py:54-124 | The loop yields one edge per reference, each as the resolution rule says. |
| References.FindTarget | src/rune/core/index/references.py:80-107 | A local match wins; otherwise the first match of the least imported path that has one; otherwise unresolved. |
| References.TargetFileCharacterized | src/rune/core/index/references.py:97-107 | The target found does not depend on how the imported set is enumerated. |
| References.ResolveDependsOnViews | src/rune/core/index/references.py:54-62 | Resolution depends only on the declared symbols and on the imported files that declare some. |
| UpdateAgreement.ContributionsAre | src/rune/core/update.py:259-327 | A run has exactly one contribution per scanned file and per unreadable indexed file, with distinct paths. |
| UpdateAgreement.AssembledShows | src/rune/core/update.py:329-345 | In the assembled index each file's record, symbols and edges are those of its own contribution. |
| UpdateAgreement.RunKeepsFaithful | src/rune/core/update.py:235-345 | Every run keeps the invariant that a file not marked unreadable carries exactly what parsing its recorded content yields. |
| UpdateAgreement.MaterializeKeepsFaithful | src/rune/core/storage/sqlite/materialize.py:541-585 | Storing the index keeps that invariant. |
| IndexHistory.RunMatchesFull | src/rune/core/update.py:235-345 | With every file readable, an incremental run has the files, statuses and per-file symbols of a full run. |
| IndexHistory.HistoryMatchesFull | src/rune/core/update.py:235-345 | The same after any history of runs, unreadable files, failed writes and lost caches; and the run commits exactly when the full run would. |
| IndexHistory.FileEdgesExact | src/rune/core/update.py:269-303 | One file's stored edges equal the full run's exactly when reuse is sound for it. |
| IndexHistory.EdgesMatchFullExactly | src/rune/core/update.py:292-303 | All stored edges equal the full run's as a multiset exactly when reuse is sound for every reused file. |
| IndexHistory.StableHistoryMatchesFullEdges | src/rune/core/update.py:242-345 | After any history in which no reused import changed its visible target, the edges are the full run's. |
| IndexHistory.UntouchedCandidatesAreStable | src/rune/core/index/imports.py:44-98 | An import is stable when no path it probes appears on or leaves the disk or the index. |
| IndexHistory.ShadowingFileIsMissed | src/rune/core/index/imports.py:64-87 | A new file that shadows the target of an unchanged importer makes the incremental edges differ from the full run's. |
| IndexHistory.RepeatedRunKeepsEdgesExactly | src/rune/core/update.py:192-198 | Right after a full run on the same tree, an incremental run keeps the stored edges exactly when every file that fails to parse yields no references on its own. |
| IndexHistory.UnparsedFileGainsReferences | src/rune/core/update.py:192-198 | One file whose declarations cannot be extracted and whose references can: an update that finds nothing changed changes the edges. |
| IndexFacts.UnreadableKeepsEverything | src/rune/core/update.py:313-327 | In a full or an incremental run, an indexed file that cannot be read keeps its record, marked as a scan error, and every symbol and edge it had. |
| IndexFacts.TakenOverFile | src/rune/core/update.py:269-303 | In an incremental run, a file last read with the same content keeps its status, symbols and stored import rows, and gets one newly resolved edge for each reference it yields. |
| IndexFacts.ParsedFile | src/rune/core/update.py:146-164 | Any other scanned file: ok exactly when every stage returned and there is no syntax error; one symbol per declaration, one row per import statement to the first candidate on disk, one edge per reference; nothing at all when a stage raised. |
| IndexFacts.EachReferenceIsRight | src/rune/core/index/references.py:54-124 | The edge of one reference: from the narrowest enclosing symbol of the right kind; to the first symbol of that name, a type for inheritance, in its own file with confidence 0.8, else in the least imported file that has one with 0.6, else unresolved with 0.3. |
| IndexFacts.OthersAreGone | src/rune/core/update.py:254-327 | A file neither scanned nor unreadable and indexed before has no row left. |
| IndexFacts.RecordsInOrder | src/rune/core/update.py:269-327 | The records come in the order unchanged, added, modified, as scanned, then the kept unreadable ones by path. |
| Collections.LeqExactly | src/rune/core/update.py:316 | Strings are sorted by the first code point in which they differ, a prefix first. |
| IndexFacts.SymbolsInOrder | src/rune/core/update.py:259-327 | Symbols are stored file by file in the order of the records. |
| CodeIndex.MaterializeIdempotent | src/rune/core/storage/sqlite/materialize.py:565-576 | Nulling dangling edge targets is idempotent, and the stored index can be stored again. |
| Workspaces.InsertEdges | src/rune/core/storage/sqlite/materialize.py:565-585 | Rows are stored with unknown targets nulled; a violated key raises. |
| Workspaces.InsertScopes | src/rune/core/storage/sqlite/materialize.py:251-286 | Memberships of files or symbols that are not indexed are dropped; a repeated scope id raises. |
| Cache.GroupCurrentById | src/rune/core/storage/sqlite/materialize.py:226-248 | Groups a log by id and revision, and refuses it exactly when two lines carry the same pair. |
| Workspaces.Workspace.RebuildCache | src/rune/core/storage/sqlite/materialize.py:735-884 | On success the cache is the projection of index and canonical files; on failure it is unchanged. What the projection holds is `CacheFacts.ProjectionExactly`. |
| Workspaces.Workspace.Commit | src/rune/core/update.py:526-555 | For a failure at any point: nothing changed, or the cache is gone and a prefix of the writes is done; on success the cache is the projection of the files just written, and the log and the project file are written or not with them. |
| Workspaces.Workspace.RefreshCache | src/rune/core/memory/records.py:128-164 | Projects the current files and the index it holds, and leaves every table unchanged when the cache is the projection of the current files. |
| Cache.ReadBackIsIdentity | src/rune/core/storage/sqlite/materialize.py:588-669 | Rebuilding from the index read back out of the cache gives the same cache. |
| Cache.ProjectionNotAhead | src/rune/core/update.py:546-549 | A projection holds no decision, constraint, note or summary revision that its log lacks. |
| Cache.GrowingLogsKeepNotAhead | src/rune/core/memory/records.py:138-148 | Appending to the logs never puts a lagging cache ahead of them. |
| Workspaces.SurvivingCacheAheadExactly | src/rune/core/update.py:546-555 | When the discard fails too, the cache is ahead of the logs exactly for the updates that had unwritten revisions left. |
| Workspaces.UnwrittenDecisionAhead | src/rune/core/update.py:540-555 | One decision row whose write raises, the discard raising too: the cache is ahead. |
| CacheFacts.ProjectionExactly | src/rune/core/storage/sqlite/materialize.py:251-345 | The projected cache: for each record of each log the revision no line of it exceeds and exactly its lines as rows; the newest line of each proposal and of each summary of an existing scope; the indexed members of each scope; the index with exactly the unknown targets nulled. |
| CacheFacts.AllWrittenExactly | src/rune/core/update.py:536-545 | All deferred writes replace the scopes and extend every log but the proposals. |
| CacheFacts.WrittenInOrder | src/rune/core/update.py:536-545 | Writes that stop have done the earlier ones: scopes, summaries, decisions, constraints, notes. |
| Hashes.WorkingTreeFingerprint | src/rune/core/hashing.py:41-53 | The loop feeds the sorted path, NUL, hash, newline rows. |
| Hashes.TreeFingerprintInjective | src/rune/core/hashing.py:41-53 | Equal fingerprints mean equal path-to-hash maps, for NUL-free paths and newline-free hashes. |
| Hashes.ComputeScopeMembershipHash | src/rune/core/memory/hashes.py:44-60 | The loops feed the sorted, tagged member lists. |
| Hashes.MembershipHashExact | src/rune/core/memory/hashes.py:44-60 | Two membership hashes agree exactly when files and symbols agree up to order. |
| Hashes.FingerprintOfTwo | src/rune/core/hashing.py:41-53 | Two files are fed in path order, each as path, NUL, hash, line break. |
| Hashes.MembershipOfTwo | src/rune/core/memory/hashes.py:44-60 | A file and a symbol are fed with their tags, the file first. |
| Hashes.ComputeSourceHashes | src/rune/core/memory/hashes.py:20-41 | Hashes exactly the named files and the files declaring the named symbols, as far as they are indexed. |
| Records.CurrentBy | src/rune/core/memory/records.py:23-62 | Every id maps to its greatest revision; refused exactly when two lines carry the same id and number. |
| Records.NumberedCurrent | src/rune/core/memory/revisions.py:18-41 | In a numbered log the current revision's number is the count of the record's lines. |
| Records.NumberedAppendMany | src/rune/core/storage/canonical.py:130-149 | Appending one next revision for each of several records in one write keeps every record numbered 1..n. |
| Records.IdsInOrder | src/rune/core/memory/records.py:23-62 | Current revisions are listed in the order in which their records first appear in the log. |
| Staleness.DetectDecisionTransitions | src/rune/core/memory/staleness.py:102-120 | One revision per non-terminal decision with a missing reference, in order; for which and with what status is `Detection.DecisionPassExactly`. |
| Staleness.DetectConstraintTransitions | src/rune/core/memory/staleness.py:123-191 | One revision per constraint whose mode calls for one, in order; for which and with what status is `Detection.ConstraintPassExactly`. |
| Staleness.DetectNoteTransitions | src/rune/core/memory/staleness.py:212-251 | One revision per note that is orphaned, expired or changed, in that priority. |
| Detection.DecisionPassExactly | src/rune/core/memory/staleness.py:83-120 | An open decision is orphaned exactly when a scope it names is gone, put up for review exactly when its scopes exist and a file or symbol it names is gone, and left alone exactly when everything exists; its row changes nothing but revision, status, author and time. |
| Detection.ConstraintPassExactly | src/rune/core/memory/staleness.py:83-191 | An open, non-persistent constraint is orphaned exactly when a scope is gone; put up for review exactly when a reference is gone or, with all there, a scope-bound one finds other members than recorded; stale exactly when a source-bound one finds other sources than recorded or a temporary one has just run out. |
| Detection.ConstraintRowsExactly | src/rune/core/memory/staleness.py:142-191 | What is written is the next revision, by the system, carrying the hashes that were compared and its old ones elsewhere. |
| Detection.NotePassExactly | src/rune/core/memory/staleness.py:212-251 | An open note is orphaned, else expired, else flagged, exactly when a scope is gone, its time has come, or its bound files are not those recorded. |
| Detection.NoteRowsExactly | src/rune/core/memory/staleness.py:192-251 | What is written is the next revision with the right author and, when flagged, the new hashes. |
| Detection.RowsInOrder | src/rune/core/memory/staleness.py:102-120 | Rows come in the order of the records they are about. |
| Staleness.DetectionIsIdempotent | src/rune/core/memory/staleness.py:63-70 | A second pass on equal inputs, over the current revisions re-read from the log the first one extended, appends nothing, for decisions, constraints and notes. |
| Staleness.CurrentAfterPass | src/rune/core/memory/staleness.py:50-80 | After a pass a record's current revision is the one the pass wrote, or the one it had. |
| Staleness.RecordRowsOverPasses | src/rune/core/update.py:496-543 | Over any passes a record's lines in the log are those it had and then what the rules make of its current revision. |
| Staleness.SourceBoundHistory | src/rune/core/memory/staleness.py:142-163 | Over any runs a source-bound constraint gets one stale revision per run whose snapshot differs from the run before, written in that run with that snapshot, then at most one terminal revision, in the run in which a reference first goes missing, with the hashes stored last. |
| Staleness.DecisionRevisionIsComplete | src/rune/core/memory/staleness.py:50-80 | A system revision of a decision carries everything but lifecycle fields forward. |
| Staleness.ConstraintRevisionIsComplete | src/rune/core/memory/staleness.py:50-80 | A system revision of a constraint carries everything but lifecycle fields and the refreshed hashes forward. |
| Staleness.NoReferenceDropped | src/rune/core/memory/hashes.py:20-41 | A constraint that passes the existence check keeps every referenced file in its snapshot. |
| Staleness.StaleExactlyOnChange | src/rune/core/memory/staleness.py:148-163 | Such a constraint goes stale exactly when the hash of a covered file changed. |
| Staleness.SnapshotChangeIsFileChange | src/rune/core/memory/hashes.py:20-41 | Two snapshots of the same references differ exactly when the hash of a covered file does. |
| Staleness.StaleExactlyBetween | src/rune/core/memory/staleness.py:155-163 | With the snapshot taken at the approval or the run before, the constraint goes stale exactly when the hash of a covered file differs between the two, and its new snapshot is that of this run. |
| NoteHistory.BindingLostExactly | src/rune/core/memory/staleness.py:242-250 | A bound note that is neither orphaned nor expired ends with an empty snapshot exactly in a run that finds none of its files. |
| NoteHistory.NoteRows | src/rune/core/memory/staleness.py:229-250 | Over any runs a note is flagged once per change of its snapshot up to and including the first empty one, in that run and with that snapshot, never after, and gets at most one last revision, in the run that orphans or expires it. |
| NoteHistory.FlaggedOnEveryChangeExactly | src/rune/core/memory/staleness.py:242-250 | Every change is flagged exactly when, once a run finds none of the files, no later run finds any. |
| NoteHistory.GoneAndBackFlaggedOnce | src/rune/core/memory/staleness.py:242-250 | A file deleted and brought back changed: two changes, one flag. |
| NoteHistory.NoteRowsOverRuns | src/rune/core/update.py:505-543 | Over any updates the note log holds, for each note, the lines it had and then that history. |
| Staleness.PassContinues | src/rune/core/update.py:499-524 | A detection pass over the current revisions of a numbered log appends rows that continue its numbering. |
| Staleness.NotePassKeepsNumbered | src/rune/core/update.py:514-524 | The note revisions of an update continue the numbering of the note log. |
| Governance.Ledger.Propose | src/rune/core/memory/proposals.py:105-184 | Appends one pending proposal with a redacted, deduplicated payload, or refuses; nothing if the process dies first. |
| Governance.Ledger.Approve | src/rune/core/memory/proposals.py:263-472 | Appends the record and then the resolution, up to where the process dies; refuses in the order of the source's checks. When and with what content is `Approvals.ApprovedExactly` and `ApprovalExactly`. |
| Governance.Ledger.PrepareApproval | src/rune/core/memory/proposals.py:284-437 | What is decided before the first append. |
| Governance.Ledger.ComputeBindings | src/rune/core/memory/proposals.py:349-393 | Source hashes for a source-bound constraint, membership hashes for a scope-bound one, refused if a reference is missing; what a scope-bound approval then holds is `Approvals.ScopeBoundSnapshot`. |
| Governance.Ledger.Reject | src/rune/core/memory/proposals.py:515-532 | Appends the rejected revision of a pending proposal, or refuses. |
| Governance.Ledger.Deactivate | src/rune/core/memory/proposals.py:479-512 | Appends an inactive revision unless the record is missing or already inactive. |
| Governance.Ledger.RunDetection | src/rune/core/update.py:496-543 | Appends the decision and then the constraint transitions of one update. |
| Governance.DecideMeaning | src/rune/core/memory/proposals.py:395-470 | A successful approval resolves the pending proposal to a revision of its own record and type, the next one or the one already there. |
| Governance.NextKeepsSound | src/rune/core/memory/proposals.py:263-532 | Every operation, cut short between any two appends, keeps all logs numbered, every proposal pending and then resolved at most once, and every stored payload in its record log. |
| Governance.EveryRunIsSound | src/rune/core/memory/proposals.py:263-532 | The same over every interleaving of operations and crashes; logs only ever grow. |
| Governance.ProposalLifecycle | src/rune/core/memory/proposals.py:284-288 | Over every run a proposal's lines are none, its pending line, or that and one resolution, which changes only status, payload, time and resolver, and not the payload when it rejects. |
| Governance.RecordLifecycle | src/rune/core/memory/proposals.py:208-218 | Over every run a record's lines are revisions 1, 2, 3, ... in log order, all of its type. |
| Governance.ApprovedIsWritten | src/rune/core/memory/proposals.py:439-470 | Over every run the payload of an approved or edited proposal is a line of its own record's log. |
| Governance.RetryAfterCrash | src/rune/core/memory/proposals.py:415-472 | After a crash between the two writes and any further run, anyone approving the same thing while the record is unchanged adds no record and resolves to the revision already written, with its first approver. |
| Governance.CrashThenRejectKeepsContent | src/rune/core/memory/proposals.py:442-458 | After that crash a rejection leaves the content current and active. |
| GovernanceRuns.RejectedYetWrittenExactly | src/rune/core/memory/proposals.py:442-470 | An approval cut at any point and then rejected: there is a rejected line and the record log has grown exactly when the cut fell after the first append. |
| GovernanceRuns.RejectedApprovalWroteExactly | src/rune/core/memory/proposals.py:442-470 | In any run in which a proposal ends rejected, an approval of it wrote a record exactly when it was cut between its two appends. |
| GovernanceRuns.RejectedNeverWrittenExactly | src/rune/core/memory/proposals.py:442-470 | A rejected proposal was never written exactly when no approval of it was so cut. |
| GovernanceRuns.DetectAgainChangesNothing | src/rune/core/update.py:496-543 | Detection run again on equal inputs, after a complete pass or one cut anywhere, ends where one complete pass does. |
| GovernanceRuns.SourceBoundRows | src/rune/core/update.py:496-543 | Over any updates without human action, the lines a source-bound constraint gains in its log are exactly the stale and terminal revisions of its history. |
| GovernanceRuns.StaleSinceApprovalExactly | src/rune/core/memory/proposals.py:349-381 | A newly approved source-bound constraint goes stale exactly when the hash of a covered file changed since the approval. |
| Governance.ApprovedContent | src/rune/core/memory/proposals.py:290-346 | What an approval writes or finds written says exactly what was proposed, or what the edit says, once redacted, under the right author. |
| Governance.ApprovalCoversEveryReference | src/rune/core/memory/proposals.py:359-381 | A new source-bound approval snapshots exactly the files it names and those declaring its symbols, at least one. |
| Approvals.ApprovedExactly | src/rune/core/memory/proposals.py:284-393 | An approval succeeds exactly when the last line of the proposal is pending, an edit is well formed and of the same record, the payload has the shape of its type, and everything it is bound to exists; which error it is otherwise. |
| Approvals.ApprovalExactly | src/rune/core/memory/proposals.py:395-470 | It writes nothing exactly when the current line of the record already says what is approved, and otherwise the next revision, which says it, bound to what is there, by the proposer or the human editor, with approver and time; the proposal ends with that line as its payload. |
| Approvals.ApproveAppends | src/rune/core/memory/proposals.py:433-472 | The record is appended before the proposal; a crash keeps a prefix of the two. |
| Approvals.ProposeExactly | src/rune/core/memory/proposals.py:105-184 | A proposal of the right shape is stored pending, its text redacted and nothing else, its references sorted without repeats, with nothing approved or bound; any other changes nothing. |
| Approvals.DeactivateExactly | src/rune/core/memory/proposals.py:479-512 | The appended line is inactive, by a human, names who, and is otherwise the current one; a missing or inactive record is left alone. |
| Approvals.RejectExactly | src/rune/core/memory/proposals.py:515-532 | The appended line is rejected with the proposed payload, and no record is written. |
| Approvals.DetectAppends | src/rune/core/update.py:496-543 | A complete detection appends to the two record logs what the passes give for their current revisions, and nothing else. |
| Approvals.DetectedExactly | src/rune/core/memory/staleness.py:123-191 | In the store, the lines written about a constraint are exactly those its current line calls for. |
| Approvals.ScopeBoundSnapshot | src/rune/core/memory/proposals.py:382-393 | A newly approved scope-bound constraint records the membership hash of exactly the scopes it names, at least one, as they are. |
| Approvals.ApprovalStands | src/rune/core/memory/proposals.py:395-458 | The line a new approval of a constraint writes is the current one of its record, active, and bound to what the approval saw, all of which existed. |
| Approvals.ScopeBoundReviewedExactly | src/rune/core/memory/staleness.py:165-177 | The next detection that finds everything such a constraint names puts it up for review exactly when the membership hash of a named scope has changed since the approval, and otherwise writes nothing; on what the approval saw it writes nothing exactly when its files and symbols exist too. |
| Approvals.HashDiffersWithMembers | src/rune/core/memory/hashes.py:44-60 | For members without NUL, the hashes differ exactly when the members of a named scope do, up to order. |
| Approvals.SourceBoundStaleExactly | src/rune/core/memory/staleness.py:155-164 | The same for a source-bound constraint and the hashes of its sources. |
| Approvals.UnboundStaleExactly | src/rune/core/memory/staleness.py:178-190 | A newly approved temporary constraint goes stale exactly when its time has come; a persistent one is never touched. |
| Approvals.EveryLineIsShaped | src/rune/core/memory/proposals.py:59-102 | In every run, whatever crashes, every line of every log has the fields its type must have and none it must not. |
| Approvals.ConflictsAreRefused | src/rune/core/memory/records.py:23-62 | A file with two lines of one id and number is refused by whatever would extend it, and nothing is written. |
| Approvals.RecordReadExactly | src/rune/core/memory/proposals.py:208-213 | In any log, reading a record fails exactly when two of its own lines carry one number; lines of other records do not matter. |
| Approvals.TypeReadExactly | src/rune/core/update.py:499-504 | In any log, detection refuses exactly when two lines of its type carry one id and number; lines of the other type change nothing it writes. |
| UpdateRuns.RunUpdate | src/rune/core/update.py:235-556 | One whole run, from the scan to the deferred writes, does what the model says of it, with a fault anywhere; it fails only when two symbols have the same id or something raises. |
| UpdateRuns.UpdateKeepsFilesSound | src/rune/core/update.py:401-545 | Whatever the tree, the providers and the last write made: every log stays numbered, the proposal flow keeps its invariant, scope ids stay unique. |
| UpdateRuns.UpdateProjectsExactly | src/rune/core/storage/sqlite/materialize.py:735-884 | Over such files the rows an update decides conflict with nothing: it can be stored exactly when no symbol id repeats. |
| UpdateRuns.FailedDiscardExactly | src/rune/core/update.py:546-555 | For those rows the surviving cache is ahead of the files exactly when one of them was not written. |
| UpdateRuns.EveryHistoryIsSound | src/rune/core/update.py:235-556 | The same over any history of updates with faults, governance operations with crashes, and lost caches; the cache indexes what parsing yields and is never ahead of the files. |
| UpdateRuns.NewRepositoryIsSound | src/rune/core/project.py:155-164 | A new repository is such a state. |
| UpdateRuns.ViewOwnersIndexed | src/rune/core/update.py:491-497 | What detection sees of an index has every symbol's file indexed. |
| UpdateRuns.ViewsAgreeOnOwners | src/rune/core/index/treesitter.py:88-95 | No two indexes put a symbol in different files, as its id names its path. |
| UpdateRuns.StaleBetweenUpdatesExactly | src/rune/core/memory/staleness.py:148-163 | Between two indexes any updates computed, a source-bound constraint goes stale exactly when a file it covers has other content. |
| UpdateRuns.UpdateAgainWritesNoRecord | src/rune/core/update.py:401-545 | An update run again at the same time on an unchanged, readable tree assigns no file and writes no decision, constraint or note. |
| UpdateFacts.ViewExactly | src/rune/core/update.py:489-494 | Detection sees exactly the files with their contents, the last declaration of each symbol, and the scopes with their members. |
| UpdateFacts.NewScopesExactly | src/rune/core/update.py:374-385 | An update that is not a rebuild saves the scopes exactly when a new file points to one scope only, with exactly those files added. |
| UpdateFacts.DecidesExactly | src/rune/core/update.py:396-524 | Every pass reads the index just computed and the scopes about to be saved, or those there are. |
| UpdateFacts.DecisionsFlaggedExactly | src/rune/core/update.py:496-509 | An update orphans an open decision exactly when a scope it names is not there, and puts it up for review exactly when its scopes are and a file or symbol it names is not in the new index. |
| UpdateFacts.ConstraintsFlaggedExactly | src/rune/core/update.py:496-513 | The same for constraints, with what their modes compare. |
| UpdateFacts.NotesFlaggedExactly | src/rune/core/update.py:498-516 | The same for notes. |
| UpdateFacts.FilesAfterExactly | src/rune/core/update.py:536-545 | What the canonical files are after a complete update, and after one whose writes stop. |
| UpdateFacts.CompleteUpdateExactly | src/rune/core/update.py:396-545 | From the cached index and metrics, or from nothing without a cache: an uninterrupted update of a tree without repeated symbol ids writes everything it decided and leaves a cache showing the new index and every log; with a repeated id it changes nothing. |
| UpdateFacts.InterruptedUpdateExactly | src/rune/core/update.py:526-555 | A failed rebuild changes nothing; a raising write leaves the earlier writes done and no cache. |
| UpdateFacts.WritesExactly | src/rune/core/update.py:536-545 | Exactly the writes with something to write touch the disk. |
| UpdateFacts.LinesExactly | src/rune/core/storage/canonical.py:130-149 | A log is written as one line for each record, with its id, revision and text. |
| Plugin.NextKeepsInv | adapters/opencode/src/plugin.ts:139-292 | Every step keeps the whole protocol invariant. |
| Plugin.EveryRunKeepsInv | adapters/opencode/src/plugin.ts:139-380 | The protocol invariant holds after any steps in any order. |
| Plugin.SessionsBoundedAndKeysLive | adapters/opencode/src/plugin.ts:139-147 | In every run sessions stay within the cap and all three maps are keyed by live sessions only. |
| Plugin.LookupsNeverRepeat | adapters/opencode/src/plugin.ts:170-200 | One incarnation looks a path up again only after the earlier lookup closed without success. |
| Plugin.ScopesStayInTheirIncarnation | adapters/opencode/src/plugin.ts:179-188 | Every scope an incarnation shows was brought by a successful lookup of that incarnation. |
| Plugin.ScopesChangeOnlyWhileLive | adapters/opencode/src/plugin.ts:181-187 | A context's scopes change only when one of its own lookups succeeds while it is live. |
| Plugin.InitializationIsSequential | adapters/opencode/src/plugin.ts:235-244 | Initialization operations of one incarnation run one at a time, in the order of their events. |
| Plugin.RenderWaitsForInitialization | adapters/opencode/src/plugin.ts:343-363 | A prompt is rendered only after every initialization registered before the call, for its incarnation, is over. |
| Plugin.OneShotTextsShownOnce | adapters/opencode/src/rune-context.ts:61-116 | The texts queued for a context are those shown, in order, followed by those still queued. |
| Plugin.SoftCrossesIncarnations | adapters/opencode/src/plugin.ts:211-213 | A session deleted and created again meanwhile shows the old one's text, with its own still to come. |
| Plugin.CrossingRunCrosses | adapters/opencode/src/plugin.ts:203-232 | A run from the start in which that happens. |
| Plugin.LiveUntilDeleted | adapters/opencode/src/plugin.ts:227-232 | An incarnation is live exactly until its session is deleted, and never again. |
| Plugin.SoftReachesOwnExactly | adapters/opencode/src/plugin.ts:203-232 | The soft bootstrap of an operation registered for a live incarnation reaches it exactly when its session was not deleted in between. |
| Plugin.HardReachesOwnExactly | adapters/opencode/src/plugin.ts:149-153 | The hard bootstrap of such an operation replaces that of its incarnation exactly when its session was not deleted in between. |
| PluginSteps.ActivationLooksUpExactly | adapters/opencode/src/plugin.ts:155-200 | In every run, an activation by a session that is there or fits starts a lookup exactly when no lookup of the path by this incarnation is open or has succeeded. |
| PluginSteps.ActivationExactly | adapters/opencode/src/plugin.ts:155-178 | An activation admits the session, unless there are too many, and registers one lookup in its own pending map, unless the path is marked or pending; nothing else changes. |
| PluginSteps.SettlesExactly | adapters/opencode/src/plugin.ts:179-188 | A successful answer for a live incarnation marks the path and shows every scope found in that context and no other; any other answer only settles the lookup. |
| PluginSteps.AddedExactly | adapters/opencode/src/rune-context.ts:55-59 | Scopes shown stay; each found id is shown once, by the first of that id found. |
| PluginSteps.CleansExactly | adapters/opencode/src/plugin.ts:191-200 | The lookup is closed and out of its map, which goes exactly when it is empty and still its session's. |
| PluginSteps.EventsExactly | adapters/opencode/src/plugin.ts:235-282 | A created session is admitted and registers one initialization behind its gate; a compacted one does when known. |
| PluginSteps.DeletesExactly | adapters/opencode/src/plugin.ts:227-232 | A deleted session leaves its four maps; everything outstanding stays. |
| PluginSteps.StartsExactly | adapters/opencode/src/plugin.ts:203-244 | A queued initialization starts exactly when the one before it is done, and asks for the hard bootstrap exactly when its session is there. |
| PluginSteps.HardExactly | adapters/opencode/src/plugin.ts:149-153 | The hard bootstrap becomes that of the live context; a created session then awaits the soft one, a compacted one is done. |
| PluginSteps.SoftExactly | adapters/opencode/src/plugin.ts:203-213 | The soft bootstrap is queued for the live context, last, and the operation is finished. |
| PluginSteps.ClearsExactly | adapters/opencode/src/plugin.ts:239-242 | A finished initialization takes away its own gate and no later one. |
| PluginSteps.PromptExactly | adapters/opencode/src/plugin.ts:343-363 | A call takes the context and the gate of its session; once that gate is open it shows the queued texts in order and drains them, or leaves them for a title. |
| Plugin.Host.ActivateScopesForPath | adapters/opencode/src/plugin.ts:155-190 | The synchronous part of an activation is the specified step: already seen, already pending, or a new lookup. |
| Plugin.Host.ScopeLookupSettles | adapters/opencode/src/plugin.ts:179-188 | A settled lookup marks its path and adds scopes only for its own live incarnation. |
| Plugin.Host.ScopeLookupCleanup | adapters/opencode/src/plugin.ts:191-200 | Leaves the pending map, and drops the map only when it is empty and still current. |
| Plugin.Host.SessionCreated | adapters/opencode/src/plugin.ts:266-277 | Admits the session and registers its gate in one stretch. |
| Plugin.Host.SessionDeleted | adapters/opencode/src/plugin.ts:227-232 | Drops the session from all four maps. |
| Plugin.Host.SessionCompacted | adapters/opencode/src/plugin.ts:278-282 | Registers a gate for a known session, and does nothing for an unknown one. |
| Plugin.Host.InitializationStarts | adapters/opencode/src/plugin.ts:149-151 | Once the gate before it is over, asks for the hard bootstrap, or goes past it when the session is gone. |
| Plugin.Host.HardBootstrapArrives | adapters/opencode/src/plugin.ts:151-152 | Replaces the hard bootstrap of the live incarnation, if there is one, and moves on. |
| Plugin.Host.SoftBootstrapArrives | adapters/opencode/src/plugin.ts:212-213 | Queues the text for the live incarnation, if there is one, and finishes. |
| Plugin.Host.ClearInitializing | adapters/opencode/src/plugin.ts:239-242 | Removes the gate only while it is still the session's last. |
| Plugin.Host.SystemTransformBegins | adapters/opencode/src/plugin.ts:343-348 | Takes the session's context and its gate in one stretch. |
| Plugin.Host.SystemTransformResumes | adapters/opencode/src/plugin.ts:347-363 | Once the gate is open, shows the context taken at the call and drains its one-shot texts. |
| RuneBlock.SystemPrompt.MergeRuneBlock | adapters/opencode/src/rune-context.ts:148-172 | The in-place edit is the specified merge of the region. |
| RuneBlock.RuneMarkersSound | adapters/opencode/src/rune-context.ts:30-31 | The program's markers and their escapes have what the merge relies on. |
| RuneBlock.SafeHasNoMarker | adapters/opencode/src/rune-context.ts:153-157 | Escaped content holds neither marker, also across replacement boundaries. |
| RuneBlock.OutsideUnchanged | adapters/opencode/src/rune-context.ts:159-166 | A merge changes nothing outside the region, and the region is found again with the same text around it. |
| RuneBlock.FirstMergePlaced | adapters/opencode/src/rune-context.ts:167-171 | The first merge appends to the last entry or creates the only one, and is found there again. |
| RuneBlock.LastWriteWins | adapters/opencode/src/rune-context.ts:148-172 | Merging a then b equals merging b alone exactly when b is non-empty, a region was there, or a is empty. |
| RuneBlock.MergeIdempotent | adapters/opencode/src/rune-context.ts:137-147 | Merging the same block again changes nothing. |
| RuneBlock.MergeBounded | adapters/opencode/src/rune-context.ts:142-146 | The number of entries is unchanged, or one when it was none and there is something to say. |
| RuneBlock.MergeIntoMarked | adapters/opencode/src/rune-context.ts:153-166 | The first entry with a start marker keeps what is around its region, and the region is the escaped content between the two markers. |
| RuneBlock.MergeIntoUnmarked | adapters/opencode/src/rune-context.ts:148-171 | Without one, an empty block changes nothing and any other is appended after an empty line or becomes the only entry. |
| RuneBlock.ReplaceAllExactly | adapters/opencode/src/rune-context.ts:153-156 | Exactly the occurrences are replaced: the text between them, which holds none, is kept. |
| RuneBlock.RuneMarkersAre | adapters/opencode/src/rune-context.ts:30-31 | The two markers and their escapes, letter by letter. |
| Glob.GlobToRegex | src/rune/core/index/scanner.py:47-72 | The loop compiles the token list of the normalized pattern; characters compare exactly, or after case folding when told to. |
| Glob.CompiledIsTokens | src/rune/core/index/scanner.py:56-72 | The compiled expression matches exactly the strings its tokens denote. |
| Glob.GlobIsTokens | src/rune/core/index/scanner.py:72 | With the anchors, a path is accepted exactly when it, or it without one final line break, is denoted. |
| Glob.GlobIsSegmentMatcher | src/rune/core/index/scanner.py:47-52 | When `**` fills whole segments, on a newline-free path without empty segments, the compiled expression is the segment-list matcher. |
| Glob.StarsAbsorb | src/rune/core/index/scanner.py:49-50 | In that matcher `**` before other segments absorbs any number of whole segments. |
| Glob.TokensExactly | src/rune/core/index/scanner.py:53-71 | The tokens spell the pattern from left to right, each as long as it can be. |
| Glob.NormalizedExactly | src/rune/core/index/scanner.py:53 | Only backslashes change, into slashes. |
| Check.CheckChanges | src/rune/core/retrieval/check.py:58-202 | For any positive batch size: exactly the current, visible, relevant constraints, each once, in key order. |
| Check.CheckUnique | src/rune/core/retrieval/check.py:184-202 | That specification has one solution, so the result does not depend on batching or row order. |
| Check.SelectInBatches | src/rune/core/retrieval/check.py:79-135 | A query run batch by batch over the sorted values finds what one query over all of them finds. |
| Check.FetchInBatches | src/rune/core/retrieval/check.py:154-182 | Fetching in batches returns each visible current constraint of the ids exactly once. |
| Check.BatchesJoin | src/rune/core/retrieval/check.py:53-55 | The batches laid end to end are the sorted values. |
| Check.AnswerExactly | src/rune/core/retrieval/check.py:58-202 | In terms of the rows: the paths that differ, the scopes they touch, and exactly the constraints in force that name a touched scope, a changed file or a symbol of one, or are MUST without scopes; each once, with its current text and scopes, MUST first, then active, review required, stale, then by id. |
| Scopes.ScopesFile.AssignNewFilesFromImports | src/rune/core/scopes/model.py:173-209 | The loop adds each new path with exactly one candidate to the first scope with that id, and reports those ids. |
| Scopes.AssignIsGrowth | src/rune/core/scopes/model.py:188-208 | Its result: every scope gains exactly the new paths that point to it alone. |
| Scopes.ChangedIdsMeaning | src/rune/core/scopes/model.py:208-209 | The reported ids are exactly those of the scopes that gained a path. |
| Scopes.CandidateMeaning | src/rune/core/scopes/model.py:150-170 | A candidate is an unlocked scope covering a file the path imports with full confidence. |
| Scopes.StageIsGrowth | src/rune/core/scopes/reconcile.py:445-464 | The other writer, which collects pairs first and addresses scopes by index, has the same result. |
| Scopes.ReconcileIsAssignment | src/rune/core/scopes/reconcile.py:399-464 | When reconcile writes, it writes what the update's rule computes on the unassigned indexed files. |
| Scopes.WritersOnlyAdd | src/rune/core/scopes/model.py:195-207 | No member is removed, locked scopes and all other fields are untouched, and nothing is added but what points there alone. |
| Scopes.WritesAreBounded | src/rune/core/scopes/reconcile.py:399-464 | Repeated reconcile-and-save on a fixed index writes at most once per unassigned file. |
| Scopes.ExtendsCandidates | src/rune/core/scopes/model.py:161-170 | Candidate sets only grow as scopes grow. |
| Scopes.AmbiguousNeverAuto | src/rune/core/scopes/reconcile.py:401-428 | A file with several candidates stays unassigned and ambiguous through any number of rounds. |
| Membership.CandidateExactly | src/rune/core/scopes/model.py:150-170 | In terms of the rows: an unlocked scope is a candidate exactly when the path has an import edge of confidence 1.0 to a file the scope lists or has a symbol of. |
| Membership.AssignedExactly | src/rune/core/scopes/model.py:188-208 | A scope gains exactly the new paths that point to it and to no other, each once, and its files are sorted when it gains one. |
| Membership.ReportedExactly | src/rune/core/scopes/model.py:208-209 | Its id is reported exactly when it gains one. |
| Membership.LoneExactly | src/rune/core/scopes/reconcile.py:385-413 | The files reconcile may assign are exactly the indexed ones that no scope lists or has a symbol of and that point to one scope only. |
| Membership.ReconcileWritesExactly | src/rune/core/scopes/reconcile.py:398-464 | Reconcile writes exactly when not in full mode and the indexed files that no scope covers and that point to one scope only are some and at most the threshold; it adds each to that scope. |
| Reconcile.ReconcileScopes | src/rune/core/scopes/reconcile.py:315-485 | Entries, reasons, counters, churn flag and staged scopes are those of the specified report, with or without an earlier scopes file to compare with. |
| Reconcile.ReportMemberships | src/rune/core/scopes/reconcile.py:325-383 | The nested loops emit every verdict that is not KEEP, and KEEP in full mode, and count KEEP and BROKEN. |
| Reconcile.PartialCoverage | src/rune/core/scopes/reconcile.py:249-288 | One REVIEW per file reached by symbols of a scope that does not list it, with those scopes and how many of its indexed symbols are members. |
| Reconcile.ReviewMerge | src/rune/core/scopes/reconcile.py:221-246 | The loops review the newly added, indexed files of unprotected scopes that no longer point to their scope alone. |
| Reconcile.SinceOnlyAddsReviews | src/rune/core/scopes/reconcile.py:310-313 | Comparing with an earlier scopes file only adds REVIEW entries; no other entry, counter or write changes. |
| ReconcileVerdicts.MergeReviewedExactly | src/rune/core/scopes/reconcile.py:225-245 | A membership is so reviewed, once, exactly when its scope is unprotected, it is new, its file is indexed, and the imports do not point to this scope alone. |
| ReconcileVerdicts.FileMembershipVerdict | src/rune/core/scopes/reconcile.py:325-354 | Of a file membership there are as many verdicts as the scope lists it, all the same one of KEEP, BROKEN and REVIEW, and no other. |
| ReconcileVerdicts.SymbolMembershipVerdict | src/rune/core/scopes/reconcile.py:356-383 | The same for symbol memberships. |
| ReconcileVerdicts.ReportedMembership | src/rune/core/scopes/reconcile.py:325-383 | The report's entries about a membership are exactly those, or none for a KEEP outside full mode. |
| ReconcileVerdicts.OneVerdictPerFile | src/rune/core/scopes/reconcile.py:398-432 | The report has exactly one entry about an indexed file that no scope lists: AUTO, REVIEW or partial coverage. |
| ReconcileVerdicts.SaidUnlistedExactly | src/rune/core/scopes/reconcile.py:268-287 | The report says of a file that no scope lists it, once, exactly when some scope has a symbol of it and does not list it. |
| ReconcileVerdicts.SaidUnlistedRightly | src/rune/core/scopes/reconcile.py:278-284 | That is right of every file exactly when every scope with a symbol of a listed file lists the file. |
| ReconcileVerdicts.ListedYetSaidUnlisted | src/rune/core/scopes/reconcile.py:278-284 | One scope lists a file, another has a symbol of it: the file is listed, and said to be listed by none. |
| Reconcile.CountersAgree | src/rune/core/scopes/reconcile.py:439-441 | The four counters add up to memberships, unassigned files, partly covered files and merge reviews. |
| Reports.ReportSaysExactly | src/rune/core/scopes/reconcile.py:325-437 | The entries of a report, each with its classification, reason, scope and candidates: what is said of each member, each uncovered file, each partly covered file and each member a merge brought, and nothing else. |
| Reports.CountersExactly | src/rune/core/scopes/reconcile.py:439-485 | What each counter counts, and when the churn flag and the applied flag are set. |
| Reports.ReportInOrder | src/rune/core/scopes/reconcile.py:321-437 | Members come first, then uncovered files by path, then partly covered ones by path, then what a merge brought. |
| Reports.SortedById | src/rune/core/scopes/reconcile.py:325 | Scopes are reported in the order of their ids. |
| Semantic.RefreshScopeSummary | src/rune/core/semantic/worker.py:404-538 | The walk over the growing list of attempts makes at most three calls and returns the specified revision and metrics. |
| Semantic.LadderShape | src/rune/core/semantic/worker.py:453-509 | A later call is made only after a refused answer; a repair prompt only after a response came; the fallback only third and only if there is one. |
| Semantic.AttemptMeaning | src/rune/core/semantic/worker.py:427-538 | Each attempt yields exactly revision current+1 with the current source hash; a failure keeps the old content. |
| Semantic.StaleAndEmptyExactly | src/rune/core/semantic/worker.py:511-537 | An attempt leaves a summary stale and empty exactly when it fails over an empty one, whatever its status. |
| Semantic.TwoFailuresStaleAndEmpty | src/rune/core/semantic/worker.py:511-537 | Two failures from nothing leave any scope stale, empty and not due for a refresh. |
| SummaryHistory.DetectOrphanedScopes | src/rune/core/semantic/worker.py:128-156 | One orphaned revision per current summary whose scope is gone, unless it is orphaned already. |
| SummaryHistory.MarkPossiblyStale | src/rune/core/semantic/worker.py:159-210 | One marker per scope with an earlier summary, not unavailable, whose source hash changed. |
| SummaryHistory.EmptyExactly | src/rune/core/update.py:401-479 | Over any updates, refreshing, without a provider or rebuilding, every summary is the next revision of its scope, and empty exactly when no generation of the scope has succeeded up to then. |
| SummaryHistory.StaleHasContentExactly | src/rune/core/storage/models.py:209-215 | A stale summary has content exactly when a generation of its scope has succeeded before. |
| Semantic.RunSemanticRefresh | src/rune/core/semantic/worker.py:605-663 | The loop attempts scopes in order until the input-token budget is spent and defers the rest; which scopes those are is `Refreshes.RefreshedExactly`. |
| Semantic.RunVerdicts | src/rune/core/semantic/worker.py:617-624 | A scope that needs a refresh is attempted or deferred, never both; any other is left alone. |
| Semantic.RunKeepsNumbered | src/rune/core/semantic/worker.py:428 | A run appends exactly the next revision of each attempted scope. |
| Semantic.CurrentAfterRun | src/rune/core/semantic/worker.py:651-655 | After a run an attempted scope's current summary is the one just written; the others' are unchanged. |
| Semantic.RefreshGoesQuiet | src/rune/core/semantic/worker.py:94-125 | On a fixed tree with a positive budget, after two runs per scope nothing needs a refresh whatever the providers answer, and later runs write nothing. |
| Refreshes.RefreshedExactly | src/rune/core/semantic/worker.py:94-125 | A scope is attempted or deferred, and not both, exactly when it has no summary, or an unavailable or orphaned one, or one with another hash than that of its files in this tree. |
| Refreshes.AttemptedInOrder | src/rune/core/semantic/worker.py:617-640 | Scopes are taken in their order, and one that is due is attempted exactly while what the attempts before it cost is below the budget. |
| Refreshes.WrittenInOrder | src/rune/core/semantic/worker.py:640-663 | Each attempt writes its summary, in the order of the attempts. |
| Refreshes.EverySummaryIsOfTheTree | src/rune/core/semantic/worker.py:94-125 | Once the runs are quiet, every scope has a summary that was produced and carries the hash of its files in the tree. |
| Refreshes.AttemptExactly | src/rune/core/semantic/worker.py:404-538 | By cases on the answers: which calls are made with which prompts, and every field of the revision: the first usable answer, or the old content or an empty placeholder with the error of the last call. |
| Refreshes.SaysExactly | src/rune/core/semantic/worker.py:342-358 | What is recorded of a failure is the name of the exception, or which check failed: nothing of what a provider sent. |
| Refreshes.OrphansExactly | src/rune/core/semantic/worker.py:128-156 | An orphaned copy is appended of exactly the current summaries whose scope is gone and that do not say so yet. |
| Refreshes.MarksExactly | src/rune/core/semantic/worker.py:159-210 | Without a provider exactly the available summaries of scopes whose files have another hash are marked, with that hash. |
| Refreshes.MarksInOrder | src/rune/core/semantic/worker.py:159-210 | The marks come in the order of the scopes. |
| Refreshes.WhiteExactly | src/rune/core/semantic/validation.py:99 | The white space that is stripped from a purpose, by code point. |
| Refreshes.RunWritesExactly | src/rune/core/semantic/worker.py:640-663 | The summaries a run writes are those of the scopes it attempts. |
| Refreshes.UpdateAppends | src/rune/core/update.py:401-479 | An update appends the orphaned copies and then nothing, the marks or the new summaries, by its mode. |
| Names.SymbolList.WalkChildren | src/rune/core/index/treesitter.py:143-194 | The recursive walk appends the specified declarations, or stops where a required name is missing. |
| Names.SymbolList.VisitDeclaration | src/rune/core/index/treesitter.py:372-438 | The JavaScript family's dispatch on one node. |
| Names.QualifiedName | src/rune/core/index/treesitter.py:352-364 | The climb accumulates the enclosing class names, outermost first. |
| Names.WalkAndClimbAgree | src/rune/core/index/treesitter.py:65-76 | Every class, function and method the walk emits, in both families, has the name the climb gives for its node. |
| Declarations.DeclaredExactly | src/rune/core/index/treesitter.py:143-240 | The walk raises exactly when a node it visits lacks a name it must have; otherwise it gives, in the order of the text, exactly what the visited nodes declare: kind and name by node type and place, class bodies with the class in the scope, nothing inside functions. |
| Declarations.FieldsExactly | src/rune/core/index/treesitter.py:167-178 | A field is the first child that fills it, and a name is the text of that child. |
| Declarations.DottedExactly | src/rune/core/index/treesitter.py:168 | Names are joined by dots. |

## Left out

- CLI, MCP server, doctor, configuration loading, bootstrap payloads and token estimates: argument plumbing and display.
- HTTP providers, prompt texts, JSON extraction and the stripping of unknown references: a provider is an arbitrary sequence of outcomes, and a parsed answer keeps only its purpose and one text.
- SQLite internals, full-text search, schema migration and healing of corrupt cache files: tables are abstract and a transaction is atomic.
- Process death between the cache commit and the canonical writes: outside the fault handling of the source, which is written for exceptions.
- Parsing, digests, redaction patterns, timestamp parsing and Git: parameters, or ideal.
- Reading an earlier scopes file out of Git, and its errors: `reconcile` takes that file as a parameter.
- The wording of reconcile reasons: a reason is a datatype with the counts it quotes.
- Clustering, path suggestions, note commands and symbol search: library wrappers or plain filters.
- Metrics of cost, latency and stripped references: sums with no property of their own.
- The variable or constant kind of a module variable, signatures and line ranges: they do not enter a name.
- Glob.GlobToRegex: the case folding of regular expressions is an arbitrary function that keeps the slash apart; its Unicode tables are not modelled.
- Names.WalkAndClimbAgree: says nothing of Python module variables, because an assignment node has no name field to climb from.
- Plugin.Host.ActivateScopesForPath: paths outside the repository, which are skipped before any state is read, and an activation that merely waits for a pending one are not steps of the model.
- Governance.Ledger.RunDetection: the note log is appended in the same way and is not part of this store; `UpdateRuns.RunUpdate` appends all three.
- UpdateRuns.RunUpdate: two reads that could fail, of the configuration and of the provider's health, come before anything is written and are parameters.
- Workspaces.Workspace.RebuildCache: full-text tables, and the per-revision tables of scopes, files and symbols, are not among its tables; they are functions of the same log lines.
- Cache.GroupCurrentById: a log line is an id, a revision and a body here, since the projection never looks inside a body.
- Check.CheckChanges: a row read from a table is modelled by maps and sequences with the table's keys; the order of rows within one query is left open by the specification.
