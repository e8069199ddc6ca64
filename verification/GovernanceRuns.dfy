/** What holds across several operations on the logs: rejections after crashes, repeated detection, system histories. */
module GovernanceRuns {
  import opened Collections
  import opened Hashes
  import opened Records
  import opened Staleness
  import opened Governance

  const EMPTY_STORE: Store := Store([], [], [])

  ghost predicate RejectedLine(st: Store, id: string) {
    exists p :: p in st.proposals && p.proposalId == id && p.status == Rejected
  }

  function RecordLines(st: Store): nat { |st.decisions| + |st.constraints| }

  // --------------------------------------------------------- rejected, yet written

  /** An approval leaves the store alone, writes the record, resolves the proposal, or does both in that order. */
  lemma ApproveEffect(st: Store, policy: Policy, a: Resolution, survives: nat)
    ensures var end := Next(st, policy, Approve(a), survives);
            match Decide(st, policy, a)
            case Err(_) => end == st
            case Ok(d) =>
              && RecordLines(end) == RecordLines(st) + (if !d.alreadyWritten && survives > 0 then 1 else 0)
              && |Log(end, d.written.rtype)| == |Log(st, d.written.rtype)|
                + (if !d.alreadyWritten && survives > 0 then 1 else 0)
              && end.proposals == st.proposals
                + (if survives >= (if d.alreadyWritten then 1 else 2) then [d.resolved] else [])
  {
    if Decide(st, policy, a).Ok? { ApprovePrefixes(st, policy, a, survives); }
  }

  /** An approved proposal is not pending, and never has a rejected line. */
  lemma ApprovedNotRejected(st: Store, q: Proposal)
    requires Sound(st) && q in st.proposals && q.status in {Approved, Edited}
    ensures !RejectedLine(st, q.proposalId) && FindPending(st, q.proposalId).Err?
  {
    FindPendingIsCurrent(st, q.proposalId);
    CurrentIsGreatest(st.proposals, ProposalKey, q.proposalId, q);
    NumberedNoDuplicate(st.proposals, ProposalKey);
    forall p | p in st.proposals && p.proposalId == q.proposalId && p.revision == q.revision ensures p == q {
      SameKeySameRow(st.proposals, ProposalKey, p, q);
    }
    assert forall p :: p in st.proposals && p.status == Rejected ==> ProposalOk(st, p) && p.revision == 2;
  }

  lemma RejectEffect(st: Store, policy: Policy, id: string, who: string, now: Timestamp)
    ensures var end := Next(st, policy, Reject(id, who, now), 1);
            && end.decisions == st.decisions && end.constraints == st.constraints
            && (FindPending(st, id).Err? ==> end == st)
            && (FindPending(st, id).Ok? ==> RejectedLine(end, id))
  {
    if FindPending(st, id).Ok? {
      RejectAppendsOne(st, policy, FindPending(st, id).value, id, who, now);
      var q := Resolved(FindPending(st, id).value, Rejected, FindPending(st, id).value.payload, who, now);
      assert q.proposalId == id by { assert Current(st.proposals, ProposalKey, id) == Some(FindPending(st, id).value); }
    }
  }

  /** An approval cut at any point and then a rejection: the proposal is rejected with its content in the record log
      exactly when the cut fell between the two appends. */
  lemma RejectedYetWrittenExactly(st: Store, policy: Policy, a: Resolution, survives: nat, who: string, now: Timestamp)
    requires Sound(st) && Decide(st, policy, a).Ok? && !Decide(st, policy, a).value.alreadyWritten
    ensures var t := Decide(st, policy, a).value.written.rtype;
            var end := Next(Next(st, policy, Approve(a), survives), policy, Reject(a.proposalId, who, now), 1);
            RejectedLine(end, a.proposalId) && |Log(end, t)| > |Log(st, t)| <==> survives == 1
  {
    var cut := Next(st, policy, Approve(a), survives);
    var d := Decide(st, policy, a).value;
    ApproveEffect(st, policy, a, survives);
    RejectEffect(cut, policy, a.proposalId, who, now);
    if survives == 1 {
      CrashThenRejectKeepsContent(st, policy, a, who, now);
    } else if survives > 1 {
      NextKeepsSound(st, policy, Approve(a), survives);
      ResolvedHere(st, policy, a, cut);
    }
  }

  lemma ResolvedHere(st: Store, policy: Policy, a: Resolution, later: Store)
    requires Sound(st) && Sound(later) && Decide(st, policy, a).Ok?
        && Decide(st, policy, a).value.resolved in later.proposals
    ensures !RejectedLine(later, a.proposalId) && FindPending(later, a.proposalId).Err?
  {
    DecideMeaning(st, policy, a);
    FindPendingIsCurrent(st, a.proposalId);
    ApprovedNotRejected(later, Decide(st, policy, a).value.resolved);
  }

  lemma {:induction false} PrefixGrows(st: Store, policy: Policy, steps: seq<Step>, n: nat)
    requires n <= |steps|
    ensures Grows(RunSteps(st, policy, steps[..n]), RunSteps(st, policy, steps))
    decreases |steps|
  {
    if n < |steps| {
      var front, last := steps[..|steps| - 1], steps[|steps| - 1];
      assert steps[..n] == front[..n];
      PrefixGrows(st, policy, front, n);
      NextGrows(RunSteps(st, policy, front), policy, last.op, last.survives);
    } else {
      TakeAll(steps);
    }
  }

  ghost predicate ApprovalOf(step: Step, id: string) { step.op.Approve? && step.op.resolution.proposalId == id }

  /** An approval that had content to write and died between its two appends. */
  ghost predicate CutBetween(st: Store, policy: Policy, step: Step) {
    && step.op.Approve? && step.survives == 1
    && Decide(st, policy, step.op.resolution).Ok? && !Decide(st, policy, step.op.resolution).value.alreadyWritten
  }

  ghost predicate Wrote(policy: Policy, steps: seq<Step>, i: nat)
    requires i < |steps|
  {
    RecordLines(RunSteps(EMPTY_STORE, policy, steps[..i + 1])) > RecordLines(RunSteps(EMPTY_STORE, policy, steps[..i]))
  }

  /** In any run in which a proposal ends rejected, an approval of it wrote a record exactly when it was so cut. */
  lemma RejectedApprovalWroteExactly(policy: Policy, steps: seq<Step>, i: nat, id: string)
    requires FreshIds(EMPTY_STORE, policy, steps) && RejectedLine(RunSteps(EMPTY_STORE, policy, steps), id)
    requires i < |steps| && ApprovalOf(steps[i], id)
    ensures Wrote(policy, steps, i) <==> CutBetween(RunSteps(EMPTY_STORE, policy, steps[..i]), policy, steps[i])
  {
    TakeSnoc(steps, i);
    EveryRunIsSound(EMPTY_STORE, policy, steps);
    FreshIdsPrefix(EMPTY_STORE, policy, steps, i);
    EveryRunIsSound(EMPTY_STORE, policy, steps[..i]);
    PrefixGrows(EMPTY_STORE, policy, steps, i + 1);
    WroteWhenCut(RunSteps(EMPTY_STORE, policy, steps[..i]), policy, steps[i], RunSteps(EMPTY_STORE, policy, steps));
  }

  lemma WroteWhenCut(before: Store, policy: Policy, step: Step, end: Store)
    requires step.op.Approve? && Sound(before) && Sound(end) && RejectedLine(end, step.op.resolution.proposalId)
    requires Grows(Next(before, policy, step.op, step.survives), end)
    ensures RecordLines(Next(before, policy, step.op, step.survives)) > RecordLines(before)
        <==> CutBetween(before, policy, step)
  {
    var a := step.op.resolution;
    var d := Decide(before, policy, a);
    ApproveEffect(before, policy, a, step.survives);
    if d.Ok? && step.survives >= (if d.value.alreadyWritten then 1 else 2) {
      assert d.value.resolved in before.proposals + [d.value.resolved];
      ResolvedHere(before, policy, a, end);
    }
  }

  /** "Rejected means never written" holds of a run exactly when no approval of the proposal was cut between its two
      appends. */
  lemma RejectedNeverWrittenExactly(policy: Policy, steps: seq<Step>, id: string)
    requires FreshIds(EMPTY_STORE, policy, steps) && RejectedLine(RunSteps(EMPTY_STORE, policy, steps), id)
    ensures (forall i :: 0 <= i < |steps| && ApprovalOf(steps[i], id) ==> !Wrote(policy, steps, i))
        <==> forall i :: 0 <= i < |steps| && ApprovalOf(steps[i], id) ==>
          !CutBetween(RunSteps(EMPTY_STORE, policy, steps[..i]), policy, steps[i])
  {
    forall i | 0 <= i < |steps| && ApprovalOf(steps[i], id)
      ensures Wrote(policy, steps, i) <==> CutBetween(RunSteps(EMPTY_STORE, policy, steps[..i]), policy, steps[i]) {
      RejectedApprovalWroteExactly(policy, steps, i, id);
    }
  }

  // ------------------------------------------------------------- detection in the store

  lemma DetectEffect(st: Store, policy: Policy, s: Snapshot, now: Timestamp, survives: nat)
    requires Sound(st)
    ensures Next(st, policy, Detect(s, now), survives)
         == Store(st.proposals,
                  if survives > 0 then PassLog(st.decisions, RecordKey, DecisionStep(s, now)) else st.decisions,
                  if survives > 1 then PassLog(st.constraints, RecordKey, ConstraintStep(s, now)) else st.constraints)
  {
    PlannedRows(st, s, now);
    TwoRecordAppends(st, DecisionRows(st, s, now), ConstraintRows(st, s, now), survives);
    DetectUnfolds(st, policy, s, now, survives, DetectPlan(st, s, now));
  }

  lemma DetectUnfolds(st: Store, policy: Policy, s: Snapshot, now: Timestamp, survives: nat, plan: seq<Append>)
    requires plan == DetectPlan(st, s, now)
    ensures Next(st, policy, Detect(s, now), survives)
        == PerformAll(st, if survives < |plan| then plan[..survives] else plan)
  {
  }

  lemma TwoRecordAppends(st: Store, ds: seq<MemoryRevision>, cs: seq<MemoryRevision>, survives: nat)
    ensures var plan := [ToRecords(Decision, ds), ToRecords(Constraint, cs)];
            PerformAll(st, if survives < |plan| then plan[..survives] else plan)
            == Store(st.proposals, if survives > 0 then st.decisions + ds else st.decisions,
                     if survives > 1 then st.constraints + cs else st.constraints)
  {
    TwoPerform(st, ToRecords(Decision, ds), ToRecords(Constraint, cs), survives);
  }

  lemma PlannedRows(st: Store, s: Snapshot, now: Timestamp)
    requires Sound(st)
    ensures DetectPlan(st, s, now) == [ToRecords(Decision, DecisionRows(st, s, now)),
        ToRecords(Constraint, ConstraintRows(st, s, now))]
    ensures st.decisions + DecisionRows(st, s, now) == PassLog(st.decisions, RecordKey, DecisionStep(s, now))
    ensures st.constraints + ConstraintRows(st, s, now) == PassLog(st.constraints, RecordKey, ConstraintStep(s, now))
  {
    CurrentRowsAreCurrents(st.decisions, Decision);
    CurrentRowsAreCurrents(st.constraints, Constraint);
  }

  /** Detection run again on equal inputs, after a complete pass or one cut anywhere, ends where one complete pass
      does. */
  lemma DetectAgainChangesNothing(st: Store, policy: Policy, s: Snapshot, now: Timestamp, survives: nat)
    requires Sound(st)
    ensures Next(Next(st, policy, Detect(s, now), survives), policy, Detect(s, now), 2)
        == Next(st, policy, Detect(s, now), 2)
  {
    NextKeepsSound(st, policy, Detect(s, now), survives);
    DetectEffect(st, policy, s, now, survives);
    DetectEffect(st, policy, s, now, 2);
    DetectEffect(Next(st, policy, Detect(s, now), survives), policy, s, now, 2);
    DecisionStepRules(s, now);
    ConstraintStepRules(s, now);
    SecondPassAppendsNothing(st.decisions, RecordKey, DecisionStep(s, now));
    SecondPassAppendsNothing(st.constraints, RecordKey, ConstraintStep(s, now));
  }

  function Detections(runs: seq<Run>): seq<Step> {
    seq(|runs|, i requires 0 <= i < |runs| => Step(Detect(runs[i].snapshot, runs[i].now), 2))
  }

  lemma DetectionsFront(runs: seq<Run>)
    requires runs != []
    ensures Detections(runs) == [Step(Detect(runs[0].snapshot, runs[0].now), 2)] + Detections(runs[1..])
  {
  }

  lemma {:induction false} DetectionsArePasses(st: Store, policy: Policy, runs: seq<Run>)
    requires Sound(st)
    ensures RunSteps(st, policy, Detections(runs)).constraints
        == PassesLog(st.constraints, RecordKey, ConstraintSteps(runs))
    decreases |runs|
  {
    if runs != [] {
      var x, rest := Step(Detect(runs[0].snapshot, runs[0].now), 2), runs[1..];
      var next := Next(st, policy, x.op, 2);
      DetectionsFront(runs);
      ConstraintStepsFront(runs);
      FoldFront(StepOf(policy), st, x, Detections(rest));
      NextKeepsSound(st, policy, x.op, 2);
      DetectEffect(st, policy, runs[0].snapshot, runs[0].now, 2);
      DetectionsArePasses(next, policy, rest);
    }
  }

  /** Over any updates without human action, the lines a source-bound constraint gains in its log are one stale revision
      per run whose snapshot differs from the run before, then at most one terminal revision. */
  lemma SourceBoundRows(st: Store, policy: Policy, runs: seq<Run>, r: MemoryRevision)
    requires Sound(st) && Current(st.constraints, RecordKey, r.recordId) == Some(r)
    requires r.mode == Some(SourceBound) && !Terminal(r.status)
    ensures Filter(RunSteps(st, policy, Detections(runs)).constraints, OfRecord(r.recordId))
         == Filter(st.constraints, OfRecord(r.recordId)) + Appended(r, runs)
    ensures HistoryIs(r, runs)
  {
    DetectionsArePasses(st, policy, runs);
    ConstraintRowsOverRuns(st.constraints, runs, r, OfRecord(r.recordId));
    SourceBoundHistory(r, runs);
  }

  // --------------------------------------------------- from approval to the first run

  /** A newly approved source-bound constraint goes stale in an update exactly when the hash of a file it covers changed
      since the approval. */
  lemma StaleSinceApprovalExactly(st: Store, policy: Policy, a: Resolution, s: Snapshot, now: Timestamp)
    requires Sound(st) && Decide(st, policy, a).Ok? && !Decide(st, policy, a).value.alreadyWritten
    requires OwnersIndexed(a.snapshot) && OwnersIndexed(s)
    requires var r := Decide(st, policy, a).value.written;
             r.rtype == Constraint && r.mode == Some(SourceBound) && SameOwners(r, a.snapshot, s)
                 && ExistenceStatus(r, s).None?
    ensures var r := Decide(st, policy, a).value.written;
            && (forall p :: p in Covered(r.files, r.symbols, s.owner) ==> p in a.snapshot.files && p in s.files)
            && (ConstraintTransition(r, s, now).Some?
                <==> exists p :: p in Covered(r.files, r.symbols, s.owner) && a.snapshot.files[p] != s.files[p])
  {
    var r := Decide(st, policy, a).value.written;
    ApprovalSnapshot(st, policy, a);
    StaleExactlyBetween(r, a.snapshot, s, now);
  }
}
