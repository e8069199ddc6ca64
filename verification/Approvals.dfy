/** What each operation on the governance logs refuses and writes, and what a later detection makes of an approval. */
module Approvals {
  import opened Collections
  import opened Hashes
  import opened Records
  import opened Staleness
  import opened Detection
  import opened Governance
  import opened GovernanceRuns

  // ------------------------------------------------------------------ what is asked

  /** The fields a decision must leave out, and those a constraint must have. */
  ghost predicate Shaped(r: MemoryRevision) {
    && (r.rtype == Decision ==>
      r.severity == None && r.mode == None && r.expiresAt == None && r.machineCheckHint == None)
    && (r.rtype == Constraint ==> r.severity != None && r.mode != None && !r.critical)
    && (r.rtype == Constraint && r.mode == Some(Temporary) ==> r.expiresAt != None)
    && (r.rtype == Constraint && r.mode != Some(Temporary) ==> r.expiresAt == None)
  }

  lemma ShapedIsOk(r: MemoryRevision)
    ensures Shaped(r) <==> ShapeOk(r)
  {
  }

  /** Everything a bound constraint refers to exists, and there is something it refers to. */
  ghost predicate Bindable(r: MemoryRevision, s: Snapshot) {
    && (r.rtype == Constraint && r.mode == Some(SourceBound) ==>
          (r.files != [] || r.symbols != []) && !ReferenceMissing(r, s))
    && (r.rtype == Constraint && r.mode == Some(ScopeBound) ==> r.scopes != [] && !ScopeMissing(r.scopes, s))
  }

  /** The snapshot an approval records: of the sources for a source-bound constraint, of the scopes for a scope-bound
      one, and nothing otherwise. */
  ghost predicate Bound(w: MemoryRevision, s: Snapshot) {
    && (if w.rtype == Constraint && w.mode == Some(SourceBound)
        then SourcesAre(w.sourceHashes, w.files, w.symbols, s.files, s.owner) else w.sourceHashes == map[])
    && (if w.rtype == Constraint && w.mode == Some(ScopeBound)
        then ScopesAsRecorded(w.scopeHashes, w.scopes, s) else w.scopeHashes == map[])
  }

  lemma SourceBindings(r: MemoryRevision, s: Snapshot)
    requires r.rtype == Constraint && r.mode == Some(SourceBound)
    ensures Bindings(r, s) == if (r.files == [] && r.symbols == []) || ReferenceMissing(r, s) then Err(InvalidPayload)
                              else Ok((SnapshotOf(r, s), map[]))
  {
  }

  lemma ScopeBindings(r: MemoryRevision, s: Snapshot)
    requires r.rtype == Constraint && r.mode == Some(ScopeBound)
    ensures Bindings(r, s) == if r.scopes == [] || ScopeMissing(r.scopes, s) then Err(InvalidPayload)
                              else Ok((map[], ScopeHashesOf(r.scopes, s)))
  {
  }

  lemma BindingsExactly(r: MemoryRevision, s: Snapshot)
    ensures Bindings(r, s).Ok? <==> Bindable(r, s)
    ensures Bindings(r, s).Err? ==> Bindings(r, s).error == InvalidPayload
    ensures Bindings(r, s).Ok? ==>
      Bound(r.(sourceHashes := Bindings(r, s).value.0, scopeHashes := Bindings(r, s).value.1), s)
  {
    if r.rtype == Constraint && r.mode == Some(SourceBound) {
      SourceBindings(r, s);
      SourcesAreHashes(SnapshotOf(r, s), r.files, r.symbols, s.files, s.owner);
    } else if r.rtype == Constraint && r.mode == Some(ScopeBound) {
      ScopeBindings(r, s);
      ScopeHashesRecorded(r.scopes, s);
    }
  }

  lemma BoundOnce(x: MemoryRevision, y: MemoryRevision, s: Snapshot)
    requires Bound(x, s) && Bound(y, s) && x.rtype == y.rtype && x.mode == y.mode
    requires x.files == y.files && x.symbols == y.symbols && x.scopes == y.scopes
    ensures x.sourceHashes == y.sourceHashes && x.scopeHashes == y.scopeHashes
  {
    SourcesAreHashes(x.sourceHashes, x.files, x.symbols, s.files, s.owner);
    SourcesAreHashes(y.sourceHashes, y.files, y.symbols, s.files, s.owner);
    RecordedScopesRule(x.scopeHashes, x.scopes, s);
    RecordedScopesRule(y.scopeHashes, y.scopes, s);
  }

  // -------------------------------------------------------------------- approving

  function Chosen(p: Proposal, a: Resolution): MemoryRevision {
    match a.edited
    case Some(edit) => edit
    case None => p.payload
  }

  /** An edit is a well-formed payload of the same record. */
  ghost predicate Editable(policy: Policy, p: Proposal, a: Resolution) {
    a.edited.Some? ==>
      policy.wellFormed(a.edited.value) && a.edited.value.recordId == p.recordId && a.edited.value.rtype == p.rtype
  }

  ghost predicate Approvable(policy: Policy, p: Proposal, a: Resolution) {
    Editable(policy, p, a) && Shaped(Chosen(p, a)) && Bindable(Chosen(p, a), a.snapshot)
  }

  lemma PayloadRule(policy: Policy, p: Proposal, a: Resolution)
    ensures ChosenPayload(policy, p, a).Ok? <==> Editable(policy, p, a) && Shaped(Chosen(p, a))
    ensures ChosenPayload(policy, p, a).Err? ==> ChosenPayload(policy, p, a).error == InvalidPayload
    ensures ChosenPayload(policy, p, a).Ok? ==>
      var x := ChosenPayload(policy, p, a).value; Bindings(x, a.snapshot).Ok? <==> Bindable(Chosen(p, a), a.snapshot)
  {
    ShapedIsOk(Chosen(p, a));
    if ChosenPayload(policy, p, a).Ok? { BindingsExactly(ChosenPayload(policy, p, a).value, a.snapshot); }
  }

  /** An approval succeeds exactly when the proposal's last line is pending, an edit is of the same record, the payload
      has the shape of its type, and everything it is bound to exists. Which error it is otherwise. */
  lemma ApprovedExactly(st: Store, policy: Policy, a: Resolution)
    requires Sound(st)
    ensures match Current(st.proposals, ProposalKey, a.proposalId)
            case None => Decide(st, policy, a) == Err(ProposalNotFound)
            case Some(p) =>
              if p.status != Pending then Decide(st, policy, a) == Err(AlreadyResolved)
              else if Approvable(policy, p, a) then Decide(st, policy, a).Ok?
              else Decide(st, policy, a) == Err(InvalidPayload)
  {
    NumberedNoDuplicate(st.proposals, ProposalKey);
    match Current(st.proposals, ProposalKey, a.proposalId) {
      case None =>
      case Some(p) =>
        if p.status == Pending {
          assert ProposalOk(st, p);
          PayloadRule(policy, p, a);
          ChosenPayloadKeeps(policy, p, a);
          CurrentRecordIsCurrent(Log(st, p.rtype), p.recordId);
          if ChosenPayload(policy, p, a).Ok? { BindingsExactly(ChosenPayload(policy, p, a).value, a.snapshot); }
        }
    }
  }

  ghost predicate Redacts(policy: Policy, on: bool, text: string, kept: string) {
    kept == if on then policy.redact(text) else text
  }

  ghost predicate RedactsOption(policy: Policy, on: bool, text: Option<string>, kept: Option<string>) {
    match text
    case None => kept == None
    case Some(t) => kept.Some? && Redacts(policy, on, t, kept.value)
  }

  /** `w` says what `r` says, redacted in its free text and in nothing else. */
  ghost predicate Quotes(policy: Policy, on: bool, r: MemoryRevision, w: MemoryRevision) {
    && w.recordId == r.recordId && w.rtype == r.rtype && w.scopes == r.scopes && w.files == r.files
      && w.symbols == r.symbols
    && w.severity == r.severity && w.mode == r.mode && w.expiresAt == r.expiresAt && w.critical == r.critical
    && Redacts(policy, on, r.content, w.content) && Redacts(policy, on, r.rationale, w.rationale)
    && RedactsOption(policy, on, r.sourceDocument, w.sourceDocument)
    && RedactsOption(policy, on, r.sourceSection, w.sourceSection)
    && RedactsOption(policy, on, r.machineCheckHint, w.machineCheckHint)
  }

  lemma RedactedQuotes(policy: Policy, on: bool, r: MemoryRevision)
    ensures Quotes(policy, on, r, Redacted(policy, on, r))
  {
  }

  lemma QuotesOnce(policy: Policy, on: bool, r: MemoryRevision, x: MemoryRevision, y: MemoryRevision)
    requires Quotes(policy, on, r, x) && Quotes(policy, on, r, y)
    ensures SameText(x, y) && x.recordId == y.recordId && x.rtype == y.rtype
  {
  }

  /** A line that says what is approved: the text, active, by the proposer or the human who edited it, and bound to the
      snapshot. */
  ghost predicate Carries(policy: Policy, p: Proposal, a: Resolution, w: MemoryRevision) {
    && Quotes(policy, a.redactSecrets, Chosen(p, a), w) && w.status == Active
    && (if a.edited.Some? then w.createdBy == Human else w.createdBy == p.createdBy) && Bound(w, a.snapshot)
  }

  lemma CarriesOnce(policy: Policy, p: Proposal, a: Resolution, x: MemoryRevision, y: MemoryRevision)
    requires Carries(policy, p, a, x) && Carries(policy, p, a, y)
    ensures SameApproval(x, y)
  {
    QuotesOnce(policy, a.redactSecrets, Chosen(p, a), x, y);
    BoundOnce(x, y, a.snapshot);
  }

  lemma SameApprovalCarries(policy: Policy, p: Proposal, a: Resolution, x: MemoryRevision, y: MemoryRevision)
    requires Carries(policy, p, a, x) && SameApproval(y, x) && y.recordId == x.recordId && y.rtype == x.rtype
    ensures Carries(policy, p, a, y)
  {
  }

  lemma DraftCarries(
    policy: Policy, p: Proposal, a: Resolution, before: Option<MemoryRevision>, payload: MemoryRevision)
    requires ChosenPayload(policy, p, a) == Ok(payload) && Bindings(payload, a.snapshot).Ok?
    ensures Carries(policy, p, a, Draft(payload, Bindings(payload, a.snapshot).value, ApprovalAuthor(p, a), before, a))
  {
    RedactedQuotes(policy, a.redactSecrets, Chosen(p, a));
    BindingsExactly(payload, a.snapshot);
  }

  ghost predicate Follows(w: MemoryRevision, before: Option<MemoryRevision>) {
    match before
    case None => w.revision == 1
    case Some(r) => w.revision == r.revision + 1
  }

  lemma ConcludedParts(
    p: Proposal, a: Resolution, before: Option<MemoryRevision>, payload: MemoryRevision,
    hashes: (map<string, Digest>, map<string, Digest>))
    ensures var draft := Draft(payload, hashes, ApprovalAuthor(p, a), before, a);
            var d := Concluded(p, a, draft, before);
            && (d.alreadyWritten <==> before.Some? && SameApproval(before.value, draft))
            && (d.alreadyWritten ==> before == Some(d.written))
            && (!d.alreadyWritten ==>
                  d.written == draft && Follows(draft, before) && draft.approvedBy == Some(a.who)
                      && draft.createdAt == a.now)
            && d.resolved == p.(revision := p.revision + 1, status := if a.edited.Some? then Edited else Approved,
                                payload := d.written, resolvedAt := Some(a.now), resolvedBy := Some(a.who))
  {
  }

  /** What an approval writes: nothing when the record's current line already says it, and otherwise the next revision,
      which says it, names the approver and carries the time. The proposal then ends with that line as its payload. */
  lemma ApprovalExactly(st: Store, policy: Policy, a: Resolution)
    requires Sound(st) && Decide(st, policy, a).Ok?
    ensures Current(st.proposals, ProposalKey, a.proposalId).Some?
    ensures var p, d := Current(st.proposals, ProposalKey, a.proposalId).value, Decide(st, policy, a).value;
            var before := Current(Log(st, p.rtype), RecordKey, p.recordId);
            && Carries(policy, p, a, d.written) && d.written.recordId == p.recordId && d.written.rtype == p.rtype
            && (d.alreadyWritten <==> before.Some? && Carries(policy, p, a, before.value))
            && (d.alreadyWritten ==> before == Some(d.written))
            && (!d.alreadyWritten ==>
                  Follows(d.written, before) && d.written.approvedBy == Some(a.who) && d.written.createdAt == a.now)
            && d.resolved == p.(revision := 2, status := if a.edited.Some? then Edited else Approved,
                                payload := d.written, resolvedAt := Some(a.now), resolvedBy := Some(a.who))
  {
    DecideStages(st, policy, a);
    FindPendingIsCurrent(st, a.proposalId);
    var p := FindPending(st, a.proposalId).value;
    var payload := ChosenPayload(policy, p, a).value;
    var hashes := Bindings(payload, a.snapshot).value;
    var before := Current(Log(st, p.rtype), RecordKey, p.recordId);
    DraftCarries(policy, p, a, before, payload);
    ConcludedParts(p, a, before, payload, hashes);
    OwnRecord(st, p);
    WhetherWritten(policy, p, a, before, Draft(payload, hashes, ApprovalAuthor(p, a), before, a));
  }

  lemma OwnRecord(st: Store, p: Proposal)
    requires Sound(st)
    ensures var before := Current(Log(st, p.rtype), RecordKey, p.recordId);
            before.Some? ==> before.value.recordId == p.recordId && before.value.rtype == p.rtype
  {
    CurrentRecordIsCurrent(Log(st, p.rtype), p.recordId);
  }

  lemma WhetherWritten(
    policy: Policy, p: Proposal, a: Resolution, before: Option<MemoryRevision>, draft: MemoryRevision)
    requires Carries(policy, p, a, draft)
    requires before.Some? ==> before.value.recordId == draft.recordId && before.value.rtype == draft.rtype
    ensures before.Some? ==> (SameApproval(before.value, draft) <==> Carries(policy, p, a, before.value))
  {
    if before.Some? {
      if SameApproval(before.value, draft) { SameApprovalCarries(policy, p, a, draft, before.value); }
      if Carries(policy, p, a, before.value) { CarriesOnce(policy, p, a, before.value, draft); }
    }
  }

  // ----------------------------------------------------------- what the files become

  ghost predicate Appends(before: Store, after: Store, t: RecordType, rows: seq<MemoryRevision>, ps: seq<Proposal>) {
    && after.proposals == before.proposals + ps
    && after.decisions == before.decisions + (if t == Decision then rows else [])
    && after.constraints == before.constraints + (if t == Constraint then rows else [])
  }

  /** The record is appended before the proposal; a crash keeps a prefix of the two. */
  lemma ApproveAppends(st: Store, policy: Policy, a: Resolution, survives: nat)
    requires Sound(st)
    ensures var after := Next(st, policy, Approve(a), survives);
            match Decide(st, policy, a)
            case Err(_) => after == st
            case Ok(d) =>
              Appends(st, after, d.written.rtype, if d.alreadyWritten || survives == 0 then [] else [d.written],
                      if survives >= (if d.alreadyWritten then 1 else 2) then [d.resolved] else [])
  {
    if Decide(st, policy, a).Ok? { ApprovePrefixes(st, policy, a, survives); }
  }

  /** A proposal is stored exactly when it has the shape of its type and is well formed: pending, with the request's
      text redacted and its references sorted without repeats, and nothing approved or bound yet. */
  ghost predicate Proposes(
    policy: Policy, id: string, request: MemoryRevision, on: bool, now: Timestamp, p: Proposal)
  {
    && p == Proposal(id, 1, request.rtype, request.recordId, p.payload, Pending, request.createdBy, now, None, None)
    && Quotes(policy, on, request.(scopes := p.payload.scopes, files := p.payload.files, symbols := p.payload.symbols),
              p.payload)
    && Ascending(p.payload.scopes) && ToSet(p.payload.scopes) == ToSet(request.scopes)
    && Ascending(p.payload.files) && ToSet(p.payload.files) == ToSet(request.files)
    && Ascending(p.payload.symbols) && ToSet(p.payload.symbols) == ToSet(request.symbols)
    && Distinct(p.payload.scopes) && Distinct(p.payload.files) && Distinct(p.payload.symbols)
    && p.payload.revision == 1 && p.payload.status == Active && p.payload.sourceHashes == map[]
    && p.payload.scopeHashes == map[] && p.payload.createdBy == request.createdBy && p.payload.approvedBy == None
    && p.payload.createdAt == now
  }

  lemma ProposeExactly(st: Store, policy: Policy, id: string, request: MemoryRevision, on: bool, now: Timestamp,
      survives: nat)
    ensures var p := NewProposal(policy, id, request, on, now);
            && Proposes(policy, id, request, on, now, p)
            && var after := Next(st, policy, Propose(id, request, on, now), survives);
               if Shaped(request) && policy.wellFormed(p.payload) && survives > 0
                 then Appends(st, after, Decision, [], [p])
               else after == st
  {
    var p := NewProposal(policy, id, request, on, now);
    ShapedIsOk(request);
    NewProposes(policy, id, request, on, now);
    OnePerform(st, ToProposals(p));
    PlanCut(st, policy, Propose(id, request, on, now), survives, ProposePlan(policy, id, request, on, now));
  }

  lemma PlanCut(st: Store, policy: Policy, op: Op, survives: nat, plan: seq<Append>)
    requires Plan(st, policy, op) == plan && |plan| <= 1
    ensures Next(st, policy, op, survives) == if survives == 0 || plan == [] then st else PerformAll(st, plan)
  {
  }

  lemma NewProposes(policy: Policy, id: string, request: MemoryRevision, on: bool, now: Timestamp)
    ensures Proposes(policy, id, request, on, now, NewProposal(policy, id, request, on, now))
  {
    RedactedQuotes(policy, on, request);
    SortedMembers(request.scopes);
    SortedMembers(request.files);
    SortedMembers(request.symbols);
  }

  lemma SortedMembers(s: seq<string>)
    ensures ToSet(Sorted(ToSet(s))) == ToSet(s)
  {
    assert forall x :: x in ToSet(Sorted(ToSet(s))) <==> x in ToSet(s);
  }

  lemma PerformAppends(st: Store, t: RecordType, rows: seq<MemoryRevision>)
    ensures Appends(st, Perform(st, ToRecords(t, rows)), t, rows, [])
  {
  }

  /** Disabling a record appends one line to its log, inactive and by a human, and otherwise as it was; a record that is
      missing or inactive already is left alone. */
  lemma DeactivateExactly(st: Store, policy: Policy, t: RecordType, id: string, who: string, now: Timestamp,
      survives: nat)
    requires Sound(st)
    ensures var after := Next(st, policy, Deactivate(t, id, who, now), survives);
            match Current(Log(st, t), RecordKey, id)
            case None => after == st
            case Some(r) =>
              if r.status == Inactive || survives == 0 then after == st
              else
                Appends(st, after, t, [r.(revision := r.revision + 1, status := Inactive, createdBy := Human,
                                          approvedBy := Some(who), createdAt := now)], [])
  {
    CurrentRecordIsCurrent(Log(st, t), id);
    PlanCut(st, policy, Deactivate(t, id, who, now), survives, DeactivatePlan(st, t, id, who, now));
    match Current(Log(st, t), RecordKey, id) {
      case None =>
      case Some(r) =>
        OnePerform(st, ToRecords(t, [Deactivated(r, who, now)]));
        PerformAppends(st, t, [Deactivated(r, who, now)]);
    }
  }

  /** A rejection appends one line to the proposals, with the payload it was proposed with, and writes no record. */
  lemma RejectExactly(st: Store, policy: Policy, id: string, who: string, now: Timestamp, survives: nat)
    requires Sound(st)
    ensures var after := Next(st, policy, Reject(id, who, now), survives);
            match Current(st.proposals, ProposalKey, id)
            case None => after == st
            case Some(p) =>
              if p.status != Pending || survives == 0 then after == st
              else
                Appends(st, after, Decision, [], [p.(revision := 2, status := Rejected, resolvedAt := Some(now),
                                                     resolvedBy := Some(who))])
  {
    FindPendingIsCurrent(st, id);
    NumberedNoDuplicate(st.proposals, ProposalKey);
    match Current(st.proposals, ProposalKey, id) {
      case None =>
      case Some(p) =>
        PlanCut(st, policy, Reject(id, who, now), survives, RejectPlan(st, id, who, now));
        OnePerform(st, ToProposals(Resolved(p, Rejected, p.payload, who, now)));
    }
  }

  // ------------------------------------------------------ detection after an approval

  /** A complete detection appends to the two record logs, and a record's new lines are what its current one calls
      for. */
  lemma DetectAppends(st: Store, policy: Policy, s: Snapshot, now: Timestamp)
    requires Sound(st)
    ensures Next(st, policy, Detect(s, now), 2)
         == Store(st.proposals, st.decisions + DecisionRows(st, s, now), st.constraints + ConstraintRows(st, s, now))
    ensures DecisionRows(st, s, now) == Transitions(Currents(st.decisions, RecordKey), DecisionStep(s, now))
    ensures ConstraintRows(st, s, now) == Transitions(Currents(st.constraints, RecordKey), ConstraintStep(s, now))
  {
    DetectEffect(st, policy, s, now, 2);
    PlannedRows(st, s, now);
    CurrentRowsAreCurrents(st.decisions, Decision);
    CurrentRowsAreCurrents(st.constraints, Constraint);
  }

  /** The lines a detection adds to the constraints. */
  ghost predicate Adds(st: Store, policy: Policy, s: Snapshot, now: Timestamp, rows: seq<MemoryRevision>) {
    Next(st, policy, Detect(s, now), 2).constraints == st.constraints + rows
  }

  lemma DetectedConstraint(
    st: Store, policy: Policy, s: Snapshot, now: Timestamp, r: MemoryRevision, rows: seq<MemoryRevision>)
    requires Sound(st) && Current(st.constraints, RecordKey, r.recordId) == Some(r) && Adds(st, policy, s, now, rows)
    ensures rows == Transitions(Currents(st.constraints, RecordKey), ConstraintStep(s, now))
    ensures DistinctIds(Currents(st.constraints, RecordKey), RecordKey) && r in Currents(st.constraints, RecordKey)
  {
    DetectAppends(st, policy, s, now);
    SamePrefix(st.constraints, rows, ConstraintRows(st, s, now));
    CurrentsAre(st.constraints, RecordKey, r);
    CurrentsDistinct(st.constraints, RecordKey);
  }

  /** The lines written about a constraint are those it calls for. */
  ghost predicate Answered(rows: seq<MemoryRevision>, r: MemoryRevision, s: Snapshot, now: Timestamp) {
    && (Detection.Wrote(rows, r.recordId, Orphaned) <==> Watched(r) && ScopeMissing(r.scopes, s))
    && (Detection.Wrote(rows, r.recordId, ReviewRequired)
        <==> Watched(r) && !ScopeMissing(r.scopes, s) && (ReferenceMissing(r, s) || MembershipChanged(r, s)))
    && (Detection.Wrote(rows, r.recordId, Stale)
        <==> Watched(r) && AllPresent(r, s) && (SourceChanged(r, s) || RunOut(r, now)))
    && (WroteNothing(rows, r.recordId)
        <==> !Watched(r) || (AllPresent(r, s) && !MembershipChanged(r, s) && !SourceChanged(r, s) && !RunOut(r, now)))
  }

  lemma DetectedExactly(
    st: Store, policy: Policy, s: Snapshot, now: Timestamp, r: MemoryRevision, rows: seq<MemoryRevision>)
    requires Sound(st) && Current(st.constraints, RecordKey, r.recordId) == Some(r) && Adds(st, policy, s, now, rows)
    ensures Answered(rows, r, s, now)
  {
    DetectedConstraint(st, policy, s, now, r, rows);
    ConstraintPassExactly(Currents(st.constraints, RecordKey), s, now, r);
    NothingOrOne(rows, r.recordId);
  }

  lemma NothingOrOne(rows: seq<MemoryRevision>, id: string)
    ensures WroteNothing(rows, id)
        <==> forall q :: q in rows && q.recordId == id ==> !Detection.Wrote(rows, id, q.status)
  {
  }

  lemma SamePrefix<T>(front: seq<T>, x: seq<T>, y: seq<T>)
    requires front + x == front + y
    ensures x == y
  {
    assert (front + x)[|front|..] == x && (front + y)[|front|..] == y;
  }

  /** What a new approval leaves: the written line is its record's current one in a sound store. */
  lemma ApprovedIsCurrent(st: Store, policy: Policy, a: Resolution)
    requires Sound(st) && Decide(st, policy, a).Ok? && !Decide(st, policy, a).value.alreadyWritten
    ensures var end, w := Next(st, policy, Approve(a), 2), Decide(st, policy, a).value.written;
            Sound(end) && Current(Log(end, w.rtype), RecordKey, w.recordId) == Some(w)
  {
    var d := Decide(st, policy, a).value;
    NextKeepsSound(st, policy, Approve(a), 2);
    ApproveAppends(st, policy, a, 2);
    NewIsNext(st, policy, a);
    AppendedToLog(st, Next(st, policy, Approve(a), 2), d.written, d.resolved);
  }

  lemma NewIsNext(st: Store, policy: Policy, a: Resolution)
    requires Sound(st) && Decide(st, policy, a).Ok? && !Decide(st, policy, a).value.alreadyWritten
    ensures var w := Decide(st, policy, a).value.written; Follows(w, Current(Log(st, w.rtype), RecordKey, w.recordId))
  {
    ApprovalExactly(st, policy, a);
  }

  lemma AppendedToLog(st: Store, after: Store, w: MemoryRevision, p: Proposal)
    requires Sound(st) && Follows(w, Current(Log(st, w.rtype), RecordKey, w.recordId))
    requires Appends(st, after, w.rtype, [w], [p])
    ensures Current(Log(after, w.rtype), RecordKey, w.recordId) == Some(w)
  {
    WrittenIsCurrent(st, w);
  }

  /** A newly approved scope-bound constraint records the membership of exactly the scopes it names, one at least, as
      they are. */
  lemma ScopeBoundSnapshot(st: Store, policy: Policy, a: Resolution)
    requires Sound(st) && Decide(st, policy, a).Ok? && !Decide(st, policy, a).value.alreadyWritten
    ensures var w := Decide(st, policy, a).value.written;
            w.rtype == Constraint && w.mode == Some(ScopeBound) ==>
              && w.scopes != [] && w.scopeHashes.Keys == ToSet(w.scopes) && w.sourceHashes == map[]
              && forall id :: id in w.scopes ==>
                   && id in a.snapshot.scopes && id in w.scopeHashes
                   && w.scopeHashes[id] == MembershipHash(a.snapshot.scopes[id].files, a.snapshot.scopes[id].symbols)
  {
    ApprovalExactly(st, policy, a);
    ApprovedExactly(st, policy, a);
    var w := Decide(st, policy, a).value.written;
    if w.rtype == Constraint && w.mode == Some(ScopeBound) {
      assert ScopesAsRecorded(w.scopeHashes, w.scopes, a.snapshot);
      assert forall id :: id in w.scopeHashes.Keys <==> id in ToSet(w.scopes);
    }
  }

  /** Some scope the record names has other members than at its approval, by their hash. */
  ghost predicate ScopeHashDiffers(w: MemoryRevision, s: Snapshot, t: Snapshot) {
    exists id :: id in w.scopes && id in s.scopes && id in t.scopes
      && MembershipHash(s.scopes[id].files, s.scopes[id].symbols)
        != MembershipHash(t.scopes[id].files, t.scopes[id].symbols)
  }

  lemma RecordedElsewhere(w: MemoryRevision, s: Snapshot, t: Snapshot)
    requires ScopesAsRecorded(w.scopeHashes, w.scopes, s) && !ScopeMissing(w.scopes, s) && !ScopeMissing(w.scopes, t)
    ensures ScopesAsRecorded(w.scopeHashes, w.scopes, t) <==> !ScopeHashDiffers(w, s, t)
  {
  }

  /** `w` is open, and bound to what was seen when it was approved. */
  ghost predicate BoundTo(w: MemoryRevision, seen: Snapshot) {
    w.rtype == Constraint && w.status == Active && Bound(w, seen) && Bindable(w, seen)
  }

  /** `w` is its record's current line. */
  ghost predicate Standing(end: Store, w: MemoryRevision) {
    Sound(end) && Current(end.constraints, RecordKey, w.recordId) == Some(w)
  }

  ghost predicate NewConstraint(st: Store, policy: Policy, a: Resolution, w: MemoryRevision) {
    && Sound(st) && w.rtype == Constraint
    && Decide(st, policy, a).Ok? && !Decide(st, policy, a).value.alreadyWritten
      && Decide(st, policy, a).value.written == w
  }

  /** What an approval of a constraint that writes a line leaves. */
  lemma ApprovalStands(st: Store, policy: Policy, a: Resolution, w: MemoryRevision)
    requires NewConstraint(st, policy, a, w)
    ensures Standing(Next(st, policy, Approve(a), 2), w) && BoundTo(w, a.snapshot)
  {
    ApprovedIsCurrent(st, policy, a);
    ApprovalBinds(st, policy, a, w);
  }

  lemma ApprovalBinds(st: Store, policy: Policy, a: Resolution, w: MemoryRevision)
    requires NewConstraint(st, policy, a, w)
    ensures BoundTo(w, a.snapshot)
  {
    ApprovalExactly(st, policy, a);
    ApprovedExactly(st, policy, a);
  }

  /** The next detection that finds everything a newly approved scope-bound constraint names puts it up for review
      exactly when the membership hash of a scope it names has changed since the approval, and otherwise writes
      nothing about it. On what the approval saw, it writes nothing exactly when the files and symbols the constraint
      names, which the approval did not ask for, exist as well. */
  lemma ScopeBoundReviewedExactly(
    end: Store, policy: Policy, w: MemoryRevision, seen: Snapshot, s: Snapshot, now: Timestamp,
        rows: seq<MemoryRevision>)
    requires Standing(end, w) && BoundTo(w, seen) && w.mode == Some(ScopeBound) && Adds(end, policy, s, now, rows)
    ensures AllPresent(w, s) ==>
      && (Detection.Wrote(rows, w.recordId, ReviewRequired) <==> ScopeHashDiffers(w, seen, s))
      && (WroteNothing(rows, w.recordId) <==> !ScopeHashDiffers(w, seen, s))
    ensures s == seen ==> (WroteNothing(rows, w.recordId) <==> !ReferenceMissing(w, s))
  {
    DetectedExactly(end, policy, s, now, w, rows);
    ScopeBoundAnswer(w, seen, s, now, rows);
  }

  lemma ScopeBoundAnswer(w: MemoryRevision, seen: Snapshot, s: Snapshot, now: Timestamp, rows: seq<MemoryRevision>)
    requires BoundTo(w, seen) && w.mode == Some(ScopeBound) && Answered(rows, w, s, now)
    ensures AllPresent(w, s) ==>
      && (Detection.Wrote(rows, w.recordId, ReviewRequired) <==> ScopeHashDiffers(w, seen, s))
      && (WroteNothing(rows, w.recordId) <==> !ScopeHashDiffers(w, seen, s))
    ensures s == seen ==> (WroteNothing(rows, w.recordId) <==> !ReferenceMissing(w, s))
  {
    OnlyMembershipCounts(w, seen, s, now);
  }

  lemma OnlyMembershipCounts(w: MemoryRevision, seen: Snapshot, s: Snapshot, now: Timestamp)
    requires BoundTo(w, seen) && w.mode == Some(ScopeBound)
    ensures Watched(w) && !SourceChanged(w, s) && !RunOut(w, now)
    ensures AllPresent(w, s) ==> (MembershipChanged(w, s) <==> ScopeHashDiffers(w, seen, s))
    ensures s == seen ==> !MembershipChanged(w, s) && !ScopeMissing(w.scopes, s)
  {
    if AllPresent(w, s) { RecordedElsewhere(w, seen, s); }
  }

  lemma OnlySourcesCount(w: MemoryRevision, seen: Snapshot, s: Snapshot, now: Timestamp)
    requires BoundTo(w, seen) && w.mode == Some(SourceBound)
    ensures Watched(w) && !MembershipChanged(w, s) && !RunOut(w, now)
    ensures SourceChanged(w, s) <==> !SourcesAre(w.sourceHashes, w.files, w.symbols, s.files, s.owner)
    ensures !ReferenceMissing(w, seen) && !SourceChanged(w, seen)
  {
  }

  lemma OnlyTimeCounts(w: MemoryRevision, s: Snapshot, now: Timestamp)
    requires w.mode in {Some(Temporary), Some(Persistent)} && w.status == Active
    ensures Watched(w) <==> w.mode == Some(Temporary)
    ensures !MembershipChanged(w, s) && !SourceChanged(w, s)
    ensures w.mode == Some(Temporary) ==> (RunOut(w, now) <==> Expired(w.expiresAt, now))
  {
  }

  /** A newly approved source-bound constraint goes stale in the next detection that finds everything it names exactly
      when its sources are not those of the approval, which had found its files and symbols, and not asked for its
      scopes. */
  lemma SourceBoundStaleExactly(
    end: Store, policy: Policy, w: MemoryRevision, seen: Snapshot, s: Snapshot, now: Timestamp,
        rows: seq<MemoryRevision>)
    requires Standing(end, w) && BoundTo(w, seen) && w.mode == Some(SourceBound) && Adds(end, policy, s, now, rows)
    ensures !ReferenceMissing(w, seen) && SourcesAre(w.sourceHashes, w.files, w.symbols, seen.files, seen.owner)
    ensures AllPresent(w, s) ==>
      && (Detection.Wrote(rows, w.recordId, Stale)
        <==> !SourcesAre(w.sourceHashes, w.files, w.symbols, s.files, s.owner))
      && (WroteNothing(rows, w.recordId) <==> SourcesAre(w.sourceHashes, w.files, w.symbols, s.files, s.owner))
    ensures s == seen ==> (WroteNothing(rows, w.recordId) <==> !ScopeMissing(w.scopes, s))
  {
    DetectedExactly(end, policy, s, now, w, rows);
    OnlySourcesCount(w, seen, s, now);
  }

  /** A newly approved temporary constraint goes stale in a detection that finds everything it names exactly when its
      time has come; a persistent one is never touched. */
  lemma UnboundStaleExactly(
    end: Store, policy: Policy, w: MemoryRevision, seen: Snapshot, s: Snapshot, now: Timestamp,
        rows: seq<MemoryRevision>)
    requires Standing(end, w) && BoundTo(w, seen) && w.mode in {Some(Temporary), Some(Persistent)}
        && Adds(end, policy, s, now, rows)
    ensures w.mode == Some(Persistent) ==> WroteNothing(rows, w.recordId)
    ensures w.mode == Some(Temporary) && AllPresent(w, s) ==>
      && (Detection.Wrote(rows, w.recordId, Stale) <==> Expired(w.expiresAt, now))
      && (WroteNothing(rows, w.recordId) <==> !Expired(w.expiresAt, now))
  {
    DetectedExactly(end, policy, s, now, w, rows);
    OnlyTimeCounts(w, s, now);
  }

  ghost predicate NulFreeMembers(s: Snapshot) {
    forall id, x :: id in s.scopes && x in s.scopes[id].files + s.scopes[id].symbols ==> NulFree(x)
  }

  /** The members of a scope, up to order. */
  ghost predicate SameMembers(x: Members, y: Members) {
    multiset(x.files) == multiset(y.files) && multiset(x.symbols) == multiset(y.symbols)
  }

  /** For members without NUL, the hashes differ exactly when the members do. */
  lemma HashDiffersWithMembers(w: MemoryRevision, s: Snapshot, t: Snapshot)
    requires NulFreeMembers(s) && NulFreeMembers(t)
    ensures ScopeHashDiffers(w, s, t)
        <==> exists id :: id in w.scopes && id in s.scopes && id in t.scopes && !SameMembers(s.scopes[id], t.scopes[id])
  {
    forall id | id in s.scopes && id in t.scopes
      ensures SameMembers(s.scopes[id], t.scopes[id])
        <==> MembershipHash(s.scopes[id].files, s.scopes[id].symbols)
             == MembershipHash(t.scopes[id].files, t.scopes[id].symbols)
    {
      MembershipHashExact(s.scopes[id].files, s.scopes[id].symbols, t.scopes[id].files, t.scopes[id].symbols);
    }
  }

  // --------------------------------------------------------------- over whole runs

  /** Every line of every log has the shape of its type. */
  ghost predicate AllShaped(st: Store) {
    && (forall p :: p in st.proposals ==> Shaped(p.payload))
    && (forall r :: r in st.decisions ==> Shaped(r)) && (forall r :: r in st.constraints ==> Shaped(r))
  }

  lemma QuotesKeepShape(policy: Policy, on: bool, r: MemoryRevision, w: MemoryRevision)
    requires Quotes(policy, on, r, w)
    ensures Shaped(w) <==> Shaped(r)
  {
  }

  lemma AppendsKeepShape(st: Store, after: Store, t: RecordType, rows: seq<MemoryRevision>, ps: seq<Proposal>)
    requires AllShaped(st) && Appends(st, after, t, rows, ps)
    requires (forall r :: r in rows ==> Shaped(r)) && (forall p :: p in ps ==> Shaped(p.payload))
    ensures AllShaped(after)
  {
  }

  lemma ApproveKeepsShape(st: Store, policy: Policy, a: Resolution, survives: nat)
    requires Sound(st) && AllShaped(st)
    ensures AllShaped(Next(st, policy, Approve(a), survives))
  {
    ApproveAppends(st, policy, a, survives);
    if Decide(st, policy, a).Ok? {
      var d := Decide(st, policy, a).value;
      WrittenShaped(st, policy, a);
      AppendsKeepShape(st, Next(st, policy, Approve(a), survives), d.written.rtype,
                       if d.alreadyWritten || survives == 0 then [] else [d.written],
                       if survives >= (if d.alreadyWritten then 1 else 2) then [d.resolved] else []);
    }
  }

  lemma WrittenShaped(st: Store, policy: Policy, a: Resolution)
    requires Sound(st) && Decide(st, policy, a).Ok?
    ensures Shaped(Decide(st, policy, a).value.written) && Shaped(Decide(st, policy, a).value.resolved.payload)
  {
    ApprovalExactly(st, policy, a);
    ApprovedExactly(st, policy, a);
    var p := Current(st.proposals, ProposalKey, a.proposalId).value;
    QuotesKeepShape(policy, a.redactSecrets, Chosen(p, a), Decide(st, policy, a).value.written);
  }

  lemma ProposeKeepsShape(
    st: Store, policy: Policy, id: string, request: MemoryRevision, on: bool, now: Timestamp, survives: nat)
    requires AllShaped(st)
    ensures AllShaped(Next(st, policy, Propose(id, request, on, now), survives))
  {
    var p := NewProposal(policy, id, request, on, now);
    ProposeExactly(st, policy, id, request, on, now, survives);
    if Shaped(request) {
      QuotesKeepShape(policy, on,
        request.(scopes := p.payload.scopes, files := p.payload.files, symbols := p.payload.symbols), p.payload);
    }
  }

  lemma SystemRowsShaped(log: seq<MemoryRevision>, s: Snapshot, now: Timestamp,
      step: MemoryRevision -> Option<MemoryRevision>)
    requires step == DecisionStep(s, now) || step == ConstraintStep(s, now)
    requires forall r :: r in log ==> Shaped(r)
    ensures forall q :: q in Transitions(Currents(log, RecordKey), step) ==> Shaped(q)
  {
    DecisionStepRules(s, now);
    ConstraintStepRules(s, now);
    CurrentsDistinct(log, RecordKey);
    CurrentsInLog(log);
    TransitionsFollow(Currents(log, RecordKey), step, RecordKey);
    forall q | q in Transitions(Currents(log, RecordKey), step) ensures Shaped(q) {
      var r :| r in Currents(log, RecordKey) && step(r) == Some(q);
      if step == DecisionStep(s, now) { DecisionRule(r, s, now); } else { ConstraintRow(r, s, now); }
    }
  }

  lemma DetectKeepsShape(st: Store, policy: Policy, s: Snapshot, now: Timestamp, survives: nat)
    requires Sound(st) && AllShaped(st)
    ensures AllShaped(Next(st, policy, Detect(s, now), survives))
  {
    DetectEffect(st, policy, s, now, survives);
    SystemRowsShaped(st.decisions, s, now, DecisionStep(s, now));
    SystemRowsShaped(st.constraints, s, now, ConstraintStep(s, now));
  }

  lemma NextKeepsShape(st: Store, policy: Policy, op: Op, survives: nat)
    requires Sound(st) && AllShaped(st)
    ensures AllShaped(Next(st, policy, op, survives))
  {
    match op {
      case Propose(id, request, on, now) => ProposeKeepsShape(st, policy, id, request, on, now, survives);
      case Approve(a) => ApproveKeepsShape(st, policy, a, survives);
      case Reject(id, who, now) =>
        RejectExactly(st, policy, id, who, now, survives);
      case Deactivate(t, id, who, now) =>
        CurrentRecordIsCurrent(Log(st, t), id);
        DeactivateExactly(st, policy, t, id, who, now, survives);
      case Detect(s, now) => DetectKeepsShape(st, policy, s, now, survives);
    }
  }

  /** In every run, whatever crashes, every line of every log has the shape of its type: an edit, a redaction or a
      system revision cannot take a constraint's severity or mode away, or give a decision one. */
  lemma {:induction false} EveryLineIsShaped(st: Store, policy: Policy, steps: seq<Step>)
    requires Sound(st) && AllShaped(st) && FreshIds(st, policy, steps)
    ensures AllShaped(RunSteps(st, policy, steps))
  {
    if steps != [] {
      var n := |steps| - 1;
      FreshIdsPrefix(st, policy, steps, n);
      EveryLineIsShaped(st, policy, steps[..n]);
      EveryRunIsSound(st, policy, steps[..n]);
      NextKeepsShape(RunSteps(st, policy, steps[..n]), policy, steps[n].op, steps[n].survives);
    }
  }

  // ------------------------------------------------------------- damaged logs

  /** A file in which two lines carry the same id and number is refused, and nothing is written: a damaged proposals
      file by every resolution, a damaged record by whatever would write it, a damaged log by detection. */
  lemma ConflictsAreRefused(st: Store, policy: Policy, op: Op, survives: nat)
    ensures Duplicate(st.proposals, ProposalKey) && (op.Approve? || op.Reject?) ==> Next(st, policy, op, survives) == st
    ensures op.Approve? && Duplicate(st.proposals, ProposalKey) ==>
        Decide(st, policy, op.resolution) == Err(CanonicalConflict)
    ensures op.Deactivate? && Duplicate(Filter(Log(st, op.rtype), OfRecord(op.recordId)), RecordKey) ==>
      Next(st, policy, op, survives) == st
    ensures op.Detect? && (Duplicate(Filter(st.decisions, OfType(Decision)), RecordKey)
                           || Duplicate(Filter(st.constraints, OfType(Constraint)), RecordKey)) ==>
      Next(st, policy, op, survives) == st
  {
  }

  /** Two kept lines with one id and number. */
  ghost predicate Clash(log: seq<MemoryRevision>, keep: MemoryRevision -> bool) {
    exists i, j :: 0 <= i < j < |log| && keep(log[i]) && keep(log[j]) && RecordKey(log[i]) == RecordKey(log[j])
  }

  lemma ClashSnoc(front: seq<MemoryRevision>, x: MemoryRevision, keep: MemoryRevision -> bool)
    ensures Clash(front + [x], keep) <==> Clash(front, keep) || (keep(x) && KeyedAmong(front, keep, x))
  {
    var all := front + [x];
    assert forall i :: 0 <= i < |front| ==> all[i] == front[i];
    assert all[|front|] == x;
    if Clash(front, keep) {
      var i, j :| 0 <= i < j < |front| && keep(front[i]) && keep(front[j])
          && RecordKey(front[i]) == RecordKey(front[j]);
      assert RecordKey(all[i]) == RecordKey(all[j]);
    }
    if keep(x) && KeyedAmong(front, keep, x) {
      var i :| 0 <= i < |front| && keep(front[i]) && RecordKey(front[i]) == RecordKey(x);
      assert RecordKey(all[i]) == RecordKey(all[|front|]);
    }
  }

  lemma {:induction false} ClashExactly(log: seq<MemoryRevision>, keep: MemoryRevision -> bool)
    ensures Duplicate(Filter(log, keep), RecordKey) <==> Clash(log, keep)
  {
    if log != [] {
      var front, x := log[..|log| - 1], log[|log| - 1];
      assert log == front + [x];
      ClashExactly(front, keep);
      ClashSnoc(front, x, keep);
      FilterSnoc(front, x, keep);
      if keep(x) {
        DuplicateSnoc(Filter(front, keep), RecordKey, x);
        KeptWithKey(front, keep, x);
      }
    }
  }

  ghost predicate Keyed(log: seq<MemoryRevision>, x: MemoryRevision) {
    exists k :: 0 <= k < |log| && RecordKey(log[k]) == RecordKey(x)
  }

  ghost predicate KeyedAmong(log: seq<MemoryRevision>, keep: MemoryRevision -> bool, x: MemoryRevision) {
    exists i :: 0 <= i < |log| && keep(log[i]) && RecordKey(log[i]) == RecordKey(x)
  }

  lemma KeptWithKey(log: seq<MemoryRevision>, keep: MemoryRevision -> bool, x: MemoryRevision)
    ensures Keyed(Filter(log, keep), x) <==> KeyedAmong(log, keep, x)
  {
    var kept := Filter(log, keep);
    if Keyed(kept, x) {
      var k :| 0 <= k < |kept| && RecordKey(kept[k]) == RecordKey(x);
      assert kept[k] in log && keep(kept[k]);
      var i :| 0 <= i < |log| && log[i] == kept[k];
      assert keep(log[i]) && RecordKey(log[i]) == RecordKey(x);
    }
    if KeyedAmong(log, keep, x) {
      var i :| 0 <= i < |log| && keep(log[i]) && RecordKey(log[i]) == RecordKey(x);
      assert log[i] in kept;
      var k :| 0 <= k < |kept| && kept[k] == log[i];
      assert RecordKey(kept[k]) == RecordKey(x);
    }
  }

  /** In any log, damaged or not, reading a record fails exactly when two of its own lines carry one number, and the
      lines of other records do not matter. */
  lemma RecordReadExactly(log: seq<MemoryRevision>, id: string, other: MemoryRevision)
    ensures CurrentRecord(log, id).Err? <==>
      exists i, j :: 0 <= i < j < |log| && log[i].recordId == id && log[j].recordId == id
          && log[i].revision == log[j].revision
    ensures other.recordId != id ==> CurrentRecord(log + [other], id) == CurrentRecord(log, id)
  {
    ClashExactly(log, OfRecord(id));
    FilterSnoc(log, other, OfRecord(id));
  }

  /** Detection refuses exactly when two lines of the log's own type carry one id and number, and lines of the other
      type, wherever they are, change nothing it writes. */
  lemma TypeReadExactly(log: seq<MemoryRevision>, t: RecordType, other: MemoryRevision)
    ensures ConflictFree(log, t) <==>
      !exists i, j :: 0 <= i < j < |log| && log[i].rtype == t && log[j].rtype == t
        && log[i].recordId == log[j].recordId && log[i].revision == log[j].revision
    ensures other.rtype != t ==>
      CurrentRows(log + [other], t) == CurrentRows(log, t) && (ConflictFree(log + [other], t) <==> ConflictFree(log, t))
  {
    ClashExactly(log, OfType(t));
    FilterSnoc(log, other, OfType(t));
  }
}
