/** The proposal flow over three append-only logs, with a crash possible between any two appends. */
module Governance {
  import opened Collections
  import opened Hashes
  import opened Records
  import opened Staleness

  datatype Store = Store(proposals: seq<Proposal>, decisions: seq<MemoryRevision>, constraints: seq<MemoryRevision>)

  /** Secret redaction and field validation: deterministic, otherwise unconstrained. */
  datatype Policy = Policy(redact: string -> string, wellFormed: MemoryRevision -> bool)

  datatype Error = ProposalNotFound | AlreadyResolved | InvalidPayload | RecordNotFound | CanonicalConflict

  /** One call of `approve`: who, with which edit, when, and the index and scopes it reads. */
  datatype Resolution = Resolution(
    proposalId: string, who: string, edited: Option<MemoryRevision>, redactSecrets: bool, now: Timestamp,
        snapshot: Snapshot)

  datatype Approval = Approval(resolved: Proposal, written: MemoryRevision, alreadyWritten: bool)

  function Log(st: Store, t: RecordType): seq<MemoryRevision> { if t == Decision then st.decisions else st.constraints }

  // --------------------------------------------------------------- validation

  predicate ShapeOk(r: MemoryRevision) {
    match r.rtype
    case Decision => r.severity.None? && r.mode.None? && r.expiresAt.None? && r.machineCheckHint.None?
    case Constraint =>
      r.severity.Some? && r.mode.Some? && (r.mode == Some(Temporary) <==> r.expiresAt.Some?) && !r.critical
  }

  function RedactOption(policy: Policy, text: Option<string>): Option<string> {
    if text.Some? then Some(policy.redact(text.value)) else None
  }

  function Redacted(policy: Policy, on: bool, r: MemoryRevision): MemoryRevision {
    if !on then r
    else r.(content := policy.redact(r.content), rationale := policy.redact(r.rationale),
            sourceDocument := RedactOption(policy, r.sourceDocument),
                sourceSection := RedactOption(policy, r.sourceSection),
            machineCheckHint := RedactOption(policy, r.machineCheckHint))
  }

  function ProposedPayload(policy: Policy, request: MemoryRevision, redactSecrets: bool,
      now: Timestamp): MemoryRevision {
    Redacted(policy, redactSecrets, request).(
      revision := 1, status := Active, scopes := Sorted(ToSet(request.scopes)), files := Sorted(ToSet(request.files)),
      symbols := Sorted(ToSet(request.symbols)), sourceHashes := map[], scopeHashes := map[], approvedBy := None,
          createdAt := now)
  }

  // ------------------------------------------------------------- reading the logs

  function FindPending(st: Store, id: string): Result<Proposal, Error> {
    if Duplicate(st.proposals, ProposalKey) then Err(CanonicalConflict)
    else
      match Current(st.proposals, ProposalKey, id)
      case None => Err(ProposalNotFound)
      case Some(p) => if p.status != Pending then Err(AlreadyResolved) else Ok(p)
  }

  function OfRecord(id: string): MemoryRevision -> bool { (r: MemoryRevision) => r.recordId == id }

  function OfType(t: RecordType): MemoryRevision -> bool { (r: MemoryRevision) => r.rtype == t }

  function CurrentRecord(log: seq<MemoryRevision>, id: string): Result<Option<MemoryRevision>, Error> {
    var existing := Filter(log, OfRecord(id));
    if Duplicate(existing, RecordKey) then Err(CanonicalConflict) else Ok(Current(existing, RecordKey, id))
  }

  // ------------------------------------------------------------------ approving

  /** The payload an approval writes, before numbering: the edit if there is one, else what was proposed. */
  function ChosenPayload(policy: Policy, p: Proposal, a: Resolution): Result<MemoryRevision, Error> {
    var payload := if a.edited.Some? then a.edited.value else p.payload;
    if a.edited.Some? && (!policy.wellFormed(payload) || payload.recordId != p.recordId
      || payload.rtype != p.rtype) then
      Err(InvalidPayload)
    else if !ShapeOk(payload) then Err(InvalidPayload)
    else Ok(Redacted(policy, a.redactSecrets, payload))
  }

  /** The source and scope hashes an approval records. */
  function Bindings(r: MemoryRevision, s: Snapshot): Result<(map<string, Digest>, map<string, Digest>), Error> {
    if r.rtype == Constraint && r.mode == Some(SourceBound) then
      if (r.files == [] && r.symbols == []) || (exists f :: f in r.files && f !in s.files)
        || (exists y :: y in r.symbols && y !in s.owner)
      then Err(InvalidPayload)
      else Ok((SourceHashes(r.files, r.symbols, s.files, s.owner), map[]))
    else if r.rtype == Constraint && r.mode == Some(ScopeBound) then
      if r.scopes == [] || exists id :: id in r.scopes && id !in s.scopes then Err(InvalidPayload)
      else Ok((map[], ScopeHashesOf(r.scopes, s)))
    else Ok((map[], map[]))
  }

  function ApprovalAuthor(p: Proposal, a: Resolution): Author { if a.edited.Some? then Human else p.createdBy }

  function Draft(payload: MemoryRevision, hashes: (map<string, Digest>, map<string, Digest>), author: Author,
      before: Option<MemoryRevision>, a: Resolution): MemoryRevision {
    payload.(revision := if before.Some? then before.value.revision + 1 else 1, status := Active,
             sourceHashes := hashes.0, scopeHashes := hashes.1, createdBy := author, approvedBy := Some(a.who),
                 createdAt := a.now)
  }

  /** Equal in every field that makes up what an approval writes. */
  predicate SameApproval(x: MemoryRevision, y: MemoryRevision) {
    && x.content == y.content && x.rationale == y.rationale && x.scopes == y.scopes && x.files == y.files
    && x.symbols == y.symbols && x.severity == y.severity && x.mode == y.mode && x.expiresAt == y.expiresAt
    && x.critical == y.critical && x.sourceDocument == y.sourceDocument && x.sourceSection == y.sourceSection
    && x.machineCheckHint == y.machineCheckHint && x.sourceHashes == y.sourceHashes && x.scopeHashes == y.scopeHashes
    && x.createdBy == y.createdBy && x.status == y.status
  }

  function Resolved(p: Proposal, status: ProposalStatus, payload: MemoryRevision, who: string,
      now: Timestamp): Proposal {
    p.(revision := p.revision + 1, status := status, payload := payload, resolvedAt := Some(now),
        resolvedBy := Some(who))
  }

  function Concluded(p: Proposal, a: Resolution, draft: MemoryRevision, before: Option<MemoryRevision>): Approval {
    var again := before.Some? && SameApproval(before.value, draft);
    var written := if again then before.value else draft;
    Approval(Resolved(p, if a.edited.Some? then Edited else Approved, written, a.who, a.now), written, again)
  }

  /** What becomes of a pending proposal. */
  function DecidePending(st: Store, policy: Policy, p: Proposal, a: Resolution): Result<Approval, Error> {
    match ChosenPayload(policy, p, a)
    case Err(e) => Err(e)
    case Ok(payload) =>
      match Bindings(payload, a.snapshot)
      case Err(e) => Err(e)
      case Ok(hashes) =>
        match CurrentRecord(Log(st, payload.rtype), payload.recordId)
        case Err(e) => Err(e)
        case Ok(before) => Ok(Concluded(p, a, Draft(payload, hashes, ApprovalAuthor(p, a), before, a), before))
  }

  function Decide(st: Store, policy: Policy, a: Resolution): Result<Approval, Error> {
    match FindPending(st, a.proposalId)
    case Err(e) => Err(e)
    case Ok(p) => DecidePending(st, policy, p, a)
  }

  // ------------------------------------------------------------ steps and crashes

  datatype Op =
    | Propose(proposalId: string, request: MemoryRevision, redactSecrets: bool, now: Timestamp)
    | Approve(resolution: Resolution)
    | Reject(proposalId: string, who: string, now: Timestamp)
    | Deactivate(rtype: RecordType, recordId: string, who: string, now: Timestamp)
    | Detect(snapshot: Snapshot, now: Timestamp)

  /** One atomic append to one canonical file. */
  datatype Append = ToRecords(rtype: RecordType, rows: seq<MemoryRevision>) | ToProposals(row: Proposal)

  function Perform(st: Store, w: Append): Store {
    match w
    case ToRecords(Decision, rows) => st.(decisions := st.decisions + rows)
    case ToRecords(Constraint, rows) => st.(constraints := st.constraints + rows)
    case ToProposals(row) => st.(proposals := st.proposals + [row])
  }

  function PerformAll(st: Store, ws: seq<Append>): Store
    decreases |ws|
  {
    if ws == [] then st else PerformAll(Perform(st, ws[0]), ws[1..])
  }

  function NewProposal(policy: Policy, id: string, request: MemoryRevision, redactSecrets: bool,
      now: Timestamp): Proposal {
    Proposal(id, 1, request.rtype, request.recordId, ProposedPayload(policy, request, redactSecrets, now), Pending,
        request.createdBy, now, None, None)
  }

  function Deactivated(r: MemoryRevision, who: string, now: Timestamp): MemoryRevision {
    r.(revision := r.revision + 1, status := Inactive, createdBy := Human, approvedBy := Some(who), createdAt := now)
  }

  function CurrentRows(log: seq<MemoryRevision>, t: RecordType): seq<MemoryRevision> {
    Currents(Filter(log, OfType(t)), RecordKey)
  }

  function ConflictFree(log: seq<MemoryRevision>, t: RecordType): bool { !Duplicate(Filter(log, OfType(t)), RecordKey) }

  function DecisionRows(st: Store, s: Snapshot, now: Timestamp): seq<MemoryRevision> {
    Transitions(CurrentRows(st.decisions, Decision), DecisionStep(s, now))
  }

  function ConstraintRows(st: Store, s: Snapshot, now: Timestamp): seq<MemoryRevision> {
    Transitions(CurrentRows(st.constraints, Constraint), ConstraintStep(s, now))
  }

  function ProposePlan(policy: Policy, id: string, request: MemoryRevision, redactSecrets: bool,
      now: Timestamp): seq<Append> {
    if ShapeOk(request) && policy.wellFormed(ProposedPayload(policy, request, redactSecrets, now))
    then [ToProposals(NewProposal(policy, id, request, redactSecrets, now))] else []
  }

  /** The record first, the proposal second; no record when it is already there. */
  function ApprovePlan(st: Store, policy: Policy, a: Resolution): seq<Append> {
    match Decide(st, policy, a)
    case Err(_) => []
    case Ok(d) => if d.alreadyWritten then [ToProposals(d.resolved)]
                  else [ToRecords(d.written.rtype, [d.written]), ToProposals(d.resolved)]
  }

  function RejectPlan(st: Store, id: string, who: string, now: Timestamp): seq<Append> {
    match FindPending(st, id)
    case Err(_) => []
    case Ok(p) => [ToProposals(Resolved(p, Rejected, p.payload, who, now))]
  }

  function DeactivatePlan(st: Store, t: RecordType, id: string, who: string, now: Timestamp): seq<Append> {
    match CurrentRecord(Log(st, t), id)
    case Ok(Some(r)) => if r.status == Inactive then [] else [ToRecords(t, [Deactivated(r, who, now)])]
    case _ => []
  }

  function DetectPlan(st: Store, s: Snapshot, now: Timestamp): seq<Append> {
    if ConflictFree(st.decisions, Decision) && ConflictFree(st.constraints, Constraint)
    then [ToRecords(Decision, DecisionRows(st, s, now)), ToRecords(Constraint, ConstraintRows(st, s, now))]
    else []
  }

  /** The appends an operation makes, in order; none if it is refused. */
  function Plan(st: Store, policy: Policy, op: Op): seq<Append> {
    match op
    case Propose(id, request, redactSecrets, now) => ProposePlan(policy, id, request, redactSecrets, now)
    case Approve(a) => ApprovePlan(st, policy, a)
    case Reject(id, who, now) => RejectPlan(st, id, who, now)
    case Deactivate(t, id, who, now) => DeactivatePlan(st, t, id, who, now)
    case Detect(s, now) => DetectPlan(st, s, now)
  }

  /** The operation's effect when the process dies after `survives` appends, or runs to its end. */
  function Next(st: Store, policy: Policy, op: Op, survives: nat): Store {
    var plan := Plan(st, policy, op);
    PerformAll(st, if survives < |plan| then plan[..survives] else plan)
  }

  // ---------------------------------------------------------------- the invariant

  /** `p` is the one resolution of the pending line `q`: it adds who and when, and a rejection keeps the payload. */
  ghost predicate Resolves(q: Proposal, p: Proposal) {
    && q.revision == 1 && q.status == Pending
    && p == q.(revision := 2, status := p.status, payload := p.payload, resolvedAt := p.resolvedAt,
      resolvedBy := p.resolvedBy)
    && p.resolvedAt.Some? && p.resolvedBy.Some? && (p.status == Rejected ==> p.payload == q.payload)
  }

  ghost predicate ProposalOk(st: Store, p: Proposal) {
    && 1 <= p.revision <= 2
    && (p.revision == 1 <==> p.status == Pending)
    && p.payload.recordId == p.recordId && p.payload.rtype == p.rtype
    && (p.status in {Approved, Edited} ==> p.payload in Log(st, p.rtype))
    && (p.revision == 2 ==> exists q :: q in st.proposals && Resolves(q, p))
  }

  /** Every log numbers its revisions 1, 2, 3, ...; a proposal is pending and then resolved at most once; what an
      approval stored is in the record log. */
  ghost predicate Sound(st: Store) {
    && Numbered(st.proposals, ProposalKey) && Numbered(st.decisions, RecordKey) && Numbered(st.constraints, RecordKey)
    && (forall p :: p in st.proposals ==> ProposalOk(st, p))
    && (forall r :: r in st.decisions ==> r.rtype == Decision)
    && (forall r :: r in st.constraints ==> r.rtype == Constraint)
  }

  /** Proposal ids are fresh random identifiers. */
  ghost predicate FreshId(st: Store, op: Op) {
    op.Propose? ==> forall p :: p in st.proposals ==> p.proposalId != op.proposalId
  }

  // -------------------------------------------------------- reads in a sound store

  /** Reading one record's current revision from a numbered log never conflicts and is the log's own. */
  lemma CurrentRecordIsCurrent(log: seq<MemoryRevision>, id: string)
    requires Numbered(log, RecordKey)
    ensures CurrentRecord(log, id) == Ok(Current(log, RecordKey, id))
    ensures match Current(log, RecordKey, id)
            case None => Count(log, RecordKey, id) == 0
            case Some(r) => r in log && r.recordId == id && r.revision == Count(log, RecordKey, id)
  {
    NumberedOfId(log, RecordKey, id, OfRecord(id));
    NumberedNoDuplicate(Filter(log, OfRecord(id)), RecordKey);
    NumberedCurrent(log, RecordKey, id);
  }

  lemma FindPendingIsCurrent(st: Store, id: string)
    requires Sound(st)
    ensures match FindPending(st, id)
            case Ok(p) => && Current(st.proposals, ProposalKey, id) == Some(p) && p in st.proposals
              && p.proposalId == id
                          && p.status == Pending && p.revision == 1 && Count(st.proposals, ProposalKey, id) == 1
            case Err(e) => e in {ProposalNotFound, AlreadyResolved}
  {
    NumberedNoDuplicate(st.proposals, ProposalKey);
    NumberedCurrent(st.proposals, ProposalKey, id);
  }

  lemma CurrentRowsAreCurrents(log: seq<MemoryRevision>, t: RecordType)
    requires Numbered(log, RecordKey) && forall r :: r in log ==> r.rtype == t
    ensures CurrentRows(log, t) == Currents(log, RecordKey) && ConflictFree(log, t)
  {
    FilterAll(log, OfType(t));
    NumberedNoDuplicate(log, RecordKey);
  }

  // ------------------------------------------------------ appending keeps the store sound

  lemma AppendProposalKeepsSound(st: Store, p: Proposal)
    requires Sound(st) && ProposalOk(st, p) && p.revision == Count(st.proposals, ProposalKey, p.proposalId) + 1
    ensures Sound(Perform(st, ToProposals(p)))
  {
    NumberedAppend(st.proposals, ProposalKey, p);
    var after := Perform(st, ToProposals(p));
    forall q | q in after.proposals ensures ProposalOk(after, q) { OkGrows(st, after, q); }
  }

  lemma OkGrows(st: Store, after: Store, q: Proposal)
    requires Grows(st, after) && ProposalOk(st, q)
    ensures ProposalOk(after, q)
  {
    if q.revision == 2 {
      var pending :| pending in st.proposals && Resolves(pending, q);
      assert pending in after.proposals;
    }
  }

  lemma AppendRecordsKeepsSound(st: Store, t: RecordType, rows: seq<MemoryRevision>)
    requires Sound(st) && Numbered(Log(st, t) + rows, RecordKey) && forall r :: r in rows ==> r.rtype == t
    ensures Sound(Perform(st, ToRecords(t, rows)))
  {
    var after := Perform(st, ToRecords(t, rows));
    forall p | p in st.proposals ensures ProposalOk(after, p) { OkGrows(st, after, p); }
  }

  lemma AppendRecordKeepsSound(st: Store, r: MemoryRevision)
    requires Sound(st) && r.revision == Count(Log(st, r.rtype), RecordKey, r.recordId) + 1
    ensures Sound(Perform(st, ToRecords(r.rtype, [r])))
  {
    NumberedAppend(Log(st, r.rtype), RecordKey, r);
    AppendRecordsKeepsSound(st, r.rtype, [r]);
  }

  // ------------------------------------------------------------------- approving

  lemma ChosenPayloadKeeps(policy: Policy, p: Proposal, a: Resolution)
    requires p.payload.recordId == p.recordId && p.payload.rtype == p.rtype
    ensures var c := ChosenPayload(policy, p, a); c.Ok? ==> c.value.recordId == p.recordId && c.value.rtype == p.rtype
    ensures var c := ChosenPayload(policy, p, a); c.Err? ==> c.error == InvalidPayload
  {
  }

  /** What an approval amounts to, given the record's current revision. */
  ghost predicate Concludes(d: Approval, p: Proposal, a: Resolution, before: Option<MemoryRevision>) {
    && d.resolved == Resolved(p, if a.edited.Some? then Edited else Approved, d.written, a.who, a.now)
    && d.written.recordId == p.recordId && d.written.rtype == p.rtype && d.written.status == Active
    && (d.alreadyWritten ==> before == Some(d.written))
    && (!d.alreadyWritten ==>
      d.written.approvedBy == Some(a.who) && d.written.revision
      == if before.Some? then before.value.revision + 1 else 1)
  }

  lemma DraftConcludes(p: Proposal, a: Resolution, payload: MemoryRevision,
      hashes: (map<string, Digest>, map<string, Digest>), author: Author, before: Option<MemoryRevision>)
    requires payload.recordId == p.recordId && payload.rtype == p.rtype
    requires before.Some? ==> before.value.recordId == p.recordId && before.value.rtype == p.rtype
    ensures Concludes(Concluded(p, a, Draft(payload, hashes, author, before, a), before), p, a, before)
  {
  }

  /** What becomes of a pending proposal, in a store whose records are in order. */
  lemma PendingMeaning(st: Store, policy: Policy, p: Proposal, a: Resolution)
    requires Sound(st) && ProposalOk(st, p)
    ensures match DecidePending(st, policy, p, a)
            case Err(e) => e == InvalidPayload
            case Ok(d) => Concludes(d, p, a, Current(Log(st, p.rtype), RecordKey, p.recordId))
  {
    ChosenPayloadKeeps(policy, p, a);
    CurrentRecordIsCurrent(Log(st, p.rtype), p.recordId);
    var before := Current(Log(st, p.rtype), RecordKey, p.recordId);
    if ChosenPayload(policy, p, a).Ok? {
      var payload := ChosenPayload(policy, p, a).value;
      BindingsRefuse(payload, a.snapshot);
      if Bindings(payload, a.snapshot).Ok? {
        DraftConcludes(p, a, payload, Bindings(payload, a.snapshot).value, ApprovalAuthor(p, a), before);
      }
    }
  }

  lemma BindingsRefuse(r: MemoryRevision, s: Snapshot)
    ensures Bindings(r, s).Err? ==> Bindings(r, s).error == InvalidPayload
  {
  }

  /** What an approval decides in a sound store. */
  lemma DecideMeaning(st: Store, policy: Policy, a: Resolution)
    requires Sound(st)
    ensures match Decide(st, policy, a)
            case Err(e) => e in {ProposalNotFound, AlreadyResolved, InvalidPayload}
            case Ok(d) =>
              && FindPending(st, a.proposalId).Ok?
              && var p := FindPending(st, a.proposalId).value;
              Concludes(d, p, a, Current(Log(st, p.rtype), RecordKey, p.recordId))
  {
    FindPendingIsCurrent(st, a.proposalId);
    if FindPending(st, a.proposalId).Ok? {
      PendingMeaning(st, policy, FindPending(st, a.proposalId).value, a);
    }
  }

  // ----------------------------------------------------------- one operation, crashed or not

  ghost predicate KeepsType(step: MemoryRevision -> Option<MemoryRevision>) {
    forall r :: step(r).Some? ==> step(r).value.rtype == r.rtype
  }

  lemma DetectStepsKeepType(s: Snapshot, now: Timestamp)
    ensures KeepsType(DecisionStep(s, now)) && KeepsType(ConstraintStep(s, now))
  {
    forall r | DecisionStep(s, now)(r).Some? ensures DecisionStep(s, now)(r).value.rtype == r.rtype {
      DecisionFollows(r, s, now);
    }
    forall r | ConstraintStep(s, now)(r).Some? ensures ConstraintStep(s, now)(r).value.rtype == r.rtype {
      ConstraintFollows(r, s, now);
    }
  }

  lemma {:induction false} TransitionsKeepType(current: seq<MemoryRevision>,
      step: MemoryRevision -> Option<MemoryRevision>, t: RecordType)
    requires KeepsType(step) && forall r :: r in current ==> r.rtype == t
    ensures forall x :: x in Transitions(current, step) ==> x.rtype == t
  {
    if current != [] {
      TransitionsKeepType(current[..|current| - 1], step, t);
      assert current[|current| - 1] in current;
    }
  }

  lemma CurrentsInLog(log: seq<MemoryRevision>)
    ensures forall r :: r in Currents(log, RecordKey) ==> r in log
  {
    forall i | 0 <= i < |Currents(log, RecordKey)| ensures Currents(log, RecordKey)[i] in log {
      assert Current(log, RecordKey, Ids(log, RecordKey)[i]) == Some(Currents(log, RecordKey)[i]);
    }
  }

  lemma DetectRows(log: seq<MemoryRevision>, t: RecordType, step: MemoryRevision -> Option<MemoryRevision>)
    requires Numbered(log, RecordKey) && (forall r :: r in log ==> r.rtype == t) && Advances(step, RecordKey)
        && KeepsType(step)
    ensures var rows := Transitions(CurrentRows(log, t), step);
            Numbered(log + rows, RecordKey) && forall x :: x in rows ==> x.rtype == t
  {
    CurrentRowsAreCurrents(log, t);
    CurrentsInLog(log);
    PassContinues(log, RecordKey, step);
    TransitionsKeepType(Currents(log, RecordKey), step, t);
  }

  /** One append from a plan may be made: the store stays sound. */
  ghost predicate Safe(st: Store, w: Append) { Sound(Perform(st, w)) }

  /** Every prefix of the plan may be made. */
  ghost predicate SafePlan(st: Store, ws: seq<Append>)
    decreases |ws|
  {
    ws != [] ==> Safe(st, ws[0]) && SafePlan(Perform(st, ws[0]), ws[1..])
  }

  lemma {:induction false} SafePrefix(st: Store, ws: seq<Append>, n: nat)
    requires Sound(st) && SafePlan(st, ws) && n <= |ws|
    ensures Sound(PerformAll(st, ws[..n]))
    decreases n
  {
    if n > 0 {
      SafePrefix(Perform(st, ws[0]), ws[1..], n - 1);
      assert ws[..n][1..] == ws[1..][..n - 1];
    }
  }

  /** The resolved line may follow the pending one once what it stores is in the record log. */
  lemma ResolutionOk(st: Store, p: Proposal, a: Resolution, d: Approval, before: Option<MemoryRevision>)
    requires Sound(st) && p in st.proposals && p.revision == 1 && p.status == Pending
    requires Concludes(d, p, a, before) && d.written in Log(st, p.rtype)
    ensures ProposalOk(st, d.resolved) && d.resolved.proposalId == p.proposalId && d.resolved.revision == 2
  {
    assert Resolves(p, d.resolved);
  }

  lemma ResolveSafe(st: Store, p: Proposal, a: Resolution, d: Approval, before: Option<MemoryRevision>)
    requires Sound(st) && p in st.proposals && p.revision == 1 && p.status == Pending
    requires Count(st.proposals, ProposalKey, p.proposalId) == 1
    requires Concludes(d, p, a, before) && d.written in Log(st, p.rtype)
    ensures Sound(Perform(st, ToProposals(d.resolved)))
  {
    ResolutionOk(st, p, a, d, before);
    AppendProposalKeepsSound(st, d.resolved);
  }

  lemma RecordThenResolveSafe(st: Store, p: Proposal, a: Resolution, d: Approval, before: Option<MemoryRevision>)
    requires Sound(st) && p in st.proposals && p.revision == 1 && p.status == Pending
    requires Count(st.proposals, ProposalKey, p.proposalId) == 1
    requires Concludes(d, p, a, before) && d.written.revision == Count(Log(st, p.rtype), RecordKey, p.recordId) + 1
    ensures SafePlan(st, [ToRecords(d.written.rtype, [d.written]), ToProposals(d.resolved)])
  {
    AppendRecordKeepsSound(st, d.written);
    var st1 := Perform(st, ToRecords(d.written.rtype, [d.written]));
    assert d.written in Log(st1, p.rtype);
    ResolveSafe(st1, p, a, d, before);
    TwoAppends(st, ToRecords(d.written.rtype, [d.written]), ToProposals(d.resolved));
  }

  lemma ApproveSafe(st: Store, policy: Policy, a: Resolution)
    requires Sound(st)
    ensures SafePlan(st, ApprovePlan(st, policy, a))
  {
    DecideMeaning(st, policy, a);
    FindPendingIsCurrent(st, a.proposalId);
    if Decide(st, policy, a).Ok? {
      var d, p := Decide(st, policy, a).value, FindPending(st, a.proposalId).value;
      var before := Current(Log(st, p.rtype), RecordKey, p.recordId);
      CurrentRecordIsCurrent(Log(st, p.rtype), p.recordId);
      if d.alreadyWritten {
        ResolveSafe(st, p, a, d, before);
        OneAppend(st, ToProposals(d.resolved));
      } else {
        RecordThenResolveSafe(st, p, a, d, before);
      }
    }
  }

  lemma OneAppend(st: Store, w: Append)
    requires Sound(Perform(st, w))
    ensures SafePlan(st, [w])
  {
    assert [w][1..] == [];
  }

  lemma TwoAppends(st: Store, w: Append, x: Append)
    requires Sound(Perform(st, w)) && Sound(Perform(Perform(st, w), x))
    ensures SafePlan(st, [w] + [x])
    ensures SafePlan(st, [w, x])
  {
    assert [w, x][1..] == [x] && [w] + [x] == [w, x];
    OneAppend(Perform(st, w), x);
  }

  lemma DetectSafe(st: Store, s: Snapshot, now: Timestamp)
    requires Sound(st)
    ensures SafePlan(st, DetectPlan(st, s, now))
  {
    var ds, cs := DecisionRows(st, s, now), ConstraintRows(st, s, now);
    RowsContinue(st, s, now);
    BothPassesSafe(st, ds, cs);
    if ConflictFree(st.decisions, Decision) && ConflictFree(st.constraints, Constraint) {
      assert DetectPlan(st, s, now) == [ToRecords(Decision, ds), ToRecords(Constraint, cs)];
    }
  }

  lemma RowsContinue(st: Store, s: Snapshot, now: Timestamp)
    requires Sound(st)
    ensures Numbered(st.decisions + DecisionRows(st, s, now), RecordKey)
        && forall r :: r in DecisionRows(st, s, now) ==> r.rtype == Decision
    ensures Numbered(st.constraints + ConstraintRows(st, s, now), RecordKey)
        && forall r :: r in ConstraintRows(st, s, now) ==> r.rtype == Constraint
  {
    DecisionStepRules(s, now);
    ConstraintStepRules(s, now);
    DetectStepsKeepType(s, now);
    DetectRows(st.decisions, Decision, DecisionStep(s, now));
    DetectRows(st.constraints, Constraint, ConstraintStep(s, now));
  }

  lemma BothPassesSafe(st: Store, ds: seq<MemoryRevision>, cs: seq<MemoryRevision>)
    requires Sound(st)
    requires Numbered(st.decisions + ds, RecordKey) && forall r :: r in ds ==> r.rtype == Decision
    requires Numbered(st.constraints + cs, RecordKey) && forall r :: r in cs ==> r.rtype == Constraint
    ensures SafePlan(st, [ToRecords(Decision, ds), ToRecords(Constraint, cs)])
  {
    AppendRecordsKeepsSound(st, Decision, ds);
    AppendRecordsKeepsSound(Perform(st, ToRecords(Decision, ds)), Constraint, cs);
    TwoAppends(st, ToRecords(Decision, ds), ToRecords(Constraint, cs));
  }

  lemma ProposeSafe(st: Store, policy: Policy, id: string, request: MemoryRevision, redactSecrets: bool, now: Timestamp)
    requires Sound(st) && forall p :: p in st.proposals ==> p.proposalId != id
    ensures SafePlan(st, ProposePlan(policy, id, request, redactSecrets, now))
  {
    CountAbsent(st.proposals, ProposalKey, id);
    var p := NewProposal(policy, id, request, redactSecrets, now);
    AppendProposalKeepsSound(st, p);
    OneAppend(st, ToProposals(p));
  }

  lemma RejectSafe(st: Store, id: string, who: string, now: Timestamp)
    requires Sound(st)
    ensures SafePlan(st, RejectPlan(st, id, who, now))
  {
    FindPendingIsCurrent(st, id);
    if FindPending(st, id).Ok? {
      var p := FindPending(st, id).value;
      AppendProposalKeepsSound(st, Resolved(p, Rejected, p.payload, who, now));
      OneAppend(st, ToProposals(Resolved(p, Rejected, p.payload, who, now)));
    }
  }

  lemma DeactivateSafe(st: Store, t: RecordType, id: string, who: string, now: Timestamp)
    requires Sound(st)
    ensures SafePlan(st, DeactivatePlan(st, t, id, who, now))
  {
    CurrentRecordIsCurrent(Log(st, t), id);
    var current := Current(Log(st, t), RecordKey, id);
    if current.Some? {
      AppendRecordKeepsSound(st, Deactivated(current.value, who, now));
      OneAppend(st, ToRecords(t, [Deactivated(current.value, who, now)]));
    }
  }

  /** Whatever the operation, and wherever it crashes, the store stays sound. */
  lemma NextKeepsSound(st: Store, policy: Policy, op: Op, survives: nat)
    requires Sound(st) && FreshId(st, op)
    ensures Sound(Next(st, policy, op, survives))
  {
    match op {
      case Propose(id, request, redactSecrets, now) => ProposeSafe(st, policy, id, request, redactSecrets, now);
      case Approve(a) => ApproveSafe(st, policy, a);
      case Reject(id, who, now) => RejectSafe(st, id, who, now);
      case Deactivate(t, id, who, now) => DeactivateSafe(st, t, id, who, now);
      case Detect(s, now) => DetectSafe(st, s, now);
    }
    var plan := Plan(st, policy, op);
    SafePrefix(st, plan, if survives < |plan| then survives else |plan|);
    TakeAll(plan);
  }

  // ------------------------------------------------------------------- whole runs

  datatype Step = Step(op: Op, survives: nat)

  function StepOf(policy: Policy): (Store, Step) -> Store { (st: Store, x: Step) => Next(st, policy, x.op, x.survives) }

  function RunSteps(st: Store, policy: Policy, steps: seq<Step>): Store { Fold(StepOf(policy), st, steps) }

  /** Every proposal made along the run got an id not used before. */
  ghost predicate FreshIds(st: Store, policy: Policy, steps: seq<Step>) {
    forall i :: 0 <= i < |steps| ==> FreshId(RunSteps(st, policy, steps[..i]), steps[i].op)
  }

  ghost predicate Grows(a: Store, b: Store) {
    a.proposals <= b.proposals && a.decisions <= b.decisions && a.constraints <= b.constraints
  }

  lemma {:induction false} PerformAllGrows(st: Store, ws: seq<Append>)
    ensures Grows(st, PerformAll(st, ws))
    decreases |ws|
  {
    if ws != [] { PerformAllGrows(Perform(st, ws[0]), ws[1..]); }
  }

  /** Any interleaving of operations, each possibly cut short between two appends, keeps the store sound and only
      ever extends its logs. */
  lemma {:induction false} EveryRunIsSound(st: Store, policy: Policy, steps: seq<Step>)
    requires Sound(st) && FreshIds(st, policy, steps)
    ensures Sound(RunSteps(st, policy, steps)) && Grows(st, RunSteps(st, policy, steps))
  {
    if steps != [] {
      var n := |steps| - 1;
      FreshIdsPrefix(st, policy, steps, n);
      EveryRunIsSound(st, policy, steps[..n]);
      NextKeepsSound(RunSteps(st, policy, steps[..n]), policy, steps[n].op, steps[n].survives);
      NextGrows(RunSteps(st, policy, steps[..n]), policy, steps[n].op, steps[n].survives);
    }
  }

  lemma FreshIdsPrefix(st: Store, policy: Policy, steps: seq<Step>, n: nat)
    requires FreshIds(st, policy, steps) && n <= |steps|
    ensures FreshIds(st, policy, steps[..n])
  {
    assert forall i :: 0 <= i < n ==> steps[..n][..i] == steps[..i];
  }

  lemma NextGrows(st: Store, policy: Policy, op: Op, survives: nat)
    ensures Grows(st, Next(st, policy, op, survives))
  {
    var plan := Plan(st, policy, op);
    PerformAllGrows(st, if survives < |plan| then plan[..survives] else plan);
  }

  function OfProposal(id: string): Proposal -> bool { (p: Proposal) => p.proposalId == id }

  /** Over every run, a proposal's lines are nothing, its pending line, or its pending line and one resolution. */
  lemma ProposalLifecycle(policy: Policy, steps: seq<Step>, id: string)
    requires FreshIds(Store([], [], []), policy, steps)
    ensures var rows := Filter(RunSteps(Store([], [], []), policy, steps).proposals, OfProposal(id));
            && |rows| <= 2
            && (|rows| > 0 ==> rows[0].revision == 1 && rows[0].status == Pending)
            && (|rows| > 1 ==> Resolves(rows[0], rows[1]) && rows[1].status in {Approved, Rejected, Edited})
  {
    EveryRunIsSound(Store([], [], []), policy, steps);
    SoundLifecycle(RunSteps(Store([], [], []), policy, steps), id);
  }

  lemma SoundLifecycle(st: Store, id: string)
    requires Sound(st)
    ensures var rows := Filter(st.proposals, OfProposal(id));
            && |rows| <= 2
            && (|rows| > 0 ==> rows[0].revision == 1 && rows[0].status == Pending)
            && (|rows| > 1 ==> Resolves(rows[0], rows[1]) && rows[1].status in {Approved, Rejected, Edited})
  {
    var rows := Filter(st.proposals, OfProposal(id));
    NumberedOfId(st.proposals, ProposalKey, id, OfProposal(id));
    RevisionsAreLine(rows, ProposalKey, id);
    forall i | 0 <= i < |rows| ensures rows[i].revision == i + 1 <= 2 && (i == 0 <==> rows[i].status == Pending) {
      assert rows[i] in rows && ProposalOk(st, rows[i]);
      assert ProposalKey(rows[i]).1 == i + 1;
    }
    assert rows != [] ==> rows[|rows| - 1].revision == |rows|;
    if |rows| > 1 { SecondLineResolvesFirst(st, rows, id); }
  }

  lemma SecondLineResolvesFirst(st: Store, rows: seq<Proposal>, id: string)
    requires rows == Filter(st.proposals, OfProposal(id)) && |rows| == 2 && rows[0].revision == 1
        && rows[1].revision == 2
    requires ProposalOk(st, rows[1])
    ensures Resolves(rows[0], rows[1])
  {
    var q :| q in st.proposals && Resolves(q, rows[1]);
    assert rows[1] in rows && q.proposalId == id;
    assert q in rows && q != rows[1];
  }

  /** ... and a record's lines are its revisions 1, 2, 3, ... in log order. */
  lemma RecordLifecycle(policy: Policy, steps: seq<Step>, t: RecordType, id: string)
    requires FreshIds(Store([], [], []), policy, steps)
    ensures var rows := Filter(Log(RunSteps(Store([], [], []), policy, steps), t), OfRecord(id));
            forall i :: 0 <= i < |rows| ==> rows[i].revision == i + 1 && rows[i].rtype == t
  {
    EveryRunIsSound(Store([], [], []), policy, steps);
    SoundRecord(RunSteps(Store([], [], []), policy, steps), t, id);
  }

  lemma SoundRecord(st: Store, t: RecordType, id: string)
    requires Sound(st)
    ensures var rows := Filter(Log(st, t), OfRecord(id));
            forall i :: 0 <= i < |rows| ==> rows[i].revision == i + 1 && rows[i].rtype == t
  {
    var log := Log(st, t);
    var rows := Filter(log, OfRecord(id));
    NumberedOfId(log, RecordKey, id, OfRecord(id));
    RevisionsAreLine(rows, RecordKey, id);
    forall i | 0 <= i < |rows| ensures rows[i].revision == i + 1 && rows[i].rtype == t {
      assert rows[i] in rows && rows[i] in log;
      assert RecordKey(rows[i]).1 == i + 1;
    }
  }

  /** ... and what an approved or edited proposal stores is a line of its record's log. */
  lemma ApprovedIsWritten(policy: Policy, steps: seq<Step>)
    requires FreshIds(Store([], [], []), policy, steps)
    ensures var st := RunSteps(Store([], [], []), policy, steps);
            forall p :: p in st.proposals && p.status in {Approved, Edited} ==>
              p.payload.rtype == p.rtype && p.payload in Filter(Log(st, p.rtype), OfRecord(p.recordId))
  {
    EveryRunIsSound(Store([], [], []), policy, steps);
    var st := RunSteps(Store([], [], []), policy, steps);
    assert forall p :: p in st.proposals ==> ProposalOk(st, p);
  }

  // --------------------------------------------------------- approving after a crash

  /** A pending line is the proposal's first line, so it is the same in every later store. */
  lemma PendingIsUnchanged(st: Store, later: Store, id: string)
    requires Sound(st) && Sound(later) && Grows(st, later)
    requires FindPending(st, id).Ok? && FindPending(later, id).Ok?
    ensures FindPending(st, id) == FindPending(later, id)
  {
    FindPendingIsCurrent(st, id);
    FindPendingIsCurrent(later, id);
    NumberedNoDuplicate(later.proposals, ProposalKey);
    SameKeySameRow(later.proposals, ProposalKey, FindPending(st, id).value, FindPending(later, id).value);
  }

  lemma RedraftIsSameApproval(payload: MemoryRevision, hashes: (map<string, Digest>, map<string, Digest>),
      author: Author,
                              before: Option<MemoryRevision>, a: Resolution, written: MemoryRevision, b: Resolution)
    requires written == Draft(payload, hashes, author, before, a)
    ensures SameApproval(written, Draft(payload, hashes, author, Some(written), b))
  {
  }

  lemma SameConclusion(p: Proposal, b: Resolution, draft: MemoryRevision, written: MemoryRevision)
    requires SameApproval(written, draft)
    ensures Concluded(p, b, draft, Some(written))
        == Approval(Resolved(p, if b.edited.Some? then Edited else Approved, written, b.who, b.now), written, true)
  {
  }

  /** The stages of a decision that succeeds. */
  lemma DecideStages(st: Store, policy: Policy, a: Resolution)
    requires Sound(st) && Decide(st, policy, a).Ok?
    ensures FindPending(st, a.proposalId).Ok?
    ensures var p := FindPending(st, a.proposalId).value;
            var before := Current(Log(st, p.rtype), RecordKey, p.recordId);
            && ChosenPayload(policy, p, a).Ok?
            && var payload := ChosenPayload(policy, p, a).value;
            && payload.rtype == p.rtype && payload.recordId == p.recordId
            && Bindings(payload, a.snapshot).Ok?
            && Decide(st, policy, a).value
               == Concluded(p, a, Draft(payload, Bindings(payload, a.snapshot).value, ApprovalAuthor(p, a), before,
                 a), before)
  {
    FindPendingIsCurrent(st, a.proposalId);
    var p := FindPending(st, a.proposalId).value;
    CurrentRecordIsCurrent(Log(st, p.rtype), p.recordId);
    ChosenPayloadKeeps(policy, p, a);
  }

  /** Two calls that ask for the same thing of the same index and scopes. */
  ghost predicate SameRequest(a: Resolution, b: Resolution) {
    a.proposalId == b.proposalId && a.edited == b.edited && a.redactSecrets == b.redactSecrets
        && a.snapshot == b.snapshot
  }

  lemma DecideAgain(st: Store, policy: Policy, a: Resolution, later: Store, b: Resolution)
    requires Sound(st) && Decide(st, policy, a).Ok? && !Decide(st, policy, a).value.alreadyWritten
    requires Sound(later) && SameRequest(a, b) && FindPending(later, a.proposalId) == FindPending(st, a.proposalId)
    requires var written := Decide(st, policy, a).value.written;
        Current(Log(later, written.rtype), RecordKey, written.recordId) == Some(written)
    ensures var p, written := FindPending(st, a.proposalId).value, Decide(st, policy, a).value.written;
            Decide(later, policy, b)
                == Ok(Approval(Resolved(p, if a.edited.Some? then Edited else Approved, written, b.who, b.now),
                written, true))
  {
    DecideStages(st, policy, a);
    var p, written := FindPending(st, a.proposalId).value, Decide(st, policy, a).value.written;
    var before := Current(Log(st, p.rtype), RecordKey, p.recordId);
    var payload := ChosenPayload(policy, p, a).value;
    var hashes := Bindings(payload, a.snapshot).value;
    RedraftIsSameApproval(payload, hashes, ApprovalAuthor(p, a), before, a, written, b);
    SameConclusion(p, b, Draft(payload, hashes, ApprovalAuthor(p, a), Some(written), b), written);
    CurrentRecordIsCurrent(Log(later, p.rtype), p.recordId);
  }

  /** An approval that died between its two appends, and anyone approving the same thing later while the record is
      still at that revision: the record log does not grow, and the proposal resolves to the revision already
      written, which names its original approver. */
  lemma RetryAfterCrash(st: Store, policy: Policy, a: Resolution, steps: seq<Step>, b: Resolution)
    requires Sound(st) && SameRequest(a, b)
    requires Decide(st, policy, a).Ok? && !Decide(st, policy, a).value.alreadyWritten
    requires FreshIds(Next(st, policy, Approve(a), 1), policy, steps)
    requires var later := RunSteps(Next(st, policy, Approve(a), 1), policy, steps);
             var written := Decide(st, policy, a).value.written;
             FindPending(later, a.proposalId).Ok?
                 && Current(Log(later, written.rtype), RecordKey, written.recordId) == Some(written)
    ensures FindPending(st, a.proposalId).Ok?
    ensures var later := RunSteps(Next(st, policy, Approve(a), 1), policy, steps);
            var p, written := FindPending(st, a.proposalId).value, Decide(st, policy, a).value.written;
            && written.approvedBy == Some(a.who)
            && Next(later, policy, Approve(b), 2)
               == later.(proposals := later.proposals
                 + [Resolved(p, if a.edited.Some? then Edited else Approved, written, b.who, b.now)])
  {
    var st1 := Next(st, policy, Approve(a), 1);
    var later := RunSteps(st1, policy, steps);
    NextKeepsSound(st, policy, Approve(a), 1);
    EveryRunIsSound(st1, policy, steps);
    CrashedApproval(st, policy, a);
    RetryLater(st, policy, a, later, b);
  }

  lemma RetryLater(st: Store, policy: Policy, a: Resolution, later: Store, b: Resolution)
    requires Sound(st) && Sound(later) && Grows(st, later) && SameRequest(a, b)
    requires Decide(st, policy, a).Ok? && !Decide(st, policy, a).value.alreadyWritten
    requires var written := Decide(st, policy, a).value.written;
             FindPending(later, a.proposalId).Ok?
                 && Current(Log(later, written.rtype), RecordKey, written.recordId) == Some(written)
    ensures FindPending(st, a.proposalId).Ok?
    ensures var p, written := FindPending(st, a.proposalId).value, Decide(st, policy, a).value.written;
            && written.approvedBy == Some(a.who)
            && Next(later, policy, Approve(b), 2)
               == later.(proposals := later.proposals
                 + [Resolved(p, if a.edited.Some? then Edited else Approved, written, b.who, b.now)])
  {
    DecideMeaning(st, policy, a);
    PendingIsUnchanged(st, later, a.proposalId);
    DecideAgain(st, policy, a, later, b);
    AlreadyWrittenAppendsOne(later, policy, b);
  }

  lemma AlreadyWrittenAppendsOne(st: Store, policy: Policy, a: Resolution)
    requires Decide(st, policy, a).Ok? && Decide(st, policy, a).value.alreadyWritten
    ensures Next(st, policy, Approve(a), 2) == st.(proposals := st.proposals + [Decide(st, policy, a).value.resolved])
  {
    OnePerform(st, ToProposals(Decide(st, policy, a).value.resolved));
  }

  lemma OnePerform(st: Store, w: Append)
    ensures PerformAll(st, [w]) == Perform(st, w)
  {
    assert [w][1..] == [];
  }

  /** What a crash after the first append leaves: the record is written, the proposal is untouched. */
  lemma CrashedApproval(st: Store, policy: Policy, a: Resolution)
    requires Decide(st, policy, a).Ok? && !Decide(st, policy, a).value.alreadyWritten
    ensures var written := Decide(st, policy, a).value.written;
            Next(st, policy, Approve(a), 1) == Perform(st, ToRecords(written.rtype, [written]))
    ensures Grows(st, Next(st, policy, Approve(a), 1)) && Next(st, policy, Approve(a), 1).proposals == st.proposals
  {
    var d := Decide(st, policy, a).value;
    var plan := ApprovePlan(st, policy, a);
    assert plan[..1] == [ToRecords(d.written.rtype, [d.written])];
    OnePerform(st, ToRecords(d.written.rtype, [d.written]));
  }

  /** What a rejection makes of a store in which the record was just written. */
  lemma RejectWritten(st: Store, policy: Policy, p: Proposal, written: MemoryRevision, who: string, now: Timestamp)
    requires Sound(st) && FindPending(st, p.proposalId) == Ok(p)
    requires var before := Current(Log(st, written.rtype), RecordKey, written.recordId);
             written.revision == if before.Some? then before.value.revision + 1 else 1
    ensures var end := Next(Perform(st, ToRecords(written.rtype, [written])), policy, Reject(p.proposalId, who, now),
        1);
            && Current(Log(end, written.rtype), RecordKey, written.recordId) == Some(written)
            && exists q :: q in end.proposals && q.proposalId == p.proposalId && q.status == Rejected
  {
    WrittenIsCurrent(st, written);
    RecordsLeaveProposals(st, written.rtype, [written], p.proposalId);
    var q := Resolved(p, Rejected, p.payload, who, now);
    RejectAppendsOne(Perform(st, ToRecords(written.rtype, [written])), policy, p, p.proposalId, who, now);
    assert q.proposalId == p.proposalId && q.status == Rejected;
  }

  lemma RecordsLeaveProposals(st: Store, t: RecordType, rows: seq<MemoryRevision>, id: string)
    ensures var st1 := Perform(st, ToRecords(t, rows));
            Log(st1, t) == Log(st, t) + rows && st1.proposals == st.proposals
                && FindPending(st1, id) == FindPending(st, id)
  {
  }

  /** Rejecting after that crash does not take the content back: it stays in force under a rejected proposal. */
  lemma CrashThenRejectKeepsContent(st: Store, policy: Policy, a: Resolution, who: string, now: Timestamp)
    requires Sound(st) && Decide(st, policy, a).Ok? && !Decide(st, policy, a).value.alreadyWritten
    ensures var written := Decide(st, policy, a).value.written;
            var end := Next(Next(st, policy, Approve(a), 1), policy, Reject(a.proposalId, who, now), 1);
            && Current(Log(end, written.rtype), RecordKey, written.recordId) == Some(written)
              && written.status == Active
            && exists p :: p in end.proposals && p.proposalId == a.proposalId && p.status == Rejected
  {
    DecideMeaning(st, policy, a);
    FindPendingIsCurrent(st, a.proposalId);
    CrashedApproval(st, policy, a);
    RejectWritten(st, policy, FindPending(st, a.proposalId).value, Decide(st, policy, a).value.written, who, now);
  }

  lemma WrittenIsCurrent(st: Store, r: MemoryRevision)
    requires Sound(st)
    requires var before := Current(Log(st, r.rtype), RecordKey, r.recordId);
             r.revision == if before.Some? then before.value.revision + 1 else 1
    ensures Current(Log(st, r.rtype) + [r], RecordKey, r.recordId) == Some(r)
  {
    CurrentAppend(Log(st, r.rtype), RecordKey, r, r.recordId);
  }

  lemma RejectAppendsOne(st: Store, policy: Policy, p: Proposal, id: string, who: string, now: Timestamp)
    requires FindPending(st, id) == Ok(p)
    ensures var q := Resolved(p, Rejected, p.payload, who, now);
            Next(st, policy, Reject(id, who, now), 1) == st.(proposals := st.proposals + [q]) && q in st.proposals + [q]
  {
    OnePerform(st, ToProposals(Resolved(p, Rejected, p.payload, who, now)));
  }

  // ------------------------------------------------------- what a fresh approval is bound to

  /** Equal in everything a human reads or decides. */
  ghost predicate SameText(x: MemoryRevision, y: MemoryRevision) {
    && x.content == y.content && x.rationale == y.rationale && x.scopes == y.scopes && x.files == y.files
      && x.symbols == y.symbols
    && x.severity == y.severity && x.mode == y.mode && x.expiresAt == y.expiresAt && x.critical == y.critical
    && x.sourceDocument == y.sourceDocument && x.sourceSection == y.sourceSection
      && x.machineCheckHint == y.machineCheckHint
  }

  /** What an approval writes, or finds already written, says exactly what was proposed, or what the edit says, once
      redacted; its author is the proposer, or human for an edit. */
  lemma ApprovedContent(st: Store, policy: Policy, a: Resolution)
    requires Sound(st) && Decide(st, policy, a).Ok?
    ensures FindPending(st, a.proposalId).Ok?
    ensures var p, written := FindPending(st, a.proposalId).value, Decide(st, policy, a).value.written;
            && SameText(written, Redacted(policy, a.redactSecrets,
              if a.edited.Some? then a.edited.value else p.payload))
            && written.createdBy == ApprovalAuthor(p, a)
  {
    DecideStages(st, policy, a);
  }

  /** A new approval of a source-bound constraint hashes every file it names and every file declaring a symbol it
      names. */
  lemma ApprovalCoversEveryReference(st: Store, policy: Policy, a: Resolution)
    requires Sound(st) && OwnersIndexed(a.snapshot) && Decide(st, policy, a).Ok?
        && !Decide(st, policy, a).value.alreadyWritten
    ensures var r := Decide(st, policy, a).value.written;
            r.rtype == Constraint && r.mode == Some(SourceBound) ==>
              r.sourceHashes == SnapshotOf(r, a.snapshot)
                  && r.sourceHashes.Keys == Covered(r.files, r.symbols, a.snapshot.owner) != {}
  {
    DecideStages(st, policy, a);
    var payload := ChosenPayload(policy, FindPending(st, a.proposalId).value, a).value;
    if payload.rtype == Constraint && payload.mode == Some(SourceBound) {
      BindingsCover(payload, a.snapshot);
    }
  }

  lemma BindingsCover(r: MemoryRevision, s: Snapshot)
    requires OwnersIndexed(s) && r.rtype == Constraint && r.mode == Some(SourceBound) && Bindings(r, s).Ok?
    ensures Bindings(r, s).value.0.Keys == Covered(r.files, r.symbols, s.owner) != {}
  {
    if r.files != [] { assert r.files[0] in Covered(r.files, r.symbols, s.owner); }
    else { assert s.owner[r.symbols[0]] in Covered(r.files, r.symbols, s.owner); }
  }

  /** The same, as what the next detection finds: the snapshot is that of the approval, and all it refers to was
      there. */
  lemma ApprovalSnapshot(st: Store, policy: Policy, a: Resolution)
    requires Sound(st) && Decide(st, policy, a).Ok? && !Decide(st, policy, a).value.alreadyWritten
    ensures var r := Decide(st, policy, a).value.written;
            r.rtype == Constraint && r.mode == Some(SourceBound) ==>
              r.status == Active && r.sourceHashes == SnapshotOf(r, a.snapshot) && ReferencesIndexed(r, a.snapshot)
  {
    DecideStages(st, policy, a);
    DecideMeaning(st, policy, a);
    BindingsSnapshot(ChosenPayload(policy, FindPending(st, a.proposalId).value, a).value, a.snapshot);
  }

  lemma BindingsSnapshot(r: MemoryRevision, s: Snapshot)
    requires Bindings(r, s).Ok?
    ensures r.rtype == Constraint && r.mode == Some(SourceBound) ==>
        Bindings(r, s).value.0 == SnapshotOf(r, s) && ReferencesIndexed(r, s)
  {
  }

  // -------------------------------------------------------------------- the ledger

  datatype Outcome<+T> = Finished(result: Result<T, Error>) | Crashed

  /** The three canonical log files. Every operation takes the number of appends its process survives. */
  class Ledger {
    var proposals: seq<Proposal>
    var decisions: seq<MemoryRevision>
    var constraints: seq<MemoryRevision>
    const policy: Policy

    constructor (policy: Policy)
      ensures State() == Store([], [], []) && this.policy == policy
    {
      proposals, decisions, constraints := [], [], [];
      this.policy := policy;
    }

    function State(): Store
      reads this
    {
      Store(proposals, decisions, constraints)
    }

    method AppendRecords(t: RecordType, rows: seq<MemoryRevision>)
      modifies this
      ensures State() == Perform(old(State()), ToRecords(t, rows))
    {
      if t == Decision { decisions := decisions + rows; } else { constraints := constraints + rows; }
    }

    method GetPendingProposal(id: string) returns (r: Result<Proposal, Error>)
      ensures r == FindPending(State(), id)
    {
      var current := CurrentBy(proposals, ProposalKey);
      if current.None? { return Err(CanonicalConflict); }
      if id !in current.value { return Err(ProposalNotFound); }
      var p := current.value[id];
      if p.status != Pending { return Err(AlreadyResolved); }
      return Ok(p);
    }

    method CurrentRecordRevision(t: RecordType, id: string) returns (r: Result<Option<MemoryRevision>, Error>)
      ensures r == CurrentRecord(Log(State(), t), id)
    {
      var existing := Filter(if t == Decision then decisions else constraints, OfRecord(id));
      var current := CurrentBy(existing, RecordKey);
      if current.None? { return Err(CanonicalConflict); }
      return Ok(if id in current.value then Some(current.value[id]) else None);
    }

    method ComputeBindings(r: MemoryRevision, s: Snapshot)
        returns (hashes: Result<(map<string, Digest>, map<string, Digest>), Error>)
      ensures hashes == Bindings(r, s)
    {
      var sources: map<string, Digest>, memberships: map<string, Digest> := map[], map[];
      if r.rtype == Constraint {
        if r.mode == Some(SourceBound) {
          if r.files == [] && r.symbols == [] { return Err(InvalidPayload); }
          if exists f :: f in r.files && f !in s.files { return Err(InvalidPayload); }
          if exists y :: y in r.symbols && y !in s.owner { return Err(InvalidPayload); }
          sources := ComputeSourceHashes(r.files, r.symbols, s.files, s.owner);
        } else if r.mode == Some(ScopeBound) {
          if r.scopes == [] { return Err(InvalidPayload); }
          if exists id :: id in r.scopes && id !in s.scopes { return Err(InvalidPayload); }
          memberships := ScopeHashesOf(r.scopes, s);
        }
      }
      return Ok((sources, memberships));
    }

    method Propose(id: string, request: MemoryRevision, redactSecrets: bool, now: Timestamp, survives: nat)
        returns (r: Outcome<Proposal>)
      modifies this
      ensures State() == Next(old(State()), policy, Op.Propose(id, request, redactSecrets, now), survives)
      ensures r == if ProposePlan(policy, id, request, redactSecrets, now) == [] then Finished(Err(InvalidPayload))
                   else if survives == 0
                     then Crashed else Finished(Ok(NewProposal(policy, id, request, redactSecrets, now)))
    {
      if !ShapeOk(request) { return Finished(Err(InvalidPayload)); }
      var payload := ProposedPayload(policy, request, redactSecrets, now);
      if !policy.wellFormed(payload) { return Finished(Err(InvalidPayload)); }
      var p := Proposal(id, 1, request.rtype, request.recordId, payload, Pending, request.createdBy, now, None, None);
      if survives == 0 { return Crashed; }
      OnePerform(State(), ToProposals(p));
      proposals := proposals + [p];
      return Finished(Ok(p));
    }

    method Reject(id: string, who: string, now: Timestamp, survives: nat) returns (r: Outcome<Proposal>)
      modifies this
      ensures State() == Next(old(State()), policy, Op.Reject(id, who, now), survives)
      ensures match FindPending(old(State()), id)
              case Err(e) => r == Finished(Err(e))
              case Ok(p) => r == if survives == 0
                then Crashed else Finished(Ok(Resolved(p, Rejected, p.payload, who, now)))
    {
      var pending := GetPendingProposal(id);
      if pending.Err? { return Finished(pending); }
      var p := pending.value;
      var resolved := p.(revision := p.revision + 1, status := Rejected, resolvedAt := Some(now),
          resolvedBy := Some(who));
      if survives == 0 { return Crashed; }
      OnePerform(State(), ToProposals(resolved));
      proposals := proposals + [resolved];
      return Finished(Ok(resolved));
    }

    method Deactivate(t: RecordType, id: string, who: string, now: Timestamp, survives: nat)
        returns (r: Outcome<MemoryRevision>)
      modifies this
      ensures State() == Next(old(State()), policy, Op.Deactivate(t, id, who, now), survives)
      ensures match CurrentRecord(old(Log(State(), t)), id)
              case Err(e) => r == Finished(Err(e))
              case Ok(None) => r == Finished(Err(RecordNotFound))
              case Ok(Some(current)) => r == if current.status == Inactive then Finished(Ok(current))
                                             else if survives == 0
                                               then Crashed else Finished(Ok(Deactivated(current, who, now)))
    {
      var found := CurrentRecordRevision(t, id);
      if found.Err? { return Finished(Err(found.error)); }
      if found.value.None? { return Finished(Err(RecordNotFound)); }
      var current := found.value.value;
      if current.status == Inactive { return Finished(Ok(current)); }
      var updated := Deactivated(current, who, now);
      if survives == 0 { return Crashed; }
      OnePerform(State(), ToRecords(t, [updated]));
      AppendRecords(t, [updated]);
      return Finished(Ok(updated));
    }

    /** Everything `approve` computes before its first append. */
    method PrepareApproval(a: Resolution) returns (r: Result<Approval, Error>)
      ensures r == Decide(State(), policy, a)
    {
      var pending := GetPendingProposal(a.proposalId);
      if pending.Err? { return Err(pending.error); }
      var p := pending.value;
      var chosen := ChosenPayload(policy, p, a);
      if chosen.Err? { return Err(chosen.error); }
      var hashes := ComputeBindings(chosen.value, a.snapshot);
      if hashes.Err? { return Err(hashes.error); }
      var before := CurrentRecordRevision(chosen.value.rtype, chosen.value.recordId);
      if before.Err? { return Err(before.error); }
      var draft := Draft(chosen.value, hashes.value, ApprovalAuthor(p, a), before.value, a);
      return Ok(Concluded(p, a, draft, before.value));
    }

    method Approve(a: Resolution, survives: nat) returns (r: Outcome<(Proposal, MemoryRevision)>)
      modifies this
      ensures State() == Next(old(State()), policy, Op.Approve(a), survives)
      ensures match Decide(old(State()), policy, a)
              case Err(e) => r == Finished(Err(e))
              case Ok(d) => r == if survives < (if d.alreadyWritten then 1 else 2)
                then Crashed else Finished(Ok((d.resolved, d.written)))
    {
      var prepared := PrepareApproval(a);
      if prepared.Err? { return Finished(Err(prepared.error)); }
      var d := prepared.value;
      ghost var st := State();
      ApprovePrefixes(st, policy, a, survives);
      var left := survives;
      if !d.alreadyWritten {
        if left == 0 { return Crashed; }
        AppendRecords(d.written.rtype, [d.written]);
        left := left - 1;
      }
      if left == 0 { return Crashed; }
      proposals := proposals + [d.resolved];
      return Finished(Ok((d.resolved, d.written)));
    }

    method RunDetection(s: Snapshot, now: Timestamp, survives: nat) returns (r: Outcome<bool>)
      modifies this
      ensures State() == Next(old(State()), policy, Op.Detect(s, now), survives)
      ensures r == if !ConflictFree(old(decisions), Decision) || !ConflictFree(old(constraints), Constraint)
                   then Finished(Err(CanonicalConflict)) else if survives < 2 then Crashed else Finished(Ok(true))
    {
      if !ConflictFree(decisions, Decision) || !ConflictFree(constraints, Constraint) {
        return Finished(Err(CanonicalConflict));
      }
      var ds := DetectDecisionTransitions(CurrentRows(decisions, Decision), s, now);
      var cs := DetectConstraintTransitions(CurrentRows(constraints, Constraint), s, now);
      TwoPerform(State(), ToRecords(Decision, ds), ToRecords(Constraint, cs), survives);
      if survives == 0 { return Crashed; }
      AppendRecords(Decision, ds);
      if survives == 1 { return Crashed; }
      AppendRecords(Constraint, cs);
      return Finished(Ok(true));
    }
  }

  lemma TwoPerform(st: Store, w: Append, x: Append, survives: nat)
    ensures var plan := [w, x];
            PerformAll(st, if survives < |plan| then plan[..survives] else plan)
            == if survives == 0 then st else if survives == 1 then Perform(st, w) else Perform(Perform(st, w), x)
  {
    assert [w, x][..0] == [] && [w, x][..1] == [w] && [w, x][1..] == [x];
    OnePerform(st, w);
    OnePerform(Perform(st, w), x);
  }

  lemma ApprovePrefixes(st: Store, policy: Policy, a: Resolution, survives: nat)
    requires Decide(st, policy, a).Ok?
    ensures var d := Decide(st, policy, a).value;
            var record, resolution := ToRecords(d.written.rtype, [d.written]), ToProposals(d.resolved);
            Next(st, policy, Op.Approve(a), survives)
            == if survives == 0 then st
               else if d.alreadyWritten then Perform(st, resolution)
               else if survives == 1 then Perform(st, record) else Perform(Perform(st, record), resolution)
  {
    var d := Decide(st, policy, a).value;
    OnePerform(st, ToProposals(d.resolved));
    TwoPerform(st, ToRecords(d.written.rtype, [d.written]), ToProposals(d.resolved), survives);
  }
}
