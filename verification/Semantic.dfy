/** Scope summaries: the retry ladder of one refresh, the budgeted run over all scopes, and repeated runs. */
module Semantic {
  import opened Collections
  import opened Hashes
  import opened Scopes
  import R = Records

  datatype Status = Fresh | PossiblyStale | Stale | Unavailable | Orphaned

  datatype Summary = Summary(
    scopeId: string, revision: nat, purpose: string, details: string, model: string,
    sourceHash: Digest, sourceFiles: map<string, Digest>, status: Status, lastError: Option<string>, generatedAt: int)

  function SummaryKey(s: Summary): R.Key { (s.scopeId, s.revision) }

  /** The files of the index and the file of each symbol. */
  datatype Tree = Tree(files: map<string, Digest>, owner: map<string, string>)

  function SourceFiles(s: Scope, t: Tree): map<string, Digest> { SourceHashes(s.files, s.symbols, t.files, t.owner) }

  function SourceHash(s: Scope, t: Tree): Digest { TreeFingerprint(SourceFiles(s, t)) }

  predicate NeedsRefresh(current: Option<Summary>, sourceHash: Digest) {
    current.None? || current.value.status in {Unavailable, Orphaned} || current.value.sourceHash != sourceHash
  }

  // ------------------------------------------------------------------ the ladder

  /** White space as `str.strip` takes it. */
  predicate White(c: char) {
    || '\t' <= c <= '\r' || '\U{1C}' <= c <= ' ' || '\U{2000}' <= c <= '\U{200A}'
    || c in {'\U{85}', '\U{A0}', '\U{1680}', '\U{2028}', '\U{2029}', '\U{202F}', '\U{205F}', '\U{3000}'}
  }

  /** The name of an exception's class. */
  type TypeName = s: string | forall c :: c in s ==> c != ':' && !White(c) witness "E"

  /** What one call of a provider comes to. */
  datatype Answer =
    | NoResponse(exception: TypeName, message: string)
    | NotJson(tokens: nat)
    | Parsed(purpose: string, details: string, reject: Option<string>, tokens: nat)

  /** What the providers would answer to the first, second and third call, whatever they are asked. */
  datatype Answers = Answers(first: Answer, second: Answer, third: Answer)

  datatype Provider = Primary | Fallback

  datatype Prompt = Original | Repair(reason: string)

  datatype Call = Call(provider: Provider, prompt: Prompt)

  /** The configured models: the primary's name, and the fallback's if there is one. */
  datatype Models = Models(primary: string, fallback: Option<string>)

  datatype Metrics = Metrics(schemaSuccess: bool, usedFallback: bool, providerError: bool, inputTokens: nat)

  datatype Outcome = Outcome(summary: Summary, calls: seq<Call>, metrics: Metrics)

  predicate Blank(s: string) { forall c :: c in s ==> White(c) }

  /** The answer parses, passes the schema, and has a purpose. */
  predicate Accepted(a: Answer) { a.Parsed? && a.reject.None? && !Blank(a.purpose) }

  const PROVIDER_ERROR := "provider_error:"

  const NOT_JSON := "response was not valid JSON"

  function Reason(a: Answer): string {
    match a
    case NoResponse(exception, message) => PROVIDER_ERROR + (exception + ": " + message)
    case NotJson(_) => NOT_JSON
    case Parsed(_, _, reject, _) =>
      if reject.None? then "purpose is empty" else if reject.value == "" then "validation failed" else reject.value
  }

  /** The text up to its first colon. */
  function UpToColon(s: string): string {
    if s == [] || s[0] == ':' then [] else [s[0]] + UpToColon(s[1..])
  }

  function StripFront(s: string): string { if s != [] && White(s[0]) then StripFront(s[1..]) else s }

  function StripEnd(s: string): string { if s != [] && White(s[|s| - 1]) then StripEnd(s[..|s| - 1]) else s }

  /** What of a reason may be recorded: for a provider's error the name of the exception, and never its message. */
  function SanitizedLastError(reason: string): string {
    if PROVIDER_ERROR <= reason then PROVIDER_ERROR + StripEnd(StripFront(UpToColon(reason[|PROVIDER_ERROR|..])))
    else if reason == NOT_JSON then "invalid_json_response"
    else "schema_validation_failed"
  }

  function SanitizedError(a: Answer): string { SanitizedLastError(Reason(a)) }

  function Tokens(a: Answer): nat { if a.NoResponse? then 0 else a.tokens }

  function AnswerOf(a: Answers, i: nat): Answer { if i == 0 then a.first else if i == 1 then a.second else a.third }

  /** How many calls are made: one more after each failure, the third only to a fallback. */
  function CallCount(a: Answers, m: Models): (n: nat)
    ensures 1 <= n <= 3
  {
    if Accepted(a.first) then 1 else if Accepted(a.second) || m.fallback.None? then 2 else 3
  }

  /** The i-th call: the primary twice, repaired if a response came back, then the fallback afresh. */
  function CallAt(a: Answers, i: nat): Call {
    if i == 0 then Call(Primary, Original)
    else if i == 1 then Call(Primary, if a.first.NoResponse? then Original else Repair(Reason(a.first)))
    else Call(Fallback, Original)
  }

  function ModelName(m: Models, p: Provider): string {
    if p == Primary then m.primary else if m.fallback.Some? then m.fallback.value else ""
  }

  function NextRevision(current: Option<Summary>): nat { if current.Some? then current.value.revision + 1 else 1 }

  /** The revision an accepted answer becomes. */
  function Written(s: Scope, t: Tree, current: Option<Summary>, a: Answer, model: string, now: int): Summary
    requires a.Parsed?
  {
    Summary(s.id, NextRevision(current), a.purpose, a.details, model, SourceHash(s, t), SourceFiles(s, t), Fresh,
        None, now)
  }

  /** The revision a failed attempt leaves: the old content marked stale, or an empty placeholder. */
  function FailureRevision(s: Scope, t: Tree, current: Option<Summary>, last: Answer, m: Models, now: int): Summary {
    if current.Some? then
      current.value.(revision := NextRevision(current), status := Stale, lastError := Some(SanitizedError(last)),
          generatedAt := now,
                     sourceHash := SourceHash(s, t), sourceFiles := SourceFiles(s, t))
    else Summary(s.id, 1, "", "", m.primary, SourceHash(s, t), SourceFiles(s, t), Unavailable,
      Some(SanitizedError(last)), now)
  }

  function LastAnswer(a: Answers, m: Models): Answer { AnswerOf(a, CallCount(a, m) - 1) }

  function TokensOf(a: Answers, n: nat): nat { if n == 0 then 0 else TokensOf(a, n - 1) + Tokens(AnswerOf(a, n - 1)) }

  function AttemptSummary(s: Scope, t: Tree, current: Option<Summary>, a: Answers, m: Models, now: int): Summary {
    var n, last := CallCount(a, m), LastAnswer(a, m);
    if Accepted(last) then Written(s, t, current, last, ModelName(m, CallAt(a, n - 1).provider), now)
    else FailureRevision(s, t, current, last, m, now)
  }

  function CallsMade(a: Answers, n: nat): seq<Call> { seq(n, i requires 0 <= i < n => CallAt(a, i)) }

  /** Whether one of the first `n` calls brought no response at all. */
  ghost predicate Unanswered(a: Answers, n: nat) { exists i :: 0 <= i < n && AnswerOf(a, i).NoResponse? }

  lemma OneMoreCall(a: Answers, n: nat)
    ensures CallsMade(a, n + 1) == CallsMade(a, n) + [CallAt(a, n)]
    ensures Unanswered(a, n + 1) <==> Unanswered(a, n) || AnswerOf(a, n).NoResponse?
  {
  }

  /** What a refresh is to report. */
  ghost predicate Reports(r: Outcome, s: Scope, t: Tree, current: Option<Summary>, a: Answers, m: Models, now: int) {
    && r.summary == AttemptSummary(s, t, current, a, m, now)
    && r.calls == CallsMade(a, CallCount(a, m)) && |r.calls| <= 3
    && r.metrics.inputTokens == TokensOf(a, CallCount(a, m))
    && r.metrics.schemaSuccess == Accepted(LastAnswer(a, m))
    && r.metrics.usedFallback == (Call(Fallback, Original) in r.calls)
    && r.metrics.providerError == Unanswered(a, CallCount(a, m))
  }

  /** None of the first `n` answers was accepted. */
  predicate Refused(a: Answers, n: nat) {
    (n > 0 ==> !Accepted(a.first)) && (n > 1 ==> !Accepted(a.second)) && (n > 2 ==> !Accepted(a.third))
  }

  /** The call that ends the ladder: the first accepted answer, or the last there is. */
  lemma LadderEnds(a: Answers, m: Models, n: nat)
    requires 1 <= n <= 3 && (n == 3 ==> m.fallback.Some?) && Refused(a, n - 1)
    requires Accepted(AnswerOf(a, n - 1)) || n == if m.fallback.Some? then 3 else 2
    ensures CallCount(a, m) == n
  {
  }

  /** What stands when the ladder has ended: the calls, the counts, and the revision its last answer leads to. */
  lemma LadderReports(r: Outcome, s: Scope, t: Tree, current: Option<Summary>, a: Answers, m: Models, now: int, n: nat)
    requires 1 <= n <= 3 && (n == 3 ==> m.fallback.Some?) && Refused(a, n - 1)
    requires Accepted(AnswerOf(a, n - 1)) || n == if m.fallback.Some? then 3 else 2
    requires r.calls == CallsMade(a, n)
    requires r.metrics.inputTokens == TokensOf(a, n) && r.metrics.usedFallback == (n == 3)
        && r.metrics.providerError == Unanswered(a, n)
    requires r.metrics.schemaSuccess == Accepted(AnswerOf(a, n - 1))
    requires r.summary
        == if Accepted(AnswerOf(a, n - 1))
        then Written(s, t, current, AnswerOf(a, n - 1), ModelName(m, CallAt(a, n - 1).provider), now)
                          else FailureRevision(s, t, current, AnswerOf(a, n - 1), m, now)
    ensures Reports(r, s, t, current, a, m, now)
  {
    LadderEnds(a, m, n);
    FallbackCalled(a, n);
  }

  /** How many attempts are listed when `i` answers have been refused. */
  function Width(m: Models, i: nat): (n: nat)
    ensures 1 <= n <= 3
  {
    if i == 0 then 1 else if i == 1 then 2 else if m.fallback.Some? then 3 else 2
  }

  /** One refresh: the list of attempts grows while it is walked. */
  method RefreshScopeSummary(s: Scope, t: Tree, current: Option<Summary>, a: Answers, m: Models, now: int)
      returns (r: Outcome)
    ensures Reports(r, s, t, current, a, m, now)
  {
    var attempts: seq<Call> := [Call(Primary, Original)];
    var calls: seq<Call> := [];
    var usedFallback, providerError, inputTokens := false, false, 0;
    var last := a.first;
    var i := 0;
    while i < |attempts|
      invariant 0 <= i <= Width(m, i) && attempts == CallsMade(a, Width(m, i)) && usedFallback == (Width(m, i) == 3)
      invariant Refused(a, i)
      invariant calls == CallsMade(a, i) && inputTokens == TokensOf(a, i) && providerError == Unanswered(a, i)
      invariant i > 0 ==> last == AnswerOf(a, i - 1)
      decreases 3 - i
    {
      var attempt := attempts[i];
      last := AnswerOf(a, i);
      OneMoreCall(a, i);
      OneMoreCall(a, i + 1);
      calls := calls + [attempt];
      inputTokens := inputTokens + Tokens(last);
      providerError := providerError || last.NoResponse?;
      if Accepted(last) {
        r := Outcome(Written(s, t, current, last, ModelName(m, attempt.provider), now), calls,
                     Metrics(true, usedFallback, providerError, inputTokens));
        LadderReports(r, s, t, current, a, m, now, i + 1);
        return;
      }
      if i == 0 {
        assert CallAt(a, 1) == Call(Primary, if last.NoResponse? then Original else Repair(Reason(last)));
        attempts := attempts + [Call(Primary, if last.NoResponse? then Original else Repair(Reason(last)))];
      } else if i == 1 && m.fallback.Some? {
        assert CallAt(a, 2) == Call(Fallback, Original);
        attempts := attempts + [Call(Fallback, Original)];
        usedFallback := true;
      }
      i := i + 1;
    }
    r := Outcome(FailureRevision(s, t, current, last, m, now), calls,
        Metrics(false, usedFallback, providerError, inputTokens));
    LadderReports(r, s, t, current, a, m, now, i);
  }

  lemma FallbackCalled(a: Answers, n: nat)
    requires n <= 3
    ensures Call(Fallback, Original) in CallsMade(a, n) <==> n == 3
  {
    var calls := CallsMade(a, n);
    assert n == 3 ==> calls[2] == Call(Fallback, Original);
    assert forall i :: 0 <= i < n && i < 2 ==> calls[i].provider == Primary;
  }

  /** The ladder: a later call only after every earlier answer was refused, an accepted one ends it, and the
      fallback is asked only when there is one. */
  lemma LadderShape(a: Answers, m: Models, i: nat)
    requires i < CallCount(a, m)
    ensures i + 1 < CallCount(a, m) ==> !Accepted(AnswerOf(a, i))
    ensures CallAt(a, i).provider == Fallback ==> m.fallback.Some? && i == 2
    ensures CallAt(a, i).prompt.Repair? ==> i == 1 && !a.first.NoResponse?
    ensures !Accepted(LastAnswer(a, m)) ==> CallCount(a, m) == if m.fallback.Some? then 3 else 2
  {
  }

  /** An attempt appends the next revision, with the current source hash; a success is fresh and has a purpose, a
      failure keeps the old content. */
  lemma AttemptMeaning(s: Scope, t: Tree, current: Option<Summary>, a: Answers, m: Models, now: int)
    requires current.Some? ==> current.value.scopeId == s.id
    ensures var r := AttemptSummary(s, t, current, a, m, now);
            && r.scopeId == s.id && r.revision == NextRevision(current)
            && r.sourceHash == SourceHash(s, t) && r.sourceFiles == SourceFiles(s, t)
            && (Accepted(LastAnswer(a, m)) ==> r.status == Fresh && !Blank(r.purpose) && r.lastError == None)
            && (!Accepted(LastAnswer(a, m)) ==>
              r.lastError.Some? && r.status == if current.Some? then Stale else Unavailable)
            && (!Accepted(LastAnswer(a, m)) && current.Some? ==>
                  r.purpose == current.value.purpose && r.details == current.value.details
                      && r.model == current.value.model)
  {
  }

  /** An attempt leaves a summary stale and empty exactly when it fails over an empty one, whatever the status of that:
      stale is documented to mean that there is content. */
  lemma StaleAndEmptyExactly(s: Scope, t: Tree, current: Option<Summary>, a: Answers, m: Models, now: int)
    ensures var r := AttemptSummary(s, t, current, a, m, now);
            && (r.status == Stale && r.purpose == ""
              <==> !Accepted(LastAnswer(a, m)) && current.Some? && current.value.purpose == "")
            && (r.purpose == "" <==> !Accepted(LastAnswer(a, m)) && (current.None? || current.value.purpose == ""))
  {
  }

  /** The first two attempts at any scope, both refused: the second leaves it stale with nothing in it. */
  lemma TwoFailuresStaleAndEmpty(s: Scope, t: Tree, a: Answers, b: Answers, m: Models, now: int, later: int)
    requires !Accepted(LastAnswer(a, m)) && !Accepted(LastAnswer(b, m))
    ensures var first := AttemptSummary(s, t, None, a, m, now);
            var second := AttemptSummary(s, t, Some(first), b, m, later);
            && first.status == Unavailable && NeedsRefresh(Some(first), SourceHash(s, t))
            && second.status == Stale && second.purpose == "" && !NeedsRefresh(Some(second), SourceHash(s, t))
  {
  }

  // ---------------------------------------------------------------------- one run

  type Currents = map<string, Summary>

  function CurrentOf(c: Currents, id: string): Option<Summary> { if id in c then Some(c[id]) else None }

  /** What one run meets: the providers' answers for each scope, and the time. */
  datatype RunInput = RunInput(answers: string -> Answers, models: Models, now: int)

  datatype RunResult = RunResult(revisions: seq<Summary>, attempted: seq<string>, skipped: seq<string>, tokens: nat)

  /** One scope of a run: left alone, deferred because the budget is spent, or attempted. */
  function RunStep(r: RunResult, s: Scope, t: Tree, c: Currents, input: RunInput, budget: nat): RunResult {
    var current := CurrentOf(c, s.id);
    if !NeedsRefresh(current, SourceHash(s, t)) then r
    else if r.tokens >= budget then r.(skipped := r.skipped + [s.id])
    else
      var a := input.answers(s.id);
      RunResult(r.revisions + [AttemptSummary(s, t, current, a, input.models, input.now)], r.attempted + [s.id],
          r.skipped,
                r.tokens + TokensOf(a, CallCount(a, input.models)))
  }

  function RunOver(scopes: seq<Scope>, t: Tree, c: Currents, input: RunInput, budget: nat): RunResult {
    if scopes == [] then RunResult([], [], [], 0)
    else RunStep(RunOver(scopes[..|scopes| - 1], t, c, input, budget), scopes[|scopes| - 1], t, c, input, budget)
  }

  method RunSemanticRefresh(scopes: seq<Scope>, t: Tree, c: Currents, input: RunInput, budget: nat)
      returns (r: RunResult)
    ensures r == RunOver(scopes, t, c, input, budget)
  {
    r := RunResult([], [], [], 0);
    for i := 0 to |scopes|
      invariant r == RunOver(scopes[..i], t, c, input, budget)
    {
      var s := scopes[i];
      TakeSnoc(scopes, i);
      var sourceFiles := ComputeSourceHashes(s.files, s.symbols, t.files, t.owner);
      var sourceHash := WorkingTreeFingerprint(sourceFiles);
      var current := CurrentOf(c, s.id);
      if !NeedsRefresh(current, sourceHash) { continue; }
      if r.tokens >= budget {
        r := r.(skipped := r.skipped + [s.id]);
        continue;
      }
      var outcome := RefreshScopeSummary(s, t, current, input.answers(s.id), input.models, input.now);
      r := RunResult(r.revisions + [outcome.summary], r.attempted + [s.id], r.skipped,
          r.tokens + outcome.metrics.inputTokens);
    }
    TakeAll(scopes);
  }

  predicate Needy(s: Scope, t: Tree, c: Currents) { NeedsRefresh(CurrentOf(c, s.id), SourceHash(s, t)) }

  ghost predicate IdsMatch(c: Currents) { forall id :: id in c ==> c[id].scopeId == id }

  function Attempt(s: Scope, t: Tree, c: Currents, input: RunInput): Summary {
    AttemptSummary(s, t, CurrentOf(c, s.id), input.answers(s.id), input.models, input.now)
  }

  lemma RunOverSnoc(front: seq<Scope>, last: Scope, t: Tree, c: Currents, input: RunInput, budget: nat)
    ensures RunOver(front + [last], t, c, input, budget)
        == RunStep(RunOver(front, t, c, input, budget), last, t, c, input, budget)
  {
    assert (front + [last])[..|front|] == front;
  }

  lemma OwnVerdict(front: seq<Scope>, s: Scope, t: Tree, c: Currents, input: RunInput, budget: nat)
    requires forall u :: u in front ==> u.id != s.id
    ensures Verdict(RunOver(front + [s], t, c, input, budget), s, t, c)
  {
    RunOverSnoc(front, s, t, c, input, budget);
    NotYetSeen(front, t, c, input, budget, s.id);
    OwnStep(RunOver(front, t, c, input, budget), s, t, c, input, budget);
  }

  lemma LaterVerdict(front: seq<Scope>, last: Scope, t: Tree, c: Currents, input: RunInput, budget: nat, s: Scope)
    requires s.id != last.id && Verdict(RunOver(front, t, c, input, budget), s, t, c)
    ensures Verdict(RunOver(front + [last], t, c, input, budget), s, t, c)
  {
    RunOverSnoc(front, last, t, c, input, budget);
    OtherStep(RunOver(front, t, c, input, budget), last, t, c, input, budget, s.id);
  }

  /** A scope that needs nothing is never attempted or deferred; one that does is exactly one of the two. */
  lemma {:induction false} RunVerdicts(scopes: seq<Scope>, t: Tree, c: Currents, input: RunInput, budget: nat, s: Scope)
    requires UniqueIds(scopes) && s in scopes
    ensures Verdict(RunOver(scopes, t, c, input, budget), s, t, c)
  {
    var front, last := scopes[..|scopes| - 1], scopes[|scopes| - 1];
    assert scopes == front + [last];
    OtherIds(scopes);
    if s == last {
      OwnVerdict(front, s, t, c, input, budget);
    } else {
      RunVerdicts(front, t, c, input, budget, s);
      LaterVerdict(front, last, t, c, input, budget, s);
    }
  }

  ghost predicate Verdict(r: RunResult, s: Scope, t: Tree, c: Currents) {
    if Needy(s, t, c) then (s.id in r.attempted) != (s.id in r.skipped) else s.id !in r.attempted && s.id !in r.skipped
  }

  lemma OwnStep(r: RunResult, s: Scope, t: Tree, c: Currents, input: RunInput, budget: nat)
    requires s.id !in r.attempted && s.id !in r.skipped
    ensures Verdict(RunStep(r, s, t, c, input, budget), s, t, c)
  {
  }

  lemma OtherStep(r: RunResult, last: Scope, t: Tree, c: Currents, input: RunInput, budget: nat, id: string)
    requires id != last.id
    ensures var next := RunStep(r, last, t, c, input, budget);
            (id in next.attempted <==> id in r.attempted) && (id in next.skipped <==> id in r.skipped)
  {
  }

  lemma OtherIds(scopes: seq<Scope>)
    requires UniqueIds(scopes) && scopes != []
    ensures forall s :: s in scopes[..|scopes| - 1] ==> s.id != scopes[|scopes| - 1].id
  {
  }

  lemma {:induction false} NotYetSeen(scopes: seq<Scope>, t: Tree, c: Currents, input: RunInput, budget: nat,
      id: string)
    requires forall s :: s in scopes ==> s.id != id
    ensures var r := RunOver(scopes, t, c, input, budget); id !in r.attempted && id !in r.skipped
  {
    if scopes != [] { NotYetSeen(scopes[..|scopes| - 1], t, c, input, budget, id); }
  }

  /** The revisions of a run are one per attempted scope. */
  ghost predicate Recorded(r: RunResult, scopes: seq<Scope>, t: Tree, c: Currents, input: RunInput) {
    && R.DistinctIds(r.revisions, SummaryKey) && |r.revisions| == |r.attempted|
    && (forall x :: x in r.revisions ==>
      x.scopeId in r.attempted && exists s :: s in scopes && x == Attempt(s, t, c, input) && x.scopeId == s.id)
    && Covers(r, scopes, t, c, input)
    && (forall id :: id in r.attempted ==> exists s :: s in scopes && s.id == id)
  }

  ghost predicate Covers(r: RunResult, scopes: seq<Scope>, t: Tree, c: Currents, input: RunInput) {
    forall s :: s in scopes && s.id in r.attempted ==> Attempt(s, t, c, input) in r.revisions
  }

  lemma {:induction false} RunRevisions(scopes: seq<Scope>, t: Tree, c: Currents, input: RunInput, budget: nat)
    requires UniqueIds(scopes) && IdsMatch(c)
    ensures Recorded(RunOver(scopes, t, c, input, budget), scopes, t, c, input)
  {
    if scopes != [] {
      var front, s := scopes[..|scopes| - 1], scopes[|scopes| - 1];
      assert scopes == front + [s];
      RunRevisions(front, t, c, input, budget);
      NotYetSeen(front, t, c, input, budget, s.id);
      AttemptMeaning(s, t, CurrentOf(c, s.id), input.answers(s.id), input.models, input.now);
      RecordedSnoc(RunOver(front, t, c, input, budget), front, s, t, c, input, budget);
    }
  }

  lemma RecordedSnoc(r: RunResult, front: seq<Scope>, s: Scope, t: Tree, c: Currents, input: RunInput, budget: nat)
    requires Recorded(r, front, t, c, input) && UniqueIds(front + [s]) && s.id !in r.attempted
        && Attempt(s, t, c, input).scopeId == s.id
    ensures Recorded(RunStep(r, s, t, c, input, budget), front + [s], t, c, input)
  {
    assert forall u :: u in front ==> u in front + [s];
    if Needy(s, t, c) && r.tokens < budget {
      RevisionsSnoc(s, t, c, input, r);
      RowsCovered(r, front, s, t, c, input);
    } else {
      forall u | u in front + [s] && u.id in r.attempted ensures Attempt(u, t, c, input) in r.revisions {
        assert u in front;
      }
    }
  }

  lemma RowsCovered(r: RunResult, front: seq<Scope>, s: Scope, t: Tree, c: Currents, input: RunInput)
    requires Recorded(r, front, t, c, input) && UniqueIds(front + [s]) && s.id !in r.attempted
        && Attempt(s, t, c, input).scopeId == s.id
    ensures var ids, rows := r.attempted + [s.id], r.revisions + [Attempt(s, t, c, input)];
            && (forall x :: x in rows ==>
              x.scopeId in ids && exists u :: u in front + [s] && x == Attempt(u, t, c, input) && x.scopeId == u.id)
            && (forall u :: u in front + [s] && u.id in ids ==> Attempt(u, t, c, input) in rows)
            && (forall id :: id in ids ==> exists u :: u in front + [s] && u.id == id)
  {
    var ids, rows, x := r.attempted + [s.id], r.revisions + [Attempt(s, t, c, input)], Attempt(s, t, c, input);
    assert s in front + [s] && forall u :: u in front ==> u in front + [s];
    forall u | u in front + [s] && u.id in ids ensures Attempt(u, t, c, input) in rows {
      SameScopeSameRow(r, front, s, t, c, input, u);
    }
  }

  lemma SameScopeSameRow(r: RunResult, front: seq<Scope>, s: Scope, t: Tree, c: Currents, input: RunInput, u: Scope)
    requires Covers(r, front, t, c, input) && UniqueIds(front + [s])
    requires u in front + [s] && u.id in r.attempted + [s.id]
    ensures Attempt(u, t, c, input) in r.revisions + [Attempt(s, t, c, input)]
  {
    SameIdSameScope(front + [s], u, s);
    if u.id != s.id {
      assert u in front && u.id in r.attempted;
      assert Attempt(u, t, c, input) in r.revisions;
    }
  }

  lemma RevisionsSnoc(s: Scope, t: Tree, c: Currents, input: RunInput, r: RunResult)
    requires R.DistinctIds(r.revisions, SummaryKey) && s.id !in r.attempted && Attempt(s, t, c, input).scopeId == s.id
    requires forall x :: x in r.revisions ==> x.scopeId in r.attempted
    ensures R.DistinctIds(r.revisions + [Attempt(s, t, c, input)], SummaryKey)
  {
    assert forall i :: 0 <= i < |r.revisions| ==> r.revisions[i] in r.revisions;
  }

  // ----------------------------------------------------------------- repeated runs

  /** The current summary of every scope in the log. */
  function CurrentsOf(log: seq<Summary>): Currents {
    var ids := R.Ids(log, SummaryKey);
    map id | id in ids :: R.Current(log, SummaryKey, id).value
  }

  lemma CurrentsAreCurrent(log: seq<Summary>, id: string)
    ensures CurrentOf(CurrentsOf(log), id) == R.Current(log, SummaryKey, id)
    ensures IdsMatch(CurrentsOf(log))
  {
    R.IdsComplete(log, SummaryKey, id);
    forall k | k in CurrentsOf(log) ensures CurrentsOf(log)[k].scopeId == k { R.IdsComplete(log, SummaryKey, k); }
  }

  /** The log after one run. */
  function RunLog(log: seq<Summary>, scopes: seq<Scope>, t: Tree, input: RunInput, budget: nat): seq<Summary> {
    log + RunOver(scopes, t, CurrentsOf(log), input, budget).revisions
  }

  function RunMany(log: seq<Summary>, scopes: seq<Scope>, t: Tree, inputs: seq<RunInput>, budget: nat): seq<Summary>
    decreases |inputs|
  {
    if inputs == [] then log else RunMany(RunLog(log, scopes, t, inputs[0], budget), scopes, t, inputs[1..], budget)
  }

  /** Each attempt appends exactly the next revision of its scope, so a numbered log stays numbered. */
  lemma RunKeepsNumbered(log: seq<Summary>, scopes: seq<Scope>, t: Tree, input: RunInput, budget: nat)
    requires UniqueIds(scopes) && R.Numbered(log, SummaryKey)
    ensures R.Numbered(RunLog(log, scopes, t, input, budget), SummaryKey)
  {
    var c := CurrentsOf(log);
    CurrentsAreCurrent(log, "");
    RunRevisions(scopes, t, c, input, budget);
    var rows := RunOver(scopes, t, c, input, budget).revisions;
    forall x | x in rows ensures R.IsNext(log, SummaryKey, x) { RevisionIsNext(log, scopes, t, input, x); }
    R.NumberedAppendMany(log, SummaryKey, rows);
  }

  lemma RevisionIsNext(log: seq<Summary>, scopes: seq<Scope>, t: Tree, input: RunInput, x: Summary)
    requires R.Numbered(log, SummaryKey)
    requires exists s :: s in scopes && x == Attempt(s, t, CurrentsOf(log), input) && x.scopeId == s.id
    ensures R.IsNext(log, SummaryKey, x)
    ensures x.revision == NextRevision(R.Current(log, SummaryKey, x.scopeId))
  {
    var s :| s in scopes && x == Attempt(s, t, CurrentsOf(log), input) && x.scopeId == s.id;
    CurrentsAreCurrent(log, s.id);
    R.NumberedCurrent(log, SummaryKey, s.id);
    AttemptMeaning(s, t, R.Current(log, SummaryKey, s.id), input.answers(s.id), input.models, input.now);
  }

  /** After a run, an attempted scope's current summary is the one just written; the others' are unchanged. */
  lemma CurrentAfterRun(log: seq<Summary>, scopes: seq<Scope>, t: Tree, input: RunInput, budget: nat, s: Scope)
    requires UniqueIds(scopes) && R.Numbered(log, SummaryKey) && s in scopes
    ensures var c, r := CurrentsOf(log), RunOver(scopes, t, CurrentsOf(log), input, budget);
            CurrentOf(CurrentsOf(RunLog(log, scopes, t, input, budget)), s.id)
            == if s.id in r.attempted then Some(Attempt(s, t, c, input)) else CurrentOf(c, s.id)
  {
    var c, r := CurrentsOf(log), RunOver(scopes, t, CurrentsOf(log), input, budget);
    CurrentsAreCurrent(log, s.id);
    CurrentsAreCurrent(RunLog(log, scopes, t, input, budget), s.id);
    RowsOfScope(scopes, t, c, input, budget, s);
    if s.id in r.attempted {
      var x := Attempt(s, t, c, input);
      AttemptMeaning(s, t, CurrentOf(c, s.id), input.answers(s.id), input.models, input.now);
      RevisionIsNext(log, scopes, t, input, x);
      R.NumberedCurrent(log, SummaryKey, s.id);
      R.RowBecomesCurrent(log, SummaryKey, r.revisions, x);
    } else {
      R.NoRowNoChange(log, SummaryKey, r.revisions, s.id);
    }
  }

  lemma RowsOfScope(scopes: seq<Scope>, t: Tree, c: Currents, input: RunInput, budget: nat, s: Scope)
    requires UniqueIds(scopes) && IdsMatch(c) && s in scopes
    ensures var r := RunOver(scopes, t, c, input, budget);
            && R.DistinctIds(r.revisions, SummaryKey)
            && (if s.id in r.attempted then Attempt(s, t, c,
              input) in r.revisions else forall x :: x in r.revisions ==> x.scopeId != s.id)
  {
    RunRevisions(scopes, t, c, input, budget);
  }

  // --------------------------------------------------------------------- going quiet

  /** Attempts a scope may still cost: two without a summary, one when it needs a refresh. */
  function Weight(t: Tree, c: Currents): Scope -> nat {
    (s: Scope) => if CurrentOf(c, s.id).None? then 2 else if Needy(s, t, c) then 1 else 0
  }

  function Total(scopes: seq<Scope>, w: Scope -> nat): nat {
    if scopes == [] then 0 else Total(scopes[..|scopes| - 1], w) + w(scopes[|scopes| - 1])
  }

  lemma {:induction false} TotalBounded(scopes: seq<Scope>, w: Scope -> nat, bound: nat)
    requires forall s :: s in scopes ==> w(s) <= bound
    ensures Total(scopes, w) <= bound * |scopes|
  {
    if scopes != [] {
      var n := |scopes| - 1;
      TotalBounded(scopes[..n], w, bound);
      assert bound * (n + 1) == bound * n + bound;
      assert w(scopes[n]) <= bound;
    }
  }

  lemma {:induction false} TotalDrops(scopes: seq<Scope>, w: Scope -> nat, v: Scope -> nat)
    requires forall s :: s in scopes ==> v(s) <= w(s)
    ensures Total(scopes, v) <= Total(scopes, w)
    ensures (exists s :: s in scopes && v(s) < w(s)) ==> Total(scopes, v) < Total(scopes, w)
  {
    if scopes != [] {
      var n := |scopes| - 1;
      assert scopes == scopes[..n] + [scopes[n]];
      TotalDrops(scopes[..n], w, v);
    }
  }

  lemma {:induction false} TotalPositive(scopes: seq<Scope>, w: Scope -> nat, s: Scope)
    requires s in scopes
    ensures Total(scopes, w) >= w(s)
  {
    var n := |scopes| - 1;
    assert scopes == scopes[..n] + [scopes[n]];
    if s != scopes[n] { TotalPositive(scopes[..n], w, s); }
  }

  /** Nothing spent until something is attempted. */
  ghost predicate SpendsOnAttempts(r: RunResult) { r.attempted == [] ==> r.tokens == 0 }

  lemma AttemptStep(r: RunResult, s: Scope, t: Tree, c: Currents, input: RunInput, budget: nat)
    requires budget > 0 && SpendsOnAttempts(r)
    ensures var next := RunStep(r, s, t, c, input, budget);
            SpendsOnAttempts(next) && (r.attempted != [] || Needy(s, t, c) ==> next.attempted != [])
  {
  }

  /** With a positive budget, a run over scopes of which one needs a refresh attempts at least one. */
  lemma {:induction false} SomeAttempt(scopes: seq<Scope>, t: Tree, c: Currents, input: RunInput, budget: nat)
    requires budget > 0
    ensures var r := RunOver(scopes, t, c, input, budget);
            SpendsOnAttempts(r) && ((exists s :: s in scopes && Needy(s, t, c)) ==> r.attempted != [])
  {
    if scopes != [] {
      var front, last := scopes[..|scopes| - 1], scopes[|scopes| - 1];
      SomeAttempt(front, t, c, input, budget);
      assert scopes == front + [last];
      RunOverSnoc(front, last, t, c, input, budget);
      AttemptStep(RunOver(front, t, c, input, budget), last, t, c, input, budget);
      if s :| s in scopes && Needy(s, t, c) && s != last { assert s in front; }
    }
  }

  ghost predicate Quiet(scopes: seq<Scope>, t: Tree, c: Currents) { forall s :: s in scopes ==> !Needy(s, t, c) }

  /** One scope's weight never grows in a run, and drops when it is attempted. */
  lemma WeightAfterRun(log: seq<Summary>, scopes: seq<Scope>, t: Tree, input: RunInput, budget: nat, s: Scope)
    requires UniqueIds(scopes) && R.Numbered(log, SummaryKey) && s in scopes
    ensures var before, after := Weight(t, CurrentsOf(log))(s),
        Weight(t, CurrentsOf(RunLog(log, scopes, t, input, budget)))(s);
            && after <= before
            && (s.id in RunOver(scopes, t, CurrentsOf(log), input, budget).attempted ==> after < before)
  {
    var c := CurrentsOf(log);
    CurrentAfterRun(log, scopes, t, input, budget, s);
    RunVerdicts(scopes, t, c, input, budget, s);
    CurrentsAreCurrent(log, s.id);
    AttemptMeaning(s, t, CurrentOf(c, s.id), input.answers(s.id), input.models, input.now);
  }

  lemma TotalAfterRun(log: seq<Summary>, scopes: seq<Scope>, t: Tree, input: RunInput, budget: nat)
    requires UniqueIds(scopes) && R.Numbered(log, SummaryKey) && budget > 0 && !Quiet(scopes, t, CurrentsOf(log))
    ensures Total(scopes, Weight(t, CurrentsOf(RunLog(log, scopes, t, input, budget)))) < Total(scopes,
        Weight(t, CurrentsOf(log)))
  {
    var c, after := CurrentsOf(log), CurrentsOf(RunLog(log, scopes, t, input, budget));
    CurrentsAreCurrent(log, "");
    RunRevisions(scopes, t, c, input, budget);
    SomeAttempt(scopes, t, c, input, budget);
    forall s | s in scopes
      ensures Weight(t, after)(s) <= Weight(t, c)(s)
      ensures s.id in RunOver(scopes, t, c, input, budget).attempted ==> Weight(t, after)(s) < Weight(t, c)(s) {
      WeightAfterRun(log, scopes, t, input, budget, s);
    }
    assert RunOver(scopes, t, c, input, budget).attempted[0] in RunOver(scopes, t, c, input, budget).attempted;
    TotalDrops(scopes, Weight(t, c), Weight(t, after));
  }

  /** A quiet run attempts nothing and leaves the log as it is. */
  lemma {:induction false} QuietRun(scopes: seq<Scope>, t: Tree, c: Currents, input: RunInput, budget: nat)
    requires Quiet(scopes, t, c)
    ensures RunOver(scopes, t, c, input, budget) == RunResult([], [], [], 0)
  {
    if scopes != [] {
      assert scopes[|scopes| - 1] in scopes;
      QuietRun(scopes[..|scopes| - 1], t, c, input, budget);
    }
  }

  lemma {:induction false} QuietAfterTotal(log: seq<Summary>, scopes: seq<Scope>, t: Tree, inputs: seq<RunInput>,
      budget: nat)
    requires UniqueIds(scopes) && R.Numbered(log, SummaryKey) && budget > 0
    requires |inputs| >= Total(scopes, Weight(t, CurrentsOf(log)))
    ensures Quiet(scopes, t, CurrentsOf(RunMany(log, scopes, t, inputs, budget)))
    decreases |inputs|
  {
    if inputs == [] {
      forall s | s in scopes ensures !Needy(s, t, CurrentsOf(log)) {
        TotalPositive(scopes, Weight(t, CurrentsOf(log)), s);
      }
    } else {
      var next := RunLog(log, scopes, t, inputs[0], budget);
      RunKeepsNumbered(log, scopes, t, inputs[0], budget);
      if Quiet(scopes, t, CurrentsOf(log)) {
        QuietRun(scopes, t, CurrentsOf(log), inputs[0], budget);
        assert next == log;
        QuietStays(log, scopes, t, inputs, budget);
      } else {
        TotalAfterRun(log, scopes, t, inputs[0], budget);
        QuietAfterTotal(next, scopes, t, inputs[1..], budget);
      }
    }
  }

  lemma {:induction false} QuietStays(log: seq<Summary>, scopes: seq<Scope>, t: Tree, inputs: seq<RunInput>,
      budget: nat)
    requires Quiet(scopes, t, CurrentsOf(log))
    ensures RunMany(log, scopes, t, inputs, budget) == log
    decreases |inputs|
  {
    if inputs != [] {
      QuietRun(scopes, t, CurrentsOf(log), inputs[0], budget);
      assert RunLog(log, scopes, t, inputs[0], budget) == log;
      QuietStays(log, scopes, t, inputs[1..], budget);
    }
  }

  /** On a fixed tree and fixed scopes, whatever the providers answer, after two runs per scope nothing needs a
      refresh, and no further run writes anything. */
  lemma RefreshGoesQuiet(log: seq<Summary>, scopes: seq<Scope>, t: Tree, inputs: seq<RunInput>, more: seq<RunInput>,
      budget: nat)
    requires UniqueIds(scopes) && R.Numbered(log, SummaryKey) && budget > 0 && |inputs| >= 2 * |scopes|
    ensures var after := RunMany(log, scopes, t, inputs, budget);
            Quiet(scopes, t, CurrentsOf(after)) && RunMany(after, scopes, t, more, budget) == after
  {
    TotalBounded(scopes, Weight(t, CurrentsOf(log)), 2);
    QuietAfterTotal(log, scopes, t, inputs, budget);
    QuietStays(RunMany(log, scopes, t, inputs, budget), scopes, t, more, budget);
  }
}
