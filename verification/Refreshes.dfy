/** What refreshing the scope summaries does, said of the tree, the answers and the log alone. */
module Refreshes {
  import opened Collections
  import opened Hashes
  import opened Scopes
  import opened Semantic
  import opened SummaryHistory
  import R = Records
  import S = Staleness

  /** The hashes of exactly the indexed files a scope lists or declares a symbol of. */
  ghost predicate MembersAre(hashes: map<string, Digest>, s: Scope, t: Tree) {
    SourcesAre(hashes, s.files, s.symbols, t.files, t.owner)
  }

  ghost predicate HashedAs(h: Digest, s: Scope, t: Tree) { exists m :: MembersAre(m, s, t) && h == TreeFingerprint(m) }

  /** No summary, one that never held anything or whose scope was gone, or one of other sources than the tree's. */
  ghost predicate Due(current: Option<Summary>, s: Scope, t: Tree) {
    || current.None? || current.value.status == Unavailable || current.value.status == Orphaned
    || !HashedAs(current.value.sourceHash, s, t)
  }

  lemma SourcesOf(s: Scope, t: Tree)
    ensures MembersAre(SourceFiles(s, t), s, t)
    ensures forall h :: HashedAs(h, s, t) <==> h == SourceHash(s, t)
  {
    SourcesAreHashes(SourceFiles(s, t), s.files, s.symbols, t.files, t.owner);
    forall m | MembersAre(m, s, t) ensures m == SourceFiles(s, t) {
      SourcesAreHashes(m, s.files, s.symbols, t.files, t.owner);
    }
  }

  lemma DueIsNeedy(s: Scope, t: Tree, c: Currents)
    ensures Due(CurrentOf(c, s.id), s, t) <==> Needy(s, t, c)
  {
    SourcesOf(s, t);
  }

  // --------------------------------------------------------------------- one run

  /** A scope is attempted or deferred, and not both, exactly when it has no summary, or its summary is unavailable or
      orphaned, or carries another hash than that of the scope's files in this tree. */
  lemma RefreshedExactly(scopes: seq<Scope>, t: Tree, c: Currents, input: RunInput, budget: nat, s: Scope)
    requires UniqueIds(scopes) && s in scopes
    ensures var r := RunOver(scopes, t, c, input, budget);
            && (s.id in r.attempted || s.id in r.skipped <==> Due(CurrentOf(c, s.id), s, t))
            && !(s.id in r.attempted && s.id in r.skipped)
  {
    RunVerdicts(scopes, t, c, input, budget, s);
    DueIsNeedy(s, t, c);
  }

  /** The answer has a purpose, and nothing was wrong with it. */
  ghost predicate Usable(a: Answer) {
    a.Parsed? && a.reject == None && exists c :: c in a.purpose && !White(c)
  }

  /** The white space that is stripped from a purpose, by code point. */
  lemma WhiteExactly(c: char)
    ensures var n := c as int;
            White(c) <==>
              || 9 <= n <= 13 || 28 <= n <= 32 || n == 0x85 || n == 0xA0 || n == 0x1680 || 0x2000 <= n <= 0x200A
              || n == 0x2028 || n == 0x2029 || n == 0x202F || n == 0x205F || n == 0x3000
  {
  }

  /** What the calls of one attempt are charged: a call without a response costs nothing. */
  function Charge(a: Answer): nat {
    match a
    case NoResponse(_, _) => 0
    case NotJson(tokens) => tokens
    case Parsed(_, _, _, tokens) => tokens
  }

  ghost function Cost(a: Answers, m: Models): nat {
    Charge(a.first)
    + (if Usable(a.first) then 0
       else Charge(a.second) + if Usable(a.second) || m.fallback.None? then 0 else Charge(a.third))
  }

  /** The cost of attempting these scopes. */
  ghost function Spent(ids: seq<string>, input: RunInput): nat {
    if ids == [] then 0
    else Spent(ids[..|ids| - 1], input) + Cost(input.answers(ids[|ids| - 1]), input.models)
  }

  lemma SpentSnoc(ids: seq<string>, id: string, input: RunInput)
    ensures Spent(ids + [id], input) == Spent(ids, input) + Cost(input.answers(id), input.models)
  {
    assert (ids + [id])[..|ids|] == ids;
  }

  lemma UsableIsAccepted(a: Answer)
    ensures Usable(a) <==> Accepted(a)
  {
  }

  lemma CostIsTokens(a: Answers, m: Models)
    ensures Cost(a, m) == TokensOf(a, CallCount(a, m))
  {
    UsableIsAccepted(a.first);
    UsableIsAccepted(a.second);
    assert TokensOf(a, 1) == Tokens(a.first);
    assert TokensOf(a, 2) == Tokens(a.first) + Tokens(a.second);
    assert TokensOf(a, 3) == Tokens(a.first) + Tokens(a.second) + Tokens(a.third);
  }

  lemma StepSpends(r: RunResult, s: Scope, t: Tree, c: Currents, input: RunInput, budget: nat)
    requires r.tokens == Spent(r.attempted, input)
    ensures var next := RunStep(r, s, t, c, input, budget); next.tokens == Spent(next.attempted, input)
  {
    SpentSnoc(r.attempted, s.id, input);
    CostIsTokens(input.answers(s.id), input.models);
  }

  lemma {:induction false} TokensAreSpent(
    scopes: seq<Scope>, t: Tree, c: Currents, input: RunInput, budget: nat)
    ensures var r := RunOver(scopes, t, c, input, budget); r.tokens == Spent(r.attempted, input)
  {
    if scopes != [] {
      TokensAreSpent(scopes[..|scopes| - 1], t, c, input, budget);
      StepSpends(RunOver(scopes[..|scopes| - 1], t, c, input, budget), scopes[|scopes| - 1], t, c, input, budget);
    }
  }

  /** Scopes are taken in their order, and one that is due is attempted exactly while what the attempts before it cost
      is below the budget. */
  lemma AttemptedInOrder(front: seq<Scope>, s: Scope, t: Tree, c: Currents, input: RunInput, budget: nat)
    ensures var r, next := RunOver(front, t, c, input, budget), RunOver(front + [s], t, c, input, budget);
            var due := Due(CurrentOf(c, s.id), s, t);
            && next.attempted == r.attempted + (if due && Spent(r.attempted, input) < budget then [s.id] else [])
            && next.skipped == r.skipped + (if due && Spent(r.attempted, input) >= budget then [s.id] else [])
  {
    RunOverSnoc(front, s, t, c, input, budget);
    TokensAreSpent(front, t, c, input, budget);
    DueIsNeedy(s, t, c);
  }

  /** Each attempt writes its summary, in the order of the attempts. */
  lemma WrittenInOrder(front: seq<Scope>, s: Scope, t: Tree, c: Currents, input: RunInput, budget: nat)
    ensures var r, next := RunOver(front, t, c, input, budget), RunOver(front + [s], t, c, input, budget);
            && (next.attempted == r.attempted ==> next.revisions == r.revisions)
            && (next.attempted != r.attempted ==>
                  next.revisions == r.revisions
                    + [AttemptSummary(s, t, CurrentOf(c, s.id), input.answers(s.id), input.models, input.now)])
  {
    RunOverSnoc(front, s, t, c, input, budget);
    RunStepWrites(RunOver(front, t, c, input, budget), s, t, c, input, budget);
  }

  lemma RunStepWrites(r: RunResult, s: Scope, t: Tree, c: Currents, input: RunInput, budget: nat)
    ensures var next := RunStep(r, s, t, c, input, budget);
            && (next.attempted == r.attempted ==> next.revisions == r.revisions)
            && (next.attempted != r.attempted ==> next.revisions == r.revisions + [Attempt(s, t, c, input)])
  {
  }

  /** On a fixed tree, once the runs have gone quiet, every scope has a summary that was produced, and it carries the
      hash of the scope's files in the tree. */
  lemma EverySummaryIsOfTheTree(log: seq<Summary>, scopes: seq<Scope>, t: Tree, inputs: seq<RunInput>, budget: nat,
      s: Scope)
    requires UniqueIds(scopes) && R.Numbered(log, SummaryKey) && budget > 0 && |inputs| >= 2 * |scopes| && s in scopes
    ensures var x := R.Current(RunMany(log, scopes, t, inputs, budget), SummaryKey, s.id);
            x.Some? && x.value.status in {Fresh, PossiblyStale, Stale} && HashedAs(x.value.sourceHash, s, t)
  {
    var after := RunMany(log, scopes, t, inputs, budget);
    RefreshGoesQuiet(log, scopes, t, inputs, [], budget);
    CurrentsAreCurrent(after, s.id);
    DueIsNeedy(s, t, CurrentsOf(after));
  }

  // ----------------------------------------------------------------- one attempt

  /** The revision after the current one. */
  ghost predicate Succeeds(current: Option<Summary>, revision: nat) {
    match current
    case None => revision == 1
    case Some(x) => revision == x.revision + 1
  }

  /** The revision an answer was accepted for. */
  ghost predicate Holds(
    x: Summary, s: Scope, t: Tree, current: Option<Summary>, a: Answer, model: string, now: int)
  {
    && a.Parsed? && x.scopeId == s.id && Succeeds(current, x.revision)
    && x.purpose == a.purpose && x.details == a.details && x.model == model
    && HashedAs(x.sourceHash, s, t) && MembersAre(x.sourceFiles, s, t)
    && x.status == Fresh && x.lastError == None && x.generatedAt == now
  }

  /** What is recorded of why the last call failed: no word of what a model answered. */
  ghost predicate Says(error: string, a: Answer) {
    match a
    case NoResponse(exception, _) => error == "provider_error:" + exception
    case NotJson(_) => error == "invalid_json_response"
    case Parsed(_, _, reject, _) =>
      (reject.Some? && Borrowed(reject.value)) || error == "schema_validation_failed"
  }

  /** A reason that reads like one of the other two. No reason for a rejection does. */
  ghost predicate Borrowed(reason: string) { "provider_error:" <= reason || reason == "response was not valid JSON" }

  lemma {:induction false} UpToColonExactly(s: string, rest: string)
    requires ':' !in s
    ensures UpToColon(s + (":" + rest)) == s
  {
    var all := s + (":" + rest);
    if s == [] {
      assert all[0] == ':';
    } else {
      assert s[0] in s && all[0] == s[0];
      assert all[1..] == s[1..] + (":" + rest);
      UpToColonExactly(s[1..], rest);
      assert s == [s[0]] + s[1..];
    }
  }

  lemma NothingStripped(s: string)
    requires forall c :: c in s ==> !White(c)
    ensures StripEnd(StripFront(s)) == s
  {
    if s != [] { assert s[0] in s && s[|s| - 1] in s; }
  }

  /** What is recorded of a failure: the exception's name, or which check failed. */
  lemma SaysExactly(a: Answer)
    ensures Says(SanitizedError(a), a)
  {
    match a {
      case NoResponse(exception, message) =>
        var said := exception + ": " + message;
        var reason := "provider_error:" + said;
        assert reason[|"provider_error:"|..] == said;
        assert said == exception + (":" + (" " + message));
        UpToColonExactly(exception, " " + message);
        NothingStripped(exception);
      case NotJson(_) =>
        assert "response was not valid JSON"[0] != "provider_error:"[0];
      case Parsed(_, _, reject, _) =>
        assert "purpose is empty"[1] != "provider_error:"[1] && "validation failed"[0] != "provider_error:"[0];
        assert |"purpose is empty"| != |NOT_JSON| && |"validation failed"| != |NOT_JSON|;
    }
  }

  /** The revision no answer was accepted for. */
  ghost predicate Falls(
    x: Summary, s: Scope, t: Tree, current: Option<Summary>, last: Answer, m: Models, now: int)
  {
    && Succeeds(current, x.revision) && HashedAs(x.sourceHash, s, t) && MembersAre(x.sourceFiles, s, t)
    && x.lastError.Some? && Says(x.lastError.value, last) && x.generatedAt == now
    && match current
       case None => x.scopeId == s.id && x.status == Unavailable && x.purpose == "" && x.details == ""
         && x.model == m.primary
       case Some(prev) =>
         x.status == Stale && x.scopeId == prev.scopeId && x.purpose == prev.purpose && x.details == prev.details
             && x.model == prev.model
  }

  lemma WrittenHolds(s: Scope, t: Tree, current: Option<Summary>, a: Answer, model: string, now: int)
    requires a.Parsed?
    ensures Holds(Written(s, t, current, a, model, now), s, t, current, a, model, now)
  {
    SourcesOf(s, t);
  }

  lemma FailureFalls(s: Scope, t: Tree, current: Option<Summary>, last: Answer, m: Models, now: int)
    ensures Falls(FailureRevision(s, t, current, last, m, now), s, t, current, last, m, now)
  {
    SourcesOf(s, t);
    SaysExactly(last);
  }

  /** The second call repeats the first prompt when no response came, and asks for a repair when one did, saying what
      was wrong with it. */
  ghost predicate SecondCall(call: Call, first: Answer) {
    && call.provider == Primary
    && match first
       case NoResponse(_, _) => call.prompt == Original
       case NotJson(_) => call.prompt == Repair("response was not valid JSON")
       case Parsed(_, _, Some(reject), _) => call.prompt == Repair(if reject == "" then "validation failed" else reject)
       case Parsed(_, _, None, _) => call.prompt == Repair("purpose is empty")
  }

  /** An attempt, whatever is answered: the first usable answer is what is kept, each further call is made only after
      all before it came to nothing, and after the last nothing is kept of any answer. */
  lemma AttemptExactly(s: Scope, t: Tree, current: Option<Summary>, a: Answers, m: Models, now: int)
    ensures var x, calls := AttemptSummary(s, t, current, a, m, now), CallsMade(a, CallCount(a, m));
            && calls != [] && calls[0] == Call(Primary, Original)
            && (|calls| > 1 ==> SecondCall(calls[1], a.first))
            && (|calls| > 2 ==> calls[2] == Call(Fallback, Original))
            && (Usable(a.first) ==> |calls| == 1 && Holds(x, s, t, current, a.first, m.primary, now))
            && (!Usable(a.first) && Usable(a.second) ==>
                  |calls| == 2 && Holds(x, s, t, current, a.second, m.primary, now))
            && (!Usable(a.first) && !Usable(a.second) && m.fallback == None ==>
                  |calls| == 2 && Falls(x, s, t, current, a.second, m, now))
            && (!Usable(a.first) && !Usable(a.second) && m.fallback.Some? ==>
                  && |calls| == 3
                  && if Usable(a.third) then Holds(x, s, t, current, a.third, m.fallback.value, now)
                     else Falls(x, s, t, current, a.third, m, now))
  {
    UsableIsAccepted(a.first);
    UsableIsAccepted(a.second);
    UsableIsAccepted(a.third);
    var last := LastAnswer(a, m);
    if Accepted(last) { WrittenHolds(s, t, current, last, ModelName(m, CallAt(a, CallCount(a, m) - 1).provider), now); }
    FailureFalls(s, t, current, last, m, now);
  }

  // ------------------------------------------------------------ without a model

  ghost predicate OrphanOf(prev: Summary, now: int, x: Summary) {
    x == prev.(revision := prev.revision + 1, status := Orphaned, generatedAt := now)
  }

  lemma OrphanRow(ids: set<string>, now: int, prev: Summary, x: Summary)
    ensures OrphanStep(ids, now)(prev) == Some(x)
        <==> prev.scopeId !in ids && prev.status != Orphaned && OrphanOf(prev, now, x)
  {
  }

  /** A pass appends an orphaned copy of exactly the current summaries whose scope is gone and that do not say so
      yet. */
  lemma OrphansExactly(log: seq<Summary>, u: Update, x: Summary)
    ensures x in Orphans(log, u)
        <==> && (forall s :: s in u.scopes ==> s.id != x.scopeId)
             && var prev := R.Current(log, SummaryKey, x.scopeId);
               prev.Some? && prev.value.status != Orphaned && OrphanOf(prev.value, u.now, x)
  {
    var ids := set s | s in u.scopes :: s.id;
    var step := OrphanStep(ids, u.now);
    OrphanStepAdvances(ids, u.now);
    R.CurrentsDistinct(log, SummaryKey);
    if x in Orphans(log, u) {
      S.TransitionsFollow(R.Currents(log, SummaryKey), step, SummaryKey);
      var prev :| prev in R.Currents(log, SummaryKey) && step(prev) == Some(x);
      OrphanRow(ids, u.now, prev, x);
      R.CurrentsAre(log, SummaryKey, prev);
    }
    var prev := R.Current(log, SummaryKey, x.scopeId);
    if (forall s :: s in u.scopes ==> s.id != x.scopeId) && prev.Some? && prev.value.status != Orphaned
      && OrphanOf(prev.value, u.now, x)
    {
      OrphanRow(ids, u.now, prev.value, x);
      R.CurrentsAre(log, SummaryKey, prev.value);
      S.TransitionListed(R.Currents(log, SummaryKey), step, prev.value);
    }
  }

  /** A summary of other sources than the tree's, marked with the tree's. */
  ghost predicate MarkFor(prev: Summary, s: Scope, t: Tree, now: int, x: Summary) {
    && prev.status != Unavailable && !HashedAs(prev.sourceHash, s, t)
    && HashedAs(x.sourceHash, s, t) && MembersAre(x.sourceFiles, s, t)
    && x == prev.(revision := prev.revision + 1, status := PossiblyStale, sourceHash := x.sourceHash,
                 sourceFiles := x.sourceFiles, generatedAt := now)
  }

  lemma MarkRow(s: Scope, t: Tree, c: Currents, now: int, x: Summary)
    ensures Marked(s, t, c, now) == Some(x) <==> s.id in c && MarkFor(c[s.id], s, t, now, x)
  {
    SourcesOf(s, t);
    SourcesAreHashes(x.sourceFiles, s.files, s.symbols, t.files, t.owner);
  }

  /** The marks come in the order of the scopes. */
  lemma {:induction false} MarksInOrder(a: seq<Scope>, b: seq<Scope>, t: Tree, c: Currents, now: int)
    ensures Marks(a + b, t, c, now) == Marks(a, t, c, now) + Marks(b, t, c, now)
  {
    if b == [] {
      assert a + b == a;
    } else {
      var n := |b| - 1;
      MarksInOrder(a, b[..n], t, c, now);
      assert (a + b)[..|a + b| - 1] == a + b[..n];
    }
  }

  lemma {:induction false} MarkListed(scopes: seq<Scope>, t: Tree, c: Currents, now: int, x: Summary)
    ensures x in Marks(scopes, t, c, now) <==> exists s :: s in scopes && Marked(s, t, c, now) == Some(x)
  {
    if scopes != [] {
      var front, s := scopes[..|scopes| - 1], scopes[|scopes| - 1];
      assert scopes == front + [s];
      MarkListed(front, t, c, now, x);
    }
  }

  /** Without a provider, exactly the summaries whose scope's files have changed are marked, unless they are
      unavailable. */
  lemma MarksExactly(log: seq<Summary>, u: Update, x: Summary)
    ensures x in Marks(u.scopes, u.tree, CurrentsOf(log), u.now)
        <==> exists s :: s in u.scopes && s.id == x.scopeId
               && var prev := R.Current(log, SummaryKey, s.id); prev.Some? && MarkFor(prev.value, s, u.tree, u.now, x)
  {
    var c := CurrentsOf(log);
    MarkListed(u.scopes, u.tree, c, u.now, x);
    forall s | s in u.scopes
      ensures Marked(s, u.tree, c, u.now) == Some(x)
        <==> s.id == x.scopeId
             && var prev := R.Current(log, SummaryKey, s.id); prev.Some? && MarkFor(prev.value, s, u.tree, u.now, x)
    {
      MarkRow(s, u.tree, c, u.now, x);
      CurrentsAreCurrent(log, s.id);
    }
  }

  /** An update appends the orphaned copies and then, for the others, nothing, the marks, or the run's summaries. */
  lemma UpdateAppends(log: seq<Summary>, u: Update)
    ensures AfterUpdate(log, u) == log + Orphans(log, u) + Others(log, u)
    ensures u.mode == Rebuild ==> Others(log, u) == []
    ensures u.mode == NoProvider ==> Others(log, u) == Marks(u.scopes, u.tree, CurrentsOf(log), u.now)
    ensures u.mode.Refresh? ==>
      Others(log, u) == RunOver(u.scopes, u.tree, CurrentsOf(log), u.mode.input, u.mode.budget).revisions
  {
    AppendAssociates(log, Orphans(log, u), Others(log, u));
  }

  /** The summaries a run writes are those of the scopes it attempts. */
  lemma RunWritesExactly(scopes: seq<Scope>, t: Tree, c: Currents, input: RunInput, budget: nat, x: Summary)
    requires UniqueIds(scopes) && IdsMatch(c)
    ensures var r := RunOver(scopes, t, c, input, budget);
            x in r.revisions <==>
              exists s :: s in scopes && s.id in r.attempted
                && x == AttemptSummary(s, t, CurrentOf(c, s.id), input.answers(s.id), input.models, input.now)
  {
    var r := RunOver(scopes, t, c, input, budget);
    RunRevisions(scopes, t, c, input, budget);
    if x in r.revisions {
      var s :| s in scopes && x == Attempt(s, t, c, input) && x.scopeId == s.id;
      assert s.id in r.attempted;
    }
    if s :| s in scopes && s.id in r.attempted && x == Attempt(s, t, c, input) {
      assert Attempt(s, t, c, input) in r.revisions;
    }
  }
}
