/** What each step of the host plugin does, field by field, and when an activation looks a path up. */
module PluginSteps {
  import opened Collections
  import opened Plugin

  // ---------------------------------------------------------------- admission

  /** `sid` has its context: the one it had, or a new and empty one at the end. */
  ghost predicate Admitted(s: State, t: State, sid: Sid, c: nat) {
    if sid in s.sessions then c == s.sessions[sid] && t.sessions == s.sessions && t.contexts == s.contexts
    else
      && c == |s.contexts| && t.sessions == s.sessions[sid := c]
      && t.contexts == s.contexts + [Context(sid, None, [], [])]
  }

  ghost predicate Full(s: State, sid: Sid) { sid !in s.sessions && |s.sessions| >= 1024 }

  lemma AdmitExactly(s: State, sid: Sid)
    ensures Full(s, sid) <==> Admit(s, sid).None?
    ensures Admit(s, sid).Some? ==>
      var t := Admit(s, sid).value;
      && sid in t.sessions && Admitted(s, t, sid, t.sessions[sid])
      && t == s.(sessions := t.sessions, contexts := t.contexts)
  {
  }

  // --------------------------------------------------------------- activations

  /** A path is marked once a lookup of it has succeeded, and pending while one is open. */
  ghost predicate Marked(p: Paths, sid: Sid, path: Path) { sid in p.activated && path in p.activated[sid] }

  ghost predicate Pending(p: Paths, sid: Sid, path: Path)
    requires sid in p.activating ==> p.activating[sid] < |p.pending|
  {
    sid in p.activating && path in p.pending[p.activating[sid]]
  }

  /** A lookup more, in flight, listed under its path in the session's pending map; nothing else is different. */
  ghost predicate LookupBegun(p: Paths, q: Paths, sid: Sid, c: nat, path: Path) {
    && q.activated == p.activated && sid in q.activating
    && var m := q.activating[sid];
      && m < |q.pending| && q.lookups == p.lookups + [Lookup(sid, c, path, m, InFlight)]
      && (if sid in p.activating then m == p.activating[sid] && |q.pending| == |p.pending|
          else m == |p.pending| && |q.pending| == m + 1)
      && (forall other :: other != sid ==> (other in q.activating <==> other in p.activating))
      && (forall other :: other != sid && other in p.activating ==> q.activating[other] == p.activating[other])
      && (forall k :: 0 <= k < |p.pending| && k != m ==> q.pending[k] == p.pending[k])
      && q.pending[m] == (if m < |p.pending| then p.pending[m] else map[])[path := |p.lookups|]
  }

  lemma BeginExactly(p: Paths, sid: Sid, c: nat, path: Path)
    requires sid in p.activating ==> p.activating[sid] < |p.pending|
    ensures var q := BeginLookup(p, sid, c, path);
            if Marked(p, sid, path) || Pending(p, sid, path) then q == p else LookupBegun(p, q, sid, c, path)
  {
  }

  /** An activation admits the session, unless there are too many, and looks the path up unless it is marked or
      pending. */
  lemma ActivationExactly(s: State, sid: Sid, path: Path)
    requires Inv(s)
    ensures var t := Next(s, Activate(sid, path));
            if Full(s, sid) then t == s
            else
              && sid in t.sessions && Admitted(s, t, sid, t.sessions[sid])
              && t == s.(sessions := t.sessions, contexts := t.contexts, paths := t.paths)
              && if Marked(s.paths, sid, path) || Pending(s.paths, sid, path) then t.paths == s.paths
                 else LookupBegun(s.paths, t.paths, sid, t.sessions[sid], path)
  {
    AdmitExactly(s, sid);
    if Admit(s, sid).Some? { BeginExactly(s.paths, sid, Admit(s, sid).value.sessions[sid], path); }
  }

  // ------------------------------------------------------------------- answers

  ghost predicate Shows(scopes: seq<ActiveScope>, id: string) { exists a :: a in scopes && a.info.scopeId == id }

  ghost predicate NoneTwice(scopes: seq<ActiveScope>) {
    forall i, j :: 0 <= i < j < |scopes| ==> scopes[i].info.scopeId != scopes[j].info.scopeId
  }

  /** The scopes shown before stay, each scope found is shown once, and what is new is the first found of its id. */
  ghost predicate Extended(before: seq<ActiveScope>, after: seq<ActiveScope>, found: seq<ScopeInfo>, l: nat) {
    && before <= after
    && (forall id :: Shows(after, id) <==> Shows(before, id) || exists x :: x in found && x.scopeId == id)
    && (forall k :: |before| <= k < |after| ==> after[k].lookup == l && FirstFound(found, after[k].info))
    && (NoneTwice(before) ==> NoneTwice(after))
  }

  ghost predicate FirstFound(found: seq<ScopeInfo>, x: ScopeInfo) {
    exists i :: 0 <= i < |found| && found[i] == x && forall j :: 0 <= j < i ==> found[j].scopeId != x.scopeId
  }

  lemma FirstFoundSnoc(found: seq<ScopeInfo>, last: ScopeInfo, x: ScopeInfo)
    requires FirstFound(found, x)
    ensures FirstFound(found + [last], x)
  {
    var i :| 0 <= i < |found| && found[i] == x && forall j :: 0 <= j < i ==> found[j].scopeId != x.scopeId;
    assert (found + [last])[i] == x;
    assert forall j :: 0 <= j < i ==> (found + [last])[j] == found[j];
  }

  lemma ShowsSnoc(scopes: seq<ActiveScope>, a: ActiveScope, id: string)
    ensures Shows(scopes + [a], id) <==> Shows(scopes, id) || a.info.scopeId == id
  {
    assert a in scopes + [a] && forall b :: b in scopes ==> b in scopes + [a];
  }

  lemma ExtendedSnoc(
    before: seq<ActiveScope>, middle: seq<ActiveScope>, after: seq<ActiveScope>, front: seq<ScopeInfo>, x: ScopeInfo,
        l: nat)
    requires Extended(before, middle, front, l)
    requires after == if Shows(middle, x.scopeId) then middle else middle + [ActiveScope(x, l)]
    ensures Extended(before, after, front + [x], l)
  {
    var found := front + [x];
    assert forall y :: y in found <==> y in front || y == x;
    forall k | |before| <= k < |middle| ensures FirstFound(found, middle[k].info) {
      FirstFoundSnoc(front, x, middle[k].info);
    }
    forall id ensures Shows(after, id) <==> Shows(middle, id) || x.scopeId == id {
      ShowsSnoc(middle, ActiveScope(x, l), id);
    }
    if !Shows(middle, x.scopeId) {
      forall j | 0 <= j < |front| ensures found[j].scopeId != x.scopeId { assert found[j] in front; }
      assert found[|front|] == x;
      assert FirstFound(found, x);
      forall i | 0 <= i < |middle| ensures middle[i].info.scopeId != x.scopeId { assert middle[i] in middle; }
    }
  }

  lemma {:induction false} AddedExactly(before: seq<ActiveScope>, found: seq<ScopeInfo>, l: nat)
    ensures Extended(before, AddScopes(before, found, l), found, l)
  {
    if found != [] {
      var front, x := found[..|found| - 1], found[|found| - 1];
      AddedExactly(before, front, l);
      assert found == front + [x];
      ExtendedSnoc(before, AddScopes(before, front, l), AddScopes(before, found, l), front, x, l);
    }
  }

  /** Only the lookup's phase changes, to this one. */
  ghost predicate Phased(p: Paths, q: Paths, l: nat, phase: LookupPhase) {
    && l < |p.lookups| && |q.lookups| == |p.lookups| && q.lookups[l] == p.lookups[l].(phase := phase)
    && forall k :: 0 <= k < |p.lookups| && k != l ==> q.lookups[k] == p.lookups[k]
  }

  /** The path is marked and every scope found is shown in the context of the lookup, and of no other. */
  ghost predicate Used(s: State, t: State, look: Lookup, found: seq<ScopeInfo>, l: nat) {
    && (forall sid, p :: Marked(t.paths, sid, p) <==> Marked(s.paths, sid, p) || (sid == look.sid && p == look.path))
    && |t.contexts| == |s.contexts| && look.ctx < |s.contexts|
    && (forall c :: 0 <= c < |s.contexts| && c != look.ctx ==> t.contexts[c] == s.contexts[c])
    && t.contexts[look.ctx] == s.contexts[look.ctx].(scopes := t.contexts[look.ctx].scopes)
    && Extended(s.contexts[look.ctx].scopes, t.contexts[look.ctx].scopes, found, l)
  }

  lemma SettleUses(s: State, l: nat, found: seq<ScopeInfo>)
    requires SessionsOk(s) && l < |s.paths.lookups|
    requires var look := s.paths.lookups[l]; look.sid in s.sessions && s.sessions[look.sid] == look.ctx
    ensures Used(s, Settle(s, l, Some(found)), s.paths.lookups[l], found, l)
  {
    AddedExactly(s.contexts[s.paths.lookups[l].ctx].scopes, found, l);
  }

  lemma SettleFrame(s: State, l: nat, result: Option<seq<ScopeInfo>>)
    requires SessionsOk(s) && l < |s.paths.lookups|
    ensures var t, look := Settle(s, l, result), s.paths.lookups[l];
            && Phased(s.paths, t.paths, l, Settled(result.Some?))
            && t == s.(paths := t.paths, contexts := t.contexts)
            && t.paths == s.paths.(lookups := t.paths.lookups, activated := t.paths.activated)
            && (result == None || look.sid !in s.sessions || s.sessions[look.sid] != look.ctx ==>
                  t.contexts == s.contexts && t.paths.activated == s.paths.activated)
  {
  }

  /** An answer to a lookup in flight settles it. When it succeeded and its incarnation is live, the path is marked and
      every scope found is shown in that incarnation's context; otherwise nothing else happens. */
  lemma SettlesExactly(s: State, l: nat, result: Option<seq<ScopeInfo>>)
    requires Inv(s)
    ensures var t := Next(s, LookupSettles(l, result));
            if l >= |s.paths.lookups| || s.paths.lookups[l].phase != InFlight then t == s
            else
              var look := s.paths.lookups[l];
              && Phased(s.paths, t.paths, l, Settled(result.Some?))
              && t == s.(paths := t.paths, contexts := t.contexts)
              && t.paths == s.paths.(lookups := t.paths.lookups, activated := t.paths.activated)
              && if result.Some? && look.sid in s.sessions && s.sessions[look.sid] == look.ctx
                 then Used(s, t, look, result.value, l)
                 else t.contexts == s.contexts && t.paths.activated == s.paths.activated
  {
    if l < |s.paths.lookups| && s.paths.lookups[l].phase == InFlight {
      SettlesTo(s, l, result);
      SettleFrame(s, l, result);
      var look := s.paths.lookups[l];
      if result.Some? && look.sid in s.sessions && s.sessions[look.sid] == look.ctx { SettleUses(s, l, result.value); }
    }
  }

  /** The end of an activation: the lookup is closed and out of its map; the map goes when that leaves it empty and it
      is still its session's. */
  lemma CleansExactly(s: State, l: nat)
    requires Inv(s)
    ensures var t := Next(s, Step.LookupCleanup(l));
            if l >= |s.paths.lookups| || !s.paths.lookups[l].phase.Settled? then t == s
            else
              var look := s.paths.lookups[l];
              var m := look.pendingMap;
              && t == s.(paths := t.paths) && Phased(s.paths, t.paths, l, Closed(look.phase.ok))
              && t.paths.activated == s.paths.activated && m < |s.paths.pending| == |t.paths.pending|
              && (forall k :: 0 <= k < |s.paths.pending| && k != m ==> t.paths.pending[k] == s.paths.pending[k])
              && t.paths.pending[m] == s.paths.pending[m] - {look.path}
              && (forall sid :: sid in t.paths.activating <==>
                    sid in s.paths.activating
                    && !(sid == look.sid && s.paths.activating[sid] == m && t.paths.pending[m] == map[]))
              && (forall sid :: sid in t.paths.activating ==> t.paths.activating[sid] == s.paths.activating[sid])
  {
    if l < |s.paths.lookups| && s.paths.lookups[l].phase.Settled? {
      CleansTo(s, l);
      assert Open(s.paths.lookups[l]);
      CleanupIs(s.paths, l);
    }
  }

  lemma CleanupIs(p: Paths, l: nat)
    requires l < |p.lookups| && p.lookups[l].phase.Settled?
    requires var look := p.lookups[l];
             && look.pendingMap < |p.pending| && look.path in p.pending[look.pendingMap]
             && p.pending[look.pendingMap][look.path] == l
    ensures var q, look := Cleanup(p, l), p.lookups[l];
            var m := look.pendingMap;
            && Phased(p, q, l, Closed(look.phase.ok)) && q.activated == p.activated && |q.pending| == |p.pending|
            && (forall k :: 0 <= k < |p.pending| && k != m ==> q.pending[k] == p.pending[k])
            && q.pending[m] == p.pending[m] - {look.path}
            && (forall sid :: sid in q.activating <==>
                  sid in p.activating && !(sid == look.sid && p.activating[sid] == m && q.pending[m] == map[]))
            && (forall sid :: sid in q.activating ==> q.activating[sid] == p.activating[sid])
  {
  }

  // ------------------------------------------------------------ events and gates

  /** One more initialization, queued behind the session's gate, and now its gate. */
  ghost predicate Registered(g: Inits, h: Inits, sid: Sid, c: nat, kind: InitKind) {
    && |h.ops| == |g.ops| + 1 && h.ops[..|g.ops|] == g.ops
    && h.ops[|g.ops|] == InitOp(sid, c, kind, if sid in g.initializing then Some(g.initializing[sid]) else None, Queued)
    && h.initializing == g.initializing[sid := |g.ops|]
  }

  /** A created session is admitted and registers an initialization; a compacted one does when it is known. */
  lemma EventsExactly(s: State, sid: Sid)
    requires SessionsOk(s)
    ensures var t := Next(s, CreatedEvent(sid));
            if Full(s, sid) then t == s
            else
              && sid in t.sessions && Admitted(s, t, sid, t.sessions[sid])
              && t == s.(sessions := t.sessions, contexts := t.contexts, inits := t.inits)
              && Registered(s.inits, t.inits, sid, t.sessions[sid], CreatedInit)
    ensures var t := Next(s, CompactedEvent(sid));
            if sid !in s.sessions then t == s
            else t == s.(inits := t.inits) && Registered(s.inits, t.inits, sid, s.sessions[sid], CompactedInit)
  {
    AdmitExactly(s, sid);
  }

  /** `b` is `a` without `sid`, and otherwise the same. */
  ghost predicate Without<V>(a: map<Sid, V>, b: map<Sid, V>, sid: Sid) {
    && (forall k :: k in b <==> k in a && k != sid) && (forall k :: k in b ==> b[k] == a[k])
  }

  /** A deleted session leaves its four maps; contexts, lookups and initializations outstanding stay. */
  lemma DeletesExactly(s: State, sid: Sid)
    requires SessionsOk(s)
    ensures var t := Next(s, DeletedEvent(sid));
            && Without(s.sessions, t.sessions, sid) && Without(s.paths.activated, t.paths.activated, sid)
            && Without(s.paths.activating, t.paths.activating, sid)
            && Without(s.inits.initializing, t.inits.initializing, sid)
            && t.contexts == s.contexts && t.paths.pending == s.paths.pending && t.paths.lookups == s.paths.lookups
            && t.inits.ops == s.inits.ops && t.transforms == s.transforms && t.trace == s.trace
  {
  }

  /** The operation goes to this phase, and no other operation and no gate changes. */
  ghost predicate Moved(g: Inits, h: Inits, i: nat, phase: InitPhase) {
    && i < |g.ops| && |h.ops| == |g.ops| && h.ops[i] == g.ops[i].(phase := phase) && h.initializing == g.initializing
    && forall k :: 0 <= k < |g.ops| && k != i ==> h.ops[k] == g.ops[k]
  }

  ghost predicate PrecedingDone(g: Inits, gate: Option<nat>) {
    match gate
    case None => true
    case Some(k) => k < |g.ops| && g.ops[k].phase == Finished
  }

  /** What follows the hard bootstrap: a created session still awaits the soft one, a compacted one is done. */
  ghost predicate Follows(kind: InitKind, phase: InitPhase) {
    match kind
    case CreatedInit => phase == AwaitingSoft
    case CompactedInit => phase == Finished
  }

  ghost predicate CanStart(s: State, i: nat) {
    i < |s.inits.ops| && s.inits.ops[i].phase == Queued && PrecedingDone(s.inits, s.inits.ops[i].prev)
  }

  /** A queued initialization starts once the one before it is done: it awaits the hard bootstrap, or goes past it when
      its session is gone. */
  lemma StartsExactly(s: State, i: nat)
    requires SessionsOk(s)
    ensures var t := Next(s, InitStarts(i));
            if !CanStart(s, i) then t == s
            else
              var op := s.inits.ops[i];
              && t == s.(inits := t.inits) && i < |t.inits.ops| && Moved(s.inits, t.inits, i, t.inits.ops[i].phase)
              && if op.sid in s.sessions then t.inits.ops[i].phase == AwaitingHard
                 else Follows(op.kind, t.inits.ops[i].phase)
  {
  }

  /** Only this context changes, to this. */
  ghost predicate Replaced(a: seq<Context>, b: seq<Context>, c: nat, x: Context) {
    c < |a| && |b| == |a| && b[c] == x && forall k :: 0 <= k < |a| && k != c ==> b[k] == a[k]
  }

  /** The hard bootstrap, if there is one, becomes that of the session's live context, and the operation moves on. */
  lemma HardExactly(s: State, i: nat, hard: Option<string>)
    requires SessionsOk(s)
    ensures var t := Next(s, HardArrives(i, hard));
            if i >= |s.inits.ops| || s.inits.ops[i].phase != AwaitingHard then t == s
            else
              var op := s.inits.ops[i];
              && t == s.(inits := t.inits, contexts := t.contexts)
              && i < |t.inits.ops| && Moved(s.inits, t.inits, i, t.inits.ops[i].phase)
              && Follows(op.kind, t.inits.ops[i].phase)
              && if hard.Some? && op.sid in s.sessions
                 then Replaced(s.contexts, t.contexts, s.sessions[op.sid],
                   s.contexts[s.sessions[op.sid]].(hard := hard))
                 else t.contexts == s.contexts
  {
  }

  /** The soft bootstrap, if there is one, is queued for the session's live context, and the operation is finished. */
  lemma SoftExactly(s: State, i: nat, soft: Option<string>)
    requires SessionsOk(s)
    ensures var t := Next(s, SoftArrives(i, soft));
            if i >= |s.inits.ops| || s.inits.ops[i].phase != AwaitingSoft then t == s
            else
              var op := s.inits.ops[i];
              && t == s.(inits := t.inits, contexts := t.contexts, trace := t.trace)
              && Moved(s.inits, t.inits, i, Finished)
              && if soft.Some? && op.sid in s.sessions then
                   var c := s.sessions[op.sid];
                   && Replaced(s.contexts, t.contexts, c, s.contexts[c].(events := s.contexts[c].events + [soft.value]))
                   && t.trace == Trace(s.trace.queued + [(c, soft.value)], s.trace.shown)
                 else t.contexts == s.contexts && t.trace == s.trace
  {
  }

  /** A finished initialization takes its own gate away, and no later one's. */
  lemma ClearsExactly(s: State, i: nat)
    requires SessionsOk(s)
    ensures var t := Next(s, InitCleared(i));
            if i >= |s.inits.ops| || s.inits.ops[i].phase != Finished then t == s
            else
              var sid := s.inits.ops[i].sid;
              && t == s.(inits := s.inits.(initializing := t.inits.initializing))
              && if sid in s.inits.initializing && s.inits.initializing[sid] == i
                 then Without(s.inits.initializing, t.inits.initializing, sid)
                 else t.inits.initializing == s.inits.initializing
  {
  }

  // ---------------------------------------------------------------- the prompt

  ghost predicate CanResume(s: State, k: nat) {
    k < |s.transforms| && s.transforms[k].phase == Waiting && PrecedingDone(s.inits, s.transforms[k].waits)
  }

  /** A hook call on a known session takes its context and its gate. Once that gate is open it shows the context and
      drains its one-shot texts, or, for a title, leaves them. */
  lemma PromptExactly(s: State, sid: Sid, k: nat, title: bool)
    requires Inv(s)
    ensures var t := Next(s, TransformBegins(sid));
            if sid !in s.sessions then t == s
            else t == s.(transforms := s.transforms + [Transform(
              s.sessions[sid], if sid in s.inits.initializing then Some(s.inits.initializing[sid]) else None,
              |s.inits.ops|, Waiting)])
    ensures var t := Next(s, TransformResumes(k, title));
            if !CanResume(s, k) then t == s
            else
              var c := s.transforms[k].ctx;
              && c < |s.contexts| && t == s.(transforms := t.transforms, contexts := t.contexts, trace := t.trace)
              && |t.transforms| == |s.transforms|
              && t.transforms[k] == s.transforms[k].(phase := if title then Skipped else Rendered)
              && (forall j :: 0 <= j < |s.transforms| && j != k ==> t.transforms[j] == s.transforms[j])
              && (title ==> t.contexts == s.contexts && t.trace == s.trace)
              && (!title ==>
                    && Replaced(s.contexts, t.contexts, c, s.contexts[c].(events := []))
                    && t.trace.queued == s.trace.queued && |t.trace.shown| == |s.trace.shown| + |s.contexts[c].events|
                    && t.trace.shown[..|s.trace.shown|] == s.trace.shown
                    && forall j :: 0 <= j < |s.contexts[c].events| ==>
                         t.trace.shown[|s.trace.shown| + j] == (c, s.contexts[c].events[j]))
  {
    if CanResume(s, k) { ResumesTo(s, k, title); }
  }

  // ------------------------------------------------------- when a path is looked up

  /** Every map belongs to one session, and to the incarnation whose lookups are in it; a path is marked only for a
      success of the live incarnation. */
  ghost predicate MapsOwned(s: State) {
    && (forall l :: 0 <= l < |s.paths.lookups| ==> s.paths.lookups[l].pendingMap < |s.paths.pending|)
    && (forall a, b :: a in s.paths.activating && b in s.paths.activating && a != b ==>
          s.paths.activating[a] != s.paths.activating[b])
    && (forall l, sid :: 0 <= l < |s.paths.lookups| && sid in s.paths.activating
                         && s.paths.lookups[l].pendingMap == s.paths.activating[sid] ==>
          sid in s.sessions && s.paths.lookups[l].ctx == s.sessions[sid])
    && (forall sid, path :: Marked(s.paths, sid, path) ==>
      sid in s.sessions && HasSuccess(s.paths, s.sessions[sid], path))
  }

  ghost predicate HasSuccess(p: Paths, c: nat, path: Path) {
    exists l :: 0 <= l < |p.lookups| && p.lookups[l].ctx == c && p.lookups[l].path == path && Succeeded(p.lookups[l])
  }

  lemma SuccessStays(p: Paths, q: Paths, c: nat, path: Path)
    requires HasSuccess(p, c, path) && |p.lookups| <= |q.lookups|
    requires forall l :: 0 <= l < |p.lookups| ==>
      && q.lookups[l].ctx == p.lookups[l].ctx && q.lookups[l].path == p.lookups[l].path
      && (Succeeded(p.lookups[l]) ==> Succeeded(q.lookups[l]))
    ensures HasSuccess(q, c, path)
  {
    var l :| 0 <= l < |p.lookups| && p.lookups[l].ctx == c && p.lookups[l].path == path && Succeeded(p.lookups[l]);
    assert Succeeded(q.lookups[l]);
  }

  /** A step that leaves sessions and path maps alone. */
  lemma SamePathsOwned(s: State, t: State)
    requires MapsOwned(s) && t.paths == s.paths
    requires forall sid :: sid in s.sessions ==> sid in t.sessions && t.sessions[sid] == s.sessions[sid]
    ensures MapsOwned(t)
  {
  }

  lemma BegunOwned(s: State, t: State, sid: Sid, path: Path)
    requires Inv(s) && MapsOwned(s) && sid in s.sessions && t == s.(paths := t.paths)
    requires LookupBegun(s.paths, t.paths, sid, s.sessions[sid], path)
    ensures MapsOwned(t)
  {
    BegunMaps(s.paths, t.paths, sid, s.sessions[sid], path);
    forall k, p | Marked(t.paths, k, p) ensures k in t.sessions && HasSuccess(t.paths, t.sessions[k], p) {
      assert Marked(s.paths, k, p);
      SuccessStays(s.paths, t.paths, s.sessions[k], p);
    }
  }

  lemma BegunMaps(p: Paths, q: Paths, sid: Sid, c: nat, path: Path)
    requires (forall k :: k in p.activating ==> p.activating[k] < |p.pending|) && LookupBegun(p, q, sid, c, path)
    requires forall a, b :: a in p.activating && b in p.activating && a != b ==> p.activating[a] != p.activating[b]
    requires forall l :: 0 <= l < |p.lookups| ==> p.lookups[l].pendingMap < |p.pending|
    ensures forall a, b :: a in q.activating && b in q.activating && a != b ==> q.activating[a] != q.activating[b]
    ensures forall l :: 0 <= l < |q.lookups| ==> q.lookups[l].pendingMap < |q.pending|
    ensures forall l, k :: 0 <= l < |q.lookups| && k in q.activating && q.lookups[l].pendingMap == q.activating[k] ==>
      (l == |p.lookups| && k == sid) || (l < |p.lookups| && k in p.activating && p.activating[k] == q.activating[k])
  {
  }

  lemma ActivateKeepsOwned(s: State, sid: Sid, path: Path)
    requires Inv(s) && MapsOwned(s)
    ensures MapsOwned(Next(s, Activate(sid, path)))
  {
    ActivationExactly(s, sid, path);
    var t := Next(s, Activate(sid, path));
    if !Full(s, sid) {
      var u := s.(sessions := t.sessions, contexts := t.contexts);
      SamePathsOwned(s, u);
      AdmitExactly(s, sid);
      AdmitKeepsInv(s, sid);
      if t.paths != s.paths { BegunOwned(u, t, sid, path); }
    }
  }

  lemma PhaseOwned(s: State, t: State, l: nat, phase: LookupPhase)
    requires MapsOwned(s) && t.sessions == s.sessions && Phased(s.paths, t.paths, l, phase)
    requires Succeeded(s.paths.lookups[l]) ==> Succeeded(t.paths.lookups[l])
    requires |t.paths.pending| == |s.paths.pending|
    requires forall k :: k in t.paths.activating ==>
        k in s.paths.activating && t.paths.activating[k] == s.paths.activating[k]
    requires forall k, p :: Marked(t.paths, k, p) ==>
      Marked(s.paths, k, p) || (k in t.sessions && HasSuccess(t.paths, t.sessions[k], p))
    ensures MapsOwned(t)
  {
    forall k, p | Marked(t.paths, k, p) ensures k in t.sessions && HasSuccess(t.paths, t.sessions[k], p) {
      if Marked(s.paths, k, p) { SuccessStays(s.paths, t.paths, s.sessions[k], p); }
    }
  }

  lemma SettleKeepsOwned(s: State, l: nat, result: Option<seq<ScopeInfo>>)
    requires Inv(s) && MapsOwned(s)
    ensures MapsOwned(Next(s, LookupSettles(l, result)))
  {
    SettlesExactly(s, l, result);
    var t := Next(s, LookupSettles(l, result));
    if l < |s.paths.lookups| && s.paths.lookups[l].phase == InFlight {
      var look := s.paths.lookups[l];
      forall k, p | Marked(t.paths, k, p)
        ensures Marked(s.paths, k, p) || (k in t.sessions && HasSuccess(t.paths, t.sessions[k], p))
      {
        assert t.paths.lookups[l].ctx == look.ctx && t.paths.lookups[l].path == look.path;
      }
      PhaseOwned(s, t, l, Settled(result.Some?));
    }
  }

  lemma CleanupKeepsOwned(s: State, l: nat)
    requires Inv(s) && MapsOwned(s)
    ensures MapsOwned(Next(s, Step.LookupCleanup(l)))
  {
    CleansExactly(s, l);
    var t := Next(s, Step.LookupCleanup(l));
    if l < |s.paths.lookups| && s.paths.lookups[l].phase.Settled? {
      PhaseOwned(s, t, l, Closed(s.paths.lookups[l].phase.ok));
    }
  }

  lemma DeleteKeepsOwned(s: State, sid: Sid)
    requires Inv(s) && MapsOwned(s)
    ensures MapsOwned(Next(s, DeletedEvent(sid)))
  {
    DeletesExactly(s, sid);
    var t := Next(s, DeletedEvent(sid));
    forall k, p | Marked(t.paths, k, p) ensures k in t.sessions && HasSuccess(t.paths, t.sessions[k], p) {
      assert Marked(s.paths, k, p);
      SuccessStays(s.paths, t.paths, s.sessions[k], p);
    }
  }

  lemma OtherStepsKeepPaths(s: State, step: Step)
    requires Inv(s) && !OfPaths(step) && !step.DeletedEvent?
    ensures var t := Next(s, step);
            t.paths == s.paths
                && forall sid :: sid in s.sessions ==> sid in t.sessions && t.sessions[sid] == s.sessions[sid]
  {
    match step {
      case CreatedEvent(sid) => EventsExactly(s, sid);
      case CompactedEvent(sid) => EventsExactly(s, sid);
      case InitStarts(i) => StartsExactly(s, i);
      case HardArrives(i, hard) => HardExactly(s, i, hard);
      case SoftArrives(i, soft) => SoftExactly(s, i, soft);
      case InitCleared(i) => ClearsExactly(s, i);
      case TransformBegins(sid) => PromptExactly(s, sid, 0, false);
      case TransformResumes(k, title) => PromptExactly(s, "", k, title);
    }
  }

  lemma NextKeepsOwned(s: State, step: Step)
    requires Inv(s) && MapsOwned(s)
    ensures MapsOwned(Next(s, step))
  {
    match step {
      case Activate(sid, path) => ActivateKeepsOwned(s, sid, path);
      case LookupSettles(l, result) => SettleKeepsOwned(s, l, result);
      case LookupCleanup(l) => CleanupKeepsOwned(s, l);
      case DeletedEvent(sid) => DeleteKeepsOwned(s, sid);
      case _ =>
        OtherStepsKeepPaths(s, step);
        SamePathsOwned(s, Next(s, step));
    }
  }

  lemma {:induction false} EveryRunKeepsOwned(steps: seq<Step>)
    ensures MapsOwned(After(steps))
  {
    if steps != [] {
      var front := steps[..|steps| - 1];
      EveryRunKeepsOwned(front);
      EveryRunKeepsInv(front);
      NextKeepsOwned(After(front), steps[|steps| - 1]);
    }
  }

  /** Some lookup of the path by this incarnation is open or has succeeded. */
  ghost predicate Answering(p: Paths, c: nat, path: Path) {
    exists l :: 0 <= l < |p.lookups| && p.lookups[l].ctx == c && p.lookups[l].path == path
                && p.lookups[l].phase != Closed(false)
  }

  lemma AnsweringExactly(s: State, sid: Sid, path: Path)
    requires Inv(s) && MapsOwned(s) && sid in s.sessions
    ensures Answering(s.paths, s.sessions[sid], path) <==> Marked(s.paths, sid, path) || Pending(s.paths, sid, path)
  {
    var p, c := s.paths, s.sessions[sid];
    if Marked(p, sid, path) || Pending(p, sid, path) { FoundHere(s, sid, path); }
    if Answering(p, c, path) {
      var l :| 0 <= l < |p.lookups| && p.lookups[l].ctx == c && p.lookups[l].path == path
          && p.lookups[l].phase != Closed(false);
      AnsweredHere(s, sid, l);
    }
  }

  lemma FoundHere(s: State, sid: Sid, path: Path)
    requires Inv(s) && MapsOwned(s) && sid in s.sessions && (Marked(s.paths, sid, path) || Pending(s.paths, sid, path))
    ensures Answering(s.paths, s.sessions[sid], path)
  {
    var p, c := s.paths, s.sessions[sid];
    if Marked(p, sid, path) {
      var l :| 0 <= l < |p.lookups| && p.lookups[l].ctx == c && p.lookups[l].path == path && Succeeded(p.lookups[l]);
      assert p.lookups[l].phase != Closed(false);
    } else {
      var l := p.pending[p.activating[sid]][path];
      assert Open(p.lookups[l]) && p.lookups[l].pendingMap == p.activating[sid];
    }
  }

  lemma AnsweredHere(s: State, sid: Sid, l: nat)
    requires Inv(s) && sid in s.sessions && l < |s.paths.lookups|
    requires var look := s.paths.lookups[l]; look.ctx == s.sessions[sid] && look.phase != Closed(false)
    ensures var path := s.paths.lookups[l].path; Marked(s.paths, sid, path) || Pending(s.paths, sid, path)
  {
    var look := s.paths.lookups[l];
    assert look.sid == sid && Live(s.sessions, look.sid, look.ctx);
    assert Open(look) || Succeeded(look);
  }

  /** In every run: an activation by a session that is there, or for which there is room, starts a lookup exactly when
      none by this incarnation for this path is open or has succeeded. A failed one is tried again, and no other. */
  lemma ActivationLooksUpExactly(steps: seq<Step>, sid: Sid, path: Path)
    ensures var s, t := After(steps), Next(After(steps), Activate(sid, path));
            !Full(s, sid) ==>
              && sid in t.sessions
              && if Answering(s.paths, t.sessions[sid], path) then t.paths.lookups == s.paths.lookups
                 else
                   && |t.paths.lookups| == |s.paths.lookups| + 1 && s.paths.lookups < t.paths.lookups
                   && var look := t.paths.lookups[|s.paths.lookups|];
                     look.sid == sid && look.ctx == t.sessions[sid] && look.path == path && look.phase == InFlight
  {
    var s := After(steps);
    EveryRunKeepsInv(steps);
    EveryRunKeepsOwned(steps);
    ActivationExactly(s, sid, path);
    if sid in s.sessions {
      AnsweringExactly(s, sid, path);
    } else {
      assert !Answering(s.paths, |s.contexts|, path);
    }
  }
}
