/** The host plugin's session protocol. Each step is one synchronous stretch between awaits; promises settle in any
    order, and a session can be deleted and created again while they are outstanding. */
module Plugin {
  import opened Collections

  type Sid = string
  type Path = string

  const MAX_SESSIONS: nat := 1024

  datatype ScopeInfo = ScopeInfo(scopeId: string, text: string)

  /** A rendered scope and the lookup that brought it. */
  datatype ActiveScope = ActiveScope(info: ScopeInfo, lookup: nat)

  /** One incarnation of a session: the context object made when it was admitted. */
  datatype Context = Context(sid: Sid, hard: Option<string>, scopes: seq<ActiveScope>, events: seq<string>)

  datatype LookupPhase = InFlight | Settled(ok: bool) | Closed(ok: bool)

  /** A call of `scopeFor`: who asked, and the pending-paths map it sits in. */
  datatype Lookup = Lookup(sid: Sid, ctx: nat, path: Path, pendingMap: nat, phase: LookupPhase)

  datatype InitKind = CreatedInit | CompactedInit

  datatype InitPhase = Queued | AwaitingHard | AwaitingSoft | Finished

  datatype InitOp = InitOp(sid: Sid, ctx: nat, kind: InitKind, prev: Option<nat>, phase: InitPhase)

  datatype TransformPhase = Waiting | Rendered | Skipped

  /** A system-prompt hook call: the context it took, the gate it waits on, and how many gates existed then. */
  datatype Transform = Transform(ctx: nat, waits: Option<nat>, gates: nat, phase: TransformPhase)

  datatype Paths = Paths(activated: map<Sid, set<Path>>, activating: map<Sid, nat>, pending: seq<map<Path, nat>>,
      lookups: seq<Lookup>)

  datatype Inits = Inits(initializing: map<Sid, nat>, ops: seq<InitOp>)

  /** One-shot texts queued and shown so far, each with its incarnation. */
  datatype Trace = Trace(queued: seq<(nat, string)>, shown: seq<(nat, string)>)

  datatype State = State(sessions: map<Sid, nat>, contexts: seq<Context>, paths: Paths, inits: Inits,
      transforms: seq<Transform>, trace: Trace)

  const INITIAL: State := State(map[], [], Paths(map[], map[], [], []), Inits(map[], []), [], Trace([], []))

  datatype Step =
    | CreatedEvent(sid: Sid) | CompactedEvent(sid: Sid) | DeletedEvent(sid: Sid)
    | Activate(sid: Sid, path: Path)
    | LookupSettles(l: nat, result: Option<seq<ScopeInfo>>)
    | LookupCleanup(l: nat)
    | InitStarts(i: nat) | HardArrives(i: nat, hard: Option<string>) | SoftArrives(i: nat,
        soft: Option<string>) | InitCleared(i: nat)
    | TransformBegins(sid: Sid) | TransformResumes(t: nat, title: bool)

  // --------------------------------------------------------------- session steps

  predicate Live(sessions: map<Sid, nat>, sid: Sid, ctx: nat) { sid in sessions && sessions[sid] == ctx }

  /** The session is there, or is admitted now; none when the cap is reached. */
  function Admit(s: State, sid: Sid): Option<State> {
    if sid in s.sessions then Some(s)
    else if |s.sessions| >= MAX_SESSIONS then None
    else Some(s.(sessions := s.sessions[sid := |s.contexts|], contexts := s.contexts + [Context(sid, None, [], [])]))
  }

  function Enqueue(g: Inits, sid: Sid, ctx: nat, kind: InitKind): Inits {
    var prev := if sid in g.initializing then Some(g.initializing[sid]) else None;
    Inits(g.initializing[sid := |g.ops|], g.ops + [InitOp(sid, ctx, kind, prev, Queued)])
  }

  function Delete(s: State, sid: Sid): State {
    s.(sessions := s.sessions - {sid},
       paths := s.paths.(activated := s.paths.activated - {sid}, activating := s.paths.activating - {sid}),
       inits := s.inits.(initializing := s.inits.initializing - {sid}))
  }

  // ------------------------------------------------------------ scope activation

  predicate AlreadySeen(p: Paths, sid: Sid, path: Path) { sid in p.activated && path in p.activated[sid] }

  predicate AlreadyPending(p: Paths, sid: Sid, path: Path) {
    sid in p.activating && p.activating[sid] < |p.pending| && path in p.pending[p.activating[sid]]
  }

  /** Starts a lookup and registers it in the session's pending map, a new one if there is none. */
  function BeginLookup(p: Paths, sid: Sid, ctx: nat, path: Path): Paths {
    if AlreadySeen(p, sid, path) || AlreadyPending(p, sid, path) then p
    else
      var found := sid in p.activating && p.activating[sid] < |p.pending|;
      var m := if found then p.activating[sid] else |p.pending|;
      var maps := if found then p.pending else p.pending + [map[]];
      p.(activating := p.activating[sid := m], pending := maps[m := maps[m][path := |p.lookups|]],
         lookups := p.lookups + [Lookup(sid, ctx, path, m, InFlight)])
  }

  function AddScopes(active: seq<ActiveScope>, found: seq<ScopeInfo>, lookup: nat): seq<ActiveScope> {
    if found == [] then active
    else
      var front, x := AddScopes(active, found[..|found| - 1], lookup), found[|found| - 1];
      if exists a :: a in front && a.info.scopeId == x.scopeId then front else front + [ActiveScope(x, lookup)]
  }

  function SeenAlso(activated: map<Sid, set<Path>>, sid: Sid, path: Path): map<Sid, set<Path>> {
    activated[sid := (if sid in activated then activated[sid] else {}) + {path}]
  }

  /** The lookup's answer arrives: used only while its own incarnation is live. */
  function Settle(s: State, l: nat, result: Option<seq<ScopeInfo>>): State
    requires l < |s.paths.lookups| && forall sid :: sid in s.sessions ==> s.sessions[sid] < |s.contexts|
  {
    var look := s.paths.lookups[l];
    var lookups := s.paths.lookups[l := look.(phase := Settled(result.Some?))];
    if result.None? || !Live(s.sessions, look.sid, look.ctx) then s.(paths := s.paths.(lookups := lookups))
    else
      var ctx := s.contexts[look.ctx];
      s.(paths := s.paths.(lookups := lookups, activated := SeenAlso(s.paths.activated, look.sid, look.path)),
         contexts := s.contexts[look.ctx := ctx.(scopes := AddScopes(ctx.scopes, result.value, l))])
  }

  /** The activation's `finally`: leaves the pending map, and drops the map when it is empty and still current. */
  function Cleanup(p: Paths, l: nat): Paths
    requires l < |p.lookups| && p.lookups[l].pendingMap < |p.pending| && p.lookups[l].phase.Settled?
  {
    var look := p.lookups[l];
    var m := look.pendingMap;
    var rest := if look.path in p.pending[m] && p.pending[m][look.path] == l
        then p.pending[m] - {look.path} else p.pending[m];
    var drop := rest == map[] && look.sid in p.activating && p.activating[look.sid] == m;
    p.(pending := p.pending[m := rest], activating := if drop then p.activating - {look.sid} else p.activating,
       lookups := p.lookups[l := look.(phase := Closed(look.phase.ok))])
  }

  // ------------------------------------------------------------- initialization

  predicate GateOpen(g: Inits, gate: Option<nat>) {
    gate.Some? ==> gate.value < |g.ops| && g.ops[gate.value].phase == Finished
  }

  function AfterHard(kind: InitKind): InitPhase { if kind == CreatedInit then AwaitingSoft else Finished }

  function SetPhase(g: Inits, i: nat, phase: InitPhase): Inits
    requires i < |g.ops|
  {
    g.(ops := g.ops[i := g.ops[i].(phase := phase)])
  }

  function ClearGate(g: Inits, sid: Sid, i: nat): Inits {
    if sid in g.initializing && g.initializing[sid] == i then g.(initializing := g.initializing - {sid}) else g
  }

  /** Whatever incarnation is live when it arrives gets the hard bootstrap. */
  function SetHard(s: State, sid: Sid, hard: Option<string>): seq<Context>
    requires forall sid :: sid in s.sessions ==> s.sessions[sid] < |s.contexts|
  {
    if hard.Some? && sid in s.sessions
    then var c := s.sessions[sid]; s.contexts[c := s.contexts[c].(hard := hard)] else s.contexts
  }

  function QueueSoft(s: State, sid: Sid, soft: Option<string>): State
    requires forall sid :: sid in s.sessions ==> s.sessions[sid] < |s.contexts|
  {
    if soft.Some? && sid in s.sessions then
      var c := s.sessions[sid];
      s.(contexts := s.contexts[c := s.contexts[c].(events := s.contexts[c].events + [soft.value])],
         trace := s.trace.(queued := s.trace.queued + [(c, soft.value)]))
    else s
  }

  function Tagged(c: nat, texts: seq<string>): seq<(nat, string)> {
    seq(|texts|, i requires 0 <= i < |texts| => (c, texts[i]))
  }

  /** Renders the context, which drains its one-shot texts. */
  function RenderContext(s: State, c: nat): State
    requires c < |s.contexts|
  {
    s.(contexts := s.contexts[c := s.contexts[c].(events := [])],
       trace := s.trace.(shown := s.trace.shown + Tagged(c, s.contexts[c].events)))
  }

  // ------------------------------------------------------------------ one step

  ghost predicate SessionsOk(s: State) {
    && |s.sessions| <= MAX_SESSIONS
    && forall sid :: sid in s.sessions ==> s.sessions[sid] < |s.contexts| && s.contexts[s.sessions[sid]].sid == sid
  }

  function OnEvent(s: State, sid: Sid, kind: InitKind): State {
    match kind
    case CreatedInit =>
      (match Admit(s, sid)
       case None => s
       case Some(t) => if sid in t.sessions then t.(inits := Enqueue(t.inits, sid, t.sessions[sid], kind)) else t)
    case CompactedInit =>
      if sid in s.sessions then s.(inits := Enqueue(s.inits, sid, s.sessions[sid], kind)) else s
  }

  function OnActivate(s: State, sid: Sid, path: Path): State {
    match Admit(s, sid)
    case None => s
    case Some(t) => if sid in t.sessions then t.(paths := BeginLookup(t.paths, sid, t.sessions[sid], path)) else t
  }

  /** A hook call for a session: its context, its gate, and how many gates there are. */
  function TransformOf(s: State, sid: Sid): Transform
    requires sid in s.sessions
  {
    Transform(s.sessions[sid],
        if sid in s.inits.initializing then Some(s.inits.initializing[sid]) else None, |s.inits.ops|, Waiting)
  }

  function OnSettle(s: State, l: nat, result: Option<seq<ScopeInfo>>): State
    requires SessionsOk(s)
  {
    if l < |s.paths.lookups| && s.paths.lookups[l].phase.InFlight? then Settle(s, l, result) else s
  }

  predicate CanCleanUp(p: Paths, l: nat) {
    l < |p.lookups| && p.lookups[l].phase.Settled? && p.lookups[l].pendingMap < |p.pending|
  }

  function OnCleanup(s: State, l: nat): State { if CanCleanUp(s.paths, l) then s.(paths := Cleanup(s.paths, l)) else s }

  function OnStart(s: State, i: nat): State {
    if i < |s.inits.ops| && s.inits.ops[i].phase == Queued && GateOpen(s.inits, s.inits.ops[i].prev) then
      var op := s.inits.ops[i];
      s.(inits := SetPhase(s.inits, i, if op.sid in s.sessions then AwaitingHard else AfterHard(op.kind)))
    else s
  }

  function OnHard(s: State, i: nat, hard: Option<string>): State
    requires SessionsOk(s)
  {
    if i < |s.inits.ops| && s.inits.ops[i].phase == AwaitingHard then
      var op := s.inits.ops[i];
      s.(contexts := SetHard(s, op.sid, hard), inits := SetPhase(s.inits, i, AfterHard(op.kind)))
    else s
  }

  function OnSoft(s: State, i: nat, soft: Option<string>): State
    requires SessionsOk(s)
  {
    if i < |s.inits.ops| && s.inits.ops[i].phase == AwaitingSoft
    then QueueSoft(s, s.inits.ops[i].sid, soft).(inits := SetPhase(s.inits, i, Finished)) else s
  }

  function OnClear(s: State, i: nat): State {
    if i < |s.inits.ops| && s.inits.ops[i].phase == Finished
      then s.(inits := ClearGate(s.inits, s.inits.ops[i].sid, i)) else s
  }

  function OnBegin(s: State, sid: Sid): State {
    if sid in s.sessions then s.(transforms := s.transforms + [TransformOf(s, sid)]) else s
  }

  function OnResume(s: State, t: nat, title: bool): State {
    if t < |s.transforms| && s.transforms[t].phase == Waiting && GateOpen(s.inits, s.transforms[t].waits)
       && s.transforms[t].ctx < |s.contexts| then
      var done := s.transforms[t := s.transforms[t].(phase := if title then Skipped else Rendered)];
      (if title then s else RenderContext(s, s.transforms[t].ctx)).(transforms := done)
    else s
  }

  /** A step that is not enabled changes nothing. */
  function Next(s: State, step: Step): State
    requires SessionsOk(s)
  {
    match step
    case CreatedEvent(sid) => OnEvent(s, sid, CreatedInit)
    case CompactedEvent(sid) => OnEvent(s, sid, CompactedInit)
    case DeletedEvent(sid) => Delete(s, sid)
    case Activate(sid, path) => OnActivate(s, sid, path)
    case LookupSettles(l, result) => OnSettle(s, l, result)
    case LookupCleanup(l) => OnCleanup(s, l)
    case InitStarts(i) => OnStart(s, i)
    case HardArrives(i, hard) => OnHard(s, i, hard)
    case SoftArrives(i, soft) => OnSoft(s, i, soft)
    case InitCleared(i) => OnClear(s, i)
    case TransformBegins(sid) => OnBegin(s, sid)
    case TransformResumes(t, title) => OnResume(s, t, title)
  }

  // -------------------------------------------------------------- the invariant

  predicate Open(look: Lookup) { !look.phase.Closed? }

  predicate Succeeded(look: Lookup) { (look.phase.Settled? || look.phase.Closed?) && look.phase.ok }

  /** Every pending map lists exactly the open lookups in it, under their paths. */
  ghost predicate PendingExact(p: Paths) { OpenListed(p) && ListedOpen(p) }

  ghost predicate OpenListed(p: Paths) {
    forall l :: 0 <= l < |p.lookups| && Open(p.lookups[l]) ==>
      var look := p.lookups[l];
          look.pendingMap < |p.pending| && look.path in p.pending[look.pendingMap]
          && p.pending[look.pendingMap][look.path] == l
  }

  ghost predicate ListedOpen(p: Paths) {
    forall m, path :: 0 <= m < |p.pending| && path in p.pending[m] ==>
      var l := p.pending[m][path];
          l < |p.lookups| && Open(p.lookups[l]) && p.lookups[l].path == path && p.lookups[l].pendingMap == m
  }

  /** The open lookups of a live incarnation sit in its current pending map; its successful paths are marked. */
  ghost predicate LiveTracked(live: map<Sid, nat>, p: Paths) {
    forall l :: 0 <= l < |p.lookups| && Live(live, p.lookups[l].sid, p.lookups[l].ctx) ==>
      var look := p.lookups[l];
      && (Open(look) ==> look.sid in p.activating && p.activating[look.sid] == look.pendingMap)
      && (Succeeded(look) ==> AlreadySeen(p, look.sid, look.path))
  }

  /** A second lookup of a path by one incarnation starts only after the first has closed without success. */
  ghost predicate NoRepeat(p: Paths) {
    forall i, j ::
      0 <= i < j < |p.lookups| && p.lookups[i].ctx == p.lookups[j].ctx && p.lookups[i].path == p.lookups[j].path ==>
        p.lookups[i].phase == Closed(false)
  }

  ghost predicate KeysLive(s: State) {
    && s.paths.activated.Keys <= s.sessions.Keys && s.paths.activating.Keys <= s.sessions.Keys
    && s.inits.initializing.Keys <= s.sessions.Keys
    && (forall sid :: sid in s.paths.activating ==> s.paths.activating[sid] < |s.paths.pending|)
  }

  ghost predicate LookupsOwned(s: State) {
    forall l :: 0 <= l < |s.paths.lookups| ==>
      s.paths.lookups[l].ctx < |s.contexts| && s.contexts[s.paths.lookups[l].ctx].sid == s.paths.lookups[l].sid
  }

  ghost predicate PathsOk(s: State) {
    PendingExact(s.paths) && LiveTracked(s.sessions, s.paths) && NoRepeat(s.paths) && LookupsOwned(s)
  }

  predicate Done(op: InitOp) { op.phase == Finished }

  /** Initialization of one incarnation runs one operation at a time, in the order of the events. */
  ghost predicate Ordered(ops: seq<InitOp>) {
    forall i, j :: 0 <= i < j < |ops| && ops[i].ctx == ops[j].ctx && ops[j].phase != Queued ==> Done(ops[i])
  }

  ghost predicate BehindGate(ops: seq<InitOp>, i: nat, gate: Option<nat>, bound: nat, ctx: nat) {
    gate.Some? && i <= gate.value < bound <= |ops| && ops[gate.value].ctx == ctx
  }

  ghost predicate Linked(ops: seq<InitOp>) {
    forall i, j :: 0 <= i < j < |ops| && ops[i].ctx == ops[j].ctx ==>
        Done(ops[i]) || BehindGate(ops, i, ops[j].prev, j, ops[j].ctx)
  }

  ghost predicate GatesCurrent(live: map<Sid, nat>, g: Inits) {
    && (forall sid :: sid in g.initializing && sid in live ==>
      g.initializing[sid] < |g.ops| && g.ops[g.initializing[sid]].ctx == live[sid])
    && (forall i :: 0 <= i < |g.ops| && Live(live, g.ops[i].sid, g.ops[i].ctx) && !Done(g.ops[i]) ==>
          g.ops[i].sid in g.initializing && i <= g.initializing[g.ops[i].sid])
  }

  ghost predicate OpsOwned(s: State) {
    forall i :: 0 <= i < |s.inits.ops| ==>
      s.inits.ops[i].ctx < |s.contexts| && s.contexts[s.inits.ops[i].ctx].sid == s.inits.ops[i].sid
  }

  ghost predicate InitsOk(s: State) {
    Ordered(s.inits.ops) && Linked(s.inits.ops) && GatesCurrent(s.sessions, s.inits) && OpsOwned(s)
  }

  /** A hook call sees every initialization that was registered before it began, finished. */
  ghost predicate TransformOk(t: Transform, ops: seq<InitOp>) {
    && t.gates <= |ops|
    && forall i :: 0 <= i < t.gates && ops[i].ctx == t.ctx ==>
         Done(ops[i]) || (t.phase == Waiting && BehindGate(ops, i, t.waits, t.gates, t.ctx))
  }

  ghost predicate TransformsOk(s: State) {
    forall k :: 0 <= k < |s.transforms| ==>
        s.transforms[k].ctx < |s.contexts| && TransformOk(s.transforms[k], s.inits.ops)
  }

  /** A context shows only scopes that lookups of that very incarnation brought. */
  ghost predicate ScopesOwned(s: State) {
    forall c, k :: 0 <= c < |s.contexts| && 0 <= k < |s.contexts[c].scopes| ==>
      var l := s.contexts[c].scopes[k].lookup;
          l < |s.paths.lookups| && s.paths.lookups[l].ctx == c && Succeeded(s.paths.lookups[l])
  }

  function OfContext(c: nat): ((nat, string)) -> bool { (e: (nat, string)) => e.0 == c }

  /** The one-shot texts a context still has to show. */
  function StillQueued(contexts: seq<Context>, c: nat): seq<(nat, string)> {
    if c < |contexts| then Tagged(c, contexts[c].events) else []
  }

  ghost predicate Conserved(contexts: seq<Context>, trace: Trace, c: nat) {
    Filter(trace.queued, OfContext(c)) == Filter(trace.shown, OfContext(c)) + StillQueued(contexts, c)
  }

  /** Every one-shot text queued for a context has been shown once, or is still queued, in order. */
  ghost predicate EventsConserved(s: State) { forall c: nat :: Conserved(s.contexts, s.trace, c) }

  ghost predicate Inv(s: State) {
    SessionsOk(s) && KeysLive(s) && PathsOk(s) && InitsOk(s) && TransformsOk(s) && ScopesOwned(s) && EventsConserved(s)
  }

  // ------------------------------------------------- steps on lookups keep their invariants

  lemma BeginPendingExact(p: Paths, sid: Sid, ctx: nat, path: Path)
    requires PendingExact(p)
    ensures PendingExact(BeginLookup(p, sid, ctx, path))
  {
    BeginOpenListed(p, sid, ctx, path);
    BeginListedOpen(p, sid, ctx, path);
  }

  lemma BeginOpenListed(p: Paths, sid: Sid, ctx: nat, path: Path)
    requires OpenListed(p)
    ensures OpenListed(BeginLookup(p, sid, ctx, path))
  {
  }

  lemma BeginListedOpen(p: Paths, sid: Sid, ctx: nat, path: Path)
    requires ListedOpen(p)
    ensures ListedOpen(BeginLookup(p, sid, ctx, path))
  {
  }

  lemma BeginTracked(live: map<Sid, nat>, p: Paths, sid: Sid, path: Path)
    requires PendingExact(p) && LiveTracked(live, p) && sid in live
    requires sid in p.activating ==> p.activating[sid] < |p.pending|
    ensures LiveTracked(live, BeginLookup(p, sid, live[sid], path))
  {
  }

  lemma BeginNoRepeat(s: State, sid: Sid, path: Path)
    requires SessionsOk(s) && PathsOk(s) && sid in s.sessions
    ensures NoRepeat(BeginLookup(s.paths, sid, s.sessions[sid], path))
  {
    var p := s.paths;
    forall i | 0 <= i < |p.lookups| && p.lookups[i].ctx == s.sessions[sid] && p.lookups[i].path == path
               && !AlreadySeen(p, sid, path) && !AlreadyPending(p, sid, path)
      ensures p.lookups[i].phase == Closed(false) {
      assert Live(s.sessions, p.lookups[i].sid, p.lookups[i].ctx);
    }
  }

  lemma SettlePendingExact(p: Paths, l: nat, ok: bool)
    requires PendingExact(p) && l < |p.lookups| && p.lookups[l].phase.InFlight?
    ensures PendingExact(p.(lookups := p.lookups[l := p.lookups[l].(phase := Settled(ok))]))
  {
  }

  lemma CleanupPendingExact(p: Paths, l: nat)
    requires PendingExact(p) && l < |p.lookups| && p.lookups[l].pendingMap < |p.pending| && p.lookups[l].phase.Settled?
    ensures PendingExact(Cleanup(p, l))
  {
  }

  lemma CleanupTracked(live: map<Sid, nat>, p: Paths, l: nat)
    requires PendingExact(p) && LiveTracked(live, p)
    requires l < |p.lookups| && p.lookups[l].pendingMap < |p.pending| && p.lookups[l].phase.Settled?
    ensures LiveTracked(live, Cleanup(p, l))
  {
    var m := p.lookups[l].pendingMap;
    forall q | 0 <= q < |p.lookups| && q != l && Open(p.lookups[q]) && p.lookups[q].pendingMap == m
      ensures p.lookups[q].path in Cleanup(p, l).pending[m] {
      assert p.pending[m][p.lookups[q].path] == q && p.pending[m][p.lookups[l].path] == l;
    }
  }

  lemma SettleTracked(live: map<Sid, nat>, p: Paths, l: nat, ok: bool)
    requires LiveTracked(live, p) && l < |p.lookups| && p.lookups[l].phase.InFlight?
    ensures var look := p.lookups[l];
            var q := p.(lookups := p.lookups[l := look.(phase := Settled(ok))]);
            if ok && Live(live, look.sid, look.ctx)
            then LiveTracked(live, q.(activated := SeenAlso(p.activated, look.sid, look.path)))
              else LiveTracked(live, q)
  {
  }

  lemma SettleNoRepeat(p: Paths, l: nat, ok: bool)
    requires NoRepeat(p) && l < |p.lookups| && p.lookups[l].phase.InFlight?
    ensures NoRepeat(p.(lookups := p.lookups[l := p.lookups[l].(phase := Settled(ok))]))
  {
  }

  lemma CleanupNoRepeat(p: Paths, l: nat)
    requires NoRepeat(p) && l < |p.lookups| && p.lookups[l].pendingMap < |p.pending| && p.lookups[l].phase.Settled?
    ensures NoRepeat(Cleanup(p, l))
  {
  }

  /** `t` has the contexts of `s`, possibly changed and extended, each of the same session. */
  ghost predicate SameSids(a: seq<Context>, b: seq<Context>) {
    |a| <= |b| && forall c :: 0 <= c < |a| ==> a[c].sid == b[c].sid
  }

  lemma SettlePathsOk(s: State, l: nat, result: Option<seq<ScopeInfo>>)
    requires SessionsOk(s) && PathsOk(s) && l < |s.paths.lookups| && s.paths.lookups[l].phase.InFlight?
    ensures PathsOk(Settle(s, l, result)) && SameSids(s.contexts, Settle(s, l, result).contexts)
  {
    SettlePendingExact(s.paths, l, result.Some?);
    SettleTracked(s.sessions, s.paths, l, result.Some?);
    SettleNoRepeat(s.paths, l, result.Some?);
    SettleOwned(s, l, result);
    SamePending(s.paths.(lookups := s.paths.lookups[l := s.paths.lookups[l].(phase := Settled(result.Some?))]),
        Settle(s, l, result).paths);
  }

  lemma SamePending(p: Paths, q: Paths)
    requires p.pending == q.pending && p.lookups == q.lookups
    ensures PendingExact(p) ==> PendingExact(q)
    ensures NoRepeat(p) ==> NoRepeat(q)
  {
  }

  lemma SettleOwned(s: State, l: nat, result: Option<seq<ScopeInfo>>)
    requires SessionsOk(s) && LookupsOwned(s) && l < |s.paths.lookups|
    ensures LookupsOwned(Settle(s, l, result)) && SameSids(s.contexts, Settle(s, l, result).contexts)
    ensures Settle(s, l, result).sessions == s.sessions
  {
  }

  /** Sessions come and go without disturbing what is tracked for the others. */
  lemma AdmitTracked(s: State, sid: Sid)
    requires SessionsOk(s) && LookupsOwned(s) && OpsOwned(s) && LiveTracked(s.sessions, s.paths)
        && GatesCurrent(s.sessions, s.inits)
    requires KeysLive(s) && sid !in s.sessions
    ensures var live := s.sessions[sid := |s.contexts|]; LiveTracked(live, s.paths) && GatesCurrent(live, s.inits)
  {
  }

  lemma DeleteTracked(s: State, sid: Sid)
    requires LiveTracked(s.sessions, s.paths) && GatesCurrent(s.sessions, s.inits)
    ensures LiveTracked(Delete(s, sid).sessions, Delete(s, sid).paths)
        && GatesCurrent(Delete(s, sid).sessions, Delete(s, sid).inits)
  {
  }

  // ------------------------------------- steps on initialization keep its invariants

  lemma EnqueueKeeps(live: map<Sid, nat>, g: Inits, sid: Sid, kind: InitKind)
    requires Ordered(g.ops) && Linked(g.ops) && GatesCurrent(live, g) && sid in live
    requires forall i :: 0 <= i < |g.ops| && g.ops[i].ctx == live[sid] ==> g.ops[i].sid == sid
    ensures var h := Enqueue(g, sid, live[sid], kind); Ordered(h.ops) && Linked(h.ops) && GatesCurrent(live, h)
  {
    var h := Enqueue(g, sid, live[sid], kind);
    var n := |g.ops|;
    forall i | 0 <= i < n && g.ops[i].ctx == live[sid]
        ensures Done(h.ops[i]) || BehindGate(h.ops, i, h.ops[n].prev, n, live[sid]) {
      assert Live(live, g.ops[i].sid, g.ops[i].ctx);
    }
    assert forall i, j :: 0 <= i < j < n && BehindGate(g.ops, i, g.ops[j].prev, j, g.ops[j].ctx) ==>
        BehindGate(h.ops, i, h.ops[j].prev, j, h.ops[j].ctx);
  }

  /** Advancing an operation, never past `Finished`. */
  ghost predicate Advances(g: Inits, i: nat, phase: InitPhase) {
    && i < |g.ops| && phase != Queued && g.ops[i].phase != Finished
    && (g.ops[i].phase == Queued ==> GateOpen(g, g.ops[i].prev))
  }

  /** An operation that starts has nothing unfinished before it in its incarnation. */
  lemma StartsAlone(g: Inits, i: nat, phase: InitPhase)
    requires Ordered(g.ops) && Linked(g.ops) && Advances(g, i, phase)
    ensures forall k :: 0 <= k < i && g.ops[k].ctx == g.ops[i].ctx ==> Done(g.ops[k])
  {
    forall k | 0 <= k < i && g.ops[k].ctx == g.ops[i].ctx ensures Done(g.ops[k]) {
      assert Done(g.ops[k]) || BehindGate(g.ops, k, g.ops[i].prev, i, g.ops[i].ctx);
    }
  }

  lemma AdvanceKeeps(live: map<Sid, nat>, g: Inits, i: nat, phase: InitPhase)
    requires Ordered(g.ops) && Linked(g.ops) && GatesCurrent(live, g) && Advances(g, i, phase)
    ensures var h := SetPhase(g, i, phase); Ordered(h.ops) && Linked(h.ops) && GatesCurrent(live, h)
  {
    StartsAlone(g, i, phase);
    AdvanceLinked(g, i, phase);
  }

  lemma AdvanceLinked(g: Inits, i: nat, phase: InitPhase)
    requires Linked(g.ops) && i < |g.ops| && g.ops[i].phase != Finished
    ensures Linked(SetPhase(g, i, phase).ops)
  {
    var h := SetPhase(g, i, phase);
    assert forall a, b :: 0 <= a < b < |g.ops| && BehindGate(g.ops, a, g.ops[b].prev, b, g.ops[b].ctx) ==>
        BehindGate(h.ops, a, h.ops[b].prev, b, h.ops[b].ctx);
  }

  lemma ClearKeeps(live: map<Sid, nat>, g: Inits, i: nat)
    requires Ordered(g.ops) && GatesCurrent(live, g) && i < |g.ops| && Done(g.ops[i])
    requires forall k, j :: 0 <= k < |g.ops| && 0 <= j < |g.ops| && g.ops[k].ctx == g.ops[j].ctx ==>
        g.ops[k].sid == g.ops[j].sid
    ensures GatesCurrent(live, ClearGate(g, g.ops[i].sid, i))
  {
  }

  // --------------------------------------------------------- transforms and the gate

  lemma TransformsAfterEnqueue(t: Transform, ops: seq<InitOp>, op: InitOp)
    requires TransformOk(t, ops)
    ensures TransformOk(t, ops + [op])
  {
    assert forall i :: 0 <= i < |ops| && BehindGate(ops, i, t.waits, t.gates, t.ctx) ==>
        BehindGate(ops + [op], i, t.waits, t.gates, t.ctx);
  }

  lemma TransformsAfterAdvance(t: Transform, g: Inits, i: nat, phase: InitPhase)
    requires TransformOk(t, g.ops) && i < |g.ops| && g.ops[i].phase != Finished
    ensures TransformOk(t, SetPhase(g, i, phase).ops)
  {
    var h := SetPhase(g, i, phase);
    assert forall k :: 0 <= k < |g.ops| && BehindGate(g.ops, k, t.waits, t.gates, t.ctx) ==>
        BehindGate(h.ops, k, t.waits, t.gates, t.ctx);
  }

  lemma TransformStarts(s: State, sid: Sid)
    requires InitsOk(s) && SessionsOk(s) && sid in s.sessions
    ensures TransformOk(TransformOf(s, sid), s.inits.ops)
  {
    var ops := s.inits.ops;
    forall i | 0 <= i < |ops| && ops[i].ctx == s.sessions[sid] && !Done(ops[i])
      ensures sid in s.inits.initializing && i <= s.inits.initializing[sid] {
      assert Live(s.sessions, ops[i].sid, ops[i].ctx);
    }
  }

  /** When the gate opens, everything registered before the call has finished. */
  lemma TransformFinishes(t: Transform, g: Inits, phase: TransformPhase)
    requires TransformOk(t, g.ops) && Ordered(g.ops) && GateOpen(g, t.waits)
    ensures TransformOk(t.(phase := phase), g.ops)
  {
    forall i | 0 <= i < t.gates && g.ops[i].ctx == t.ctx ensures Done(g.ops[i]) {
      assert Done(g.ops[i]) || BehindGate(g.ops, i, t.waits, t.gates, t.ctx);
    }
  }

  // ----------------------------------------------------------- scopes and one-shot texts

  lemma {:induction false} AddScopesFrom(active: seq<ActiveScope>, found: seq<ScopeInfo>, lookup: nat)
    ensures active <= AddScopes(active, found, lookup)
    ensures forall k :: |active| <= k < |AddScopes(active, found, lookup)| ==>
        AddScopes(active, found, lookup)[k].lookup == lookup
  {
    if found != [] { AddScopesFrom(active, found[..|found| - 1], lookup); }
  }

  lemma SettleScopesOwned(s: State, l: nat, result: Option<seq<ScopeInfo>>)
    requires SessionsOk(s) && ScopesOwned(s) && l < |s.paths.lookups| && s.paths.lookups[l].phase.InFlight?
    requires s.paths.lookups[l].ctx < |s.contexts|
    ensures ScopesOwned(Settle(s, l, result))
  {
    if result.Some? { AddScopesFrom(s.contexts[s.paths.lookups[l].ctx].scopes, result.value, l); }
    SettleStillOwned(s, l, result.Some?);
  }

  lemma SettleStillOwned(s: State, l: nat, ok: bool)
    requires ScopesOwned(s) && l < |s.paths.lookups| && s.paths.lookups[l].phase.InFlight?
    ensures var lookups := s.paths.lookups[l := s.paths.lookups[l].(phase := Settled(ok))];
            forall c, k :: 0 <= c < |s.contexts| && 0 <= k < |s.contexts[c].scopes| ==>
              var q := s.contexts[c].scopes[k].lookup; q < |lookups| && lookups[q].ctx == c && Succeeded(lookups[q])
  {
  }

  lemma CleanupScopesOwned(s: State, l: nat)
    requires ScopesOwned(s) && l < |s.paths.lookups| && s.paths.lookups[l].pendingMap < |s.paths.pending|
        && s.paths.lookups[l].phase.Settled?
    ensures ScopesOwned(s.(paths := Cleanup(s.paths, l)))
  {
  }

  lemma TaggedFilter(c: nat, d: nat, texts: seq<string>)
    ensures Filter(Tagged(c, texts), OfContext(d)) == if c == d then Tagged(c, texts) else []
  {
    assert forall e :: e in Tagged(c, texts) ==> e.0 == c;
    if c == d { FilterAll(Tagged(c, texts), OfContext(d)); } else { FilterNothing(Tagged(c, texts), OfContext(d)); }
  }

  lemma QueueOne(queued: seq<(nat, string)>, c: nat, text: string, d: nat)
    ensures Filter(queued + [(c, text)], OfContext(d)) == Filter(queued, OfContext(d))
        + if c == d then [(c, text)] else []
  {
    FilterAppend(queued, [(c, text)], OfContext(d));
    TaggedFilter(c, d, [text]);
    assert Tagged(c, [text]) == [(c, text)];
  }

  lemma TaggedSnoc(c: nat, texts: seq<string>, text: string)
    ensures Tagged(c, texts + [text]) == Tagged(c, texts) + [(c, text)]
  {
  }

  /** One text more for one context. */
  lemma QueueConserves(contexts: seq<Context>, trace: Trace, c: nat, text: string, d: nat)
    requires c < |contexts| && Conserved(contexts, trace, d)
    ensures Conserved(contexts[c := contexts[c].(events := contexts[c].events + [text])],
        trace.(queued := trace.queued + [(c, text)]), d)
  {
    QueueOne(trace.queued, c, text, d);
    if d == c {
      TaggedSnoc(c, contexts[c].events, text);
      AppendAssociates(Filter(trace.shown, OfContext(c)), Tagged(c, contexts[c].events), [(c, text)]);
    } else {
      AppendEmpty(Filter(trace.queued, OfContext(d)));
    }
  }

  lemma QueueKeepsEvents(s: State, sid: Sid, soft: Option<string>)
    requires SessionsOk(s) && EventsConserved(s)
    ensures EventsConserved(QueueSoft(s, sid, soft))
  {
    if soft.Some? && sid in s.sessions {
      forall d: nat ensures Conserved(QueueSoft(s, sid, soft).contexts, QueueSoft(s, sid, soft).trace, d) {
        assert Conserved(s.contexts, s.trace, d);
        QueueConserves(s.contexts, s.trace, s.sessions[sid], soft.value, d);
      }
    }
  }

  /** Showing what one context has queued. */
  lemma RenderConserves(contexts: seq<Context>, trace: Trace, c: nat, d: nat)
    requires c < |contexts| && Conserved(contexts, trace, d)
    ensures Conserved(contexts[c := contexts[c].(events := [])],
        trace.(shown := trace.shown + Tagged(c, contexts[c].events)), d)
  {
    var texts := Tagged(c, contexts[c].events);
    FilterAppend(trace.shown, texts, OfContext(d));
    TaggedFilter(c, d, contexts[c].events);
    AppendEmpty(Filter(trace.shown, OfContext(d)) + texts);
    AppendEmpty(Filter(trace.shown, OfContext(d)));
    assert Tagged(c, []) == [];
  }

  lemma RenderKeepsEvents(s: State, c: nat)
    requires EventsConserved(s) && c < |s.contexts|
    ensures EventsConserved(RenderContext(s, c))
  {
    forall d: nat ensures Conserved(RenderContext(s, c).contexts, RenderContext(s, c).trace, d) {
      assert Conserved(s.contexts, s.trace, d);
      RenderConserves(s.contexts, s.trace, c, d);
    }
  }

  /** Contexts with the same queues. */
  lemma SameQueues(s: State, contexts: seq<Context>)
    requires EventsConserved(s) && |contexts| >= |s.contexts|
    requires forall c :: 0 <= c < |s.contexts| ==> contexts[c].events == s.contexts[c].events
    requires forall c :: |s.contexts| <= c < |contexts| ==> contexts[c].events == []
    ensures EventsConserved(s.(contexts := contexts))
  {
    forall c: nat ensures Conserved(contexts, s.trace, c) {
      assert Conserved(s.contexts, s.trace, c);
      assert StillQueued(contexts, c) == StillQueued(s.contexts, c);
    }
  }

  // ---------------------------------------------------------------- every step, every run

  /** The parts of the invariant that a change of contexts alone could break. */
  lemma SidsKeepOwners(s: State, contexts: seq<Context>)
    requires SameSids(s.contexts, contexts)
    ensures SessionsOk(s) ==> SessionsOk(s.(contexts := contexts))
    ensures LookupsOwned(s) ==> LookupsOwned(s.(contexts := contexts))
    ensures OpsOwned(s) ==> OpsOwned(s.(contexts := contexts))
  {
  }

  lemma AdmitRest(s: State, sid: Sid)
    requires KeysLive(s) && TransformsOk(s) && ScopesOwned(s) && sid !in s.sessions
    ensures var t := s.(sessions := s.sessions[sid := |s.contexts|],
        contexts := s.contexts + [Context(sid, None, [], [])]);
            KeysLive(t) && TransformsOk(t) && ScopesOwned(t)
  {
  }

  lemma AdmitSessions(s: State, sid: Sid)
    requires SessionsOk(s) && sid !in s.sessions && |s.sessions| < MAX_SESSIONS
    ensures SessionsOk(s.(sessions := s.sessions[sid := |s.contexts|],
        contexts := s.contexts + [Context(sid, None, [], [])]))
  {
    assert |s.sessions[sid := |s.contexts|]| == |s.sessions| + 1;
  }

  lemma AdmitKeepsInv(s: State, sid: Sid)
    requires Inv(s) && Admit(s, sid).Some?
    ensures Inv(Admit(s, sid).value) && sid in Admit(s, sid).value.sessions
  {
    if sid !in s.sessions {
      AdmitSessions(s, sid);
      AdmitTracked(s, sid);
      SidsKeepOwners(s, s.contexts + [Context(sid, None, [], [])]);
      SameQueues(s, s.contexts + [Context(sid, None, [], [])]);
      AdmitRest(s, sid);
    }
  }

  lemma EnqueueKeepsInv(s: State, sid: Sid, kind: InitKind)
    requires Inv(s) && sid in s.sessions
    ensures Inv(s.(inits := Enqueue(s.inits, sid, s.sessions[sid], kind)))
  {
    EnqueueKeeps(s.sessions, s.inits, sid, kind);
    var t := s.(inits := Enqueue(s.inits, sid, s.sessions[sid], kind));
    forall k | 0 <= k < |s.transforms| ensures TransformOk(s.transforms[k], t.inits.ops) {
      TransformsAfterEnqueue(s.transforms[k], s.inits.ops, t.inits.ops[|s.inits.ops|]);
    }
    assert OpsOwned(t);
  }

  lemma DeleteKeepsInv(s: State, sid: Sid)
    requires Inv(s)
    ensures Inv(Delete(s, sid))
  {
    DeleteTracked(s, sid);
    SamePending(s.paths, Delete(s, sid).paths);
  }

  lemma BeginKeepsInv(s: State, sid: Sid, path: Path)
    requires Inv(s) && sid in s.sessions
    ensures Inv(s.(paths := BeginLookup(s.paths, sid, s.sessions[sid], path)))
  {
    BeginPendingExact(s.paths, sid, s.sessions[sid], path);
    BeginTracked(s.sessions, s.paths, sid, path);
    BeginNoRepeat(s, sid, path);
    BeginOwned(s, sid, path);
  }

  lemma BeginOwned(s: State, sid: Sid, path: Path)
    requires SessionsOk(s) && KeysLive(s) && LookupsOwned(s) && ScopesOwned(s) && sid in s.sessions
    ensures var t := s.(paths := BeginLookup(s.paths, sid, s.sessions[sid], path));
        KeysLive(t) && LookupsOwned(t) && ScopesOwned(t)
  {
  }

  lemma SettleKeepsInv(s: State, l: nat, result: Option<seq<ScopeInfo>>)
    requires Inv(s) && l < |s.paths.lookups| && s.paths.lookups[l].phase.InFlight?
    ensures Inv(Settle(s, l, result))
  {
    var t := Settle(s, l, result);
    SettlePathsOk(s, l, result);
    SettleScopesOwned(s, l, result);
    SettleRest(s, l, result);
    SidsKeepOwners(s, t.contexts);
  }

  lemma SettleKeepsRest(s: State, l: nat, result: Option<seq<ScopeInfo>>)
    requires SessionsOk(s) && l < |s.paths.lookups|
    ensures var t := Settle(s, l, result);
            && t == s.(paths := t.paths, contexts := t.contexts) && |t.contexts| == |s.contexts|
            && (forall c :: 0 <= c < |s.contexts| ==> t.contexts[c].events == s.contexts[c].events)
  {
  }

  lemma SettleKeys(s: State, l: nat, result: Option<seq<ScopeInfo>>)
    requires SessionsOk(s) && KeysLive(s) && l < |s.paths.lookups|
    ensures KeysLive(Settle(s, l, result))
  {
  }

  lemma SettleRest(s: State, l: nat, result: Option<seq<ScopeInfo>>)
    requires SessionsOk(s) && KeysLive(s) && TransformsOk(s) && EventsConserved(s) && l < |s.paths.lookups|
    ensures var t := Settle(s, l, result);
        t.sessions == s.sessions && t.inits == s.inits && KeysLive(t) && TransformsOk(t) && EventsConserved(t)
  {
    SettleKeepsRest(s, l, result);
    SettleKeys(s, l, result);
    SameQueues(s, Settle(s, l, result).contexts);
  }

  lemma CleanupKeepsInv(s: State, l: nat)
    requires Inv(s) && l < |s.paths.lookups| && s.paths.lookups[l].pendingMap < |s.paths.pending|
        && s.paths.lookups[l].phase.Settled?
    ensures Inv(s.(paths := Cleanup(s.paths, l)))
  {
    CleanupPendingExact(s.paths, l);
    CleanupTracked(s.sessions, s.paths, l);
    CleanupNoRepeat(s.paths, l);
    CleanupScopesOwned(s, l);
    CleanupRest(s, l);
  }

  lemma CleanupRest(s: State, l: nat)
    requires KeysLive(s) && LookupsOwned(s) && l < |s.paths.lookups|
        && s.paths.lookups[l].pendingMap < |s.paths.pending| && s.paths.lookups[l].phase.Settled?
    ensures var t := s.(paths := Cleanup(s.paths, l)); KeysLive(t) && LookupsOwned(t)
  {
  }

  lemma AdvanceKeepsInv(s: State, i: nat, phase: InitPhase)
    requires Inv(s) && Advances(s.inits, i, phase)
    ensures Inv(s.(inits := SetPhase(s.inits, i, phase)))
  {
    AdvanceKeeps(s.sessions, s.inits, i, phase);
    var t := s.(inits := SetPhase(s.inits, i, phase));
    forall k | 0 <= k < |s.transforms| ensures TransformOk(s.transforms[k], t.inits.ops) {
      TransformsAfterAdvance(s.transforms[k], s.inits, i, phase);
    }
    assert OpsOwned(t);
  }

  lemma HardKeepsInv(s: State, sid: Sid, hard: Option<string>)
    requires Inv(s)
    ensures Inv(s.(contexts := SetHard(s, sid, hard)))
  {
    SidsKeepOwners(s, SetHard(s, sid, hard));
    HardRest(s, sid, hard);
  }

  lemma HardRest(s: State, sid: Sid, hard: Option<string>)
    requires SessionsOk(s) && ScopesOwned(s) && EventsConserved(s)
    ensures ScopesOwned(s.(contexts := SetHard(s, sid, hard))) && EventsConserved(s.(contexts := SetHard(s, sid, hard)))
  {
    SameQueues(s, SetHard(s, sid, hard));
  }

  lemma SoftKeepsInv(s: State, sid: Sid, soft: Option<string>)
    requires Inv(s)
    ensures Inv(QueueSoft(s, sid, soft))
  {
    var t := QueueSoft(s, sid, soft);
    QueueKeepsEvents(s, sid, soft);
    SidsKeepOwners(s, t.contexts);
    QueueRest(s, sid, soft);
  }

  lemma QueueRest(s: State, sid: Sid, soft: Option<string>)
    requires SessionsOk(s) && ScopesOwned(s)
    ensures var t := QueueSoft(s, sid, soft);
        ScopesOwned(t) && SameSids(s.contexts, t.contexts) && t == s.(contexts := t.contexts, trace := t.trace)
  {
  }

  lemma ClearKeepsInv(s: State, i: nat)
    requires Inv(s) && i < |s.inits.ops| && Done(s.inits.ops[i])
    ensures Inv(s.(inits := ClearGate(s.inits, s.inits.ops[i].sid, i)))
  {
    ClearKeeps(s.sessions, s.inits, i);
  }

  lemma BeginStepKeepsInv(s: State, sid: Sid)
    requires Inv(s)
    ensures Inv(OnBegin(s, sid))
  {
    if sid in s.sessions {
      TransformStarts(s, sid);
      assert TransformsOk(OnBegin(s, sid));
    }
  }

  lemma RenderKeepsInv(s: State, c: nat)
    requires Inv(s) && c < |s.contexts|
    ensures Inv(RenderContext(s, c))
  {
    RenderKeepsEvents(s, c);
    SidsKeepOwners(s, RenderContext(s, c).contexts);
    assert ScopesOwned(RenderContext(s, c));
  }

  lemma TransformDoneKeepsInv(s: State, t: nat, phase: TransformPhase)
    requires Inv(s) && t < |s.transforms| && GateOpen(s.inits, s.transforms[t].waits)
    ensures Inv(s.(transforms := s.transforms[t := s.transforms[t].(phase := phase)]))
  {
    TransformFinishes(s.transforms[t], s.inits, phase);
  }

  lemma OnEventKeepsInv(s: State, sid: Sid, kind: InitKind)
    requires Inv(s)
    ensures Inv(OnEvent(s, sid, kind))
  {
    if kind == CompactedInit {
      if sid in s.sessions { EnqueueKeepsInv(s, sid, kind); }
    } else if Admit(s, sid).Some? {
      AdmitKeepsInv(s, sid);
      EnqueueKeepsInv(Admit(s, sid).value, sid, kind);
    }
  }

  lemma OnActivateKeepsInv(s: State, sid: Sid, path: Path)
    requires Inv(s)
    ensures Inv(OnActivate(s, sid, path))
  {
    if Admit(s, sid).Some? {
      AdmitKeepsInv(s, sid);
      BeginKeepsInv(Admit(s, sid).value, sid, path);
    }
  }

  lemma SettleStepKeepsInv(s: State, l: nat, result: Option<seq<ScopeInfo>>)
    requires Inv(s)
    ensures Inv(OnSettle(s, l, result))
  {
    if l < |s.paths.lookups| && s.paths.lookups[l].phase.InFlight? { SettleKeepsInv(s, l, result); }
  }

  lemma CleanupStepKeepsInv(s: State, l: nat)
    requires Inv(s)
    ensures Inv(OnCleanup(s, l))
  {
    if CanCleanUp(s.paths, l) { CleanupKeepsInv(s, l); }
  }

  lemma StartStepKeepsInv(s: State, i: nat)
    requires Inv(s)
    ensures Inv(OnStart(s, i))
  {
    if i < |s.inits.ops| && s.inits.ops[i].phase == Queued && GateOpen(s.inits, s.inits.ops[i].prev) {
      AdvanceKeepsInv(s, i, if s.inits.ops[i].sid in s.sessions then AwaitingHard else AfterHard(s.inits.ops[i].kind));
    }
  }

  lemma HardStepKeepsInv(s: State, i: nat, hard: Option<string>)
    requires Inv(s)
    ensures Inv(OnHard(s, i, hard))
  {
    if i < |s.inits.ops| && s.inits.ops[i].phase == AwaitingHard {
      HardKeepsInv(s, s.inits.ops[i].sid, hard);
      AdvanceKeepsInv(s.(contexts := SetHard(s, s.inits.ops[i].sid, hard)), i, AfterHard(s.inits.ops[i].kind));
    }
  }

  lemma SoftStepKeepsInv(s: State, i: nat, soft: Option<string>)
    requires Inv(s)
    ensures Inv(OnSoft(s, i, soft))
  {
    if i < |s.inits.ops| && s.inits.ops[i].phase == AwaitingSoft {
      SoftKeepsInv(s, s.inits.ops[i].sid, soft);
      AdvanceKeepsInv(QueueSoft(s, s.inits.ops[i].sid, soft), i, Finished);
    }
  }

  lemma ClearStepKeepsInv(s: State, i: nat)
    requires Inv(s)
    ensures Inv(OnClear(s, i))
  {
    if i < |s.inits.ops| && s.inits.ops[i].phase == Finished { ClearKeepsInv(s, i); }
  }

  lemma ResumeStepKeepsInv(s: State, t: nat, title: bool)
    requires Inv(s)
    ensures Inv(OnResume(s, t, title))
  {
    if t < |s.transforms| && s.transforms[t].phase == Waiting && GateOpen(s.inits, s.transforms[t].waits) {
      if title {
        TransformDoneKeepsInv(s, t, Skipped);
      } else {
        RenderKeepsInv(s, s.transforms[t].ctx);
        TransformDoneKeepsInv(RenderContext(s, s.transforms[t].ctx), t, Rendered);
      }
    }
  }

  predicate OfPaths(step: Step) { step.Activate? || step.LookupSettles? || step.LookupCleanup? }

  predicate OfGates(step: Step) { step.InitStarts? || step.InitCleared? }

  predicate OfBootstraps(step: Step) { step.HardArrives? || step.SoftArrives? }

  lemma PathStepKeepsInv(s: State, step: Step)
    requires Inv(s) && OfPaths(step)
    ensures Inv(Next(s, step))
  {
    match step {
      case Activate(sid, path) => OnActivateKeepsInv(s, sid, path);
      case LookupSettles(l, result) => SettleStepKeepsInv(s, l, result);
      case LookupCleanup(l) => CleanupStepKeepsInv(s, l);
    }
  }

  lemma GateStepKeepsInv(s: State, step: Step)
    requires Inv(s) && OfGates(step)
    ensures Inv(Next(s, step))
  {
    match step {
      case InitStarts(i) => StartStepKeepsInv(s, i);
      case InitCleared(i) => ClearStepKeepsInv(s, i);
    }
  }

  lemma BootstrapStepKeepsInv(s: State, step: Step)
    requires Inv(s) && OfBootstraps(step)
    ensures Inv(Next(s, step))
  {
    match step {
      case HardArrives(i, hard) => HardStepKeepsInv(s, i, hard);
      case SoftArrives(i, soft) => SoftStepKeepsInv(s, i, soft);
    }
  }

  lemma HookStepKeepsInv(s: State, step: Step)
    requires Inv(s) && !OfPaths(step) && !OfGates(step) && !OfBootstraps(step)
    ensures Inv(Next(s, step))
  {
    match step {
      case CreatedEvent(sid) => OnEventKeepsInv(s, sid, CreatedInit);
      case CompactedEvent(sid) => OnEventKeepsInv(s, sid, CompactedInit);
      case DeletedEvent(sid) => DeleteKeepsInv(s, sid);
      case TransformBegins(sid) => BeginStepKeepsInv(s, sid);
      case TransformResumes(t, title) => ResumeStepKeepsInv(s, t, title);
    }
  }

  /** Every step keeps the invariant. */
  lemma NextKeepsInv(s: State, step: Step)
    requires Inv(s)
    ensures Inv(Next(s, step))
  {
    if OfPaths(step) {
      PathStepKeepsInv(s, step);
    } else if OfGates(step) {
      GateStepKeepsInv(s, step);
    } else if OfBootstraps(step) {
      BootstrapStepKeepsInv(s, step);
    } else {
      HookStepKeepsInv(s, step);
    }
  }

  lemma AdmitKeepsSessions(s: State, sid: Sid)
    requires SessionsOk(s) && Admit(s, sid).Some?
    ensures SessionsOk(Admit(s, sid).value)
  {
  }

  lemma SettleKeepsSessions(s: State, l: nat, result: Option<seq<ScopeInfo>>)
    requires SessionsOk(s)
    ensures SessionsOk(OnSettle(s, l, result))
  {
  }

  lemma EventKeepsSessions(s: State, sid: Sid, kind: InitKind)
    requires SessionsOk(s)
    ensures SessionsOk(OnEvent(s, sid, kind)) && SessionsOk(Delete(s, sid))
  {
    if Admit(s, sid).Some? { AdmitKeepsSessions(s, sid); }
  }

  lemma ActivateKeepsSessions(s: State, sid: Sid, path: Path)
    requires SessionsOk(s)
    ensures SessionsOk(OnActivate(s, sid, path))
  {
    if Admit(s, sid).Some? { AdmitKeepsSessions(s, sid); }
  }

  lemma HardKeepsSessions(s: State, i: nat, hard: Option<string>)
    requires SessionsOk(s)
    ensures SessionsOk(OnHard(s, i, hard))
  {
  }

  lemma SoftKeepsSessions(s: State, i: nat, soft: Option<string>)
    requires SessionsOk(s)
    ensures SessionsOk(OnSoft(s, i, soft))
  {
  }

  lemma ResumeKeepsSessions(s: State, t: nat, title: bool)
    requires SessionsOk(s)
    ensures SessionsOk(OnResume(s, t, title))
  {
  }

  lemma PathStepKeepsSessions(s: State, step: Step)
    requires SessionsOk(s) && OfPaths(step)
    ensures SessionsOk(Next(s, step))
  {
    match step {
      case Activate(sid, path) => ActivateKeepsSessions(s, sid, path);
      case LookupSettles(l, result) => SettleKeepsSessions(s, l, result);
      case LookupCleanup(_) =>
    }
  }

  lemma GateStepKeepsSessions(s: State, step: Step)
    requires SessionsOk(s) && OfGates(step)
    ensures SessionsOk(Next(s, step))
  {
  }

  lemma BootstrapStepKeepsSessions(s: State, step: Step)
    requires SessionsOk(s) && OfBootstraps(step)
    ensures SessionsOk(Next(s, step))
  {
    match step {
      case HardArrives(i, hard) => HardKeepsSessions(s, i, hard);
      case SoftArrives(i, soft) => SoftKeepsSessions(s, i, soft);
    }
  }

  lemma HookStepKeepsSessions(s: State, step: Step)
    requires SessionsOk(s) && !OfPaths(step) && !OfGates(step) && !OfBootstraps(step)
    ensures SessionsOk(Next(s, step))
  {
    match step {
      case CreatedEvent(sid) => EventKeepsSessions(s, sid, CreatedInit);
      case CompactedEvent(sid) => EventKeepsSessions(s, sid, CompactedInit);
      case DeletedEvent(sid) => EventKeepsSessions(s, sid, CreatedInit);
      case TransformBegins(_) =>
      case TransformResumes(t, title) => ResumeKeepsSessions(s, t, title);
    }
  }

  lemma NextKeepsSessions(s: State, step: Step)
    requires SessionsOk(s)
    ensures SessionsOk(Next(s, step))
  {
    if OfPaths(step) {
      PathStepKeepsSessions(s, step);
    } else if OfGates(step) {
      GateStepKeepsSessions(s, step);
    } else if OfBootstraps(step) {
      BootstrapStepKeepsSessions(s, step);
    } else {
      HookStepKeepsSessions(s, step);
    }
  }

  /** The state after any steps, in any order. */
  function After(steps: seq<Step>): (s: State)
    ensures SessionsOk(s)
  {
    if steps == [] then INITIAL
    else
      var before := After(steps[..|steps| - 1]);
      NextKeepsSessions(before, steps[|steps| - 1]);
      Next(before, steps[|steps| - 1])
  }

  /** The protocol invariant holds in every run. */
  lemma {:induction false} EveryRunKeepsInv(steps: seq<Step>)
    ensures Inv(After(steps))
  {
    if steps == [] {
      InitialInv();
    } else {
      EveryRunKeepsInv(steps[..|steps| - 1]);
      NextKeepsInv(After(steps[..|steps| - 1]), steps[|steps| - 1]);
    }
  }

  lemma InitialInv()
    ensures Inv(INITIAL)
  {
  }

  // ------------------------------------------------------- what holds in every run

  lemma SessionsBoundedAndKeysLive(steps: seq<Step>)
    ensures var s := After(steps);
            && |s.sessions| <= MAX_SESSIONS
            && s.paths.activated.Keys <= s.sessions.Keys && s.paths.activating.Keys <= s.sessions.Keys
            && s.inits.initializing.Keys <= s.sessions.Keys
  {
    EveryRunKeepsInv(steps);
  }

  /** One incarnation never looks a path up twice at a time, and never again once a lookup of it succeeded. */
  lemma LookupsNeverRepeat(steps: seq<Step>)
    ensures var ls := After(steps).paths.lookups;
            forall i, j :: 0 <= i < j < |ls| && ls[i].ctx == ls[j].ctx && ls[i].path == ls[j].path ==>
                !Open(ls[i]) && !Succeeded(ls[i])
  {
    EveryRunKeepsInv(steps);
    assert NoRepeat(After(steps).paths);
  }

  /** Whatever scopes an incarnation shows were looked up by that incarnation. */
  lemma ScopesStayInTheirIncarnation(steps: seq<Step>)
    ensures var s := After(steps);
            forall c, k :: 0 <= c < |s.contexts| && 0 <= k < |s.contexts[c].scopes| ==>
              var l := s.contexts[c].scopes[k].lookup;
              l < |s.paths.lookups| && s.paths.lookups[l].ctx == c && s.paths.lookups[l].sid == s.contexts[c].sid
                  && Succeeded(s.paths.lookups[l])
  {
    EveryRunKeepsInv(steps);
    assert ScopesOwned(After(steps)) && LookupsOwned(After(steps));
  }

  lemma SettleChangesOwnScopes(s: State, l: nat, result: Option<seq<ScopeInfo>>, c: nat)
    requires SessionsOk(s) && l < |s.paths.lookups| && c < |s.contexts|
    ensures |Settle(s, l, result).contexts| == |s.contexts|
    ensures Settle(s, l, result).contexts[c].scopes != s.contexts[c].scopes ==>
              result.Some? && s.paths.lookups[l].ctx == c && Live(s.sessions, s.paths.lookups[l].sid, c)
  {
  }

  lemma BootstrapsKeepScopes(s: State, step: Step, c: nat)
    requires SessionsOk(s) && (OfBootstraps(step) || step.TransformResumes?) && c < |s.contexts|
    ensures c < |Next(s, step).contexts| && Next(s, step).contexts[c].scopes == s.contexts[c].scopes
  {
  }

  lemma OtherStepsKeepScopes(s: State, step: Step, c: nat)
    requires SessionsOk(s) && !step.LookupSettles? && c < |s.contexts|
    ensures c < |Next(s, step).contexts| && Next(s, step).contexts[c].scopes == s.contexts[c].scopes
  {
    if OfBootstraps(step) || step.TransformResumes? { BootstrapsKeepScopes(s, step, c); }
  }

  /** A context's scopes change only when one of its own lookups succeeds while it is live. */
  lemma ScopesChangeOnlyWhileLive(s: State, step: Step, c: nat)
    requires SessionsOk(s) && c < |s.contexts|
    ensures c < |Next(s, step).contexts|
    ensures Next(s, step).contexts[c].scopes != s.contexts[c].scopes ==>
              && step.LookupSettles? && step.l < |s.paths.lookups| && step.result.Some?
              && s.paths.lookups[step.l].ctx == c && Live(s.sessions, s.paths.lookups[step.l].sid, c)
  {
    if !step.LookupSettles? {
      OtherStepsKeepScopes(s, step, c);
    } else if step.l < |s.paths.lookups| {
      SettleChangesOwnScopes(s, step.l, step.result, c);
    }
  }

  predicate Running(op: InitOp) { op.phase == AwaitingHard || op.phase == AwaitingSoft }

  /** Initialization of one incarnation: at most one operation runs, and they finish in the order of their events. */
  lemma InitializationIsSequential(steps: seq<Step>)
    ensures var ops := After(steps).inits.ops;
            forall i, j :: 0 <= i < j < |ops| && ops[i].ctx == ops[j].ctx ==>
              !(Running(ops[i]) && Running(ops[j])) && (ops[j].phase != Queued ==> Done(ops[i]))
  {
    EveryRunKeepsInv(steps);
    assert Ordered(After(steps).inits.ops);
  }

  /** A prompt is rendered only after every initialization registered before the call, for its incarnation, is over. */
  lemma RenderWaitsForInitialization(steps: seq<Step>)
    ensures var s := After(steps);
            forall k, i ::
              0 <= k < |s.transforms| && s.transforms[k].phase == Rendered && 0 <= i < s.transforms[k].gates ==>
                i < |s.inits.ops| && (s.inits.ops[i].ctx == s.transforms[k].ctx ==> Done(s.inits.ops[i]))
  {
    EveryRunKeepsInv(steps);
    var s := After(steps);
    assert forall k :: 0 <= k < |s.transforms| ==> TransformOk(s.transforms[k], s.inits.ops);
  }

  /** The one-shot texts an incarnation was given are those it has shown, in order, then those still queued. */
  lemma OneShotTextsShownOnce(steps: seq<Step>)
    ensures var s := After(steps);
            forall c: nat :: c < |s.contexts| ==>
              Filter(s.trace.queued, OfContext(c))
                  == Filter(s.trace.shown, OfContext(c)) + Tagged(c, s.contexts[c].events)
  {
    EveryRunKeepsInv(steps);
    var s := After(steps);
    forall c: nat | c < |s.contexts|
      ensures Filter(s.trace.queued, OfContext(c))
          == Filter(s.trace.shown, OfContext(c)) + Tagged(c, s.contexts[c].events) {
      ConservedAt(s, c);
    }
  }

  lemma ConservedAt(s: State, c: nat)
    requires EventsConserved(s) && c < |s.contexts|
    ensures Filter(s.trace.queued, OfContext(c)) == Filter(s.trace.shown, OfContext(c))
        + Tagged(c, s.contexts[c].events)
  {
    assert Conserved(s.contexts, s.trace, c);
  }

  /** The hard bootstrap replaces the live incarnation's, and no other's. */
  lemma HardReachesLiveIncarnation(s: State, i: nat, text: string, c: nat)
    requires Inv(s) && i < |s.inits.ops| && s.inits.ops[i].phase == AwaitingHard && c < |s.contexts|
    ensures c < |Next(s, HardArrives(i, Some(text))).contexts|
    ensures Next(s, HardArrives(i, Some(text))).contexts[c].hard
        == if Live(s.sessions, s.inits.ops[i].sid, c) then Some(text) else s.contexts[c].hard
  {
  }

  /** The soft bootstrap has no incarnation check: it lands in whichever incarnation is live when it arrives. */
  lemma SoftReachesLiveIncarnation(s: State, i: nat, text: string, c: nat)
    requires Inv(s) && i < |s.inits.ops| && s.inits.ops[i].phase == AwaitingSoft && c < |s.contexts|
    ensures c < |Next(s, SoftArrives(i, Some(text))).contexts|
    ensures Next(s, SoftArrives(i, Some(text))).contexts[c].events
         == s.contexts[c].events + if Live(s.sessions, s.inits.ops[i].sid, c) then [text] else []
  {
  }

  /** ... so one that is outstanding while its session is deleted and created again is shown by the new incarnation,
      whose own soft bootstrap is still to come. */
  lemma SoftCrossesIncarnations(s: State, i: nat, text: string)
    requires Inv(s) && i < |s.inits.ops| && s.inits.ops[i].phase == AwaitingSoft
    requires |Delete(s, s.inits.ops[i].sid).sessions| < MAX_SESSIONS
    ensures var sid, c := s.inits.ops[i].sid, |s.contexts|;
            var recreated := OnEvent(Delete(s, sid), sid, CreatedInit);
            && s.inits.ops[i].ctx < c
            && recreated.inits.ops == s.inits.ops + [InitOp(sid, c, CreatedInit, None, Queued)]
            && SessionsOk(recreated)
            && var end := Next(recreated, SoftArrives(i, Some(text)));
            c < |end.contexts| && end.contexts[c].events == [text]
  {
    var sid := s.inits.ops[i].sid;
    DeleteKeepsInv(s, sid);
    OnEventKeepsInv(Delete(s, sid), sid, CreatedInit);
    Recreated(s, sid);
    SoftReachesLiveIncarnation(OnEvent(Delete(s, sid), sid, CreatedInit), i, text, |s.contexts|);
  }

  lemma Recreated(s: State, sid: Sid)
    requires |Delete(s, sid).sessions| < MAX_SESSIONS
    ensures var t := OnEvent(Delete(s, sid), sid, CreatedInit);
            && t.contexts == s.contexts + [Context(sid, None, [], [])] && Live(t.sessions, sid, |s.contexts|)
            && t.inits.ops == s.inits.ops + [InitOp(sid, |s.contexts|, CreatedInit, None, Queued)]
  {
  }

  lemma AfterSnoc(steps: seq<Step>, x: Step)
    ensures After(steps + [x]) == Next(After(steps), x)
  {
    assert (steps + [x])[..|steps|] == steps;
  }

  /** A session just created, its initialization in the given phase. */
  function StartingState(sid: Sid, phase: InitPhase): State {
    State(map[sid := 0], [Context(sid, None, [], [])], Paths(map[], map[], [], []),
          Inits(map[sid := 0], [InitOp(sid, 0, CreatedInit, None, phase)]), [], Trace([], []))
  }

  lemma StartingOk(sid: Sid, phase: InitPhase)
    ensures SessionsOk(StartingState(sid, phase))
  {
  }

  lemma FirstCreated(sid: Sid)
    ensures Next(INITIAL, CreatedEvent(sid)) == StartingState(sid, Queued)
  {
  }

  lemma FirstStarts(sid: Sid)
    requires SessionsOk(StartingState(sid, Queued))
    ensures Next(StartingState(sid, Queued), InitStarts(0)) == StartingState(sid, AwaitingHard)
  {
  }

  lemma FirstHard(sid: Sid)
    requires SessionsOk(StartingState(sid, AwaitingHard))
    ensures Next(StartingState(sid, AwaitingHard), HardArrives(0, None)) == StartingState(sid, AwaitingSoft)
  {
  }

  function UntilSoft(sid: Sid): seq<Step> { [CreatedEvent(sid)] + [InitStarts(0)] + [HardArrives(0, None)] }

  lemma UntilSoftReached(sid: Sid)
    ensures After(UntilSoft(sid)) == StartingState(sid, AwaitingSoft)
  {
    StartingOk(sid, Queued);
    StartingOk(sid, AwaitingHard);
    FirstCreated(sid);
    FirstStarts(sid);
    FirstHard(sid);
    AfterSnoc([], CreatedEvent(sid));
    assert [] + [CreatedEvent(sid)] == [CreatedEvent(sid)];
    AfterSnoc([CreatedEvent(sid)], InitStarts(0));
    AfterSnoc([CreatedEvent(sid)] + [InitStarts(0)], HardArrives(0, None));
  }

  /** A run from the start in which that happens. */
  function CrossingRun(sid: Sid, text: string): seq<Step> {
    UntilSoft(sid) + [DeletedEvent(sid)] + [CreatedEvent(sid)] + [SoftArrives(0, Some(text))]
  }

  lemma AfterTwo(steps: seq<Step>, x: Step, y: Step)
    ensures After(steps + [x]) == Next(After(steps), x)
    ensures After(steps + [x] + [y]) == Next(Next(After(steps), x), y)
  {
    AfterSnoc(steps, x);
    AfterSnoc(steps + [x], y);
  }

  /** A session deleted and created again. */
  lemma Recreates(steps: seq<Step>, sid: Sid)
    ensures After(steps + [DeletedEvent(sid)] + [CreatedEvent(sid)])
         == OnEvent(Delete(After(steps), sid), sid, CreatedInit)
  {
    AfterTwo(steps, DeletedEvent(sid), CreatedEvent(sid));
  }

  lemma UntilRecreated(sid: Sid)
    ensures var s := StartingState(sid, AwaitingSoft);
            && After(UntilSoft(sid)) == s && Inv(s)
            && After(UntilSoft(sid) + [DeletedEvent(sid)] + [CreatedEvent(sid)])
              == OnEvent(Delete(s, sid), sid, CreatedInit)
  {
    UntilSoftReached(sid);
    EveryRunKeepsInv(UntilSoft(sid));
    Recreates(UntilSoft(sid), sid);
  }

  lemma CrossingRunCrosses(sid: Sid, text: string)
    ensures After(UntilSoft(sid)).inits.ops == [InitOp(sid, 0, CreatedInit, None, AwaitingSoft)]
    ensures var recreated := After(UntilSoft(sid) + [DeletedEvent(sid)] + [CreatedEvent(sid)]);
            recreated.inits.ops == After(UntilSoft(sid)).inits.ops + [InitOp(sid, 1, CreatedInit, None, Queued)]
    ensures var end := After(CrossingRun(sid, text)); 1 < |end.contexts| && end.contexts[1].events == [text]
  {
    var s := StartingState(sid, AwaitingSoft);
    UntilRecreated(sid);
    AfterSnoc(UntilSoft(sid) + [DeletedEvent(sid)] + [CreatedEvent(sid)], SoftArrives(0, Some(text)));
    assert Delete(s, sid).sessions == map[];
    SoftCrossesIncarnations(s, 0, text);
  }

  // ---------------------------------------------------- when it does not cross, exactly

  predicate OfSessions(step: Step) { step.CreatedEvent? || step.DeletedEvent? || step.Activate? }

  /** Only events and activations touch the sessions, and none takes a context away. */
  lemma OtherPathStepsKeepSessions(s: State, step: Step)
    requires SessionsOk(s) && OfPaths(step) && !OfSessions(step)
    ensures Next(s, step).sessions == s.sessions && |Next(s, step).contexts| == |s.contexts|
        && Next(s, step).inits == s.inits
  {
  }

  lemma BootstrapsKeepSessions(s: State, step: Step)
    requires SessionsOk(s) && OfBootstraps(step)
    ensures Next(s, step).sessions == s.sessions && |Next(s, step).contexts| == |s.contexts|
  {
  }

  lemma OtherHooksKeepSessions(s: State, step: Step)
    requires SessionsOk(s) && (step.CompactedEvent? || step.TransformBegins? || step.TransformResumes?)
    ensures Next(s, step).sessions == s.sessions && |Next(s, step).contexts| == |s.contexts|
  {
  }

  lemma GatesKeepSessions(s: State, step: Step)
    requires SessionsOk(s) && OfGates(step)
    ensures Next(s, step).sessions == s.sessions && |Next(s, step).contexts| == |s.contexts|
  {
  }

  lemma OtherStepsKeepSessions(s: State, step: Step)
    requires SessionsOk(s) && !OfSessions(step)
    ensures Next(s, step).sessions == s.sessions && |Next(s, step).contexts| == |s.contexts|
  {
    if OfPaths(step) {
      OtherPathStepsKeepSessions(s, step);
    } else if OfBootstraps(step) {
      BootstrapsKeepSessions(s, step);
    } else if OfGates(step) {
      GatesKeepSessions(s, step);
    } else {
      OtherHooksKeepSessions(s, step);
    }
  }

  lemma AdmitKeepsLive(s: State, sid: Sid, other: Sid, c: nat)
    requires SessionsOk(s) && Admit(s, other).Some? && c < |s.contexts|
    ensures var t := Admit(s, other).value;
            c < |t.contexts| && (Live(t.sessions, sid, c) <==> Live(s.sessions, sid, c)) && t.inits == s.inits
  {
  }

  lemma StepKeepsLive(s: State, step: Step, sid: Sid, c: nat)
    requires SessionsOk(s) && Live(s.sessions, sid, c)
    ensures Live(Next(s, step).sessions, sid, c) <==> step != DeletedEvent(sid)
  {
    if OfSessions(step) {
      if !step.DeletedEvent? && Admit(s, step.sid).Some? { AdmitKeepsLive(s, sid, step.sid, c); }
    } else {
      OtherStepsKeepSessions(s, step);
    }
  }

  lemma StepKeepsGone(s: State, step: Step, sid: Sid, c: nat)
    requires SessionsOk(s) && c < |s.contexts| && !Live(s.sessions, sid, c)
    ensures c < |Next(s, step).contexts| && !Live(Next(s, step).sessions, sid, c)
  {
    if OfSessions(step) {
      if !step.DeletedEvent? && Admit(s, step.sid).Some? { AdmitKeepsLive(s, sid, step.sid, c); }
    } else {
      OtherStepsKeepSessions(s, step);
    }
  }

  ghost predicate SameOp(g: Inits, h: Inits, i: nat)
    requires i < |g.ops|
  {
    i < |h.ops| && h.ops[i].sid == g.ops[i].sid && h.ops[i].ctx == g.ops[i].ctx
  }

  lemma GateStepKeepsOps(s: State, step: Step, i: nat)
    requires SessionsOk(s) && OfGates(step) && i < |s.inits.ops|
    ensures SameOp(s.inits, Next(s, step).inits, i)
  {
  }

  lemma BootstrapStepKeepsOps(s: State, step: Step, i: nat)
    requires SessionsOk(s) && OfBootstraps(step) && i < |s.inits.ops|
    ensures SameOp(s.inits, Next(s, step).inits, i)
  {
  }

  lemma EventKeepsOps(s: State, sid: Sid, kind: InitKind, i: nat)
    requires SessionsOk(s) && i < |s.inits.ops|
    ensures SameOp(s.inits, OnEvent(s, sid, kind).inits, i)
  {
  }

  lemma StepKeepsOps(s: State, step: Step, i: nat)
    requires SessionsOk(s) && i < |s.inits.ops|
    ensures SameOp(s.inits, Next(s, step).inits, i)
  {
    if OfGates(step) {
      GateStepKeepsOps(s, step, i);
    } else if OfBootstraps(step) {
      BootstrapStepKeepsOps(s, step, i);
    } else if step.CreatedEvent? {
      EventKeepsOps(s, step.sid, CreatedInit, i);
    } else if step.CompactedEvent? {
      EventKeepsOps(s, step.sid, CompactedInit, i);
    } else if OfPaths(step) && !step.Activate? {
      OtherPathStepsKeepSessions(s, step);
    }
  }

  lemma StepLives(s: State, step: Step, sid: Sid, c: nat)
    requires SessionsOk(s) && c < |s.contexts|
    ensures c < |Next(s, step).contexts|
    ensures Live(Next(s, step).sessions, sid, c) <==> Live(s.sessions, sid, c) && step != DeletedEvent(sid)
  {
    if Live(s.sessions, sid, c) {
      StepKeepsLive(s, step, sid, c);
      ContextsStay(s, step, c);
    } else {
      StepKeepsGone(s, step, sid, c);
    }
  }

  lemma ContextsStay(s: State, step: Step, c: nat)
    requires SessionsOk(s) && c < |s.contexts|
    ensures c < |Next(s, step).contexts|
  {
    if OfSessions(step) {
      if !step.DeletedEvent? && Admit(s, step.sid).Some? { AdmitKeepsLive(s, step.sid, step.sid, c); }
    } else {
      OtherStepsKeepSessions(s, step);
    }
  }

  lemma LastIn<T>(front: seq<T>, last: T, x: T)
    ensures x in front + [last] <==> x in front || x == last
  {
  }

  /** An incarnation lives until its session is deleted, and never again. */
  lemma {:induction false} LiveUntilDeleted(pre: seq<Step>, post: seq<Step>, sid: Sid, c: nat)
    requires Live(After(pre).sessions, sid, c)
    ensures c < |After(pre + post).contexts|
    ensures Live(After(pre + post).sessions, sid, c) <==> DeletedEvent(sid) !in post
    decreases |post|
  {
    if post == [] {
      assert pre + post == pre;
    } else {
      var front, last := post[..|post| - 1], post[|post| - 1];
      assert post == front + [last];
      assert (pre + post)[..|pre + post| - 1] == pre + front;
      LiveUntilDeleted(pre, front, sid, c);
      StepLives(After(pre + front), last, sid, c);
      LastIn(front, last, DeletedEvent(sid));
    }
  }

  lemma {:induction false} OpsStay(pre: seq<Step>, post: seq<Step>, i: nat)
    requires i < |After(pre).inits.ops|
    ensures i < |After(pre + post).inits.ops|
    ensures After(pre + post).inits.ops[i].sid == After(pre).inits.ops[i].sid
        && After(pre + post).inits.ops[i].ctx == After(pre).inits.ops[i].ctx
    decreases |post|
  {
    if post == [] {
      assert pre + post == pre;
    } else {
      var front := post[..|post| - 1];
      assert (pre + post)[..|pre + post| - 1] == pre + front;
      OpsStay(pre, front, i);
      StepKeepsOps(After(pre + front), post[|post| - 1], i);
    }
  }

  /** The soft bootstrap of an operation registered for a live incarnation reaches that incarnation exactly when the
      session was not deleted in between. */
  lemma SoftReachesOwnExactly(pre: seq<Step>, post: seq<Step>, i: nat, text: string)
    requires i < |After(pre).inits.ops|
    requires var op := After(pre).inits.ops[i]; Live(After(pre).sessions, op.sid, op.ctx)
    requires i < |After(pre + post).inits.ops| && After(pre + post).inits.ops[i].phase == AwaitingSoft
    ensures var op, s := After(pre).inits.ops[i], After(pre + post);
            && op.ctx < |s.contexts| && op.ctx < |Next(s, SoftArrives(i, Some(text))).contexts|
            && Next(s, SoftArrives(i, Some(text))).contexts[op.ctx].events
               == s.contexts[op.ctx].events + if DeletedEvent(op.sid) in post then [] else [text]
  {
    var op := After(pre).inits.ops[i];
    LiveUntilDeleted(pre, post, op.sid, op.ctx);
    OpsStay(pre, post, i);
    EveryRunKeepsInv(pre + post);
    SoftReachesLiveIncarnation(After(pre + post), i, text, op.ctx);
  }

  /** The same of the hard bootstrap, which replaces the one before. */
  lemma HardReachesOwnExactly(pre: seq<Step>, post: seq<Step>, i: nat, text: string)
    requires i < |After(pre).inits.ops|
    requires var op := After(pre).inits.ops[i]; Live(After(pre).sessions, op.sid, op.ctx)
    requires i < |After(pre + post).inits.ops| && After(pre + post).inits.ops[i].phase == AwaitingHard
    ensures var op, s := After(pre).inits.ops[i], After(pre + post);
            && op.ctx < |s.contexts| && op.ctx < |Next(s, HardArrives(i, Some(text))).contexts|
            && Next(s, HardArrives(i, Some(text))).contexts[op.ctx].hard
               == if DeletedEvent(op.sid) in post then s.contexts[op.ctx].hard else Some(text)
  {
    var op := After(pre).inits.ops[i];
    LiveUntilDeleted(pre, post, op.sid, op.ctx);
    OpsStay(pre, post, i);
    EveryRunKeepsInv(pre + post);
    HardReachesLiveIncarnation(After(pre + post), i, text, op.ctx);
  }

  // ------------------------------------------- what an enabled step does to the state

  lemma SettlesTo(s: State, l: nat, result: Option<seq<ScopeInfo>>)
    requires SessionsOk(s) && l < |s.paths.lookups| && s.paths.lookups[l].phase.InFlight?
    ensures Next(s, LookupSettles(l, result)) == Settle(s, l, result)
  {
  }

  lemma CleansTo(s: State, l: nat)
    requires Inv(s) && l < |s.paths.lookups| && s.paths.lookups[l].phase.Settled?
    ensures s.paths.lookups[l].pendingMap < |s.paths.pending|
    ensures Next(s, Step.LookupCleanup(l)) == s.(paths := Cleanup(s.paths, l))
  {
    assert Open(s.paths.lookups[l]);
  }

  lemma StartsTo(s: State, i: nat)
    requires SessionsOk(s) && i < |s.inits.ops| && s.inits.ops[i].phase == Queued
        && GateOpen(s.inits, s.inits.ops[i].prev)
    ensures var op := s.inits.ops[i];
            Next(s, InitStarts(i))
                == s.(inits := SetPhase(s.inits, i, if op.sid in s.sessions then AwaitingHard else AfterHard(op.kind)))
  {
  }

  lemma HardTo(s: State, i: nat, hard: Option<string>)
    requires SessionsOk(s) && i < |s.inits.ops| && s.inits.ops[i].phase == AwaitingHard
    ensures var op := s.inits.ops[i];
            Next(s, HardArrives(i, hard)) == s.(contexts := SetHard(s, op.sid, hard),
                inits := SetPhase(s.inits, i, AfterHard(op.kind)))
  {
  }

  lemma SoftTo(s: State, i: nat, soft: Option<string>)
    requires SessionsOk(s) && i < |s.inits.ops| && s.inits.ops[i].phase == AwaitingSoft
    ensures Next(s, SoftArrives(i, soft)) == QueueSoft(s, s.inits.ops[i].sid,
        soft).(inits := SetPhase(s.inits, i, Finished))
  {
  }

  lemma ClearsTo(s: State, i: nat)
    requires SessionsOk(s) && i < |s.inits.ops| && s.inits.ops[i].phase == Finished
    ensures Next(s, InitCleared(i)) == s.(inits := ClearGate(s.inits, s.inits.ops[i].sid, i))
  {
  }

  lemma ResumesTo(s: State, t: nat, title: bool)
    requires Inv(s) && t < |s.transforms| && s.transforms[t].phase == Waiting
        && GateOpen(s.inits, s.transforms[t].waits)
    ensures s.transforms[t].ctx < |s.contexts|
    ensures Next(s, TransformResumes(t, title))
         == (if title then s else RenderContext(s, s.transforms[t].ctx))
            .(transforms := s.transforms[t := s.transforms[t].(phase := if title then Skipped else Rendered)])
  {
  }

  // ------------------------------------------------------------------ the hooks

  /** The plugin's maps, and the heap of contexts, pending maps and promises they refer to. */
  class Host {
    var sessions: map<Sid, nat>
    var contexts: seq<Context>
    var activatedPaths: map<Sid, set<Path>>
    var activatingPaths: map<Sid, nat>
    var pendingMaps: seq<map<Path, nat>>
    var lookups: seq<Lookup>
    var initializing: map<Sid, nat>
    var ops: seq<InitOp>
    var transforms: seq<Transform>
    ghost var trace: Trace

    constructor ()
      ensures Now() == INITIAL && Valid()
    {
      sessions, contexts, activatedPaths, activatingPaths, pendingMaps := map[], [], map[], map[], [];
      lookups, initializing, ops, transforms, trace := [], map[], [], [], Trace([], []);
      new;
      InitialInv();
    }

    ghost function Now(): State
      reads this
    {
      State(sessions, contexts, Paths(activatedPaths, activatingPaths, pendingMaps, lookups),
          Inits(initializing, ops), transforms, trace)
    }

    ghost predicate Valid()
      reads this
    {
      Inv(Now())
    }

    method AdmitSession(sid: Sid) returns (ctx: Option<nat>)
      modifies this`sessions, this`contexts
      ensures match Admit(old(Now()), sid)
              case None => ctx == None && Now() == old(Now())
              case Some(t) => Now() == t && sid in sessions && ctx == Some(sessions[sid])
    {
      if sid !in sessions {
        if |sessions| >= MAX_SESSIONS { return None; }
        sessions := sessions[sid := |contexts|];
        contexts := contexts + [Context(sid, None, [], [])];
      }
      return Some(sessions[sid]);
    }

    method EnqueueInitialization(sid: Sid, kind: InitKind)
      requires sid in sessions
      modifies this`initializing, this`ops
      ensures Inits(initializing, ops) == Enqueue(old(Inits(initializing, ops)), sid, sessions[sid], kind)
    {
      var previous := if sid in initializing then Some(initializing[sid]) else None;
      ops := ops + [InitOp(sid, sessions[sid], kind, previous, Queued)];
      initializing := initializing[sid := |ops| - 1];
    }

    /** Admission and the gate, in one stretch. */
    method AdmitAndQueue(sid: Sid)
      modifies this`sessions, this`contexts, this`initializing, this`ops
      ensures Now() == OnEvent(old(Now()), sid, CreatedInit)
    {
      var ctx := AdmitSession(sid);
      if ctx.None? { return; }
      EnqueueInitialization(sid, CreatedInit);
    }

    method SessionCreated(sid: Sid)
      requires Valid()
      modifies this
      ensures Now() == Next(old(Now()), CreatedEvent(sid)) && Valid()
    {
      NextKeepsInv(Now(), CreatedEvent(sid));
      AdmitAndQueue(sid);
    }

    method SessionCompacted(sid: Sid)
      requires Valid()
      modifies this
      ensures Now() == Next(old(Now()), CompactedEvent(sid)) && Valid()
    {
      NextKeepsInv(Now(), CompactedEvent(sid));
      if sid in sessions { EnqueueInitialization(sid, CompactedInit); }
    }

    /** Out of all four maps, in one stretch. */
    method DropSession(sid: Sid)
      modifies this`sessions, this`activatedPaths, this`activatingPaths, this`initializing
      ensures Now() == Delete(old(Now()), sid)
    {
      sessions := sessions - {sid};
      activatedPaths := activatedPaths - {sid};
      activatingPaths := activatingPaths - {sid};
      initializing := initializing - {sid};
    }

    method SessionDeleted(sid: Sid)
      requires Valid()
      modifies this
      ensures Now() == Next(old(Now()), DeletedEvent(sid)) && Valid()
    {
      NextKeepsInv(Now(), DeletedEvent(sid));
      DropSession(sid);
    }

    ghost function PathsNow(): Paths
      reads this
    {
      Paths(activatedPaths, activatingPaths, pendingMaps, lookups)
    }

    /** The synchronous part of an activation, once the session is admitted. */
    method RequestScopes(sid: Sid, ctx: nat, path: Path)
      requires sid in activatingPaths ==> activatingPaths[sid] < |pendingMaps|
      modifies this`activatingPaths, this`pendingMaps, this`lookups
      ensures PathsNow() == BeginLookup(old(PathsNow()), sid, ctx, path)
    {
      if sid in activatedPaths && path in activatedPaths[sid] { return; }
      var m := |pendingMaps|;
      if sid in activatingPaths {
        m := activatingPaths[sid];
        if path in pendingMaps[m] { return; }
      } else {
        pendingMaps := pendingMaps + [map[]];
      }
      var pending: map<Path, nat> := pendingMaps[m];
      pending := pending[path := |lookups|];
      pendingMaps := pendingMaps[m := pending];
      activatingPaths := activatingPaths[sid := m];
      lookups := lookups + [Lookup(sid, ctx, path, m, InFlight)];
    }

    method AdmitAndRequest(sid: Sid, path: Path)
      requires forall sid :: sid in activatingPaths ==> activatingPaths[sid] < |pendingMaps|
      modifies this`sessions, this`contexts, this`activatingPaths, this`pendingMaps, this`lookups
      ensures Now() == OnActivate(old(Now()), sid, path)
    {
      var ctx := AdmitSession(sid);
      if ctx.None? { return; }
      RequestScopes(sid, ctx.value, path);
    }

    method ActivateScopesForPath(sid: Sid, path: Path)
      requires Valid()
      modifies this
      ensures Now() == Next(old(Now()), Activate(sid, path)) && Valid()
    {
      NextKeepsInv(Now(), Activate(sid, path));
      AdmitAndRequest(sid, path);
    }

    method AddActiveScopes(c: nat, found: seq<ScopeInfo>, l: nat)
      requires c < |contexts|
      modifies this`contexts
      ensures contexts == old(contexts)[c := old(contexts)[c].(scopes := AddScopes(old(contexts)[c].scopes, found, l))]
    {
      var active := contexts[c].scopes;
      for k := 0 to |found|
        invariant contexts == old(contexts) && active == AddScopes(contexts[c].scopes, found[..k], l)
      {
        TakeSnoc(found, k);
        if !exists a :: a in active && a.info.scopeId == found[k].scopeId {
          active := active + [ActiveScope(found[k], l)];
        }
      }
      TakeAll(found);
      contexts := contexts[c := contexts[c].(scopes := active)];
    }

    /** The answer to a lookup, as far as the path maps and its own context go. */
    method ReceiveScopes(l: nat, result: Option<seq<ScopeInfo>>)
      requires l < |lookups| && forall sid :: sid in sessions ==> sessions[sid] < |contexts|
      modifies this`lookups, this`activatedPaths, this`contexts
      ensures Now() == Settle(old(Now()), l, result)
    {
      var look := lookups[l];
      lookups := lookups[l := look.(phase := Settled(result.Some?))];
      if result.None? { return; }
      if look.sid !in sessions || sessions[look.sid] != look.ctx { return; }
      var seen := if look.sid in activatedPaths then activatedPaths[look.sid] else {};
      activatedPaths := activatedPaths[look.sid := seen + {look.path}];
      AddActiveScopes(look.ctx, result.value, l);
    }

    method ScopeLookupSettles(l: nat, result: Option<seq<ScopeInfo>>)
      requires Valid() && l < |lookups| && lookups[l].phase.InFlight?
      modifies this
      ensures Now() == Next(old(Now()), LookupSettles(l, result)) && Valid()
    {
      NextKeepsInv(Now(), LookupSettles(l, result));
      SettlesTo(Now(), l, result);
      ReceiveScopes(l, result);
    }

    method LeavePending(l: nat)
      requires l < |lookups| && lookups[l].pendingMap < |pendingMaps| && lookups[l].phase.Settled?
      modifies this`activatingPaths, this`pendingMaps, this`lookups
      ensures PathsNow() == Cleanup(old(PathsNow()), l)
    {
      var look := lookups[l];
      var m := look.pendingMap;
      if look.path in pendingMaps[m] && pendingMaps[m][look.path] == l {
        pendingMaps := pendingMaps[m := pendingMaps[m] - {look.path}];
      }
      if pendingMaps[m] == map[] && look.sid in activatingPaths && activatingPaths[look.sid] == m {
        activatingPaths := activatingPaths - {look.sid};
      }
      lookups := lookups[l := look.(phase := Closed(look.phase.ok))];
    }

    method ScopeLookupCleanup(l: nat)
      requires Valid() && l < |lookups| && lookups[l].phase.Settled?
      modifies this
      ensures Now() == Next(old(Now()), Step.LookupCleanup(l)) && Valid()
    {
      NextKeepsInv(Now(), Step.LookupCleanup(l));
      CleansTo(Now(), l);
      LeavePending(l);
    }

    method Advance(i: nat, phase: InitPhase)
      requires i < |ops|
      modifies this`ops
      ensures Inits(initializing, ops) == SetPhase(old(Inits(initializing, ops)), i, phase)
    {
      ops := ops[i := ops[i].(phase := phase)];
    }

    method InitializationStarts(i: nat)
      requires Valid() && i < |ops| && ops[i].phase == Queued && GateOpen(Inits(initializing, ops), ops[i].prev)
      modifies this
      ensures Now() == Next(old(Now()), InitStarts(i)) && Valid()
    {
      NextKeepsInv(Now(), InitStarts(i));
      StartsTo(Now(), i);
      if ops[i].sid in sessions {
        Advance(i, AwaitingHard);
      } else {
        Advance(i, if ops[i].kind == CreatedInit then AwaitingSoft else Finished);
      }
    }

    method SetHardBootstrap(sid: Sid, hard: string)
      requires forall sid :: sid in sessions ==> sessions[sid] < |contexts|
      modifies this`contexts
      ensures contexts == SetHard(old(Now()), sid, Some(hard))
    {
      if sid !in sessions { return; }
      var c := sessions[sid];
      contexts := contexts[c := contexts[c].(hard := Some(hard))];
    }

    /** The hard bootstrap in place, and the operation moved on. */
    method ReceiveHard(i: nat, hard: Option<string>)
      requires i < |ops| && forall sid :: sid in sessions ==> sessions[sid] < |contexts|
      modifies this`contexts, this`ops
      ensures contexts == SetHard(old(Now()), old(ops[i].sid), hard)
      ensures Inits(initializing, ops) == SetPhase(old(Inits(initializing, ops)), i, AfterHard(old(ops[i].kind)))
    {
      if hard.Some? { SetHardBootstrap(ops[i].sid, hard.value); }
      Advance(i, if ops[i].kind == CreatedInit then AwaitingSoft else Finished);
    }

    method HardBootstrapArrives(i: nat, hard: Option<string>)
      requires Valid() && i < |ops| && ops[i].phase == AwaitingHard
      modifies this
      ensures Now() == Next(old(Now()), HardArrives(i, hard)) && Valid()
    {
      NextKeepsInv(Now(), HardArrives(i, hard));
      HardTo(Now(), i, hard);
      ReceiveHard(i, hard);
    }

    method EnqueuePendingEvent(sid: Sid, text: string)
      requires forall sid :: sid in sessions ==> sessions[sid] < |contexts|
      modifies this`contexts, this`trace
      ensures Now() == QueueSoft(old(Now()), sid, Some(text))
    {
      if sid !in sessions { return; }
      var c := sessions[sid];
      contexts := contexts[c := contexts[c].(events := contexts[c].events + [text])];
      trace := trace.(queued := trace.queued + [(c, text)]);
    }

    method SoftBootstrapArrives(i: nat, soft: Option<string>)
      requires Valid() && i < |ops| && ops[i].phase == AwaitingSoft
      modifies this
      ensures Now() == Next(old(Now()), SoftArrives(i, soft)) && Valid()
    {
      NextKeepsInv(Now(), SoftArrives(i, soft));
      SoftTo(Now(), i, soft);
      if soft.Some? { EnqueuePendingEvent(ops[i].sid, soft.value); }
      Advance(i, Finished);
    }

    method LeaveGate(i: nat)
      requires i < |ops|
      modifies this`initializing
      ensures Inits(initializing, ops) == ClearGate(old(Inits(initializing, ops)), ops[i].sid, i)
    {
      if ops[i].sid in initializing && initializing[ops[i].sid] == i {
        initializing := initializing - {ops[i].sid};
      }
    }

    method ClearInitializing(i: nat)
      requires Valid() && i < |ops| && ops[i].phase == Finished
      modifies this
      ensures Now() == Next(old(Now()), InitCleared(i)) && Valid()
    {
      NextKeepsInv(Now(), InitCleared(i));
      ClearsTo(Now(), i);
      LeaveGate(i);
    }

    /** The context and the gate, taken in one stretch. */
    method TakeGate(sid: Sid)
      requires sid in sessions
      modifies this`transforms
      ensures transforms == old(transforms) + [TransformOf(Now(), sid)]
    {
      var gate := if sid in initializing then Some(initializing[sid]) else None;
      transforms := transforms + [Transform(sessions[sid], gate, |ops|, Waiting)];
    }

    method SystemTransformBegins(sid: Sid)
      requires Valid()
      modifies this
      ensures Now() == Next(old(Now()), TransformBegins(sid)) && Valid()
    {
      NextKeepsInv(Now(), TransformBegins(sid));
      if sid in sessions { TakeGate(sid); }
    }

    /** The context taken at the call, its one-shot texts drained. */
    method RenderSystemContext(c: nat) returns (shown: Context)
      requires c < |contexts|
      modifies this`contexts, this`trace
      ensures Now() == RenderContext(old(Now()), c) && shown == old(contexts[c])
    {
      shown := contexts[c];
      trace := trace.(shown := trace.shown + Tagged(c, contexts[c].events));
      contexts := contexts[c := contexts[c].(events := [])];
    }

    method SystemTransformResumes(t: nat, title: bool) returns (shown: Option<Context>)
      requires Valid() && t < |transforms| && transforms[t].phase == Waiting
          && GateOpen(Inits(initializing, ops), transforms[t].waits)
      modifies this
      ensures Now() == Next(old(Now()), TransformResumes(t, title)) && Valid()
      ensures old(transforms[t].ctx < |contexts|)
      ensures shown == if title then None else Some(old(contexts[transforms[t].ctx]))
    {
      NextKeepsInv(Now(), TransformResumes(t, title));
      ResumesTo(Now(), t, title);
      var c := transforms[t].ctx;
      transforms := transforms[t := transforms[t].(phase := if title then Skipped else Rendered)];
      if title { return None; }
      var context := RenderSystemContext(c);
      return Some(context);
    }
  }
}
