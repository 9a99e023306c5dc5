/**
 * The per-widget render pipeline of the abstract renderer: the
 * conditional and mobile gates, the cache lookup with its fresh, stale
 * and miss branches, lock acquisition with the stale fallback,
 * regeneration with capture of the template accumulators, the cache write,
 * the lock release, and the replay of container data and required
 * externals into the page.
 *
 * The verdicts of the conditional tester and the legacy evaluator, the
 * render template's name and what the concrete renderer's `_render`
 * produces are inputs: they come from code outside this model.
 */
module RenderPipeline {

  import opened Wrappers
  import opened PhpValues
  import opened PhpStrings
  import opened RendererConfig
  import opened WidgetRenderer
  import opened CacheStore

  // ---------------------------------------------------------------------
  // The renderer instance and its memoised configuration (WidgetRenderer.php:382-417, WidgetGroup.php:5-14)

  /** The configuration a renderer answers with: the resolved one, with the group's schema override for groups. */
  function Configured(className: string, declared: Declared, isGroup: bool): Configuration {
    var base := Resolve(className, declared);
    if isGroup then GroupConfiguration(base) else base
  }

  class Renderer {
    const className: string
    const declared: Declared
    const isGroup: bool
    /** `_configuration`: `None` until first asked, then the resolved configuration. */
    var configuration: Option<Configuration>

    ghost predicate Valid()
      reads this
    {
      configuration.Some? ==> configuration.value == Resolve(className, declared)
    }

    constructor (className: string, declared: Declared, isGroup: bool)
      ensures Valid() && configuration.None?
      ensures this.className == className && this.declared == declared && this.isGroup == isGroup
    {
      this.className := className;
      this.declared := declared;
      this.isGroup := isGroup;
      configuration := None;
    }

    /**
     * `getConfiguration`: resolves once and remembers the result; every
     * later call answers from the memo. A group replaces the schema on
     * each call, leaving the memo untouched.
     */
    method GetConfiguration() returns (c: Configuration)
      requires Valid()
      modifies this`configuration
      ensures Valid()
      ensures configuration == Some(Resolve(className, declared))
      ensures c == Configured(className, declared, isGroup)
      ensures old(configuration).Some? ==> configuration == old(configuration)
    {
      if configuration.None? {
        configuration := Some(Resolve(className, declared));
      }
      c := configuration.value;
      if isGroup {
        c := c.(options := map[LayoutKey := StringInput]);
      }
    }
  }

  // ---------------------------------------------------------------------
  // The page-side accumulators (WidgetRenderer.php:765-783, 806-818)

  /** One call of the template's `addRequiredExternal`. */
  datatype Requirement = Requirement(kind: string, requirement: string)

  /** The requirements of one external group, in order. */
  function Pairs(kind: string, requirements: seq<string>): (r: seq<Requirement>)
    ensures |r| == |requirements| && forall k :: 0 <= k < |r| ==> r[k] == Requirement(kind, requirements[k])
  {
    seq(|requirements|, k requires 0 <= k < |requirements| => Requirement(kind, requirements[k]))
  }

  /** Every requirement of every group, group by group. */
  function Flatten(groups: seq<ExternalGroup>): seq<Requirement> {
    if groups == [] then []
    else Flatten(groups[..|groups| - 1]) + Pairs(groups[|groups| - 1].kind, groups[|groups| - 1].requirements)
  }

  lemma FlattenStep(groups: seq<ExternalGroup>, i: int)
    requires 0 <= i < |groups|
    ensures Flatten(groups[..i + 1]) == Flatten(groups[..i]) + Pairs(groups[i].kind, groups[i].requirements)
  {
    assert groups[..i + 1][..i] == groups[..i];
  }

  /** Each requirement of each group is registered, nothing else. */
  lemma {:induction false} FlattenMembers(groups: seq<ExternalGroup>, r: Requirement)
    ensures r in Flatten(groups) <==> exists g :: g in groups && r.kind == g.kind && r.requirement in g.requirements
  {
    if groups != [] {
      var init := groups[..|groups| - 1];
      var last := groups[|groups| - 1];
      FlattenMembers(init, r);
      assert groups == init + [last];
      if r in Pairs(last.kind, last.requirements) {
        var k :| 0 <= k < |last.requirements| && Pairs(last.kind, last.requirements)[k] == r;
        assert last in groups && r.requirement == last.requirements[k];
      }
      if r.kind == last.kind && r.requirement in last.requirements {
        var k :| 0 <= k < |last.requirements| && last.requirements[k] == r.requirement;
        assert Pairs(last.kind, last.requirements)[k] == r;
      }
    }
  }

  datatype Accumulators = Accumulators(
    containerData: seq<Entry>,
    requiredExternals: seq<ExternalGroup>,
    required: seq<Requirement>)

  /** What a render's template work adds to the accumulators it runs against. */
  function Absorbed(a: Accumulators, additions: ExtraData): Accumulators {
    a.(containerData := MapMerge(a.containerData, additions.containerData),
       requiredExternals := a.requiredExternals + additions.requiredExternals)
  }

  /** The replay after a render: container data merged when non-empty, every external registered with the template. */
  function Replayed(a: Accumulators, x: ExtraData): Accumulators {
    a.(containerData := if x.containerData != [] then MapMerge(a.containerData, x.containerData) else a.containerData,
       required := a.required + Flatten(x.requiredExternals))
  }

  /**
   * The page: the extended template's static accumulators (container data
   * and required externals, which a render template fills while it
   * renders) and the externals registered with the page template.
   */
  class Host {
    var containerData: seq<Entry>
    var requiredExternals: seq<ExternalGroup>
    var required: seq<Requirement>

    function State(): Accumulators
      reads this
    {
      Accumulators(containerData, requiredExternals, required)
    }

    constructor (a: Accumulators)
      ensures State() == a
    {
      containerData := a.containerData;
      requiredExternals := a.requiredExternals;
      required := a.required;
    }

    /** The renderer's template work adding to the accumulators. */
    method Absorb(additions: ExtraData)
      modifies this`containerData, this`requiredExternals
      ensures State() == Absorbed(old(State()), additions)
    {
      containerData := MapMerge(containerData, additions.containerData);
      requiredExternals := requiredExternals + additions.requiredExternals;
    }

    /** Lines 806-818: merge the container data, then register each requirement of each group with the template. */
    method Replay(x: ExtraData)
      modifies this`containerData, this`required
      ensures State() == Replayed(old(State()), x)
    {
      if x.containerData != [] {
        containerData := MapMerge(containerData, x.containerData);
      }
      RegisterAll(x.requiredExternals);
    }

    /** Lines 813-817: register every group's requirements, group by group. */
    method RegisterAll(groups: seq<ExternalGroup>)
      modifies this`required
      ensures required == old(required) + Flatten(groups)
    {
      for i := 0 to |groups|
        invariant required == old(required) + Flatten(groups[..i])
      {
        FlattenStep(groups, i);
        RegisterGroup(groups[i].kind, groups[i].requirements);
      }
      assert groups[..|groups|] == groups;
    }

    /** Lines 814-816: register each requirement of one group, in order. */
    method RegisterGroup(kind: string, requirements: seq<string>)
      modifies this`required
      ensures required == old(required) + Pairs(kind, requirements)
    {
      for j := 0 to |requirements|
        invariant required == old(required) + Pairs(kind, requirements[..j])
      {
        assert Pairs(kind, requirements[..j + 1]) == Pairs(kind, requirements[..j]) + [Requirement(kind, requirements[j])];
        required := required + [Requirement(kind, requirements[j])];
      }
      assert requirements[..|requirements|] == requirements;
    }
  }

  // ---------------------------------------------------------------------
  // Restoring a cache entry (WidgetRenderer.php:655-674)

  /**
   * `_restoreFromCache`: an entry with empty html restores nothing (the
   * html stays unset); otherwise the html is the cached copy marked with
   * its age, and the cached container data and externals replace the
   * current ones when non-empty.
   */
  method RestoreFromCache(cached: CacheEntry, now: int, html: Option<Markup>, data: ExtraData)
    returns (html': Option<Markup>, data': ExtraData)
    ensures cached.html == "" ==> html' == html && data' == data
    ensures cached.html != "" ==> html' == Some(Restored(cached.html, now - cached.time))
    ensures cached.html != "" ==>
      data'.containerData == (if cached.extraData.containerData != [] then cached.extraData.containerData else data.containerData)
    ensures cached.html != "" ==>
      data'.requiredExternals == (if cached.extraData.requiredExternals != [] then cached.extraData.requiredExternals else data.requiredExternals)
  {
    html', data' := html, data;
    if |cached.html| == 0 {
      return;
    }
    html' := Some(Restored(cached.html, now - cached.time));
    if cached.extraData.containerData != [] {
      data' := data'.(containerData := cached.extraData.containerData);
    }
    if cached.extraData.requiredExternals != [] {
      data' := data'.(requiredExternals := cached.extraData.requiredExternals);
    }
  }

  // ---------------------------------------------------------------------
  // The decision the pipeline takes (WidgetRenderer.php:684-757)

  /** `deactivate_for_mobile` is set and the visitor browses with a mobile client. */
  predicate MobileGate(w: Widget, env: Env) {
    !EmptyAt(w.options, DeactivateForMobileKey) && env.visitor.mobile
  }

  /**
   * The gates: a failed conditional stops with the editor phrase in editor
   * mode and `''` otherwise; a raising one stops with its message in debug
   * or editor mode and `''` otherwise; the mobile gate then stops with
   * `''` whatever the conditional said. `None`: rendering goes on.
   */
  function Gate(w: Widget, env: Env, verdict: Verdict): (r: Option<Markup>)
    ensures MobileGate(w, env) ==> r == Some(Text(""))
    ensures r.None? <==> verdict == Pass && !MobileGate(w, env)
    ensures verdict == Fail && !MobileGate(w, env) ==>
      r == Some(if env.layoutEditorEnabled then Phrase(ConditionalFailedPhrase) else Text(""))
    ensures verdict.Raise? && !MobileGate(w, env) ==>
      r == Some(Text(if env.debugMode || env.layoutEditorEnabled then verdict.message else ""))
  {
    var afterConditional :=
      match verdict
      case Pass => None
      case Fail => Some(if env.layoutEditorEnabled then Phrase(ConditionalFailedPhrase) else Text(""))
      case Raise(message) => Some(Text(if env.debugMode || env.layoutEditorEnabled then message else ""));
    if MobileGate(w, env) then Some(Text("")) else afterConditional
  }

  /** The cache key a render uses: only when no gate stopped it and the widget may be cached. */
  function RenderKey(c: Configuration, w: Widget, position: string, params: Params, env: Env, gate: Option<Markup>): (r: Option<CacheKey>)
    ensures r.Some? <==> gate.None? && UseCache(c, w, env)
    ensures r.Some? ==> r.value.widgetId == w.widgetId && r.value.cacheId == CacheId(c, position, params, env, [])
  {
    if gate.None? && UseCache(c, w, env) then Some(CacheKey(w.widgetId, CacheId(c, position, params, env, []))) else None
  }

  datatype LockResult = NotTried | Acquired | Refused

  /** Where a render ends up. */
  datatype Route =
    | Gated(html: Markup)
    | Served(entry: CacheEntry, lock: LockResult)
    | GaveUp
    | Regenerated(lock: LockResult)

  /**
   * Lines 715-757: a usable entry with html is served without a lock; a
   * usable one without html is regenerated without a lock; otherwise a
   * lock is tried, and when refused the stale copy is served if it has
   * html and the render gives up if not; when granted the widget is
   * regenerated. Without caching the widget is simply regenerated.
   */
  function Decide(c: Configuration, w: Widget, env: Env, gate: Option<Markup>, cached: Option<CacheEntry>, lockFree: bool): Route
  {
    if gate.Some? then Gated(gate.value)
    else if !UseCache(c, w, env) then Regenerated(NotTried)
    else if cached.Some? && IsCacheUsable(c, w, cached.value.time, env.now) then
      if cached.value.html != "" then Served(cached.value, NotTried) else Regenerated(NotTried)
    else if !lockFree then
      if cached.Some? && cached.value.html != "" then Served(cached.value, Refused) else GaveUp
    else Regenerated(Acquired)
  }

  /** Which route a render takes, and when it tries the lock. */
  lemma DecideRoutes(c: Configuration, w: Widget, env: Env, gate: Option<Markup>, cached: Option<CacheEntry>, lockFree: bool)
    ensures var r := Decide(c, w, env, gate, cached, lockFree);
      && (r.Gated? <==> gate.Some?)
      && (r.Served? ==> UseCache(c, w, env) && cached == Some(r.entry) && r.entry.html != "")
      && (r.Served? && r.lock == NotTried <==>
            gate.None? && UseCache(c, w, env) && cached.Some? && cached.value.html != "" && IsCacheUsable(c, w, cached.value.time, env.now))
      && (r == GaveUp <==>
            gate.None? && UseCache(c, w, env) && !lockFree
            && (cached.None? || (cached.value.html == "" && !IsCacheUsable(c, w, cached.value.time, env.now))))
      && (r == Regenerated(Acquired) ==> UseCache(c, w, env) && lockFree)
      && (LockTried(r) != NotTried ==> UseCache(c, w, env) && (cached.None? || !IsCacheUsable(c, w, cached.value.time, env.now)))
  {
  }

  function LockTried(route: Route): LockResult {
    match route
    case Gated(_) => NotTried
    case Served(_, lock) => lock
    case GaveUp => Refused
    case Regenerated(lock) => lock
  }

  /** The lock id the render holds: `null`, `false`, or the token granted for its key. */
  function LockIdOf(route: Route, key: Option<CacheKey>, token: nat): LockId {
    match LockTried(route)
    case NotTried => NoLock
    case Refused => LockRefused
    case Acquired => if key.Some? then Held(key.value, token) else NoLock
  }

  /** The store calls a render makes before releasing its lock: read, lock and write, each when it happens. */
  function CallsBeforeRelease(key: Option<CacheKey>, route: Route, lock: LockId): seq<Call> {
    (if key.Some? then [Read(key.value)] else [])
    + (if key.Some? && LockTried(route) != NotTried then [Lock(key.value)] else [])
    + (if key.Some? && route.Regenerated? then [Write(key.value, lock)] else [])
  }

  /** The store calls a render makes, in order. */
  function StoreCalls(key: Option<CacheKey>, route: Route, lock: LockId): seq<Call> {
    CallsBeforeRelease(key, route, lock) + [Release(lock)]
  }

  /** What `_render` yields: its html, whether that is a template not yet rendered, and what rendering it adds to the accumulators. */
  datatype Produced = Produced(html: string, deferred: bool, additions: ExtraData)

  /** Everything a render does, as a function of its inputs and the store it finds. */
  datatype Outcome = Outcome(
    key: Option<CacheKey>,
    route: Route,
    lock: LockId,
    html: Markup,
    captured: ExtraData,
    direct: bool)

  const NoExtra := ExtraData([], [])

  /**
   * The template's work is captured (and so cached and replayed) when a
   * render template exists and the html is rendered before the
   * accumulators are restored: at once, or forced by the cache write.
   */
  predicate Captures(renderTemplate: string, produced: Produced, key: Option<CacheKey>) {
    renderTemplate != "" && (!produced.deferred || key.Some?)
  }

  /** The key a render uses and the route it takes, given the store's entries and locks. */
  datatype Plan = Plan(key: Option<CacheKey>, route: Route)

  function PlanOf(
    c: Configuration, w: Widget, position: string, params: Params, env: Env, verdict: Verdict,
    entries: map<CacheKey, CacheEntry>, locks: map<CacheKey, nat>): Plan
  {
    var gate := Gate(w, env, verdict);
    var key := RenderKey(c, w, position, params, env, gate);
    var cached := if key.Some? && key.value in entries then Some(entries[key.value]) else None;
    Plan(key, Decide(c, w, env, gate, cached, key.Some? && key.value !in locks))
  }

  /** The html, captured data and lock that follow from a plan. */
  function Finish(p: Plan, token: nat, renderTemplate: string, produced: Produced, now: int): Outcome {
    var lock := LockIdOf(p.route, p.key, token);
    match p.route
    case Gated(m) => Outcome(p.key, p.route, lock, m, NoExtra, false)
    case Served(e, _) => Outcome(p.key, p.route, lock, Restored(e.html, now - e.time), e.extraData, false)
    case GaveUp => Outcome(p.key, p.route, lock, Text(""), NoExtra, false)
    case Regenerated(_) =>
      var captured :=
        if Captures(renderTemplate, produced, p.key) then ExtraData(MapMerge([], produced.additions.containerData), produced.additions.requiredExternals)
        else NoExtra;
      Outcome(p.key, p.route, lock, Text(Trim(produced.html)), captured, !Captures(renderTemplate, produced, p.key))
  }

  function Expected(
    c: Configuration, w: Widget, position: string, params: Params, env: Env, verdict: Verdict,
    renderTemplate: string, produced: Produced,
    entries: map<CacheKey, CacheEntry>, locks: map<CacheKey, nat>, token: nat): Outcome
  {
    Finish(PlanOf(c, w, position, params, env, verdict, entries, locks), token, renderTemplate, produced, env.now)
  }

  /** What a render's outcome is made of, route by route. */
  lemma ExpectedShape(
    c: Configuration, w: Widget, position: string, params: Params, env: Env, verdict: Verdict,
    renderTemplate: string, produced: Produced,
    entries: map<CacheKey, CacheEntry>, locks: map<CacheKey, nat>, token: nat)
    ensures var r := Expected(c, w, position, params, env, verdict, renderTemplate, produced, entries, locks, token);
      && (r.route.Gated? <==> verdict != Pass || MobileGate(w, env))
      && (r.key.Some? <==> !r.route.Gated? && UseCache(c, w, env))
      && (r.route.Served? ==>
            && r.key.Some? && r.key.value in entries && entries[r.key.value] == r.route.entry
            && r.html == Restored(r.route.entry.html, env.now - r.route.entry.time) && r.captured == r.route.entry.extraData)
      && (r.route == GaveUp ==> r.html == Text("") && r.captured == NoExtra)
      && (r.route.Regenerated? ==> r.html == Text(Trim(produced.html)))
      && (r.lock.Held? <==> r.route == Regenerated(Acquired))
      && (r.lock.Held? ==> r.key.Some? && r.lock == Held(r.key.value, token) && r.key.value !in locks)
  {
  }

  // ---------------------------------------------------------------------
  // The pipeline (WidgetRenderer.php:676-821)

  /**
   * `render`. `tested` and `evaluated` are the verdicts of the conditional
   * tester and of the legacy evaluator, `renderTemplate` the render
   * template's name (empty when there is none) and `produced` what
   * `_render` yields. The html returned, the store calls made, the cache
   * write and the page's accumulators are exactly those of `Expected`;
   * the lock set is as it was.
   */
  method Render(
    store: Store, host: Host,
    c: Configuration, w: Widget, position: string, params: Params, env: Env,
    tested: Verdict, evaluated: Verdict, renderTemplate: string, produced: Produced)
    returns (html: Markup)
    requires store.Valid()
    modifies store, host
    ensures store.Valid()
    ensures store.locks == old(store.locks)
    ensures var o := Expected(c, w, position, params, env, TestConditional(w, tested, evaluated), renderTemplate, produced,
                              old(store.entries), old(store.locks), old(store.nextToken));
      && html == o.html
      && store.calls == old(store.calls) + StoreCalls(o.key, o.route, o.lock)
      && store.entries == (if o.key.Some? && o.route.Regenerated?
                           then old(store.entries)[o.key.value := CacheEntry(Trim(produced.html), env.now, o.captured)]
                           else old(store.entries))
      && host.State() == Replayed(if o.direct then Absorbed(old(host.State()), produced.additions) else old(host.State()), o.captured)
  {
    var verdict := TestConditional(w, tested, evaluated);
    ghost var calls0, locks0 := store.calls, store.locks;
    var captured, lockId;
    ghost var o;
    html, captured, lockId, o := Produce(store, host, c, w, position, params, env, verdict, renderTemplate, produced);
    if lockId.Held? {
      UpdateThenRemove(locks0, lockId.key, lockId.token);
    }
    store.ReleaseLock(lockId);
    assert store.locks == locks0;
    host.Replay(captured);
  }

  /**
   * Lines 685-802: everything `render` does before releasing its lock:
   * the gates, the cache look-up and the regeneration with its cache
   * write. The lock id it reports is the one the render then releases.
   */
  method Produce(
    store: Store, host: Host,
    c: Configuration, w: Widget, position: string, params: Params, env: Env,
    verdict: Verdict, renderTemplate: string, produced: Produced)
    returns (html: Markup, captured: ExtraData, lockId: LockId, ghost o: Outcome)
    requires store.Valid()
    modifies store, host
    ensures store.Valid()
    ensures o == Expected(c, w, position, params, env, verdict, renderTemplate, produced,
                          old(store.entries), old(store.locks), old(store.nextToken))
    ensures html == o.html && captured == o.captured && lockId == o.lock
    ensures store.calls == old(store.calls) + CallsBeforeRelease(o.key, o.route, o.lock)
    ensures store.entries == (if o.key.Some? && o.route.Regenerated?
                              then old(store.entries)[o.key.value := CacheEntry(Trim(produced.html), env.now, o.captured)]
                              else old(store.entries))
    ensures host.State() == (if o.direct then Absorbed(old(host.State()), produced.additions) else old(host.State()))
    ensures lockId.Held? ==> lockId.key !in old(store.locks) && store.locks == old(store.locks)[lockId.key := lockId.token]
    ensures !lockId.Held? ==> store.locks == old(store.locks)
  {
    ghost var entries0, locks0, token0 := store.entries, store.locks, store.nextToken;
    ghost var calls0 := store.calls;
    var gate := GateOf(w, env, verdict);
    var h, key, captured0;
    ghost var route;
    h, key, lockId, captured0, route := LookUpCache(store, c, w, position, params, env, gate);
    ghost var lookCalls := store.calls;
    html, captured := Settle(store, host, h, key, lockId, captured0, renderTemplate, produced, env.now);
    ProduceMatchesPlan(c, w, position, params, env, verdict, renderTemplate, produced, entries0, locks0, token0,
                       route, h, key, lockId, captured0, html, captured);
    o := Expected(c, w, position, params, env, verdict, renderTemplate, produced, entries0, locks0, token0);
    ghost var readCalls: seq<Call> := if key.Some? then [Read(key.value)] else [];
    ghost var lockCalls: seq<Call> := if key.Some? && LockTried(route) != NotTried then [Lock(key.value)] else [];
    ghost var writeCalls: seq<Call> := if key.Some? && route.Regenerated? then [Write(key.value, lockId)] else [];
    assert lookCalls == calls0 + readCalls + lockCalls;
    assert store.calls == lookCalls + writeCalls;
    assert CallsBeforeRelease(key, route, lockId) == readCalls + lockCalls + writeCalls;
    AppendAssoc3(calls0, readCalls, lockCalls, writeCalls);
  }

  /** The look-up's and the settling's results are those of the plan for the store the render found. */
  lemma ProduceMatchesPlan(
    c: Configuration, w: Widget, position: string, params: Params, env: Env,
    verdict: Verdict, renderTemplate: string, produced: Produced,
    entries: map<CacheKey, CacheEntry>, locks: map<CacheKey, nat>, token: nat,
    route: Route, h: Option<Markup>, key: Option<CacheKey>, lockId: LockId, captured0: ExtraData,
    html: Markup, captured: ExtraData)
    requires LookedUp(c, w, position, params, env, Gate(w, env, verdict), entries, locks, token, route, h, key, lockId, captured0)
    requires Settled(h, key, lockId, captured0, renderTemplate, produced, html, captured)
    ensures var o := Expected(c, w, position, params, env, verdict, renderTemplate, produced, entries, locks, token);
      && o.key == key && o.route == route && o.lock == lockId
      && html == o.html && captured == o.captured
      && (route.Regenerated? <==> h.None? && lockId != LockRefused)
      && (o.direct <==> route.Regenerated? && !Captures(renderTemplate, produced, key))
  {
    assert route.Gated? ==> h.Some?;
  }

  /** Lines 685-712: the conditional's and the mobile check's verdict on whether rendering goes on. */
  method GateOf(w: Widget, env: Env, verdict: Verdict) returns (gate: Option<Markup>)
    ensures gate == Gate(w, env, verdict)
  {
    gate := None;
    match verdict {
      case Pass =>
      case Fail =>
        gate := Some(if env.layoutEditorEnabled then Phrase(ConditionalFailedPhrase) else Text(""));
      case Raise(message) =>
        gate := Some(Text(if env.debugMode || env.layoutEditorEnabled then message else ""));
    }
    if !EmptyAt(w.options, DeactivateForMobileKey) && env.visitor.mobile {
      gate := Some(Text(""));
    }
  }

  /**
   * The html and captured data once the render has settled: what the look-up
   * found; `''` when the lock was refused and nothing was found; otherwise
   * the trimmed regenerated html, with the template's additions captured
   * exactly when `Captures` holds.
   */
  predicate Settled(h: Option<Markup>, key: Option<CacheKey>, lockId: LockId, captured: ExtraData,
                    renderTemplate: string, produced: Produced, html: Markup, captured': ExtraData) {
    && (h.Some? ==> html == h.value && captured' == captured)
    && (h.None? && lockId == LockRefused ==> html == Text("") && captured' == captured)
    && (h.None? && lockId != LockRefused ==> html == Text(Trim(produced.html)))
    && (h.None? && lockId != LockRefused && Captures(renderTemplate, produced, key) ==>
          captured' == ExtraData(MapMerge([], produced.additions.containerData), produced.additions.requiredExternals))
    && (h.None? && lockId != LockRefused && !Captures(renderTemplate, produced, key) ==> captured' == NoExtra)
  }

  /**
   * Lines 747-800: a render still without html either gives up (the lock
   * was refused and no stale copy exists) or regenerates, writing the
   * result under its key while holding its lock id.
   */
  method Settle(store: Store, host: Host, h: Option<Markup>, key: Option<CacheKey>, lockId: LockId, captured: ExtraData,
                renderTemplate: string, produced: Produced, now: int)
    returns (html: Markup, captured': ExtraData)
    modifies store`entries, store`calls, host
    ensures Settled(h, key, lockId, captured, renderTemplate, produced, html, captured')
    ensures var regenerated := h.None? && lockId != LockRefused;
      && host.State() == (if regenerated && !Captures(renderTemplate, produced, key)
                          then Absorbed(old(host.State()), produced.additions) else old(host.State()))
      && store.entries == (if regenerated && key.Some?
                           then old(store.entries)[key.value := CacheEntry(Trim(produced.html), now, captured')]
                           else old(store.entries))
      && store.calls == old(store.calls) + (if regenerated && key.Some? then [Write(key.value, lockId)] else [])
  {
    captured' := captured;
    if h.Some? {
      html := h.value;
    } else if lockId == LockRefused {
      html := Text("");
    } else {
      var text;
      text, captured' := Regenerate(host, renderTemplate, produced, key);
      html := Text(text);
      if key.Some? {
        store.SetCache(key.value, text, captured', lockId, now);
      }
    }
  }

  /** Granting a lock on a free key and then releasing it leaves the lock set as it was. */
  lemma UpdateThenRemove<K, V>(m: map<K, V>, k: K, v: V)
    requires k !in m
    ensures m[k := v] - {k} == m
  {
  }

  lemma AppendAssoc3<T>(a: seq<T>, b: seq<T>, c: seq<T>, d: seq<T>)
    ensures a + b + c + d == a + (b + c + d)
  {
  }

  /**
   * What the look-up leaves behind, for the store's entries, locks and next
   * token as found: the render's key, the route `Decide` picks, the lock id
   * that route holds, and the html and extra data found (a gate's html, a
   * restored entry, or nothing yet).
   */
  predicate LookedUp(c: Configuration, w: Widget, position: string, params: Params, env: Env, gate: Option<Markup>,
                     entries: map<CacheKey, CacheEntry>, locks: map<CacheKey, nat>, token: nat,
                     route: Route, h: Option<Markup>, key: Option<CacheKey>, lockId: LockId, captured: ExtraData) {
    && key == RenderKey(c, w, position, params, env, gate)
    && route == Decide(c, w, env, gate,
                       if key.Some? && key.value in entries then Some(entries[key.value]) else None,
                       key.Some? && key.value !in locks)
    && lockId == LockIdOf(route, key, token)
    && (route.Gated? ==> h == gate && captured == NoExtra)
    && (route.Served? ==> h == Some(Restored(route.entry.html, env.now - route.entry.time)) && captured == route.entry.extraData)
    && (route.GaveUp? ==> h.None? && lockId == LockRefused && captured == NoExtra)
    && (route.Regenerated? ==> h.None? && lockId != LockRefused && captured == NoExtra)
  }

  /**
   * Lines 715-745: with no gate and caching on, read the entry under the
   * widget's key; serve a fresh one; for a stale one or a miss try the
   * lock, and when it is refused fall back on the stale copy.
   */
  method LookUpCache(store: Store, c: Configuration, w: Widget, position: string, params: Params, env: Env, gate: Option<Markup>)
    returns (html: Option<Markup>, key: Option<CacheKey>, lockId: LockId, captured: ExtraData, ghost route: Route)
    requires store.Valid()
    modifies store
    ensures store.Valid()
    ensures LookedUp(c, w, position, params, env, gate, old(store.entries), old(store.locks), old(store.nextToken),
                     route, html, key, lockId, captured)
    ensures store.calls == old(store.calls)
           + (if key.Some? then [Read(key.value)] else [])
           + (if key.Some? && LockTried(route) != NotTried then [Lock(key.value)] else [])
    ensures store.entries == old(store.entries)
    ensures lockId.Held? ==>
      key.Some? && lockId.key == key.value && key.value !in old(store.locks)
      && store.locks == old(store.locks)[key.value := lockId.token]
    ensures !lockId.Held? ==> store.locks == old(store.locks)
  {
    html, key, lockId, captured := gate, None, NoLock, NoExtra;
    ghost var key0 := RenderKey(c, w, position, params, env, gate);
    route := Decide(c, w, env, gate,
                    if key0.Some? && key0.value in store.entries then Some(store.entries[key0.value]) else None,
                    key0.Some? && key0.value !in store.locks);
    if html.None? && UseCache(c, w, env) {
      var k := CacheKey(w.widgetId, CacheId(c, position, params, env, []));
      key := Some(k);
      var cached := store.GetCache(k);
      if cached.Some? {
        if IsCacheUsable(c, w, cached.value.time, env.now) {
          html, captured := RestoreFromCache(cached.value, env.now, html, captured);
        } else {
          lockId := store.AcquireLock(k);
          if lockId == LockRefused {
            html, captured := RestoreFromCache(cached.value, env.now, html, captured);
          }
        }
      } else {
        lockId := store.AcquireLock(k);
      }
    }
  }

  /**
   * Lines 757-787: run the renderer; with a render template, save and
   * clear the accumulators, capture what the rendering added, and restore
   * them. An unrendered template is forced to render before the capture
   * only when a cache key exists; otherwise it renders when trimmed, after
   * the restore, straight into the page's accumulators.
   */
  method Regenerate(host: Host, renderTemplate: string, produced: Produced, key: Option<CacheKey>)
    returns (text: string, captured: ExtraData)
    modifies host
    ensures text == Trim(produced.html)
    ensures Captures(renderTemplate, produced, key) ==>
      captured == ExtraData(MapMerge([], produced.additions.containerData), produced.additions.requiredExternals)
      && host.State() == old(host.State())
    ensures !Captures(renderTemplate, produced, key) ==>
      captured == NoExtra && host.State() == Absorbed(old(host.State()), produced.additions)
  {
    captured := NoExtra;
    if renderTemplate != "" {
      var existingContainerData := host.containerData;
      host.containerData := [];
      var existingRequiredExternals := host.requiredExternals;
      host.requiredExternals := [];
      var renderedNow := !produced.deferred || key.Some?;
      if renderedNow {
        host.Absorb(produced.additions);
      }
      captured := ExtraData(host.containerData, host.requiredExternals);
      host.containerData := existingContainerData;
      host.requiredExternals := existingRequiredExternals;
      if !renderedNow {
        host.Absorb(produced.additions);
      }
    } else {
      host.Absorb(produced.additions);
    }
    text := Trim(produced.html);
  }

  // ---------------------------------------------------------------------
  // Properties of the decision

  /** A gated render never reads the cache, takes no lock and writes nothing; it still releases `null`. */
  lemma GatedRenderTouchesNoCache(c: Configuration, w: Widget, position: string, params: Params, env: Env, verdict: Verdict,
                                  renderTemplate: string, produced: Produced,
                                  entries: map<CacheKey, CacheEntry>, locks: map<CacheKey, nat>, token: nat)
    requires verdict != Pass || MobileGate(w, env)
    ensures var o := Expected(c, w, position, params, env, verdict, renderTemplate, produced, entries, locks, token);
      o.route.Gated? && o.key.None? && StoreCalls(o.key, o.route, o.lock) == [Release(NoLock)]
      && o.html == Gate(w, env, verdict).value
  {
  }

  /** With caching on and no gate, the plan uses the widget's own key and decides on its entry and its lock. */
  lemma PlanWhenCaching(c: Configuration, w: Widget, position: string, params: Params, env: Env,
                        entries: map<CacheKey, CacheEntry>, locks: map<CacheKey, nat>, k: CacheKey)
    requires UseCache(c, w, env) && !MobileGate(w, env)
    requires k == CacheKey(w.widgetId, CacheId(c, position, params, env, []))
    ensures PlanOf(c, w, position, params, env, Pass, entries, locks)
         == Plan(Some(k), Decide(c, w, env, None, if k in entries then Some(entries[k]) else None, k !in locks))
  {
    assert Gate(w, env, Pass) == None;
    assert RenderKey(c, w, position, params, env, None) == Some(k);
  }

  /** The store calls of a render that looks up key `k`, by the route it takes. */
  lemma CallsUnderKey(k: CacheKey, route: Route, lock: LockId)
    ensures route.Served? && route.lock == NotTried ==> StoreCalls(Some(k), route, lock) == [Read(k), Release(lock)]
    ensures (route.Served? && route.lock == Refused) || route == GaveUp ==> StoreCalls(Some(k), route, lock) == [Read(k), Lock(k), Release(lock)]
    ensures route == Regenerated(NotTried) ==> StoreCalls(Some(k), route, lock) == [Read(k), Write(k, lock), Release(lock)]
    ensures route == Regenerated(Acquired) ==> StoreCalls(Some(k), route, lock) == [Read(k), Lock(k), Write(k, lock), Release(lock)]
  {
    var locked := if LockTried(route) != NotTried then [Lock(k)] else [];
    var written := if route.Regenerated? then [Write(k, lock)] else [];
    assert CallsBeforeRelease(Some(k), route, lock) == [Read(k)] + locked + written;
  }

  /** A fresh entry with html is served as it is, without taking a lock. */
  lemma FreshHitTakesNoLock(c: Configuration, w: Widget, position: string, params: Params, env: Env,
                            renderTemplate: string, produced: Produced,
                            entries: map<CacheKey, CacheEntry>, locks: map<CacheKey, nat>, token: nat, k: CacheKey)
    requires UseCache(c, w, env) && !MobileGate(w, env)
    requires k == CacheKey(w.widgetId, CacheId(c, position, params, env, []))
    requires k in entries && entries[k].html != "" && IsCacheUsable(c, w, entries[k].time, env.now)
    ensures var o := Expected(c, w, position, params, env, Pass, renderTemplate, produced, entries, locks, token);
      o.key == Some(k) && o.route == Served(entries[k], NotTried) && o.html == Restored(entries[k].html, env.now - entries[k].time)
      && o.captured == entries[k].extraData && !o.direct
      && StoreCalls(o.key, o.route, o.lock) == [Read(k), Release(NoLock)]
  {
    PlanWhenCaching(c, w, position, params, env, entries, locks, k);
    assert Decide(c, w, env, None, Some(entries[k]), k !in locks) == Served(entries[k], NotTried);
    var plan := Plan(Some(k), Served(entries[k], NotTried));
    var o := Finish(plan, token, renderTemplate, produced, env.now);
    assert Expected(c, w, position, params, env, Pass, renderTemplate, produced, entries, locks, token) == o;
    assert o.lock == NoLock;
    CallsUnderKey(k, o.route, o.lock);
  }

  /** A stale entry whose lock is held elsewhere is served anyway, if it has html. */
  lemma StaleHitFallsBackWhenLocked(c: Configuration, w: Widget, position: string, params: Params, env: Env,
                                    renderTemplate: string, produced: Produced,
                                    entries: map<CacheKey, CacheEntry>, locks: map<CacheKey, nat>, token: nat, k: CacheKey)
    requires UseCache(c, w, env) && !MobileGate(w, env)
    requires k == CacheKey(w.widgetId, CacheId(c, position, params, env, []))
    requires k in entries && !IsCacheUsable(c, w, entries[k].time, env.now) && k in locks
    ensures var o := Expected(c, w, position, params, env, Pass, renderTemplate, produced, entries, locks, token);
      && StoreCalls(o.key, o.route, o.lock) == [Read(k), Lock(k), Release(LockRefused)]
      && (entries[k].html != "" ==> o.html == Restored(entries[k].html, env.now - entries[k].time) && o.captured == entries[k].extraData)
      && (entries[k].html == "" ==> o.route == GaveUp && o.html == Text(""))
  {
    PlanWhenCaching(c, w, position, params, env, entries, locks, k);
    var plan := PlanOf(c, w, position, params, env, Pass, entries, locks);
    assert plan.route == if entries[k].html != "" then Served(entries[k], Refused) else GaveUp;
    var o := Finish(plan, token, renderTemplate, produced, env.now);
    assert o.lock == LockRefused;
    CallsUnderKey(k, o.route, o.lock);
  }

  /** A miss whose lock is held elsewhere yields `''` and writes nothing. */
  lemma MissWhenLockedGivesUp(c: Configuration, w: Widget, position: string, params: Params, env: Env,
                              renderTemplate: string, produced: Produced,
                              entries: map<CacheKey, CacheEntry>, locks: map<CacheKey, nat>, token: nat, k: CacheKey)
    requires UseCache(c, w, env) && !MobileGate(w, env)
    requires k == CacheKey(w.widgetId, CacheId(c, position, params, env, []))
    requires k !in entries && k in locks
    ensures var o := Expected(c, w, position, params, env, Pass, renderTemplate, produced, entries, locks, token);
      o.route == GaveUp && o.html == Text("") && StoreCalls(o.key, o.route, o.lock) == [Read(k), Lock(k), Release(LockRefused)]
  {
    PlanWhenCaching(c, w, position, params, env, entries, locks, k);
    var plan := PlanOf(c, w, position, params, env, Pass, entries, locks);
    assert plan.route == GaveUp;
    var o := Finish(plan, token, renderTemplate, produced, env.now);
    assert o.lock == LockRefused;
    CallsUnderKey(k, o.route, o.lock);
  }

  /** A stale hit or a miss whose lock is granted regenerates, writes under that lock and releases it. */
  lemma GrantedLockRegenerates(c: Configuration, w: Widget, position: string, params: Params, env: Env,
                               renderTemplate: string, produced: Produced,
                               entries: map<CacheKey, CacheEntry>, locks: map<CacheKey, nat>, token: nat, k: CacheKey)
    requires UseCache(c, w, env) && !MobileGate(w, env)
    requires k == CacheKey(w.widgetId, CacheId(c, position, params, env, []))
    requires k !in entries || !IsCacheUsable(c, w, entries[k].time, env.now)
    requires k !in locks
    ensures var o := Expected(c, w, position, params, env, Pass, renderTemplate, produced, entries, locks, token);
      o.route == Regenerated(Acquired) && o.html == Text(Trim(produced.html))
      && StoreCalls(o.key, o.route, o.lock) == [Read(k), Lock(k), Write(k, Held(k, token)), Release(Held(k, token))]
  {
    PlanWhenCaching(c, w, position, params, env, entries, locks, k);
    var cached := if k in entries then Some(entries[k]) else None;
    assert Decide(c, w, env, None, cached, true) == Regenerated(Acquired);
    var plan := Plan(Some(k), Regenerated(Acquired));
    assert PlanOf(c, w, position, params, env, Pass, entries, locks) == plan;
    var o := Finish(plan, token, renderTemplate, produced, env.now);
    assert Expected(c, w, position, params, env, Pass, renderTemplate, produced, entries, locks, token) == o;
    assert o.lock == Held(k, token) && o.html == Text(Trim(produced.html));
    CallsUnderKey(k, o.route, o.lock);
  }

  /** A fresh entry with empty html is regenerated without a lock, and the write carries `null`. */
  lemma FreshEmptyEntryRegeneratesWithoutLock(c: Configuration, w: Widget, position: string, params: Params, env: Env,
                                              renderTemplate: string, produced: Produced,
                                              entries: map<CacheKey, CacheEntry>, locks: map<CacheKey, nat>, token: nat, k: CacheKey)
    requires UseCache(c, w, env) && !MobileGate(w, env)
    requires k == CacheKey(w.widgetId, CacheId(c, position, params, env, []))
    requires k in entries && entries[k].html == "" && IsCacheUsable(c, w, entries[k].time, env.now)
    ensures var o := Expected(c, w, position, params, env, Pass, renderTemplate, produced, entries, locks, token);
      o.route == Regenerated(NotTried) && StoreCalls(o.key, o.route, o.lock) == [Read(k), Write(k, NoLock), Release(NoLock)]
  {
    PlanWhenCaching(c, w, position, params, env, entries, locks, k);
    assert Decide(c, w, env, None, Some(entries[k]), k !in locks) == Regenerated(NotTried);
    var plan := Plan(Some(k), Regenerated(NotTried));
    assert PlanOf(c, w, position, params, env, Pass, entries, locks) == plan;
    var o := Finish(plan, token, renderTemplate, produced, env.now);
    assert Expected(c, w, position, params, env, Pass, renderTemplate, produced, entries, locks, token) == o;
    assert o.lock == NoLock;
    CallsUnderKey(k, o.route, o.lock);
  }

  /**
   * The cache does its job: once a render regenerated under a key and wrote
   * non-empty html, a later render of the same widget in the same context,
   * while that entry is still usable, is served that html marked with its
   * age, takes no lock, and replays the data captured by the regeneration.
   */
  lemma {:induction false} RegeneratedCopyIsServedLater(
    c: Configuration, w: Widget, position: string, params: Params, env: Env, verdict: Verdict,
    renderTemplate: string, produced: Produced,
    entries: map<CacheKey, CacheEntry>, locks: map<CacheKey, nat>, token: nat,
    later: int, laterTemplate: string, laterProduced: Produced, laterLocks: map<CacheKey, nat>, laterToken: nat)
    requires var o := Expected(c, w, position, params, env, verdict, renderTemplate, produced, entries, locks, token);
      o.key.Some? && o.route.Regenerated?
    requires Trim(produced.html) != ""
    requires IsCacheUsable(c, w, env.now, later)
    ensures var o := Expected(c, w, position, params, env, verdict, renderTemplate, produced, entries, locks, token);
      var written := entries[o.key.value := CacheEntry(Trim(produced.html), env.now, o.captured)];
      var o' := Expected(c, w, position, params, env.(now := later), verdict, laterTemplate, laterProduced, written, laterLocks, laterToken);
      && o'.key == o.key
      && o'.route == Served(written[o.key.value], NotTried)
      && o'.html == Restored(Trim(produced.html), later - env.now)
      && o'.captured == o.captured && !o'.direct
      && StoreCalls(o'.key, o'.route, o'.lock) == [Read(o.key.value), Release(NoLock)]
  {
    var o := Expected(c, w, position, params, env, verdict, renderTemplate, produced, entries, locks, token);
    var k := CacheKey(w.widgetId, CacheId(c, position, params, env, []));
    KeyedRenderCaches(c, w, position, params, env, verdict, renderTemplate, produced, entries, locks, token);
    ServedAfterWrite(c, w, position, params, env, verdict, entries, k, CacheEntry(Trim(produced.html), env.now, o.captured),
                     later, laterTemplate, laterProduced, laterLocks, laterToken);
  }

  /** A render that uses a cache key passed the gates with caching on, and its key is the widget's own. */
  lemma KeyedRenderCaches(
    c: Configuration, w: Widget, position: string, params: Params, env: Env, verdict: Verdict,
    renderTemplate: string, produced: Produced,
    entries: map<CacheKey, CacheEntry>, locks: map<CacheKey, nat>, token: nat)
    requires Expected(c, w, position, params, env, verdict, renderTemplate, produced, entries, locks, token).key.Some?
    ensures verdict == Pass && UseCache(c, w, env) && !MobileGate(w, env)
    ensures Expected(c, w, position, params, env, verdict, renderTemplate, produced, entries, locks, token).key
         == Some(CacheKey(w.widgetId, CacheId(c, position, params, env, [])))
  {
    var plan := PlanOf(c, w, position, params, env, verdict, entries, locks);
    assert Finish(plan, token, renderTemplate, produced, env.now).key == plan.key;
  }

  /** An entry written under the render's key at `env.now` is what a later render in the same context serves, while it stays usable. */
  lemma ServedAfterWrite(
    c: Configuration, w: Widget, position: string, params: Params, env: Env, verdict: Verdict,
    entries: map<CacheKey, CacheEntry>, k: CacheKey, entry: CacheEntry,
    later: int, laterTemplate: string, laterProduced: Produced, laterLocks: map<CacheKey, nat>, laterToken: nat)
    requires verdict == Pass && UseCache(c, w, env) && !MobileGate(w, env)
    requires k == CacheKey(w.widgetId, CacheId(c, position, params, env, []))
    requires entry.html != "" && entry.time == env.now && IsCacheUsable(c, w, env.now, later)
    ensures var o' := Expected(c, w, position, params, env.(now := later), verdict, laterTemplate, laterProduced, entries[k := entry], laterLocks, laterToken);
      && o'.key == Some(k) && o'.route == Served(entry, NotTried)
      && o'.html == Restored(entry.html, later - env.now) && o'.captured == entry.extraData && !o'.direct
      && StoreCalls(o'.key, o'.route, o'.lock) == [Read(k), Release(NoLock)]
  {
    ClockDoesNotKey(c, w, position, params, env, later);
    FreshHitTakesNoLock(c, w, position, params, env.(now := later), laterTemplate, laterProduced, entries[k := entry], laterLocks, laterToken, k);
  }

  /** The clock plays no part in whether a render caches, whether the mobile switch applies, or the key it uses. */
  lemma ClockDoesNotKey(c: Configuration, w: Widget, position: string, params: Params, env: Env, later: int)
    ensures UseCache(c, w, env.(now := later)) == UseCache(c, w, env)
    ensures MobileGate(w, env.(now := later)) == MobileGate(w, env)
    ensures CacheId(c, position, params, env.(now := later), []) == CacheId(c, position, params, env, [])
  {
    var env' := env.(now := later);
    assert CacheIdHead(c, position, params, env') == CacheIdHead(c, position, params, env);
    assert CacheIdTail(env', []) == CacheIdTail(env, []);
  }

  /** Whatever the route, the release is the last store call and the only one. */
  lemma ReleaseIsLastAndOnly(key: Option<CacheKey>, route: Route, lock: LockId)
    ensures var calls := StoreCalls(key, route, lock);
      calls[|calls| - 1] == Release(lock) && forall i :: 0 <= i < |calls| - 1 ==> !calls[i].Release?
  {
  }

  /** The cache is written iff the widget was regenerated under a cache key, and the write carries the lock that is released. */
  lemma WriteIffRegeneratedWithKey(key: Option<CacheKey>, route: Route, lock: LockId)
    ensures var calls := StoreCalls(key, route, lock);
      (exists i :: 0 <= i < |calls| && calls[i].Write?) <==> key.Some? && route.Regenerated?
    ensures var calls := StoreCalls(key, route, lock);
      forall i :: 0 <= i < |calls| && calls[i].Write? ==> calls[i] == Write(key.value, lock)
  {
    var calls := StoreCalls(key, route, lock);
    if key.Some? && route.Regenerated? {
      var i := if LockTried(route) != NotTried then 2 else 1;
      assert calls[i].Write?;
    }
  }

  /** The render's outcome depends on the store only through the entry under its key and whether that key is locked. */
  lemma OutcomeDependsOnlyOnOwnKey(c: Configuration, w: Widget, position: string, params: Params, env: Env, verdict: Verdict,
                                   renderTemplate: string, produced: Produced,
                                   e1: map<CacheKey, CacheEntry>, l1: map<CacheKey, nat>,
                                   e2: map<CacheKey, CacheEntry>, l2: map<CacheKey, nat>, token: nat)
    requires var k := CacheKey(w.widgetId, CacheId(c, position, params, env, []));
      (k in e1 <==> k in e2) && (k in e1 ==> e1[k] == e2[k]) && (k in l1 <==> k in l2)
    ensures Expected(c, w, position, params, env, verdict, renderTemplate, produced, e1, l1, token)
         == Expected(c, w, position, params, env, verdict, renderTemplate, produced, e2, l2, token)
  {
  }
}
