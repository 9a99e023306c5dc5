/**
 * The decision helpers of the abstract widget renderer: cache
 * eligibility, cache freshness, cache-key construction, conditional
 * precedence, option normalisation, title selection and the parameters
 * an ajax-deferred load carries.
 *
 * Ambient state the renderer reads through globals (visitor, add-on
 * options, config, debug mode, the request time) is passed in as `Env`.
 */
module WidgetRenderer {

  import opened Wrappers
  import opened PhpValues
  import opened PhpStrings
  import opened RendererConfig

  /** A widget instance as the renderer sees it. `ajaxLoadParams` is `Null` when the key is absent. */
  datatype Widget = Widget(
    widgetId: int,
    title: string,
    options: seq<Entry>,
    ajaxLoadParams: Value)

  /**
   * The visitor: admin flag, permission combination, whether that
   * combination is group-only (decided by a host helper), time zone and
   * whether the client is mobile.
   */
  datatype Visitor = Visitor(
    isAdmin: bool,
    permissionCombinationId: int,
    groupOnly: bool,
    timezone: string,
    mobile: bool)

  /** Debug mode, add-on options, config flags, board defaults and the request time. */
  datatype Env = Env(
    debugMode: bool,
    layoutEditorEnabled: bool,
    cacheStore: Value,
    cacheAdmin: bool,
    cacheAllPermissionCombinations: bool,
    defaultStyleId: int,
    defaultLanguageId: int,
    guestTimeZone: string,
    now: int,
    visitor: Visitor)

  /** The template parameters the core reads. */
  datatype Params = Params(
    visitorStyleId: Option<int>,
    visitorLanguageId: Option<int>,
    isHook: bool,
    parentGroupId: Option<int>)

  /** What a render produces: literal text, a phrase object, a restored cache entry or an ajax link. */
  datatype Markup =
    | Text(s: string)
    | Phrase(name: string)
    | TitlePhrase(widgetId: int)
    | Restored(html: string, age: int)
    | AjaxLink(widgetId: int, loadParams: Value)

  /** PHP `empty($html)`: only an empty string or `"0"` is empty; objects and links never are. */
  predicate EmptyMarkup(m: Markup) {
    m.Text? && (m.s == "" || m.s == "0")
  }

  /** The outcome of a conditional or legacy-expression test. */
  datatype Verdict = Pass | Fail | Raise(message: string)

  const AddOnVersionKey := "_addOnVersionId"
  const ConditionalFailedPhrase := "wf_layout_editor_widget_conditional_failed"
  const IsHookParam := "_WidgetFramework_isHook"

  // ---------------------------------------------------------------------
  // Cache eligibility (WidgetRenderer.php:439-503)

  predicate CachingSwitchedOff(env: Env) {
    env.debugMode || env.layoutEditorEnabled || env.cacheStore == Str("0")
  }

  predicate CacheSecondsIsZeroString(w: Widget) {
    Find(w.options, CacheSecondsKey) == Some(Str("0"))
  }

  predicate AdminWithoutAdminCache(env: Env) {
    env.visitor.isAdmin && !env.cacheAdmin
  }

  predicate UnshareableUserSegment(c: Configuration, env: Env) {
    c.useUserCache && !env.cacheAllPermissionCombinations && !env.visitor.groupOnly
  }

  /** `useCache`: each of the six guards alone rules caching out; with none of them caching is on. */
  function UseCache(c: Configuration, w: Widget, env: Env): (r: bool)
    ensures CachingSwitchedOff(env) ==> !r
    ensures CacheSecondsIsZeroString(w) ==> !r
    ensures w.ajaxLoadParams != Null ==> !r
    ensures !c.useCache ==> !r
    ensures AdminWithoutAdminCache(env) ==> !r
    ensures UnshareableUserSegment(c, env) ==> !r
    ensures (!CachingSwitchedOff(env) && !CacheSecondsIsZeroString(w) && w.ajaxLoadParams == Null
      && c.useCache && !AdminWithoutAdminCache(env) && !UnshareableUserSegment(c, env)) ==> r
  {
    if CachingSwitchedOff(env) then false
    else if IsSet(w.options, CacheSecondsKey) && Get(w.options, CacheSecondsKey) == Str("0") then false
    else if w.ajaxLoadParams != Null then false
    else if !c.useCache then false
    else if env.visitor.isAdmin && !env.cacheAdmin then false
    else if c.useUserCache && !env.cacheAllPermissionCombinations && !env.visitor.groupOnly then false
    else true
  }

  /** `requireLock`: a lock is wanted exactly when the cache is used. */
  function RequireLock(c: Configuration, w: Widget, env: Env): (r: bool)
    ensures r == UseCache(c, w, env)
  {
    UseCache(c, w, env)
  }

  // ---------------------------------------------------------------------
  // Cache freshness (WidgetRenderer.php:900-923)

  /** The instance's `cache_seconds` when it is not empty, else the configured `cacheSeconds`. */
  function EffectiveTtl(c: Configuration, w: Widget): (r: int)
    ensures EmptyAt(w.options, CacheSecondsKey) ==> r == c.cacheSeconds
    ensures Get(w.options, CacheSecondsKey).Int? && Get(w.options, CacheSecondsKey).i != 0 ==> r == Get(w.options, CacheSecondsKey).i
    ensures Get(w.options, CacheSecondsKey).Str? && !EmptyAt(w.options, CacheSecondsKey) ==>
      r == IntVal(Get(w.options, CacheSecondsKey).s)
  {
    if !EmptyAt(w.options, CacheSecondsKey) then IntValue(Get(w.options, CacheSecondsKey)) else c.cacheSeconds
  }

  /** `isCacheUsable`: never without `useCache`; always with a negative TTL; otherwise iff the age is at most the TTL. */
  function IsCacheUsable(c: Configuration, w: Widget, entryTime: int, now: int): (r: bool)
    ensures !c.useCache ==> !r
    ensures c.useCache && EffectiveTtl(c, w) < 0 ==> r
    ensures c.useCache && EffectiveTtl(c, w) >= 0 ==> (r <==> now - entryTime <= EffectiveTtl(c, w))
  {
    if !c.useCache then false
    else
      var ttl := EffectiveTtl(c, w);
      if ttl < 0 then true
      else !(now - entryTime > ttl)
  }

  /** The freshness boundary: an entry exactly as old as its TTL is usable, one second older is not. */
  lemma FreshnessBoundary(c: Configuration, w: Widget, entryTime: int)
    requires c.useCache && EffectiveTtl(c, w) >= 0
    ensures IsCacheUsable(c, w, entryTime, entryTime + EffectiveTtl(c, w))
    ensures !IsCacheUsable(c, w, entryTime, entryTime + EffectiveTtl(c, w) + 1)
  {
  }

  // ---------------------------------------------------------------------
  // Cache key (WidgetRenderer.php:609-653)

  predicate StyleDiffers(params: Params, env: Env) {
    params.visitorStyleId.Some? && params.visitorStyleId.value != env.defaultStyleId
  }

  predicate LanguageDiffers(params: Params, env: Env) {
    params.visitorLanguageId.Some? && params.visitorLanguageId.value != env.defaultLanguageId
  }

  predicate TimezoneDiffers(env: Env) {
    env.visitor.timezone != "" && env.visitor.timezone != env.guestTimeZone
  }

  /** The parts before the mobile marker: position, user segment, style, language, time zone. */
  function CacheIdHead(c: Configuration, position: string, params: Params, env: Env): seq<string> {
    [position]
    + (if c.useUserCache then ["pc" + IntToString(env.visitor.permissionCombinationId)] else [])
    + (if StyleDiffers(params, env) then ["vs" + IntToString(params.visitorStyleId.value)] else [])
    + (if LanguageDiffers(params, env) then ["vl" + IntToString(params.visitorLanguageId.value)] else [])
    + (if TimezoneDiffers(env) then ["vt" + env.visitor.timezone] else [])
  }

  /** The parts after the head: the mobile marker, then the caller's suffix. */
  function CacheIdTail(env: Env, suffix: seq<string>): seq<string> {
    (if env.visitor.mobile then ["vm"] else [])
    + (if suffix != [] then ["s" + Join(suffix, "_")] else [])
  }

  /**
   * `_getCacheId`: the parts in their fixed order, joined with `_`. The id
   * starts with the position code, and is the position code alone for a
   * visitor who needs none of the optional parts.
   */
  function CacheId(c: Configuration, position: string, params: Params, env: Env, suffix: seq<string>): (r: string)
    ensures |position| <= |r| && r[..|position|] == position
    ensures (!c.useUserCache && !StyleDiffers(params, env) && !LanguageDiffers(params, env) && !TimezoneDiffers(env)
             && !env.visitor.mobile && suffix == []) ==> r == position
  {
    Join(CacheIdHead(c, position, params, env) + CacheIdTail(env, suffix), "_")
  }

  /** A fixed marker followed by a printed number names the number uniquely. */
  lemma PrefixedIntToStringInjective(prefix: string, i: int, j: int)
    ensures prefix + IntToString(i) == prefix + IntToString(j) ==> i == j
  {
    var s := prefix + IntToString(i);
    var t := prefix + IntToString(j);
    assert s[|prefix|..] == IntToString(i);
    assert t[|prefix|..] == IntToString(j);
    if s == t {
      IntToStringInjective(i, j);
    }
  }

  /** Two different strings stay different when the same tail follows them. */
  lemma CommonTailKeepsDifference(p: string, q: string, t: string)
    requires p != q
    ensures p + t != q + t
  {
    if |p| == |q| {
      var i :| 0 <= i < |p| && p[i] != q[i];
      assert (p + t)[i] != (q + t)[i];
    } else {
      assert |p + t| != |q + t|;
    }
  }

  lemma PrefixKeepsDifference(pre: string, x: string, y: string)
    requires x != y
    ensures pre + x != pre + y
  {
    assert (pre + x)[|pre|..] == x;
    assert (pre + y)[|pre|..] == y;
  }

  /** Replacing one part by a different part, all other parts kept, changes the joined string. */
  lemma {:induction false} JoinDistinguishesPart(a: seq<string>, p: string, q: string, b: seq<string>)
    requires p != q
    ensures Join(a + [p] + b, "_") != Join(a + [q] + b, "_")
  {
    var t := if b == [] then "" else "_" + Join(b, "_");
    assert Join([p] + b, "_") == p + t by {
      if b != [] { JoinCons(p, b, "_"); }
    }
    assert Join([q] + b, "_") == q + t by {
      if b != [] { JoinCons(q, b, "_"); }
    }
    CommonTailKeepsDifference(p, q, t);
    if a != [] {
      JoinAppend(a, [p] + b, "_");
      JoinAppend(a, [q] + b, "_");
      assert a + [p] + b == a + ([p] + b);
      assert a + [q] + b == a + ([q] + b);
      PrefixKeepsDifference(Join(a, "_") + "_", p + t, q + t);
    } else {
      assert a + [p] + b == [p] + b;
      assert a + [q] + b == [q] + b;
    }
  }

  lemma Regroup(a: seq<string>, b: seq<string>, m1: seq<string>, m2: seq<string>, m3: seq<string>, t: seq<string>)
    ensures a + b + m1 + m2 + m3 + t == a + b + (m1 + m2 + m3 + t)
  {
  }

  /** With per-user caching, two visitors in different permission combinations never share a cache key. */
  lemma DistinctUserSegmentsGiveDistinctCacheIds(c: Configuration, position: string, params: Params, env: Env, pc: int, suffix: seq<string>)
    requires c.useUserCache && pc != env.visitor.permissionCombinationId
    ensures CacheId(c, position, params, env, suffix)
      != CacheId(c, position, params, env.(visitor := env.visitor.(permissionCombinationId := pc)), suffix)
  {
    var env' := env.(visitor := env.visitor.(permissionCombinationId := pc));
    var p := "pc" + IntToString(env.visitor.permissionCombinationId);
    var q := "pc" + IntToString(pc);
    PrefixedIntToStringInjective("pc", env.visitor.permissionCombinationId, pc);
    var vs := if StyleDiffers(params, env) then ["vs" + IntToString(params.visitorStyleId.value)] else [];
    var vl := if LanguageDiffers(params, env) then ["vl" + IntToString(params.visitorLanguageId.value)] else [];
    var vt := if TimezoneDiffers(env) then ["vt" + env.visitor.timezone] else [];
    var tail := CacheIdTail(env, suffix);
    assert CacheIdTail(env', suffix) == tail;
    assert CacheIdHead(c, position, params, env) == [position] + [p] + vs + vl + vt;
    assert CacheIdHead(c, position, params, env') == [position] + [q] + vs + vl + vt;
    Regroup([position], [p], vs, vl, vt, tail);
    Regroup([position], [q], vs, vl, vt, tail);
    JoinDistinguishesPart([position], p, q, vs + vl + vt + tail);
  }

  /** Two non-default styles never share a cache key. */
  lemma DistinctStylesGiveDistinctCacheIds(c: Configuration, position: string, params: Params, env: Env, style: int, suffix: seq<string>)
    requires StyleDiffers(params, env) && style != env.defaultStyleId && style != params.visitorStyleId.value
    ensures CacheId(c, position, params, env, suffix)
      != CacheId(c, position, params.(visitorStyleId := Some(style)), env, suffix)
  {
    var params' := params.(visitorStyleId := Some(style));
    var p := "vs" + IntToString(params.visitorStyleId.value);
    var q := "vs" + IntToString(style);
    PrefixedIntToStringInjective("vs", params.visitorStyleId.value, style);
    var a := [position] + (if c.useUserCache then ["pc" + IntToString(env.visitor.permissionCombinationId)] else []);
    var vl := if LanguageDiffers(params, env) then ["vl" + IntToString(params.visitorLanguageId.value)] else [];
    var vt := if TimezoneDiffers(env) then ["vt" + env.visitor.timezone] else [];
    var tail := CacheIdTail(env, suffix);
    assert CacheIdHead(c, position, params, env) == a + [p] + vl + vt;
    assert CacheIdHead(c, position, params', env) == a + [q] + vl + vt;
    Regroup(a, [p], vl, vt, [], tail);
    Regroup(a, [q], vl, vt, [], tail);
    assert a + [p] + vl + vt + [] == a + [p] + vl + vt;
    assert a + [q] + vl + vt + [] == a + [q] + vl + vt;
    JoinDistinguishesPart(a, p, q, vl + vt + [] + tail);
  }

  /** Two non-default languages never share a cache key. */
  lemma DistinctLanguagesGiveDistinctCacheIds(c: Configuration, position: string, params: Params, env: Env, language: int, suffix: seq<string>)
    requires LanguageDiffers(params, env) && language != env.defaultLanguageId && language != params.visitorLanguageId.value
    ensures CacheId(c, position, params, env, suffix)
      != CacheId(c, position, params.(visitorLanguageId := Some(language)), env, suffix)
  {
    var params' := params.(visitorLanguageId := Some(language));
    var p := "vl" + IntToString(params.visitorLanguageId.value);
    var q := "vl" + IntToString(language);
    PrefixedIntToStringInjective("vl", params.visitorLanguageId.value, language);
    var a, vt := HeadsAroundLanguage(c, position, params, env, language);
    var tail := CacheIdTail(env, suffix);
    assert a + [p] + vt + tail == a + [p] + (vt + tail);
    assert a + [q] + vt + tail == a + [q] + (vt + tail);
    JoinDistinguishesPart(a, p, q, vt + tail);
  }

  /** The heads of two cache ids that differ only in the visitor's language share what comes before and after the `vl` part. */
  lemma HeadsAroundLanguage(c: Configuration, position: string, params: Params, env: Env, language: int)
    returns (a: seq<string>, vt: seq<string>)
    requires LanguageDiffers(params, env) && language != env.defaultLanguageId
    ensures CacheIdHead(c, position, params, env) == a + ["vl" + IntToString(params.visitorLanguageId.value)] + vt
    ensures CacheIdHead(c, position, params.(visitorLanguageId := Some(language)), env) == a + ["vl" + IntToString(language)] + vt
  {
    a := [position]
      + (if c.useUserCache then ["pc" + IntToString(env.visitor.permissionCombinationId)] else [])
      + (if StyleDiffers(params, env) then ["vs" + IntToString(params.visitorStyleId.value)] else []);
    vt := if TimezoneDiffers(env) then ["vt" + env.visitor.timezone] else [];
  }

  /** Two visitors in different non-guest time zones never share a cache key. */
  lemma DistinctTimezonesGiveDistinctCacheIds(c: Configuration, position: string, params: Params, env: Env, timezone: string, suffix: seq<string>)
    requires TimezoneDiffers(env) && timezone != "" && timezone != env.guestTimeZone && timezone != env.visitor.timezone
    ensures CacheId(c, position, params, env, suffix)
      != CacheId(c, position, params, env.(visitor := env.visitor.(timezone := timezone)), suffix)
  {
    var env' := env.(visitor := env.visitor.(timezone := timezone));
    var p := "vt" + env.visitor.timezone;
    var q := "vt" + timezone;
    PrefixKeepsDifference("vt", env.visitor.timezone, timezone);
    var a := [position]
      + (if c.useUserCache then ["pc" + IntToString(env.visitor.permissionCombinationId)] else [])
      + (if StyleDiffers(params, env) then ["vs" + IntToString(params.visitorStyleId.value)] else [])
      + (if LanguageDiffers(params, env) then ["vl" + IntToString(params.visitorLanguageId.value)] else []);
    var tail := CacheIdTail(env, suffix);
    assert CacheIdTail(env', suffix) == tail;
    assert CacheIdHead(c, position, params, env) == a + [p];
    assert CacheIdHead(c, position, params, env') == a + [q];
    JoinDistinguishesPart(a, p, q, tail);
  }

  /**
   * The suffix enters the cache id only as its parts joined with `_`, so
   * `["a_b"]` and `["a", "b"]` give the same id, as `implode` does.
   */
  lemma SuffixEntersJoined(c: Configuration, position: string, params: Params, env: Env, suffix: seq<string>)
    requires suffix != []
    ensures CacheId(c, position, params, env, suffix) == CacheId(c, position, params, env, [Join(suffix, "_")])
    ensures CacheId(c, position, params, env, ["a_b"]) == CacheId(c, position, params, env, ["a", "b"])
  {
    assert Join([Join(suffix, "_")], "_") == Join(suffix, "_");
    assert Join(["a", "b"], "_") == "a_b" by {
      assert ["a", "b"][1..] == ["b"];
    }
  }

  /** A mobile and a non-mobile client never share a cache key. */
  lemma MobileMarkerDistinguishesCacheIds(c: Configuration, position: string, params: Params, env: Env, suffix: seq<string>)
    requires env.visitor.mobile
    ensures CacheId(c, position, params, env, suffix)
      != CacheId(c, position, params, env.(visitor := env.visitor.(mobile := false)), suffix)
  {
    var env' := env.(visitor := env.visitor.(mobile := false));
    var head := CacheIdHead(c, position, params, env);
    assert CacheIdHead(c, position, params, env') == head;
    var s := if suffix != [] then ["s" + Join(suffix, "_")] else [];
    assert head + CacheIdTail(env, suffix) == head + ["vm"] + s;
    assert head + CacheIdTail(env', suffix) == head + s;
    JoinLength(head + ["vm"] + s, "_");
    JoinLength(head + s, "_");
    TotalLengthAppend(head, ["vm"] + s);
    assert head + ["vm"] + s == head + (["vm"] + s);
    TotalLengthAppend(head, s);
    assert TotalLength(["vm"] + s) == 2 + TotalLength(s) by {
      assert (["vm"] + s)[1..] == s;
    }
  }

  lemma {:induction false} TotalLengthAppend(a: seq<string>, b: seq<string>)
    ensures TotalLength(a + b) == TotalLength(a) + TotalLength(b)
  {
    if a != [] {
      TotalLengthAppend(a[1..], b);
      assert (a + b)[1..] == a[1..] + b;
      assert (a + b)[0] == a[0];
    } else {
      assert a + b == b;
    }
  }

  // ---------------------------------------------------------------------
  // Conditional (WidgetRenderer.php:565-607)

  /** PHP `strval`. */
  function StrVal(v: Value): string {
    match v
    case Null => ""
    case Bool(b) => if b then "1" else ""
    case Int(i) => IntToString(i)
    case Str(s) => s
    case Arr(_) => "Array"
  }

  /**
   * `_executeExpression`: an expression that is empty once trimmed (`''`
   * or `'0'`) passes; any other is handed to the legacy evaluator, whose
   * verdict (including a syntax error) is the `evaluated` argument.
   */
  function ExecuteExpression(expression: Value, evaluated: Verdict): (r: Verdict)
    ensures Empty(Str(Trim(StrVal(expression)))) ==> r == Pass
    ensures !Empty(Str(Trim(StrVal(expression)))) ==> r == evaluated
  {
    var trimmed := Trim(StrVal(expression));
    if trimmed == "" || trimmed == "0" then Pass else evaluated
  }

  /** The stored conditional holds both a non-empty raw text and a non-empty parsed form. */
  predicate ConditionalIsComplete(cond: Value) {
    cond.Arr? && !EmptyAt(cond.entries, "raw") && !EmptyAt(cond.entries, "parsed")
  }

  /**
   * `_testConditional`: an ajax-deferred load always passes; a non-empty
   * conditional decides alone (and a malformed one passes), the legacy
   * expression being ignored; only without a conditional is the expression
   * consulted. `tested` is the conditional evaluator's verdict, `evaluated`
   * the legacy evaluator's.
   */
  function TestConditional(w: Widget, tested: Verdict, evaluated: Verdict): (r: Verdict)
    ensures w.ajaxLoadParams != Null ==> r == Pass
    ensures w.ajaxLoadParams == Null && !EmptyAt(w.options, ConditionalKey) ==>
      r == (if ConditionalIsComplete(Get(w.options, ConditionalKey)) then tested else Pass)
    ensures w.ajaxLoadParams == Null && EmptyAt(w.options, ConditionalKey) && !EmptyAt(w.options, ExpressionKey) ==>
      r == ExecuteExpression(Get(w.options, ExpressionKey), evaluated)
    ensures EmptyAt(w.options, ConditionalKey) && EmptyAt(w.options, ExpressionKey) ==> r == Pass
  {
    if w.ajaxLoadParams != Null then Pass
    else if !EmptyAt(w.options, ConditionalKey) then
      var cond := Get(w.options, ConditionalKey);
      if ConditionalIsComplete(cond) then tested else Pass
    else if !EmptyAt(w.options, ExpressionKey) then
      ExecuteExpression(Get(w.options, ExpressionKey), evaluated)
    else Pass
  }

  /** A widget with a non-empty conditional is never decided by its legacy expression. */
  lemma ConditionalTakesPrecedence(w: Widget, tested: Verdict, e1: Verdict, e2: Verdict)
    requires !EmptyAt(w.options, ConditionalKey)
    ensures TestConditional(w, tested, e1) == TestConditional(w, tested, e2)
  {
  }

  // ---------------------------------------------------------------------
  // Option normalisation (WidgetRenderer.php:77-102, 521-540)

  /** PHP `is_numeric`. */
  predicate IsNumericValue(v: Value) {
    v.Int? || (v.Str? && IsNumeric(v.s))
  }

  /** `$v < 0` for a numeric value. */
  predicate NegativeNumber(v: Value)
    requires IsNumericValue(v)
  {
    if v.Int? then v.i < 0 else NumericIsNegative(v.s)
  }

  /**
   * `_validateOptionValue`: `cache_seconds` becomes `''` when not numeric
   * and the integer 0 when below 0 (a string compared as PHP's integer or
   * double reading of it); `conditional` becomes
   * `{raw, parsed}` when its raw text is not empty and an empty array
   * otherwise (`parse` is the conditional parser); every other option is
   * kept as it is.
   */
  function ValidateOptionValue(key: string, v: Value, parse: Value -> Value): (r: Value)
    ensures key == CacheSecondsKey ==>
      r == (if !IsNumericValue(v) then Str("") else if NegativeNumber(v) then Int(0) else v)
    ensures key == ConditionalKey ==>
      var raw := if v.Arr? && !EmptyAt(v.entries, "raw") then Get(v.entries, "raw") else Str("");
      r == (if Empty(raw) then Arr([]) else Arr([Entry("raw", raw), Entry("parsed", parse(raw))]))
    ensures key != CacheSecondsKey && key != ConditionalKey ==> r == v
  {
    if key == CacheSecondsKey then
      if !IsNumericValue(v) then Str("")
      else if NegativeNumber(v) then Int(0)
      else v
    else if key == ConditionalKey then
      var raw := if v.Arr? && !EmptyAt(v.entries, "raw") then Get(v.entries, "raw") else Str("");
      if !Empty(raw) then Arr([Entry("raw", raw), Entry("parsed", parse(raw))]) else Arr([])
    else v
  }

  /** A validated `cache_seconds` is `''` or a non-negative number. */
  lemma ValidatedCacheSecondsIsNonNegative(v: Value, parse: Value -> Value)
    ensures var r := ValidateOptionValue(CacheSecondsKey, v, parse);
      r == Str("") || (IsNumericValue(r) && !NegativeNumber(r))
  {
  }

  /** Validation is idempotent: saving an already-validated option leaves it unchanged. */
  lemma ValidateOptionValueIdempotent(key: string, v: Value, parse: Value -> Value)
    ensures var r := ValidateOptionValue(key, v, parse);
      ValidateOptionValue(key, r, parse) == r
  {
    if key == CacheSecondsKey {
      CacheSecondsValidationIdempotent(v, parse);
    } else if key == ConditionalKey {
      ConditionalValidationIdempotent(v, parse);
    }
  }

  lemma CacheSecondsValidationIdempotent(v: Value, parse: Value -> Value)
    ensures var r := ValidateOptionValue(CacheSecondsKey, v, parse);
      ValidateOptionValue(CacheSecondsKey, r, parse) == r
  {
    var r := ValidateOptionValue(CacheSecondsKey, v, parse);
    if !IsNumericValue(v) {
      assert r == Str("");
      EmptyIsNotNumeric();
    } else if NegativeNumber(v) {
      assert r == Int(0) && IsNumericValue(r) && !NegativeNumber(r);
    } else {
      assert r == v;
    }
  }

  lemma ConditionalValidationIdempotent(v: Value, parse: Value -> Value)
    ensures var r := ValidateOptionValue(ConditionalKey, v, parse);
      ValidateOptionValue(ConditionalKey, r, parse) == r
  {
    var r := ValidateOptionValue(ConditionalKey, v, parse);
    if r != Arr([]) {
      assert Get(r.entries, "raw") == Get(v.entries, "raw");
    }
  }

  /**
   * A negative `cache_seconds` is stored as the integer 0, which neither
   * switches caching off (only the string `'0'` does) nor overrides the
   * configured TTL (an empty value falls back to `cacheSeconds`).
   */
  lemma NegativeCacheSecondsFallsBackToConfiguredTtl(c: Configuration, w: Widget, input: Value, parse: Value -> Value)
    requires IsNumericValue(input) && NegativeNumber(input)
    requires w.options == [Entry(CacheSecondsKey, ValidateOptionValue(CacheSecondsKey, input, parse))]
    ensures !CacheSecondsIsZeroString(w)
    ensures EffectiveTtl(c, w) == c.cacheSeconds
  {
  }

  /**
   * A negative `cache_seconds` whose magnitude rounds to 0 as a double,
   * such as `"-1e-400"`, is not below 0, so validation keeps the string.
   * `intval` then reads -1, and a cached copy never expires.
   */
  lemma UnderflowingCacheSecondsNeverExpires(c: Configuration, w: Widget, parse: Value -> Value, entryTime: int, now: int)
    requires c.useCache
    requires w.options == [Entry(CacheSecondsKey, ValidateOptionValue(CacheSecondsKey, Str("-1e-400"), parse))]
    ensures Get(w.options, CacheSecondsKey) == Str("-1e-400")
    ensures EffectiveTtl(c, w) == -1 && IsCacheUsable(c, w, entryTime, now)
  {
    UnderflowIsNotNegative();
    assert "-1e-400"[0] == '-';
    KeptStringTtl(c, w, parse, "-1e-400", entryTime, now);
  }

  /** A kept numeric string with a negative `intval` makes the cached copy usable at any age. */
  lemma KeptStringTtl(c: Configuration, w: Widget, parse: Value -> Value, s: string, entryTime: int, now: int)
    requires c.useCache && s != [] && s[0] == '-'
    requires IsNumeric(s) && !NumericIsNegative(s) && IntVal(s) < 0
    requires w.options == [Entry(CacheSecondsKey, ValidateOptionValue(CacheSecondsKey, Str(s), parse))]
    ensures Get(w.options, CacheSecondsKey) == Str(s)
    ensures EffectiveTtl(c, w) == IntVal(s) && IsCacheUsable(c, w, entryTime, now)
  {
    KeptWhenNotBelowZero(Str(s), parse);
    StringTtl(c, w, s);
  }

  /** A numeric `cache_seconds` that is not below 0 is stored as it is. */
  lemma KeptWhenNotBelowZero(v: Value, parse: Value -> Value)
    requires IsNumericValue(v) && !NegativeNumber(v)
    ensures ValidateOptionValue(CacheSecondsKey, v, parse) == v
  {
  }

  lemma StringTtl(c: Configuration, w: Widget, s: string)
    requires s != "" && s != "0" && w.options == [Entry(CacheSecondsKey, Str(s))]
    ensures EffectiveTtl(c, w) == IntVal(s)
  {
    assert Get(w.options, CacheSecondsKey) == Str(s);
  }

  const NamePrefix := "options_"

  /**
   * `parseOptionsInput`: every schema key is read from the input (under the
   * `options_` prefix, filtered by its declared type) and validated; the
   * other stored options are kept; and when both a conditional and a
   * legacy expression end up non-empty, the expression is dropped.
   * `filterSingle` is the host's input filter.
   */
  method ParseOptionsInput(
    schema: map<string, InputType>, widgetOptions: seq<Entry>,
    filterSingle: (string, InputType) -> Value, parse: Value -> Value)
    returns (options: seq<Entry>)
    requires UniqueKeys(widgetOptions)
    ensures UniqueKeys(options)
    ensures forall k :: k in schema && k != ExpressionKey ==>
      Find(options, k) == Some(ValidateOptionValue(k, filterSingle(NamePrefix + k, schema[k]), parse))
    ensures forall k :: k !in schema && k != ExpressionKey ==> Find(options, k) == Find(widgetOptions, k)
    ensures !EmptyAt(options, ConditionalKey) ==> !HasKey(options, ExpressionKey) || EmptyAt(options, ExpressionKey)
    ensures EmptyAt(options, ConditionalKey) ==>
      Find(options, ExpressionKey) ==
        (if ExpressionKey in schema then Some(filterSingle(NamePrefix + ExpressionKey, schema[ExpressionKey]))
         else Find(widgetOptions, ExpressionKey))
  {
    options := widgetOptions;
    var pending := schema.Keys;
    while pending != {}
      invariant pending <= schema.Keys
      invariant UniqueKeys(options)
      invariant forall k :: k in schema && k !in pending ==>
        Find(options, k) == Some(ValidateOptionValue(k, filterSingle(NamePrefix + k, schema[k]), parse))
      invariant forall k :: (k !in schema || k in pending) ==> Find(options, k) == Find(widgetOptions, k)
      decreases pending
    {
      var key :| key in pending;
      var value := filterSingle(NamePrefix + key, schema[key]);
      options := Put(options, key, ValidateOptionValue(key, value, parse));
      pending := pending - {key};
    }
    if !EmptyAt(options, ConditionalKey) && !EmptyAt(options, ExpressionKey) {
      options := Remove(options, ExpressionKey);
    }
  }

  // ---------------------------------------------------------------------
  // Title (WidgetRenderer.php:864-898)

  function LowerAscii(c: char): char {
    if 'A' <= c <= 'Z' then (c as int + 32) as char else c
  }

  predicate EqualsIgnoringCase(s: string, t: string) {
    |s| == |t| && forall i :: 0 <= i < |s| ==> LowerAscii(s[i]) == LowerAscii(t[i])
  }

  const PhrasePrefix := "{xen:phrase "

  /** `{xen:phrase NAME}` exactly, with NAME non-empty and free of `}`: returns NAME. */
  function PhraseReference(s: string): (r: Option<string>)
    ensures r.Some? ==> r.value != [] && (forall i :: 0 <= i < |r.value| ==> r.value[i] != '}')
    ensures r.Some? ==> |s| > |PhrasePrefix| && s == s[..|PhrasePrefix|] + r.value + "}"
  {
    var n := |PhrasePrefix|;
    if |s| > n + 1 && EqualsIgnoringCase(s[..n], PhrasePrefix) && s[|s| - 1] == '}'
      && (forall i :: n <= i < |s| - 1 ==> s[i] != '}')
    then
      var name := s[n..|s| - 1];
      assert s == s[..n] + name + "}";
      Some(name)
    else None
  }

  /**
   * The title pattern `/^{xen:phrase ([^}]+)}$/i`: case-insensitive on the
   * prefix, and, as `$` allows, one trailing newline after the brace.
   */
  function MatchPhraseTitle(s: string): (r: Option<string>)
    ensures r.Some? ==> r == PhraseReference(s) || (s != [] && s[|s| - 1] == '\n' && r == PhraseReference(s[..|s| - 1]))
    ensures PhraseReference(s).Some? ==> r == PhraseReference(s)
  {
    var direct := PhraseReference(s);
    if direct.Some? then direct
    else if s != [] && s[|s| - 1] == '\n' then PhraseReference(s[..|s| - 1])
    else None
  }

  /**
   * `extraPrepareTitle`: an empty title yields the renderer's name; a
   * `{xen:phrase NAME}` title yields that phrase; a widget saved by a
   * versioned add-on with a positive id yields its own title phrase; any
   * other title is shown as it is.
   */
  function ExtraPrepareTitle(w: Widget, rendererName: string): (r: Markup)
    ensures (w.title == "" || w.title == "0") ==> r == Text(rendererName)
    ensures w.title != "" && w.title != "0" && MatchPhraseTitle(w.title).Some? ==>
      r == Phrase(MatchPhraseTitle(w.title).value)
    ensures w.title != "" && w.title != "0" && MatchPhraseTitle(w.title).None? ==>
      r == (if !EmptyAt(w.options, AddOnVersionKey) && w.widgetId > 0 then TitlePhrase(w.widgetId) else Text(w.title))
  {
    if w.title != "" && w.title != "0" then
      var m := MatchPhraseTitle(w.title);
      if m.Some? then Phrase(m.value)
      else if !EmptyAt(w.options, AddOnVersionKey) && w.widgetId > 0 then TitlePhrase(w.widgetId)
      else Text(w.title)
    else Text(rendererName)
  }

  // ---------------------------------------------------------------------
  // Ajax load parameters (WidgetRenderer.php:829-847)

  /** `_getAjaxLoadParams`: the widget's own parameters when it carries an array of them, else just the hook flag. */
  function AjaxLoadParams(w: Widget, params: Params): (r: Value)
    ensures w.ajaxLoadParams.Arr? ==> r == w.ajaxLoadParams
    ensures !w.ajaxLoadParams.Arr? ==> r == Arr([Entry(IsHookParam, Bool(params.isHook))])
  {
    if w.ajaxLoadParams.Arr? then w.ajaxLoadParams
    else Arr([Entry(IsHookParam, Bool(params.isHook))])
  }

  /** An ajax load replays the hook flag and nothing of the group the widget sits in. */
  lemma AjaxLoadParamsIgnoreParentGroup(w: Widget, params: Params, groupId: int)
    ensures AjaxLoadParams(w, params) == AjaxLoadParams(w, params.(parentGroupId := Some(groupId)))
  {
  }
}
