/**
 * Renderer configuration: what a concrete renderer declares, the defaults
 * it is merged with, and the option keys injected into every schema.
 */
module RendererConfig {

  import opened Wrappers

  /** The input filters an option schema names (XenForo_Input constants). */
  datatype InputType = StringInput | UnsignedInput | BinaryInput | ArraySimpleInput | OtherInput(name: string)

  /** What a concrete renderer's `_getConfiguration` returns: every key is optional. */
  datatype Declared = Declared(
    name: Option<string>,
    isHidden: Option<bool>,
    options: Option<map<string, InputType>>,
    useCache: Option<bool>,
    useUserCache: Option<bool>,
    cacheSeconds: Option<int>,
    useWrapper: Option<bool>,
    canAjaxLoad: Option<bool>)

  /** A resolved configuration: every key present. */
  datatype Configuration = Configuration(
    name: string,
    isHidden: bool,
    options: map<string, InputType>,
    useCache: bool,
    useUserCache: bool,
    cacheSeconds: int,
    useWrapper: bool,
    canAjaxLoad: bool)

  const CacheSecondsKey := "cache_seconds"
  const ExpressionKey := "expression"
  const ConditionalKey := "conditional"
  const DeactivateForMobileKey := "deactivate_for_mobile"
  const LayoutKey := "layout"

  /** Option keys every renderer's schema receives, whatever it declares. */
  function InjectedOptions(useCache: bool): (m: map<string, InputType>)
    ensures ExpressionKey in m && m[ExpressionKey] == StringInput
    ensures ConditionalKey in m && m[ConditionalKey] == ArraySimpleInput
    ensures DeactivateForMobileKey in m && m[DeactivateForMobileKey] == UnsignedInput
    ensures CacheSecondsKey in m <==> useCache
    ensures useCache ==> m[CacheSecondsKey] == StringInput
    ensures |m.Keys| == if useCache then 4 else 3
  {
    var base := map[ExpressionKey := StringInput, ConditionalKey := ArraySimpleInput, DeactivateForMobileKey := UnsignedInput];
    if useCache then base[CacheSecondsKey := StringInput] else base
  }

  /**
   * `getConfiguration` of the abstract renderer: the declared keys merged
   * over the defaults (name = class name, not hidden, no options, no
   * caching, zero cache seconds, wrapped, no ajax loading), then the
   * injected option keys written over the declared schema.
   */
  function Resolve(className: string, d: Declared): (c: Configuration)
    ensures c.name == d.name.GetOr(className)
    ensures c.useCache == d.useCache.GetOr(false) && c.useUserCache == d.useUserCache.GetOr(false)
    ensures c.cacheSeconds == d.cacheSeconds.GetOr(0)
    ensures c.useWrapper == d.useWrapper.GetOr(true) && c.canAjaxLoad == d.canAjaxLoad.GetOr(false)
    ensures c.isHidden == d.isHidden.GetOr(false)
    ensures c.options.Keys == d.options.GetOr(map[]).Keys + InjectedOptions(c.useCache).Keys
    ensures forall k :: k in c.options && k !in InjectedOptions(c.useCache) ==> c.options[k] == d.options.GetOr(map[])[k]
    ensures forall k :: k in InjectedOptions(c.useCache) ==> c.options[k] == InjectedOptions(c.useCache)[k]
  {
    var useCache := d.useCache.GetOr(false);
    Configuration(
      d.name.GetOr(className),
      d.isHidden.GetOr(false),
      d.options.GetOr(map[]) + InjectedOptions(useCache),
      useCache,
      d.useUserCache.GetOr(false),
      d.cacheSeconds.GetOr(0),
      d.useWrapper.GetOr(true),
      d.canAjaxLoad.GetOr(false))
  }

  /** The group renderer's override: the schema is replaced by the layout key alone. */
  function GroupConfiguration(base: Configuration): (c: Configuration)
    ensures c.options == map[LayoutKey := StringInput]
    ensures c.(options := base.options) == base
  {
    base.(options := map[LayoutKey := StringInput])
  }

  /** What the group renderer declares (WidgetGroup.php:94-101): its name, hidden from the picker, no wrapper. */
  const GroupDeclared := Declared(Some("Group"), Some(true), None, None, None, None, Some(false), None)
}
