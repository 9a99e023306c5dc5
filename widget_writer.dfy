/**
 * The widget data writer's option handling: decoding the stored options,
 * reading one with a default, setting, unsetting or merging them, stamping
 * the add-on version into them before a save, and the decisions of its
 * save hooks (template widgets, global cache rebuild).
 *
 * `unserialize` is host code and comes in as a function.
 */
module WidgetWriter {

  import opened Wrappers
  import opened PhpValues
  import opened PhpStrings

  const AddOnVersionOption := "_addOnVersionId"
  const AddOnKey := "widget_framework"
  /** The first platform version whose add-on registry carries versions. */
  const MinimumPlatformVersion := 1020000

  /** Lines 25-30: a serialized string is decoded; anything that is then not an array is the empty array. */
  function Decoded(stored: Value, unserialize: string -> Value): (r: seq<Entry>)
    ensures stored.Arr? ==> r == stored.entries
    ensures stored.Str? && unserialize(stored.s).Arr? ==> r == unserialize(stored.s).entries
    ensures !stored.Arr? && !(stored.Str? && unserialize(stored.s).Arr?) ==> r == []
  {
    var v := if stored.Str? then unserialize(stored.s) else stored;
    if v.Arr? then v.entries else []
  }

  /** Lines 35-44: the stored value when the key is set (present and not null), else the default. */
  function OptionOr(options: seq<Entry>, key: string, default: Value): (r: Value)
    ensures IsSet(options, key) ==> Find(options, key) == Some(r) && !r.Null?
    ensures !IsSet(options, key) ==> r == default
  {
    if IsSet(options, key) then Get(options, key) else default
  }

  /** The key argument of `setWidgetOption`: one option name, or an array of options to merge in. */
  datatype OptionKey = Key(name: string) | Keys(entries: seq<Entry>)

  /** Lines 50-56: merge an array of options; set a non-null value; unset a key that is set when the value is null. */
  function SetOption(options: seq<Entry>, key: OptionKey, value: Value): (r: seq<Entry>)
    ensures UniqueKeys(options) ==> UniqueKeys(r)
    ensures key.Keys? ==> r == MapMerge(options, key.entries)
    ensures key.Key? && !value.Null? ==> Find(r, key.name) == Some(value)
    ensures key.Key? && value.Null? && IsSet(options, key.name) ==> !HasKey(r, key.name)
    ensures key.Key? && value.Null? && !IsSet(options, key.name) ==> r == options
    ensures key.Key? ==> forall k :: k != key.name ==> Find(r, k) == Find(options, k)
  {
    match key
    case Keys(entries) =>
      MapMergeKeepsUniqueKeys(options, entries);
      MapMerge(options, entries)
    case Key(name) =>
      if !value.Null? then Put(options, name, value)
      else if IsSet(options, name) then Remove(options, name)
      else options
  }

  /** Setting a non-null value and reading it back gives that value; unsetting and reading gives the default. */
  lemma SetThenGet(options: seq<Entry>, name: string, value: Value, default: Value)
    ensures !value.Null? ==> OptionOr(SetOption(options, Key(name), value), name, default) == value
    ensures value.Null? ==> OptionOr(SetOption(options, Key(name), value), name, default) == default
  {
  }

  /**
   * What `getWidgetOption` reads after `setWidgetOption` wrote a single
   * key: the value written, or the default after an unset; every other key
   * reads as it did before.
   */
  lemma SetWidgetOptionReadsBack(stored: Value, unserialize: string -> Value, name: string, value: Value, default: Value)
    ensures var written := Arr(SetOption(Decoded(stored, unserialize), Key(name), value));
      && OptionOr(Decoded(written, unserialize), name, default) == (if value.Null? then default else value)
      && forall other :: other != name ==>
           OptionOr(Decoded(written, unserialize), other, default) == OptionOr(Decoded(stored, unserialize), other, default)
  {
    SetThenGet(Decoded(stored, unserialize), name, value, default);
  }

  /**
   * What `getWidgetOption` reads after `setWidgetOption` merged an array of
   * options: a merged key holding neither null nor a recursively merged
   * array reads the merged value; a key the array lacks reads as before.
   */
  lemma MergedOptionsReadBack(stored: Value, unserialize: string -> Value, entries: seq<Entry>, k: string, default: Value)
    requires UniqueKeys(entries)
    ensures var before := Decoded(stored, unserialize);
      var after := Decoded(Arr(SetOption(before, Keys(entries), Null)), unserialize);
      && (HasKey(entries, k) && !Get(entries, k).Null? && !MergesRecursively(before, entries, k) ==>
            OptionOr(after, k, default) == Get(entries, k))
      && (HasKey(entries, k) && MergesRecursively(before, entries, k) ==>
            OptionOr(after, k, default) == Arr(MapMerge(Get(before, k).entries, Get(entries, k).entries)))
      && (!HasKey(entries, k) ==> OptionOr(after, k, default) == OptionOr(before, k, default))
  {
    var before := Decoded(stored, unserialize);
    if HasKey(entries, k) {
      MapMergeFind(before, entries, k);
    }
  }

  /** Setting the same value twice is setting it once. */
  lemma SetOptionIdempotent(options: seq<Entry>, name: string, value: Value)
    ensures SetOption(SetOption(options, Key(name), value), Key(name), value) == SetOption(options, Key(name), value)
  {
    var once := SetOption(options, Key(name), value);
    if !value.Null? {
      PutExisting(once, name, value);
    }
  }

  /** Writing the value a key already holds leaves the array as it is. */
  lemma {:induction false} PutExisting(es: seq<Entry>, k: string, v: Value)
    requires Find(es, k) == Some(v)
    ensures Put(es, k, v) == es
  {
    if es[0].key != k {
      PutExisting(es[1..], k, v);
    }
  }

  /**
   * PHP's loose `==` on the values an option and the add-on registry
   * hold: equal values, `true` against any non-empty value, and an integer
   * against its own decimal spelling.
   */
  function LooseEquals(a: Value, b: Value): (r: bool)
    ensures a == b ==> r
    ensures a.Int? && b.Int? ==> (r <==> a.i == b.i)
    ensures a.Int? && b.Str? ==> (r <==> b.s == IntToString(a.i))
    ensures a == Bool(true) ==> (r <==> !Empty(b))
  {
    a == b
    || (a == Bool(true) && !Empty(b)) || (b == Bool(true) && !Empty(a))
    || (a.Int? && b.Str? && b.s == IntToString(a.i))
    || (a.Str? && b.Int? && a.s == IntToString(b.i))
  }

  /** Lines 200-217: whether the pre-save bump writes the add-on version into the options. */
  function BumpWrites(platformVersion: int, addOns: seq<Entry>, options: seq<Entry>): (r: bool)
    ensures platformVersion < MinimumPlatformVersion ==> !r
    ensures EmptyAt(addOns, AddOnKey) ==> !r
    ensures OptionOr(options, AddOnVersionOption, Null) == Get(addOns, AddOnKey) ==> !r
    ensures (platformVersion >= MinimumPlatformVersion && !EmptyAt(addOns, AddOnKey)
             && EmptyAt(options, AddOnVersionOption)) ==> r
  {
    platformVersion >= MinimumPlatformVersion
    && !EmptyAt(addOns, AddOnKey)
    && (var current := OptionOr(options, AddOnVersionOption, Null);
        Empty(current) || !LooseEquals(current, Get(addOns, AddOnKey)))
  }

  /** Lines 219-227: the four template-based renderer classes, compared strictly. */
  const TemplateClasses := {
    "WidgetFramework_WidgetRenderer_Html",
    "WidgetFramework_WidgetRenderer_HtmlWithoutWrapper",
    "WidgetFramework_WidgetRenderer_Template",
    "WidgetFramework_WidgetRenderer_TemplateWithoutWrapper"}

  function IsTemplateWidget(className: string): (r: bool)
    ensures r <==> (className == "WidgetFramework_WidgetRenderer_Html"
                    || className == "WidgetFramework_WidgetRenderer_HtmlWithoutWrapper"
                    || className == "WidgetFramework_WidgetRenderer_Template"
                    || className == "WidgetFramework_WidgetRenderer_TemplateWithoutWrapper")
  {
    className in TemplateClasses
  }

  /** What the post-save hook asks of the template renderer model. */
  datatype TemplateAction = NoTemplateAction | TemplateSaved | TemplateDeleted

  /**
   * Lines 164-168: a template widget has its template saved; a widget that
   * was a template widget and changed class to another has it deleted.
   */
  function PostSaveTemplateAction(className: string, existingClassName: string, classChanged: bool): (r: TemplateAction)
    ensures r == TemplateSaved <==> IsTemplateWidget(className)
    ensures r == TemplateDeleted <==> !IsTemplateWidget(className) && classChanged && IsTemplateWidget(existingClassName)
  {
    if IsTemplateWidget(className) then TemplateSaved
    else if classChanged && IsTemplateWidget(existingClassName) then TemplateDeleted
    else NoTemplateAction
  }

  /** Lines 61-70: the global widget cache is rebuilt unless skipped, and only for widgets outside widget pages. */
  function RebuildsGlobalCache(skipRebuild: Value, widgetPageId: int): (r: bool)
    ensures !Empty(skipRebuild) ==> !r
    ensures widgetPageId != 0 ==> !r
    ensures Empty(skipRebuild) && widgetPageId == 0 ==> r
  {
    Empty(skipRebuild) && widgetPageId == 0
  }

  /** The widget's fields the writer reads and writes. */
  class Writer {
    /** The `options` field as it would be saved: a serialized string or an array. */
    var options: Value
    /** The `options` field as it was loaded. */
    const existingOptions: Value
    const unserialize: string -> Value

    constructor (stored: Value, unserialize: string -> Value)
      ensures options == stored && existingOptions == stored && this.unserialize == unserialize
    {
      options := stored;
      existingOptions := stored;
      this.unserialize := unserialize;
    }

    /** `getWidgetOptions`: the new or the existing options, always as an array. */
    function WidgetOptions(existing: bool): (r: seq<Entry>)
      reads this
    {
      Decoded(if existing then existingOptions else options, unserialize)
    }

    /** `getWidgetOption`. */
    function WidgetOption(key: string, default: Value): (r: Value)
      reads this
      ensures IsSet(WidgetOptions(false), key) ==> Find(WidgetOptions(false), key) == Some(r)
      ensures !IsSet(WidgetOptions(false), key) ==> r == default
    {
      OptionOr(WidgetOptions(false), key, default)
    }

    /** `setWidgetOption`: the options are written back as the array `SetOption` yields. */
    method SetWidgetOption(key: OptionKey, value: Value)
      modifies this`options
      ensures options == Arr(SetOption(old(WidgetOptions(false)), key, value))
      ensures key.Key? && !value.Null? ==> WidgetOption(key.name, Null) == value
      ensures key.Key? && value.Null? ==> !IsSet(WidgetOptions(false), key.name)
    {
      var current := WidgetOptions(false);
      var updated: seq<Entry>;
      match key {
        case Keys(entries) =>
          updated := MapMerge(current, entries);
        case Key(name) =>
          if !value.Null? {
            updated := Put(current, name, value);
          } else if IsSet(current, name) {
            updated := Remove(current, name);
          } else {
            updated := current;
          }
      }
      options := Arr(updated);
    }

    /**
     * `_bumpAddOnVersionId`: on a platform that registers versions and
     * with the add-on registered, stamp its version into the options
     * unless the same version is already there.
     */
    method BumpAddOnVersionId(platformVersion: int, addOns: seq<Entry>)
      modifies this`options
      ensures BumpWrites(platformVersion, addOns, old(WidgetOptions(false))) ==>
        options == Arr(SetOption(old(WidgetOptions(false)), Key(AddOnVersionOption), Get(addOns, AddOnKey)))
      ensures !BumpWrites(platformVersion, addOns, old(WidgetOptions(false))) ==> options == old(options)
    {
      if platformVersion < MinimumPlatformVersion {
        return;
      }
      if EmptyAt(addOns, AddOnKey) {
        return;
      }
      var addOnVersion := Get(addOns, AddOnKey);
      var optionValue := WidgetOption(AddOnVersionOption, Null);
      if Empty(optionValue) || !LooseEquals(optionValue, addOnVersion) {
        SetWidgetOption(Key(AddOnVersionOption), addOnVersion);
      }
    }
  }

  /** After a bump that wrote, the options hold the add-on's version, so a second bump writes nothing. */
  lemma BumpIsIdempotent(platformVersion: int, addOns: seq<Entry>, options: seq<Entry>)
    requires BumpWrites(platformVersion, addOns, options)
    ensures var bumped := SetOption(options, Key(AddOnVersionOption), Get(addOns, AddOnKey));
      && OptionOr(bumped, AddOnVersionOption, Null) == Get(addOns, AddOnKey)
      && !BumpWrites(platformVersion, addOns, Decoded(Arr(bumped), (s: string) => Null))
  {
  }
}
