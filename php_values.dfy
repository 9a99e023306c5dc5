/**
 * PHP values as the widget core stores and reads them: scalars and ordered
 * arrays with string keys. An array is an ordered list of entries whose
 * keys are distinct; assignment to an existing key keeps its position,
 * assignment to a new key appends, `unset` removes the entry.
 */
module PhpValues {

  import opened Wrappers
  import PhpStrings

  datatype Value =
    | Null
    | Bool(b: bool)
    | Int(i: int)
    | Str(s: string)
    | Arr(entries: seq<Entry>)

  datatype Entry = Entry(key: string, val: Value)

  /** `$a[$k]` for a present key, `None` for a missing one. */
  function Find(es: seq<Entry>, k: string): Option<Value> {
    if es == [] then None
    else if es[0].key == k then Some(es[0].val)
    else Find(es[1..], k)
  }

  /** PHP `array_key_exists($k, $a)`. */
  predicate HasKey(es: seq<Entry>, k: string) {
    Find(es, k).Some?
  }

  /** The keys of an array are distinct, as they are in every PHP array. */
  predicate UniqueKeys(es: seq<Entry>) {
    es == [] || (!HasKey(es[1..], es[0].key) && UniqueKeys(es[1..]))
  }

  /** `array_keys($a)`, in order. */
  function KeyList(es: seq<Entry>): (ks: seq<string>)
    ensures |ks| == |es|
  {
    if es == [] then [] else [es[0].key] + KeyList(es[1..])
  }

  /** PHP `isset($a[$k])`: the key is present and its value is not null. */
  predicate IsSet(es: seq<Entry>, k: string) {
    Find(es, k).Some? && !Find(es, k).value.Null?
  }

  /** `$a[$k]` read where a missing key yields null. */
  function Get(es: seq<Entry>, k: string): Value {
    Find(es, k).GetOr(Null)
  }

  /** `$a[$k] = $v`: an existing key keeps its place, a new key is appended. */
  function Put(es: seq<Entry>, k: string, v: Value): (r: seq<Entry>)
    ensures Find(r, k) == Some(v)
    ensures forall k' :: k' != k ==> Find(r, k') == Find(es, k')
    ensures UniqueKeys(es) ==> UniqueKeys(r)
    ensures KeyList(r) == if HasKey(es, k) then KeyList(es) else KeyList(es) + [k]
  {
    if es == [] then [Entry(k, v)]
    else if es[0].key == k then [Entry(k, v)] + es[1..]
    else [es[0]] + Put(es[1..], k, v)
  }

  /** `unset($a[$k])`: the key disappears, every other entry stays where it was. */
  function Remove(es: seq<Entry>, k: string): (r: seq<Entry>)
    ensures !HasKey(r, k)
    ensures forall k' :: k' != k ==> Find(r, k') == Find(es, k')
    ensures UniqueKeys(es) ==> UniqueKeys(r)
    ensures !HasKey(es, k) ==> r == es
  {
    if es == [] then []
    else if es[0].key == k then Remove(es[1..], k)
    else [es[0]] + Remove(es[1..], k)
  }

  /** PHP `empty($v)`. */
  predicate Empty(v: Value) {
    match v
    case Null => true
    case Bool(b) => !b
    case Int(i) => i == 0
    case Str(s) => s == "" || s == "0"
    case Arr(es) => es == []
  }

  /** PHP `empty($a[$k])`: a missing key is empty too. */
  predicate EmptyAt(es: seq<Entry>, k: string) {
    Empty(Get(es, k))
  }

  /** PHP `intval($v)` (arrays: 0 when empty, 1 otherwise). */
  function IntValue(v: Value): int {
    match v
    case Null => 0
    case Bool(b) => if b then 1 else 0
    case Int(i) => i
    case Str(s) => PhpStrings.IntVal(s)
    case Arr(es) => if es == [] then 0 else 1
  }

  /**
   * `XenForo_Application::mapMerge($first, $second)`: every entry of the
   * second array overwrites the first, except that two arrays under the
   * same key are merged recursively. (The host's own implementation is
   * not part of this model; this is the documented behaviour.)
   */
  function MapMerge(first: seq<Entry>, second: seq<Entry>): (r: seq<Entry>)
    ensures forall k {:trigger HasKey(r, k)} :: HasKey(r, k) <==> HasKey(first, k) || HasKey(second, k)
    ensures forall k {:trigger Find(r, k)} :: !HasKey(second, k) ==> Find(r, k) == Find(first, k)
    decreases second
  {
    if second == [] then first
    else
      var e := second[0];
      assert e in second;
      var merged :=
        if e.val.Arr? && IsSet(first, e.key) && Get(first, e.key).Arr? then
          Arr(MapMerge(Get(first, e.key).entries, e.val.entries))
        else e.val;
      MapMerge(Put(first, e.key, merged), second[1..])
  }

  /** A merge into an array without repeated keys has no repeated keys. */
  lemma {:induction false} MapMergeKeepsUniqueKeys(first: seq<Entry>, second: seq<Entry>)
    ensures UniqueKeys(first) ==> UniqueKeys(MapMerge(first, second))
    decreases second
  {
    if second != [] {
      var e := second[0];
      var merged :=
        if e.val.Arr? && IsSet(first, e.key) && Get(first, e.key).Arr? then
          Arr(MapMerge(Get(first, e.key).entries, e.val.entries))
        else e.val;
      MapMergeKeepsUniqueKeys(Put(first, e.key, merged), second[1..]);
    }
  }

  /** Under a key both arrays hold an array, `mapMerge` merges the two recursively. */
  predicate MergesRecursively(first: seq<Entry>, second: seq<Entry>, k: string) {
    Get(second, k).Arr? && IsSet(first, k) && Get(first, k).Arr?
  }

  /**
   * The value a merge leaves under a key of the second array: the
   * recursive merge of the two arrays when both hold one there, the
   * second array's value otherwise.
   */
  lemma {:induction false} MapMergeFind(first: seq<Entry>, second: seq<Entry>, k: string)
    requires UniqueKeys(second)
    requires HasKey(second, k)
    ensures MergesRecursively(first, second, k) ==>
      Find(MapMerge(first, second), k) == Some(Arr(MapMerge(Get(first, k).entries, Get(second, k).entries)))
    ensures !MergesRecursively(first, second, k) ==> Find(MapMerge(first, second), k) == Find(second, k)
    decreases second
  {
    var e := second[0];
    var merged :=
      if e.val.Arr? && IsSet(first, e.key) && Get(first, e.key).Arr? then
        Arr(MapMerge(Get(first, e.key).entries, e.val.entries))
      else e.val;
    var next := Put(first, e.key, merged);
    if e.key != k {
      assert Get(next, k) == Get(first, k) && Find(second, k) == Find(second[1..], k);
      MapMergeFind(next, second[1..], k);
    }
  }
}
