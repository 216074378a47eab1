/**
 * The part of a JSON value (serde_json's `Value`) that result navigation looks at.
 * Booleans and numbers carry no structure the client inspects; numbers are kept as
 * integers only.
 */
module Json {
  import opened Wrappers

  datatype Value =
    | Null
    | Bool(b: bool)
    | Num(n: int)
    | Str(s: string)
    | Arr(items: seq<Value>)
    | Obj(fields: map<string, Value>)

  /** `value.as_array()`: the elements when the value is an array. */
  function AsArray(v: Value): (r: Option<seq<Value>>)
    ensures r.Some? <==> v.Arr?
    ensures r.Some? ==> v == Arr(r.value)
  {
    match v
    case Arr(items) => Some(items)
    case _ => None
  }

  /** `value.get(key)` with a string key: the field of an object, nothing for any other value. */
  function Get(v: Value, key: string): (r: Option<Value>)
    ensures r.Some? <==> v.Obj? && key in v.fields
    ensures r.Some? ==> r.value == v.fields[key]
  {
    if v.Obj? && key in v.fields then Some(v.fields[key]) else None
  }

  /** `value.get(n)` with an index: the element of an array, nothing for any other value. */
  function At(v: Value, n: nat): (r: Option<Value>)
    ensures r.Some? <==> v.Arr? && n < |v.items|
    ensures r.Some? ==> r.value == v.items[n]
  {
    if v.Arr? && n < |v.items| then Some(v.items[n]) else None
  }

  /** One step of a path into a JSON document. */
  datatype PathStep = Index(n: nat) | Key(k: string)

  /**
   * Reference navigation: follow a path of indices and keys, failing as soon as a
   * step does not apply. It plays the role of a JSON pointer and is the independent
   * definition that result navigation is proved against.
   */
  function Navigate(v: Value, path: seq<PathStep>): Option<Value>
    decreases |path|
  {
    if path == [] then Some(v)
    else
      var next := match path[0]
        case Index(n) => At(v, n)
        case Key(k) => Get(v, k);
      match next
      case None => None
      case Some(child) => Navigate(child, path[1..])
  }

  /** Two steps, an index then a key: the shape of every lookup of a statement's rows. */
  lemma NavigateIndexKey(v: Value, n: nat, k: string)
    ensures Navigate(v, [Index(n), Key(k)]) == match At(v, n) case None => None case Some(e) => Get(e, k)
  {
    var path := [Index(n), Key(k)];
    assert path[1..] == [Key(k)] && [Key(k)][1..] == [];
    match At(v, n)
    case None =>
    case Some(e) =>
      assert Navigate(v, path) == Navigate(e, [Key(k)]);
      match Get(e, k)
      case None =>
      case Some(w) =>
        assert Navigate(e, [Key(k)]) == Navigate(w, []);
  }
}
