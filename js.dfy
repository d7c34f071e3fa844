/**
 * JavaScript values as the task code sees them: JSON request bodies, the
 * attributes of a stored item, and the truthiness that `||` and `if (x)` test.
 */
module Js {

  /**
   * A JavaScript value. `Instant(ms)` is the ISO-8601 string that
   * `new Date().toISOString()` yields at clock reading `ms`; `DateObj(iso)` is a
   * `Date` object whose `toISOString()` is `iso`. Numbers are modelled as integers.
   */
  datatype Value =
    | Undefined
    | Null
    | Bool(b: bool)
    | Num(n: int)
    | Str(s: string)
    | Instant(ms: nat)
    | DateObj(iso: string)
    | Arr(elems: seq<Value>)
    | Obj(props: seq<Prop>)

  /** One own property of an object, in insertion order. */
  datatype Prop = Prop(key: string, val: Value)

  /** The values JavaScript treats as false in a condition. */
  predicate Falsy(v: Value)
  {
    v == Undefined || v == Null || v == Bool(false) || v == Num(0) || v == Str("")
  }

  /** `v || d`. */
  function Or(v: Value, d: Value): (r: Value)
    ensures !Falsy(v) ==> r == v
    ensures Falsy(v) ==> r == d
  {
    if Falsy(v) then d else v
  }

  predicate HasKey(props: seq<Prop>, key: string)
  {
    exists i :: 0 <= i < |props| && props[i].key == key
  }

  /** `Object.keys`. */
  function Keys(props: seq<Prop>): (ks: seq<string>)
    ensures |ks| == |props|
    ensures forall i :: 0 <= i < |props| ==> ks[i] == props[i].key
  {
    if props == [] then [] else [props[0].key] + Keys(props[1..])
  }

  /** Property access `o[key]`: the last property with that key, or `undefined`. */
  function Get(props: seq<Prop>, key: string): (v: Value)
    ensures !HasKey(props, key) ==> v == Undefined
  {
    if props == [] then Undefined
    else if props[|props| - 1].key == key then props[|props| - 1].val
    else Get(props[..|props| - 1], key)
  }

  /**
   * A value as a JSON text carries it: `JSON.stringify` writes a `Date` as
   * its `toISOString()`, and everything else keeps its shape.
   */
  function Json(v: Value): Value
  {
    match v
    case DateObj(iso) => Str(iso)
    case Arr(es) => Arr(seq(|es|, i requires 0 <= i < |es| => Json(es[i])))
    case Obj(ps) => Obj(seq(|ps|, i requires 0 <= i < |ps| => Prop(ps[i].key, Json(ps[i].val))))
    case _ => v
  }

  /** A stored item: attribute name to value. */
  type Item = map<string, Value>

  /** Attribute access on an item; a missing attribute reads as `undefined`. */
  function Lookup(item: Item, key: string): Value
  {
    if key in item then item[key] else Undefined
  }

  /**
   * The properties as a map, later properties overriding earlier ones, as
   * object spread and successive assignments do.
   */
  function ToMap(props: seq<Prop>): (m: Item)
    ensures forall k :: k in m <==> HasKey(props, k)
  {
    if props == [] then map[]
    else
      var init := props[..|props| - 1];
      var m := ToMap(init)[props[|props| - 1].key := props[|props| - 1].val];
      assert forall k :: HasKey(props, k) <==> HasKey(init, k) || props[|props| - 1].key == k by {
        forall k ensures HasKey(props, k) ==> HasKey(init, k) || props[|props| - 1].key == k {
          if HasKey(props, k) {
            var i :| 0 <= i < |props| && props[i].key == k;
            if i < |props| - 1 { assert init[i] == props[i]; }
          }
        }
        forall k ensures HasKey(init, k) ==> HasKey(props, k) {
          if HasKey(init, k) {
            var i :| 0 <= i < |init| && init[i].key == k;
            assert props[i] == init[i];
          }
        }
      }
      m
  }

  /** The map view and property access agree on every key. */
  lemma {:induction false} ToMapGet(props: seq<Prop>, key: string)
    requires HasKey(props, key)
    ensures ToMap(props)[key] == Get(props, key)
  {
    var init := props[..|props| - 1];
    if props[|props| - 1].key != key {
      var i :| 0 <= i < |props| && props[i].key == key;
      assert init[i] == props[i];
      ToMapGet(init, key);
    }
  }

  /** Attribute access on the map view is property access on the object. */
  lemma LookupToMap(props: seq<Prop>, key: string)
    ensures Lookup(ToMap(props), key) == Get(props, key)
  {
    if HasKey(props, key) {
      ToMapGet(props, key);
    }
  }
}
