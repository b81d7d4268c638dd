/** `validateArrayProperties` of src/utils/handlers/propertyValidation.ts: an array passes when
    no element is null, undefined or false and no object element has such an own value. Only
    that one level is inspected. */
module PropertyValidation {
  import opened JsValue

  /** `value === null || value === undefined || value === false`. Other falsy values
      (0, "") are not missing. */
  predicate IsMissing(v: Value) {
    v.Null? || v.Undefined? || v == Bool(false)
  }

  /** `Object.values(item)` for an item whose `typeof` is "object": an array's elements or an
      object's own property values, in order. */
  function OwnValues(item: Value): (vs: seq<Value>)
    requires item.Arr? || item.Obj?
    ensures item.Arr? ==> vs == item.items
    ensures item.Obj? ==> |vs| == |item.entries| && forall i :: 0 <= i < |vs| ==> vs[i] == item.entries[i].1
  {
    if item.Arr? then item.items
    else seq(|item.entries|, i requires 0 <= i < |item.entries| => item.entries[i].1)
  }

  /** `values.some((value) => value === null || ...)`. */
  function AnyMissing(values: seq<Value>): (r: bool)
    ensures r <==> exists i :: 0 <= i < |values| && IsMissing(values[i])
    decreases |values|
  {
    if values == [] then false
    else IsMissing(values[0]) || AnyMissing(values[1..])
  }

  /** The callback given to `array.some`: the element itself is missing, or it is an object
      with a missing own value. */
  predicate ItemFails(item: Value) {
    IsMissing(item) || ((item.Arr? || item.Obj?) && AnyMissing(OwnValues(item)))
  }

  /** `array.some(...)` over the elements. */
  function AnyItemFails(items: seq<Value>): (r: bool)
    ensures r <==> exists i :: 0 <= i < |items| && ItemFails(items[i])
    decreases |items|
  {
    if items == [] then false
    else ItemFails(items[0]) || AnyItemFails(items[1..])
  }

  /** An element with no missing value of its own, nor among its own values when it is an object. */
  ghost predicate ItemValid(item: Value) {
    !IsMissing(item)
    && (item.Arr? ==> forall j :: 0 <= j < |item.items| ==> !IsMissing(item.items[j]))
    && (item.Obj? ==> forall j :: 0 <= j < |item.entries| ==> !IsMissing(item.entries[j].1))
  }

  function ValidateArrayProperties(arg: Value): (ok: bool)
    ensures !arg.Arr? ==> !ok
    ensures arg.Arr? ==> (ok <==> forall i :: 0 <= i < |arg.items| ==> ItemValid(arg.items[i]))
  {
    if !arg.Arr? then false
    else
      var ok := !AnyItemFails(arg.items);
      assert forall i :: 0 <= i < |arg.items| ==> (ItemFails(arg.items[i]) <==> !ItemValid(arg.items[i]));
      ok
  }

  /** The empty array passes. */
  lemma EmptyArrayPasses()
    ensures ValidateArrayProperties(Arr([]))
  {
  }

  /** Only one level is inspected: an element whose own values are all arrays or objects passes,
      whatever those contain. */
  lemma NestedValuesAreNotInspected(items: seq<Value>)
    requires forall i :: 0 <= i < |items| ==> items[i].Arr? || items[i].Obj?
    requires forall i, j :: 0 <= i < |items| && 0 <= j < |OwnValues(items[i])| ==>
               OwnValues(items[i])[j].Arr? || OwnValues(items[i])[j].Obj?
    ensures ValidateArrayProperties(Arr(items))
  {
    forall i | 0 <= i < |items| ensures ItemValid(items[i]) {
      var vs := OwnValues(items[i]);
      assert forall j :: 0 <= j < |vs| ==> !IsMissing(vs[j]);
    }
  }

  /** An array of arrays holding a null deep inside still passes. */
  lemma DeepNullPasses()
    ensures ValidateArrayProperties(Arr([Arr([Arr([Null])])]))
  {
    NestedValuesAreNotInspected([Arr([Arr([Null])])]);
  }

  /** The falsy primitives 0 and "" are not missing, directly or as an object's own values. */
  lemma ZeroAndEmptyStringPass()
    ensures ValidateArrayProperties(Arr([Num(0), Str(""), Obj([("count", Num(0)), ("label", Str(""))])]))
  {
  }

  /** One missing element, or one missing own value of an object element, fails the whole array. */
  lemma OneMissingValueFails(items: seq<Value>, i: nat, key: string, v: Value)
    requires i < |items| && IsMissing(v)
    ensures !ValidateArrayProperties(Arr(items[i := v]))
    ensures !ValidateArrayProperties(Arr(items[i := Obj([(key, v)])]))
  {
    assert !ItemValid(items[i := v][i]);
    assert !ItemValid(items[i := Obj([(key, v)])][i]) by {
      assert Obj([(key, v)]).entries[0].1 == v;
    }
  }
}
