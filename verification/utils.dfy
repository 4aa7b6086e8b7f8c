/** `Utils.sizeOf` of lib/utils.mjs: a rough byte count of a value, 8 per
    number, 4 per boolean and 2 per UTF-16 unit of text. */
module Utils {
  import opened JsValues

  /** Whether `Object.prototype.toString` reports a plain object or an array. */
  predicate IsContainerTag(tag: string) {
    tag == "Object" || tag == "Array"
  }

  /** `sizeOf(obj)` as written: the loop over an object's or array's own
      properties calls `sizeOf` on each value and drops the result, so every
      container counts 0. */
  function SizeOf(v: JsValue): (r: nat)
    ensures IsNullish(v) ==> r == 0
    ensures v.Num? || v.NonFinite? ==> r == 8
    ensures v.Bool? ==> r == 4
    ensures v.Str? ==> r == 2 * |v.s|
    ensures v.Arr? || v.Obj? ==> r == 0
    ensures v.Instance? ==> r == if IsContainerTag(v.tag) then 0 else 2 * |v.text|
  {
    match v
    case Undefined => 0
    case Null => 0
    case Num(_) => 8
    case NonFinite => 8
    case Str(s) => 2 * |s|
    case Bool(_) => 4
    case Arr(_) => 0
    case Obj(_) => 0
    case Instance(tag, text) => if IsContainerTag(tag) then 0 else 2 * |text|
    case Opaque => 0
  }

  /** `sizeOf` with each property's size added to the total. Only plain
      objects and arrays have contents; any other object, a `Date` or a
      `Map` say, weighs its `toString()` text as in `SizeOf`. */
  function SizeOfDeep(v: JsValue): (r: nat)
    decreases v, 1
  {
    match v
    case Arr(items) => SumItems(v, items)
    case Obj(fields) => SumFields(v, fields)
    case _ => SizeOf(v)
  }

  function SumItems(ghost parent: JsValue, items: seq<JsValue>): (r: nat)
    requires forall x :: x in items ==> x < parent
    decreases parent, 0, |items|
  {
    if |items| == 0 then 0
    else
      assert items[0] in items;
      assert forall x :: x in items[1..] ==> x in items;
      SizeOfDeep(items[0]) + SumItems(parent, items[1..])
  }

  function SumFields(ghost parent: JsValue, fields: seq<(string, JsValue)>): (r: nat)
    requires forall i :: 0 <= i < |fields| ==> fields[i].1 < parent
    decreases parent, 0, |fields|
  {
    if |fields| == 0 then 0
    else
      assert forall i :: 0 <= i < |fields| - 1 ==> fields[1..][i] == fields[i + 1];
      SizeOfDeep(fields[0].1) + SumFields(parent, fields[1..])
  }

  /** The two agree on everything but objects and arrays, where the code as
      written stops at 0; an element never weighs more than its container. */
  lemma SizeOfBelowDeep(v: JsValue)
    ensures SizeOf(v) <= SizeOfDeep(v)
    ensures !v.Arr? && !v.Obj? ==> SizeOf(v) == SizeOfDeep(v)
  {
  }

  /** Each element of an array counts towards the array's size. */
  lemma {:induction false} ItemBelowArray(items: seq<JsValue>, i: nat)
    requires i < |items|
    ensures SizeOfDeep(items[i]) <= SizeOfDeep(Arr(items))
  {
    SumItemsBound(Arr(items), items, i);
  }

  lemma {:induction false} SumItemsBound(parent: JsValue, items: seq<JsValue>, i: nat)
    requires forall x :: x in items ==> x < parent
    requires i < |items|
    ensures SizeOfDeep(items[i]) <= SumItems(parent, items)
    decreases i
  {
    assert items[0] in items;
    assert forall x :: x in items[1..] ==> x in items;
    if i > 0 {
      SumItemsBound(parent, items[1..], i - 1);
    }
  }

  /** An array of two numbers: the code as written gives 0, the intended
      count is 16. */
  lemma ArrayOfNumbers()
    ensures SizeOf(Arr([Num(1.0), Num(2.0)])) == 0
    ensures SizeOfDeep(Arr([Num(1.0), Num(2.0)])) == 16
  {
    var items := [Num(1.0), Num(2.0)];
    assert items[1..][1..] == [];
  }
}
