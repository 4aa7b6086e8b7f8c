/** The WHERE-clause builder of lib/pg-filter.mjs. Each `add*` call appends
    one parenthesised condition and the values its `$k` placeholders stand
    for. Besides the condition texts the object keeps, as ghost state, each
    condition's structure: literal text and numbered placeholders. The
    invariant is that the placeholders, read across the conditions in order,
    are exactly $1, $2, ..., one per replacement. */
module PgFilters {
  import Text
  import opened Wrappers
  import opened JsValues

  /** A piece of a condition: literal SQL text or a placeholder `$index`. */
  datatype Piece = Lit(text: string) | Param(index: nat)

  /** The text of placeholder `k`: "$" and the decimal number. */
  function Placeholder(k: nat): (r: string)
    ensures |r| >= 2 && r[0] == '$'
  {
    "$" + Text.NatToString(k)
  }

  function PieceText(p: Piece): string {
    match p
    case Lit(t) => t
    case Param(k) => Placeholder(k)
  }

  function Render(ps: seq<Piece>): string {
    if |ps| == 0 then "" else PieceText(ps[0]) + Render(ps[1..])
  }

  function PieceParams(p: Piece): seq<nat> {
    match p
    case Lit(_) => []
    case Param(k) => [k]
  }

  /** The placeholder numbers of a condition, in order. */
  function ParamsOf(ps: seq<Piece>): seq<nat> {
    if |ps| == 0 then [] else PieceParams(ps[0]) + ParamsOf(ps[1..])
  }

  /** The placeholder numbers of all conditions, in push order. */
  function AllParams(shape: seq<seq<Piece>>): seq<nat> {
    if |shape| == 0 then [] else AllParams(shape[..|shape| - 1]) + ParamsOf(shape[|shape| - 1])
  }

  /** first, first + 1, ..., first + count - 1 */
  function Numbered(first: nat, count: nat): (r: seq<nat>)
    ensures |r| == count && forall i :: 0 <= i < count ==> r[i] == first + i
  {
    seq(count, i requires 0 <= i < count => first + i)
  }

  /** `$first,$first+1,...`: the list inside `in (...)`. */
  function ParamList(first: nat, count: nat): seq<Piece>
    decreases count
  {
    if count == 0 then []
    else if count == 1 then [Param(first)]
    else [Param(first), Lit(",")] + ParamList(first + 1, count - 1)
  }

  predicate Wrapped(s: string) {
    |s| >= 2 && s[0] == '(' && s[|s| - 1] == ')'
  }

  lemma RenderAppend(a: seq<Piece>, b: seq<Piece>)
    ensures Render(a + b) == Render(a) + Render(b)
    ensures ParamsOf(a + b) == ParamsOf(a) + ParamsOf(b)
  {
    TextAppend(a, b);
    ParamsAppend(a, b);
  }

  lemma {:induction false} TextAppend(a: seq<Piece>, b: seq<Piece>)
    ensures Render(a + b) == Render(a) + Render(b)
  {
    if |a| > 0 {
      assert (a + b)[0] == a[0] && (a + b)[1..] == a[1..] + b;
      TextAppend(a[1..], b);
      var h := PieceText(a[0]);
      assert Render(a + b) == h + (Render(a[1..]) + Render(b));
      assert h + (Render(a[1..]) + Render(b)) == (h + Render(a[1..])) + Render(b);
    } else {
      assert a + b == b;
    }
  }

  lemma {:induction false} ParamsAppend(a: seq<Piece>, b: seq<Piece>)
    ensures ParamsOf(a + b) == ParamsOf(a) + ParamsOf(b)
  {
    if |a| > 0 {
      assert (a + b)[0] == a[0] && (a + b)[1..] == a[1..] + b;
      ParamsAppend(a[1..], b);
      var h := PieceParams(a[0]);
      assert ParamsOf(a + b) == h + (ParamsOf(a[1..]) + ParamsOf(b));
      assert h + (ParamsOf(a[1..]) + ParamsOf(b)) == (h + ParamsOf(a[1..])) + ParamsOf(b);
    } else {
      assert a + b == b;
    }
  }

  lemma AllParamsAppend(shape: seq<seq<Piece>>, ps: seq<Piece>)
    ensures AllParams(shape + [ps]) == AllParams(shape) + ParamsOf(ps)
  {
    assert (shape + [ps])[..|shape|] == shape;
  }

  /** The placeholders of `in (...)` are numbered consecutively. */
  lemma {:induction false} ParamListNumbers(first: nat, count: nat)
    decreases count
    ensures ParamsOf(ParamList(first, count)) == Numbered(first, count)
  {
    if count == 1 {
      assert ParamsOf([Param(first)]) == [first] + ParamsOf([]);
    } else if count > 1 {
      var rest := ParamList(first + 1, count - 1);
      assert ParamList(first, count) == [Param(first), Lit(",")] + rest;
      ParamListNumbers(first + 1, count - 1);
      RenderAppend([Param(first), Lit(",")], rest);
      CommaAfterParam(first);
      NumberedCons(first, count);
    }
  }

  lemma CommaAfterParam(k: nat)
    ensures ParamsOf([Param(k), Lit(",")]) == [k]
    ensures Render([Param(k), Lit(",")]) == Placeholder(k) + ","
  {
    assert [Param(k), Lit(",")][1..] == [Lit(",")];
    RenderLit(",");
  }

  lemma NumberedCons(first: nat, count: nat)
    requires count > 0
    ensures [first] + Numbered(first + 1, count - 1) == Numbered(first, count)
  {
    var r := [first] + Numbered(first + 1, count - 1);
    assert forall i :: 0 <= i < count ==> r[i] == first + i;
  }

  /** `$first`, `$first+1`, ... as texts. */
  function PlaceholderTexts(first: nat, count: nat): (r: seq<string>)
    ensures |r| == count && forall j :: 0 <= j < count ==> r[j] == Placeholder(first + j)
  {
    seq(count, j requires 0 <= j < count => Placeholder(first + j))
  }

  lemma PlaceholderTextsTail(first: nat, count: nat)
    requires count > 1
    ensures Text.Join(PlaceholderTexts(first, count), ",")
            == Placeholder(first) + "," + Text.Join(PlaceholderTexts(first + 1, count - 1), ",")
  {
    var parts := PlaceholderTexts(first, count);
    assert parts[1..] == PlaceholderTexts(first + 1, count - 1);
  }

  /** The list inside `in (...)` renders as the placeholder texts joined by commas. */
  lemma {:induction false} ParamListText(first: nat, count: nat)
    decreases count
    ensures Render(ParamList(first, count)) == Text.Join(PlaceholderTexts(first, count), ",")
  {
    if count == 1 {
      assert Render([Param(first)]) == Placeholder(first) + Render([]);
    } else if count > 1 {
      var rest := ParamList(first + 1, count - 1);
      assert ParamList(first, count) == [Param(first), Lit(",")] + rest;
      ParamListText(first + 1, count - 1);
      RenderAppend([Param(first), Lit(",")], rest);
      CommaAfterParam(first);
      PlaceholderTextsTail(first, count);
    }
  }

  /** The condition of `addIn`/`addNotIn`: `before`, the numbered list, "))". */
  lemma ListCondition(before: string, first: nat, count: nat)
    requires |before| > 0 && before[0] == '(' && count > 0
    ensures var ps := [Lit(before)] + ParamList(first, count) + [Lit("))")];
      && Render(ps) == before + Text.Join(PlaceholderTexts(first, count), ",") + "))"
      && ParamsOf(ps) == Numbered(first, count)
      && Wrapped(Render(ps))
  {
    var list := ParamList(first, count);
    var j := Text.Join(PlaceholderTexts(first, count), ",");
    var head := [Lit(before)] + list;
    ParamListNumbers(first, count);
    ParamListText(first, count);
    RenderLit(before);
    RenderLit("))");
    assert Render(head) == before + j && ParamsOf(head) == Numbered(first, count) by {
      RenderAppend([Lit(before)], list);
    }
    assert Render(head + [Lit("))")]) == (before + j) + "))" && ParamsOf(head + [Lit("))")]) == Numbered(first, count) by {
      RenderAppend(head, [Lit("))")]);
    }
    ParensWrap(before, j + ")");
    assert before + (j + ")") + ")" == (before + j) + "))";
  }

  /** Text opened by `before` and closed by ")" is wrapped in parentheses. */
  lemma ParensWrap(before: string, middle: string)
    requires |before| > 0 && before[0] == '('
    ensures Wrapped(before + middle + ")")
  {
    var t := before + middle + ")";
    assert t[0] == before[0];
  }

  /** A condition with a single placeholder between two literals. */
  lemma OneParam(before: string, k: nat, after: string)
    ensures Render([Lit(before), Param(k), Lit(after)]) == before + Placeholder(k) + after
    ensures ParamsOf([Lit(before), Param(k), Lit(after)]) == [k]
  {
    var ps := [Lit(before), Param(k), Lit(after)];
    assert ps[1..] == [Param(k), Lit(after)];
    assert ps[1..][1..] == [Lit(after)];
    RenderLit(after);
    assert Render(ps[1..]) == Placeholder(k) + after;
    assert ParamsOf(ps[1..]) == [k] + ParamsOf([Lit(after)]);
  }

  lemma NumberedAppend(first: nat, a: nat, b: nat)
    ensures Numbered(first, a) + Numbered(first + a, b) == Numbered(first, a + b)
  {
    var r := Numbered(first, a) + Numbered(first + a, b);
    assert forall i :: 0 <= i < a + b ==> r[i] == first + i;
  }

  lemma RenderLit(t: string)
    ensures Render([Lit(t)]) == t && ParamsOf([Lit(t)]) == []
  {
    assert [Lit(t)][1..] == [];
  }

  /** Each condition text renders its structure and is parenthesised, and
      the placeholders across the conditions are $1, $2, ..., one per replacement. */
  ghost predicate Numbering(conditions: seq<string>, replacements: seq<JsValue>, shape: seq<seq<Piece>>) {
    && |shape| == |conditions|
    && (forall i :: 0 <= i < |conditions| ==> conditions[i] == Render(shape[i]) && Wrapped(conditions[i]))
    && AllParams(shape) == Numbered(1, |replacements|)
  }

  /** Appending a parenthesised condition whose placeholders continue the numbering keeps it. */
  lemma PushKeepsNumbering(conditions: seq<string>, replacements: seq<JsValue>, shape: seq<seq<Piece>>, ps: seq<Piece>, values: seq<JsValue>)
    requires Numbering(conditions, replacements, shape) && Wrapped(Render(ps))
    requires ParamsOf(ps) == Numbered(|replacements| + 1, |values|)
    ensures Numbering(conditions + [Render(ps)], replacements + values, shape + [ps])
  {
    AllParamsAppend(shape, ps);
    NumberedAppend(1, |replacements|, |values|);
    var texts, pieces := conditions + [Render(ps)], shape + [ps];
    forall i | 0 <= i < |texts| ensures texts[i] == Render(pieces[i]) && Wrapped(texts[i]) {
      if i < |conditions| {
        assert texts[i] == conditions[i] && pieces[i] == shape[i];
      }
    }
  }

  /** The condition `before$k)`. */
  lemma OneParamCondition(before: string, k: nat)
    requires |before| > 0 && before[0] == '('
    ensures Render([Lit(before), Param(k), Lit(")")]) == before + Placeholder(k) + ")"
    ensures ParamsOf([Lit(before), Param(k), Lit(")")]) == Numbered(k, 1)
    ensures Wrapped(before + Placeholder(k) + ")")
  {
    OneParam(before, k, ")");
    ParensWrap(before, Placeholder(k));
    assert Numbered(k, 1) == [k];
  }

  class PgFilter {
    /** `__conditions` */
    var conditions: seq<string>
    var replacements: seq<JsValue>
    /** The structure of each condition. */
    ghost var shape: seq<seq<Piece>>

    ghost predicate Valid()
      reads this
    {
      Numbering(conditions, replacements, shape)
    }

    constructor ()
      ensures Valid() && conditions == [] && replacements == []
    {
      conditions, replacements, shape := [], [], [];
    }

    /** Appends `ps`, whose placeholders continue the numbering over `values`. */
    method Push(ps: seq<Piece>, values: seq<JsValue>)
      requires Valid() && Wrapped(Render(ps))
      requires ParamsOf(ps) == Numbered(|replacements| + 1, |values|)
      modifies this
      ensures Valid()
      ensures conditions == old(conditions) + [Render(ps)] && replacements == old(replacements) + values
    {
      PushKeepsNumbering(conditions, replacements, shape, ps, values);
      conditions, replacements, shape := conditions + [Render(ps)], replacements + values, shape + [ps];
    }

    /** Appends `before`, the next placeholder and ")", with `value` as its replacement. */
    method PushOne(before: string, value: JsValue)
      requires Valid() && |before| > 0 && before[0] == '('
      modifies this
      ensures Valid()
      ensures conditions == old(conditions) + [before + Placeholder(|old(replacements)| + 1) + ")"]
      ensures replacements == old(replacements) + [value]
    {
      var k := |replacements| + 1;
      OneParamCondition(before, k);
      Push([Lit(before), Param(k), Lit(")")], [value]);
    }

    method AddCondition(condition: string)
      requires Valid()
      modifies this
      ensures Valid()
      ensures conditions == old(conditions) + ["(" + condition + ")"] && replacements == old(replacements)
    {
      RenderLit("(" + condition + ")");
      Push([Lit("(" + condition + ")")], []);
    }

    method AddEqual(field: string, value: JsValue)
      requires Valid()
      modifies this
      ensures Valid()
      ensures !IsNullish(value) ==>
        conditions == old(conditions) + ["(" + field + "=" + Placeholder(|old(replacements)| + 1) + ")"]
        && replacements == old(replacements) + [value]
      ensures IsNullish(value) ==>
        conditions == old(conditions) + ["(" + field + " is null)"] && replacements == old(replacements)
    {
      if !IsNullish(value) {
        PushOne("(" + field + "=", value);
      } else {
        RenderLit("(" + field + " is null)");
        Push([Lit("(" + field + " is null)")], []);
      }
    }

    method AddNotEqual(field: string, value: JsValue)
      requires Valid()
      modifies this
      ensures Valid()
      ensures !IsNullish(value) ==>
        conditions == old(conditions) + ["(" + field + "<>" + Placeholder(|old(replacements)| + 1) + ")"]
        && replacements == old(replacements) + [value]
      ensures IsNullish(value) ==>
        conditions == old(conditions) + ["(" + field + " is not null)"] && replacements == old(replacements)
    {
      if !IsNullish(value) {
        PushOne("(" + field + "<>", value);
      } else {
        RenderLit("(" + field + " is not null)");
        Push([Lit("(" + field + " is not null)")], []);
      }
    }

    method AddGreaterThan(field: string, value: JsValue, orEqual: bool)
      requires Valid()
      modifies this
      ensures Valid()
      ensures conditions == old(conditions) + ["(" + field + (if orEqual then ">=" else ">") + Placeholder(|old(replacements)| + 1) + ")"]
      ensures replacements == old(replacements) + [value]
    {
      var operation := if orEqual then ">=" else ">";
      PushOne("(" + field + operation, value);
    }

    method AddLessThan(field: string, value: JsValue, orEqual: bool)
      requires Valid()
      modifies this
      ensures Valid()
      ensures conditions == old(conditions) + ["(" + field + (if orEqual then "<=" else "<") + Placeholder(|old(replacements)| + 1) + ")"]
      ensures replacements == old(replacements) + [value]
    {
      var operation := if orEqual then "<=" else "<";
      PushOne("(" + field + operation, value);
    }

    /** The shared body of `addIn` and `addNotIn`; `op` is " in (" or " not in (". */
    method AddList(field: string, op: string, values: seq<JsValue>)
      requires Valid()
      modifies this
      ensures Valid()
      ensures |values| == 0 ==> conditions == old(conditions) && replacements == old(replacements)
      ensures |values| > 0 ==>
        conditions == old(conditions) + ["(" + field + op
          + Text.Join(PlaceholderTexts(|old(replacements)| + 1, |values|), ",") + "))"]
        && replacements == old(replacements) + values
    {
      if |values| > 0 {
        var first := |replacements| + 1;
        var indexes: seq<string> := [];
        var pushed: seq<JsValue> := [];
        for i := 0 to |values|
          invariant indexes == PlaceholderTexts(first, i)
          invariant pushed == values[..i]
        {
          indexes := indexes + [Placeholder(first + i)];
          pushed := pushed + [values[i]];
        }
        assert pushed == values;
        var ps := [Lit("(" + field + op)] + ParamList(first, |values|) + [Lit("))")];
        ListCondition("(" + field + op, first, |values|);
        assert Render(ps) == "(" + field + op + Text.Join(indexes, ",") + "))";
        Push(ps, pushed);
      }
    }

    method AddIn(field: string, values: seq<JsValue>)
      requires Valid()
      modifies this
      ensures Valid()
      ensures |values| == 0 ==> conditions == old(conditions) && replacements == old(replacements)
      ensures |values| > 0 ==>
        conditions == old(conditions) + ["(" + field + " in ("
          + Text.Join(PlaceholderTexts(|old(replacements)| + 1, |values|), ",") + "))"]
        && replacements == old(replacements) + values
    {
      AddList(field, " in (", values);
    }

    method AddNotIn(field: string, values: seq<JsValue>)
      requires Valid()
      modifies this
      ensures Valid()
      ensures |values| == 0 ==> conditions == old(conditions) && replacements == old(replacements)
      ensures |values| > 0 ==>
        conditions == old(conditions) + ["(" + field + " not in ("
          + Text.Join(PlaceholderTexts(|old(replacements)| + 1, |values|), ",") + "))"]
        && replacements == old(replacements) + values
    {
      AddList(field, " not in (", values);
    }

    /** The shared body of the three string-search adders: `pattern` is the
        search value with its `%` wildcards. */
    method AddLike(field: string, pattern: string)
      requires Valid()
      modifies this
      ensures Valid()
      ensures conditions == old(conditions) + ["(" + field + " iLike " + Placeholder(|old(replacements)| + 1) + ")"]
      ensures replacements == old(replacements) + [Str(pattern)]
    {
      PushOne("(" + field + " iLike ", Str(pattern));
    }

    /** `value` is `None` for null or undefined. */
    method AddSearchInString(field: string, value: Option<string>)
      requires Valid()
      modifies this
      ensures Valid()
      ensures value.None? ==> conditions == old(conditions) && replacements == old(replacements)
      ensures value.Some? ==>
        conditions == old(conditions) + ["(" + field + " iLike " + Placeholder(|old(replacements)| + 1) + ")"]
        && replacements == old(replacements) + [Str("%" + value.value + "%")]
    {
      if value.Some? {
        AddLike(field, "%" + value.value + "%");
      }
    }

    method AddStartsWithString(field: string, value: Option<string>)
      requires Valid()
      modifies this
      ensures Valid()
      ensures value.None? ==> conditions == old(conditions) && replacements == old(replacements)
      ensures value.Some? ==>
        conditions == old(conditions) + ["(" + field + " iLike " + Placeholder(|old(replacements)| + 1) + ")"]
        && replacements == old(replacements) + [Str(value.value + "%")]
    {
      if value.Some? {
        AddLike(field, value.value + "%");
      }
    }

    method AddEndWithString(field: string, value: Option<string>)
      requires Valid()
      modifies this
      ensures Valid()
      ensures value.None? ==> conditions == old(conditions) && replacements == old(replacements)
      ensures value.Some? ==>
        conditions == old(conditions) + ["(" + field + " iLike " + Placeholder(|old(replacements)| + 1) + ")"]
        && replacements == old(replacements) + [Str("%" + value.value)]
    {
      if value.Some? {
        AddLike(field, "%" + value.value);
      }
    }

    /** `getWhere(addWhere)`: "" without conditions, otherwise the conditions
        joined by " AND ", after "WHERE " when `addWhere`. */
    function GetWhere(addWhere: bool): (r: string)
      reads this
      requires Valid()
      ensures |conditions| == 0 <==> r == ""
      ensures |conditions| > 0 ==> r == (if addWhere then "WHERE " else "") + Text.Join(conditions, " AND ")
      ensures |conditions| == 1 && !addWhere ==> r == conditions[0]
    {
      Joined(addWhere, " AND ")
    }

    /** `getWhereUsingOR(addWhere)`: the same with " OR ". */
    function GetWhereUsingOR(addWhere: bool): (r: string)
      reads this
      requires Valid()
      ensures |conditions| == 0 <==> r == ""
      ensures |conditions| > 0 ==> r == (if addWhere then "WHERE " else "") + Text.Join(conditions, " OR ")
      ensures |conditions| == 1 ==> GetWhere(addWhere) == r
    {
      Joined(addWhere, " OR ")
    }

    function Joined(addWhere: bool, sep: string): (r: string)
      reads this
      requires Valid()
      ensures |conditions| == 0 <==> r == ""
    {
      if |conditions| > 0 then
        JoinNonEmpty(conditions, sep);
        (if addWhere then "WHERE " else "") + Text.Join(conditions, sep)
      else ""
    }
  }

  /** Joining wrapped conditions gives a non-empty text. */
  lemma JoinNonEmpty(conditions: seq<string>, sep: string)
    requires |conditions| > 0 && forall i :: 0 <= i < |conditions| ==> Wrapped(conditions[i])
    ensures Text.Join(conditions, sep) != ""
  {
    if |conditions| > 1 {
      assert Text.Join(conditions, sep) == conditions[0] + sep + Text.Join(conditions[1..], sep);
      assert |conditions[0]| >= 2;
    }
  }

  /** After any sequence of additions the placeholders number the
      replacements from one: the k-th placeholder written stands for the
      k-th replacement. */
  lemma PlaceholdersNumberReplacements(f: PgFilter, k: nat)
    requires f.Valid() && k < |f.replacements|
    ensures |AllParams(f.shape)| == |f.replacements| && AllParams(f.shape)[k] == k + 1
  {
  }
}
