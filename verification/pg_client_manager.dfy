/** The SQL text built by `insert` and `updateByKey` in
    lib/pg-client-manager.mjs. An item is its own enumerable properties in
    `for ... in` order; running a statement is the `execute` parameter,
    which returns the result rows. */
module PgClient {
  import opened Wrappers
  import opened JsValues
  import Text
  import PgFilters

  type Item = seq<(string, JsValue)>

  datatype Query = Query(sql: string, replacements: seq<JsValue>)

  /** `queryReturnFirst`: the first row, or null when there is none. */
  function ReturnFirst(rows: seq<JsValue>): (r: Option<JsValue>)
    ensures r.None? <==> rows == []
    ensures r.Some? ==> r.value == rows[0]
  {
    if |rows| > 0 then Some(rows[0]) else None
  }

  function Names(item: Item): (r: seq<string>)
    ensures |r| == |item| && forall i :: 0 <= i < |item| ==> r[i] == item[i].0
  {
    seq(|item|, i requires 0 <= i < |item| => item[i].0)
  }

  function Values(item: Item): (r: seq<JsValue>)
    ensures |r| == |item| && forall i :: 0 <= i < |item| ==> r[i] == item[i].1
  {
    seq(|item|, i requires 0 <= i < |item| => item[i].1)
  }

  /** $1, $2, ..., $n */
  function Placeholders(n: nat): (r: seq<string>)
    ensures |r| == n && forall j :: 0 <= j < n ==> r[j] == PgFilters.Placeholder(j + 1)
  {
    seq(n, j requires 0 <= j < n => PgFilters.Placeholder(j + 1))
  }

  /** The statement of `insert(item, tableName)`. */
  method InsertQuery(item: Item, tableName: string) returns (q: Query)
    ensures q.replacements == Values(item)
    ensures q.sql == "insert into " + tableName + " (" + Text.Join(Names(item), ",")
                     + ") values (" + Text.Join(Placeholders(|item|), ",") + ") returning *"
  {
    var columns: seq<string> := [];
    var values: seq<JsValue> := [];
    var indexes: seq<string> := [];
    var k := 1;
    for i := 0 to |item|
      invariant k == i + 1
      invariant |columns| == i && forall j :: 0 <= j < i ==> columns[j] == item[j].0
      invariant |values| == i && forall j :: 0 <= j < i ==> values[j] == item[j].1
      invariant |indexes| == i && forall j :: 0 <= j < i ==> indexes[j] == PgFilters.Placeholder(j + 1)
    {
      columns := columns + [item[i].0];
      values := values + [item[i].1];
      indexes := indexes + [PgFilters.Placeholder(k)];
      k := k + 1;
    }
    assert columns == Names(item) && values == Values(item) && indexes == Placeholders(|item|);
    q := Query("insert into " + tableName + " (" + Text.Join(columns, ",") + ") values (" + Text.Join(indexes, ",") + ") returning *", values);
  }

  /** `insert(item, tableName)`: runs the statement and returns the first
      returned row, or null. */
  method Insert(item: Item, tableName: string, execute: Query -> seq<JsValue>) returns (q: Query, inserted: Option<JsValue>)
    ensures q.replacements == Values(item)
    ensures q.sql == "insert into " + tableName + " (" + Text.Join(Names(item), ",")
                     + ") values (" + Text.Join(Placeholders(|item|), ",") + ") returning *"
    ensures inserted == ReturnFirst(execute(q))
  {
    q := InsertQuery(item, tableName);
    inserted := ReturnFirst(execute(q));
  }

  /** One placeholder of `updateByKey`: in the SET list, or in the WHERE list
      when `isKey`. */
  datatype Slot = Slot(name: string, isKey: bool, value: JsValue)

  /** The placeholders one property contributes: a SET slot when it is in
      `fieldsToUpdate`, then a WHERE slot when it is in `keys`. */
  function EntrySlots(p: (string, JsValue), fieldsToUpdate: seq<string>, keys: seq<string>): (r: seq<Slot>)
    ensures |r| <= 2
    ensures p.0 in fieldsToUpdate && p.0 in keys ==> r == [Slot(p.0, false, p.1), Slot(p.0, true, p.1)]
  {
    (if p.0 in fieldsToUpdate then [Slot(p.0, false, p.1)] else [])
    + (if p.0 in keys then [Slot(p.0, true, p.1)] else [])
  }

  /** All placeholders, numbered by position with one shared counter. */
  function Slots(item: Item, fieldsToUpdate: seq<string>, keys: seq<string>): seq<Slot> {
    if |item| == 0 then []
    else Slots(item[..|item| - 1], fieldsToUpdate, keys) + EntrySlots(item[|item| - 1], fieldsToUpdate, keys)
  }

  function SlotValues(slots: seq<Slot>): (r: seq<JsValue>)
    ensures |r| == |slots| && forall j :: 0 <= j < |slots| ==> r[j] == slots[j].value
  {
    seq(|slots|, j requires 0 <= j < |slots| => slots[j].value)
  }

  /** The `name=$k` texts of the SET (`isKey` false) or WHERE (`isKey` true)
      slots, where k is the slot's position plus one. */
  function Assignments(slots: seq<Slot>, isKey: bool): seq<string> {
    if |slots| == 0 then []
    else
      var last := slots[|slots| - 1];
      Assignments(slots[..|slots| - 1], isKey)
      + (if last.isKey == isKey then [last.name + "=" + PgFilters.Placeholder(|slots|)] else [])
  }

  lemma AssignmentsAppend(slots: seq<Slot>, s: Slot, isKey: bool)
    ensures Assignments(slots + [s], isKey) == Assignments(slots, isKey)
      + (if s.isKey == isKey then [s.name + "=" + PgFilters.Placeholder(|slots| + 1)] else [])
  {
    assert (slots + [s])[..|slots|] == slots;
  }

  lemma SlotValuesAppend(slots: seq<Slot>, s: Slot)
    ensures SlotValues(slots + [s]) == SlotValues(slots) + [s.value]
  {
  }

  lemma SlotsStep(item: Item, fieldsToUpdate: seq<string>, keys: seq<string>, i: nat)
    requires i < |item|
    ensures Slots(item[..i + 1], fieldsToUpdate, keys) == Slots(item[..i], fieldsToUpdate, keys) + EntrySlots(item[i], fieldsToUpdate, keys)
  {
    assert item[..i + 1][..i] == item[..i];
  }

  /** Every placeholder is in exactly one of the two lists, so the number of
      replacements is the number of placeholders. */
  lemma {:induction false} AssignmentsPartition(slots: seq<Slot>)
    ensures |Assignments(slots, false)| + |Assignments(slots, true)| == |slots|
  {
    if |slots| > 0 {
      AssignmentsPartition(slots[..|slots| - 1]);
    }
  }

  /** There is a SET list exactly when some property is in `fieldsToUpdate`. */
  lemma {:induction false} SetsEmpty(item: Item, fieldsToUpdate: seq<string>, keys: seq<string>)
    ensures Assignments(Slots(item, fieldsToUpdate, keys), false) == [] <==>
      forall i :: 0 <= i < |item| ==> item[i].0 !in fieldsToUpdate
  {
    if |item| > 0 {
      var prefix := item[..|item| - 1];
      SetsEmpty(prefix, fieldsToUpdate, keys);
      EntrySetsEmpty(Slots(prefix, fieldsToUpdate, keys), item[|item| - 1], fieldsToUpdate, keys);
      assert forall i :: 0 <= i < |prefix| ==> prefix[i] == item[i];
    }
  }

  /** The SET list stays empty over one more property exactly when that
      property is not in `fieldsToUpdate`. */
  lemma EntrySetsEmpty(slots: seq<Slot>, p: (string, JsValue), fieldsToUpdate: seq<string>, keys: seq<string>)
    ensures Assignments(slots + EntrySlots(p, fieldsToUpdate, keys), false) == [] <==>
      Assignments(slots, false) == [] && p.0 !in fieldsToUpdate
  {
    var set1 := Slot(p.0, false, p.1);
    var key1 := Slot(p.0, true, p.1);
    if p.0 in fieldsToUpdate {
      AssignmentsAppend(slots, set1, false);
      if p.0 in keys {
        AssignmentsAppend(slots + [set1], key1, false);
        assert slots + EntrySlots(p, fieldsToUpdate, keys) == slots + [set1] + [key1];
      } else {
        assert slots + EntrySlots(p, fieldsToUpdate, keys) == slots + [set1];
      }
    } else if p.0 in keys {
      AssignmentsAppend(slots, key1, false);
      assert slots + EntrySlots(p, fieldsToUpdate, keys) == slots + [key1];
    } else {
      assert slots + EntrySlots(p, fieldsToUpdate, keys) == slots;
    }
  }

  /** The statement text from the two lists. */
  function UpdateSql(tableName: string, sets: seq<string>, where: seq<string>): string {
    "update " + tableName + " SET " + Text.Join(sets, ",")
    + (if |where| > 0 then " WHERE " + Text.Join(where, " AND ") else "")
  }

  /** One push of the loop: the text `name=$k` onto the SET or WHERE list,
      with k one past the values so far, and the value onto the values. */
  method PushSlot(sets: seq<string>, where: seq<string>, values: seq<JsValue>, ghost slots: seq<Slot>, s: Slot)
    returns (sets': seq<string>, where': seq<string>, values': seq<JsValue>)
    requires sets == Assignments(slots, false) && where == Assignments(slots, true) && values == SlotValues(slots)
    ensures sets' == Assignments(slots + [s], false) && where' == Assignments(slots + [s], true)
    ensures values' == SlotValues(slots + [s])
  {
    AssignmentsAppend(slots, s, false);
    AssignmentsAppend(slots, s, true);
    SlotValuesAppend(slots, s);
    var text := s.name + "=" + PgFilters.Placeholder(|values| + 1);
    if s.isKey {
      sets', where' := sets, where + [text];
    } else {
      sets', where' := sets + [text], where;
    }
    values' := values + [s.value];
  }

  /** The loop of `updateByKey`: the SET texts, the WHERE texts and the
      values, numbered with one shared counter. */
  method CollectAssignments(item: Item, fieldsToUpdate: seq<string>, keys: seq<string>)
    returns (sets: seq<string>, where: seq<string>, values: seq<JsValue>)
    ensures var slots := Slots(item, fieldsToUpdate, keys);
      sets == Assignments(slots, false) && where == Assignments(slots, true) && values == SlotValues(slots)
  {
    sets, where, values := [], [], [];
    ghost var slots: seq<Slot> := [];
    for i := 0 to |item|
      invariant slots == Slots(item[..i], fieldsToUpdate, keys)
      invariant sets == Assignments(slots, false) && where == Assignments(slots, true) && values == SlotValues(slots)
    {
      var p := item[i];
      SlotsStep(item, fieldsToUpdate, keys, i);
      ghost var before := slots;
      if p.0 in fieldsToUpdate {
        sets, where, values := PushSlot(sets, where, values, slots, Slot(p.0, false, p.1));
        slots := slots + [Slot(p.0, false, p.1)];
      }
      if p.0 in keys {
        sets, where, values := PushSlot(sets, where, values, slots, Slot(p.0, true, p.1));
        slots := slots + [Slot(p.0, true, p.1)];
      }
      assert slots == before + EntrySlots(p, fieldsToUpdate, keys);
    }
    assert item[..|item|] == item;
  }

  /** The statement of `updateByKey(item, fieldsToUpdate, keys, tableName)`;
      `None` when no property is to be updated and nothing is run. */
  method UpdateByKeyQuery(item: Item, fieldsToUpdate: seq<string>, keys: seq<string>, tableName: string) returns (q: Option<Query>)
    ensures var slots := Slots(item, fieldsToUpdate, keys);
      && (q.None? <==> Assignments(slots, false) == [])
      && (q.Some? ==> q.value == Query(UpdateSql(tableName, Assignments(slots, false), Assignments(slots, true)), SlotValues(slots)))
  {
    var sets, where, values := CollectAssignments(item, fieldsToUpdate, keys);
    if |sets| > 0 {
      var sql := "update " + tableName + " SET " + Text.Join(sets, ",");
      if |where| > 0 {
        sql := sql + " WHERE " + Text.Join(where, " AND ");
      }
      q := Some(Query(sql, values));
    } else {
      q := None;
    }
  }

  /** The replacements of `updateByKey` match its placeholders one to one,
      and a statement is issued exactly when some property is in `fieldsToUpdate`. */
  lemma UpdateByKeyCounts(item: Item, fieldsToUpdate: seq<string>, keys: seq<string>)
    ensures var slots := Slots(item, fieldsToUpdate, keys);
      |SlotValues(slots)| == |Assignments(slots, false)| + |Assignments(slots, true)|
    ensures Assignments(Slots(item, fieldsToUpdate, keys), false) != [] <==>
      exists i :: 0 <= i < |item| && item[i].0 in fieldsToUpdate
  {
    AssignmentsPartition(Slots(item, fieldsToUpdate, keys));
    SetsEmpty(item, fieldsToUpdate, keys);
  }
}
