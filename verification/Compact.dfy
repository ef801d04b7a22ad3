/**
 The two sizes of a JSON value: as the native service counts it (`serde_json::to_vec`
 in `packages/elf-service/src/evidence/pack/budget.rs`, lines 56-60, one byte for each
 separator) and as the host does (`json.dumps`, two bytes for each).
 */
module Compact {
  import opened Json

  function CompactSize(v: Json): nat {
    match v
    case Arr(items) => 2 + CompactItems(items)
    case Obj(fields) => 2 + CompactFields(fields)
    case _ => Bytes(v)
  }

  function CompactItems(items: seq<Json>): nat {
    if items == [] then 0
    else CompactSize(items[0]) + (if |items| == 1 then 0 else 1) + CompactItems(items[1..])
  }

  function CompactFields(fields: seq<Field>): nat {
    if fields == [] then 0
    else 2 + TextSize(fields[0].key, Utf8) + 1 + CompactSize(fields[0].value)
           + (if |fields| == 1 then 0 else 1) + CompactFields(fields[1..])
  }

  /** How many commas and colons a value is written with. */
  function Separators(v: Json): nat {
    match v
    case Arr(items) => ItemSeparators(items)
    case Obj(fields) => FieldSeparators(fields)
    case _ => 0
  }

  function ItemSeparators(items: seq<Json>): nat {
    if items == [] then 0
    else Separators(items[0]) + (if |items| == 1 then 0 else 1) + ItemSeparators(items[1..])
  }

  function FieldSeparators(fields: seq<Field>): nat {
    if fields == [] then 0
    else 1 + Separators(fields[0].value) + (if |fields| == 1 then 0 else 1) + FieldSeparators(fields[1..])
  }

  /** The host pays one byte more than the native service for each separator, and nothing else. */
  lemma {:induction false} SizeWithSeparators(v: Json)
    ensures Bytes(v) == CompactSize(v) + Separators(v)
    decreases v, 1
  {
    match v
    case Arr(items) => ItemsWithSeparators(items);
    case Obj(fields) => FieldsWithSeparators(fields);
    case _ =>
  }

  lemma {:induction false} ItemsWithSeparators(items: seq<Json>)
    ensures ItemsSize(items, Utf8) == CompactItems(items) + ItemSeparators(items)
    decreases items, 0
  {
    if items != [] {
      SizeWithSeparators(items[0]);
      ItemsWithSeparators(items[1..]);
    }
  }

  lemma {:induction false} FieldsWithSeparators(fields: seq<Field>)
    ensures FieldsSize(fields, Utf8) == CompactFields(fields) + FieldSeparators(fields)
    decreases fields, 0
  {
    if fields != [] {
      SizeWithSeparators(fields[0].value);
      FieldsWithSeparators(fields[1..]);
    }
  }

  /** Each separator is a byte of the compact text as well. */
  lemma {:induction false} SeparatorsWithinSize(v: Json)
    ensures Separators(v) <= CompactSize(v)
    decreases v, 1
  {
    match v
    case Arr(items) => ItemSeparatorsWithinSize(items);
    case Obj(fields) => FieldSeparatorsWithinSize(fields);
    case _ =>
  }

  lemma {:induction false} ItemSeparatorsWithinSize(items: seq<Json>)
    ensures ItemSeparators(items) <= CompactItems(items)
    decreases items, 0
  {
    if items != [] {
      SeparatorsWithinSize(items[0]);
      ItemSeparatorsWithinSize(items[1..]);
    }
  }

  lemma {:induction false} FieldSeparatorsWithinSize(fields: seq<Field>)
    ensures FieldSeparators(fields) <= CompactFields(fields)
    decreases fields, 0
  {
    if fields != [] {
      SeparatorsWithinSize(fields[0].value);
      FieldSeparatorsWithinSize(fields[1..]);
    }
  }

  // ---------------------------------------------------------- counting in parts

  /** The separators of each field, and the colon and the comma after it. */
  function FieldMarks(fields: seq<Field>): nat {
    if fields == [] then 0 else 2 + Separators(fields[0].value) + FieldMarks(fields[1..])
  }

  function ItemMarks(items: seq<Json>): nat {
    if items == [] then 0 else 1 + Separators(items[0]) + ItemMarks(items[1..])
  }

  lemma {:induction false} MarksOfFields(fields: seq<Field>)
    ensures Separators(Obj(fields)) == if fields == [] then 0 else FieldMarks(fields) - 1
  {
    if fields != [] { MarksOfFields(fields[1..]); }
  }

  lemma {:induction false} MarksOfItems(items: seq<Json>)
    ensures Separators(Arr(items)) == if items == [] then 0 else ItemMarks(items) - 1
  {
    if items != [] { MarksOfItems(items[1..]); }
  }

  lemma {:induction false} FieldMarksConcat(a: seq<Field>, b: seq<Field>)
    ensures FieldMarks(a + b) == FieldMarks(a) + FieldMarks(b)
    decreases |a|
  {
    if a == [] {
      assert a + b == b;
    } else {
      assert (a + b)[1..] == a[1..] + b;
      FieldMarksConcat(a[1..], b);
    }
  }

  /** A field between two lists of fields. */
  lemma FieldMarksAround(a: seq<Field>, field: Field, b: seq<Field>)
    ensures FieldMarks(a + [field] + b) == FieldMarks(a) + 2 + Separators(field.value) + FieldMarks(b)
  {
    FieldMarksConcat(a + [field], b);
    FieldMarksConcat(a, [field]);
    assert [field][1..] == [];
  }

  predicate Scalar(v: Json) { !v.Arr? && !v.Obj? }

  lemma {:induction false} ScalarMarks(fields: seq<Field>)
    requires forall i :: 0 <= i < |fields| ==> Scalar(fields[i].value)
    ensures FieldMarks(fields) == 2 * |fields|
  {
    if fields != [] { ScalarMarks(fields[1..]); }
  }

  lemma {:induction false} ScalarItemMarks(items: seq<Json>)
    requires forall i :: 0 <= i < |items| ==> Scalar(items[i])
    ensures ItemMarks(items) == |items|
  {
    if items != [] { ScalarItemMarks(items[1..]); }
  }

  lemma {:induction false} FieldWithinSize(a: seq<Field>, field: Field, b: seq<Field>)
    ensures CompactFields(a + [field] + b) >= CompactSize(field.value)
    decreases |a|
  {
    var all := a + [field] + b;
    if a == [] {
      assert all[0] == field;
    } else {
      assert all[1..] == a[1..] + [field] + b;
      FieldWithinSize(a[1..], field, b);
    }
  }
}
