/**
 What naming originals by handles saves (`scripts/benchmark_pilot/evidence.py`, lines
 48-69): the exact difference between a value's size and that of its projection.
 */
module HandleSize {
  import opened Wrappers
  import opened Json
  import opened EvidenceHandles
  import opened PackRepair

  /** A field with the comma that follows it. */
  function FieldCost(field: Field): nat { 2 + TextSize(field.key, Utf8) + 2 + Bytes(field.value) + 2 }

  function FieldsCost(fields: seq<Field>): nat {
    if fields == [] then 0 else FieldCost(fields[0]) + FieldsCost(fields[1..])
  }

  lemma {:induction false} CostAndSize(fields: seq<Field>)
    ensures FieldsSize(fields, Utf8) == if fields == [] then 0 else FieldsCost(fields) - 2
  {
    if fields != [] { CostAndSize(fields[1..]); }
  }

  lemma {:induction false} CostConcat(a: seq<Field>, b: seq<Field>)
    ensures FieldsCost(a + b) == FieldsCost(a) + FieldsCost(b)
    decreases |a|
  {
    if a == [] {
      assert a + b == b;
    } else {
      assert (a + b)[1..] == a[1..] + b;
      CostConcat(a[1..], b);
    }
  }

  lemma OneCost(field: Field)
    ensures FieldsCost([field]) == FieldCost(field)
  {
    assert [field][1..] == [];
  }

  // -------------------------------------------------------------- the exact saving

  /** The mark of an object that is shown again without its body. */
  const MARK := Field("already_read", Bool(true))

  ghost function Saving(t: Table, v: Json): int
    decreases v, 1
  {
    match v
    case Arr(items) => ItemsSaving(t, items)
    case Obj(fields) =>
      var (t1, d) := Decide(t, fields);
      FieldsSaving(t1, fields, d) - if d.hidden && !Has(fields, MARK.key) then FieldCost(MARK) else 0
    case _ => 0
  }

  ghost function ItemsSaving(t: Table, items: seq<Json>): int
    decreases items, 0
  {
    if items == [] then 0 else Saving(t, items[0]) + ItemsSaving(Project(t, items[0]).0, items[1..])
  }

  ghost function FieldsSaving(t: Table, fields: seq<Field>, d: Decision): int
    decreases fields, 0
  {
    if fields == [] then 0
    else FieldSaving(t, fields[0], d) + FieldsSaving(ProjectField(t, fields[0], d).0, fields[1..], d)
  }

  /** A name by the shorter one, a list of names likewise, a hidden body altogether. */
  ghost function FieldSaving(t: Table, field: Field, d: Decision): int
    decreases field, 0
  {
    if field.key == "reference" && d.handle.Some? then Bytes(field.value) - Bytes(Str(d.handle.value))
    else if IsBody(field.key) && d.hidden then FieldCost(field)
    else if field.key == "already_read" && d.hidden then Bytes(field.value) - Bytes(Bool(true))
    else if field.key == "source_references" && d.references.Some? then
      Bytes(field.value) - Bytes(Arr(d.references.value))
    else Saving(t, field.value)
  }

  /** Projecting changes the size of a value by exactly its saving. */
  lemma {:induction false} ProjectSize(t: Table, v: Json)
    ensures Bytes(Project(t, v).1) == Bytes(v) - Saving(t, v)
    decreases v, 1
  {
    match v
    case Arr(items) => ProjectItemsSize(t, items);
    case Obj(fields) =>
      var (t1, d) := Decide(t, fields);
      ProjectFieldsSize(t1, fields, d);
      CostAndSize(fields);
      CostAndSize(ProjectFields(t1, fields, d).1);
      MarkedSize(t, fields);
    case _ =>
  }

  lemma {:induction false} ProjectItemsSize(t: Table, items: seq<Json>)
    ensures |ProjectItems(t, items).1| == |items|
    ensures ItemsSize(ProjectItems(t, items).1, Utf8) == ItemsSize(items, Utf8) - ItemsSaving(t, items)
    decreases items, 0
  {
    if items != [] {
      var (t1, first) := Project(t, items[0]);
      var rest := ProjectItems(t1, items[1..]).1;
      ProjectSize(t, items[0]);
      ProjectItemsSize(t1, items[1..]);
      assert ([first] + rest)[1..] == rest;
    }
  }

  lemma {:induction false} ProjectFieldsSize(t: Table, fields: seq<Field>, d: Decision)
    ensures FieldsCost(ProjectFields(t, fields, d).1) == FieldsCost(fields) - FieldsSaving(t, fields, d)
    decreases fields, 0
  {
    if fields != [] {
      var (t1, first) := ProjectField(t, fields[0], d);
      ProjectFieldSize(t, fields[0], d);
      ProjectFieldsSize(t1, fields[1..], d);
      CostConcat(first, ProjectFields(t1, fields[1..], d).1);
    }
  }

  lemma {:induction false} ProjectFieldSize(t: Table, field: Field, d: Decision)
    ensures FieldsCost(ProjectField(t, field, d).1) == FieldCost(field) - FieldSaving(t, field, d)
    decreases field, 0
  {
    var shown := ProjectField(t, field, d).1;
    if shown != [] {
      OneCost(shown[0]);
      assert shown == [shown[0]];
      if Visits(field, d) { ProjectSize(t, field.value); }
    }
  }

  /** The mark is a new field unless the object brings one; no object loses all its fields. */
  lemma MarkedSize(t: Table, fields: seq<Field>)
    ensures var (t1, d) := Decide(t, fields);
            var shown := ProjectFields(t1, fields, d).1;
            && (shown == [] <==> fields == [])
            && FieldsSize(Marked(shown, d.hidden), Utf8) ==
               FieldsSize(shown, Utf8) + if d.hidden && !Has(fields, MARK.key) then FieldCost(MARK) else 0
  {
    var (t1, d) := Decide(t, fields);
    var shown := ProjectFields(t1, fields, d).1;
    SomeFieldIsKept(t1, fields, d);
    if d.hidden {
      ReferenceAfterProject(t1, fields, d);
      MarkAfterProject(t1, fields, d);
      PutSize(shown, MARK.key, MARK.value);
    }
  }

  lemma {:induction false} SomeFieldIsKept(t: Table, fields: seq<Field>, d: Decision)
    ensures !d.hidden ==> (ProjectFields(t, fields, d).1 == [] <==> fields == [])
  {
    if fields != [] { assert !d.hidden ==> ProjectField(t, fields[0], d).1 != []; }
  }

  lemma {:induction false} MarkAfterProject(t: Table, fields: seq<Field>, d: Decision)
    requires d.hidden
    ensures Get(ProjectFields(t, fields, d).1, MARK.key) == if Has(fields, MARK.key) then Some(MARK.value) else None
    decreases |fields|
  {
    if fields != [] {
      var (t1, first) := ProjectField(t, fields[0], d);
      var rest := ProjectFields(t1, fields[1..], d).1;
      MarkAfterProject(t1, fields[1..], d);
      if first == [] { assert first + rest == rest; } else { assert (first + rest)[1..] == rest; }
    }
  }

  // ---------------------------------------------- values that name no original

  /** Nothing in the value names an original. */
  ghost predicate Bare(v: Json)
    decreases v
  {
    match v
    case Arr(items) => forall i :: 0 <= i < |items| ==> Bare(items[i])
    case Obj(fields) => forall i :: 0 <= i < |fields| ==> BareKey(fields[i].key) && Bare(fields[i].value)
    case _ => true
  }

  predicate BareKey(key: string) { key != "reference" && key != "source_references" }

  ghost predicate BareFields(fields: seq<Field>) {
    forall i :: 0 <= i < |fields| ==> BareKey(fields[i].key) && Bare(fields[i].value)
  }

  lemma {:induction false} ProjectBare(t: Table, v: Json)
    requires Bare(v)
    ensures Project(t, v) == (t, v)
    decreases v, 1
  {
    match v
    case Arr(items) => ProjectBareItems(t, items);
    case Obj(fields) =>
      GetAbsent(fields, "reference");
      GetAbsent(fields, "source_references");
      ProjectBareFields(t, fields, Decide(t, fields).1);
    case _ =>
  }

  lemma {:induction false} ProjectBareItems(t: Table, items: seq<Json>)
    requires forall i :: 0 <= i < |items| ==> Bare(items[i])
    ensures ProjectItems(t, items) == (t, items)
    decreases items, 0
  {
    if items != [] {
      ProjectBare(t, items[0]);
      ProjectBareItems(t, items[1..]);
      assert [items[0]] + items[1..] == items;
    }
  }

  lemma {:induction false} ProjectBareFields(t: Table, fields: seq<Field>, d: Decision)
    requires BareFields(fields) && !d.hidden
    ensures ProjectFields(t, fields, d) == (t, fields)
    decreases fields, 0
  {
    if fields != [] {
      ProjectBare(t, fields[0].value);
      ProjectBareFields(t, fields[1..], d);
      assert [fields[0]] + fields[1..] == fields;
    }
  }

  lemma {:induction false} ProjectInTurn(t: Table, a: seq<Field>, b: seq<Field>, d: Decision)
    ensures var (u, x) := ProjectFields(t, a, d);
            var (w, y) := ProjectFields(u, b, d);
            ProjectFields(t, a + b, d) == (w, x + y)
    decreases |a|
  {
    if a == [] {
      assert a + b == b && [] + ProjectFields(t, b, d).1 == ProjectFields(t, b, d).1;
    } else {
      assert (a + b)[1..] == a[1..] + b;
      var (t1, first) := ProjectField(t, a[0], d);
      ProjectInTurn(t1, a[1..], b, d);
      var (u, x) := ProjectFields(t1, a[1..], d);
      assert first + (x + ProjectFields(u, b, d).1) == (first + x) + ProjectFields(u, b, d).1;
    }
  }

  /** A field between fields without references. */
  lemma ProjectAround(t: Table, a: seq<Field>, field: Field, b: seq<Field>, d: Decision)
    requires BareFields(a) && BareFields(b) && !d.hidden
    ensures var (u, x) := ProjectField(t, field, d);
            ProjectFields(t, a + [field] + b, d) == (u, a + x + b)
  {
    var (u, x) := ProjectField(t, field, d);
    ProjectBareFields(t, a, d);
    ProjectInTurn(t, a, [field], d);
    assert [field][1..] == [] && x + [] == x;
    ProjectInTurn(t, a + [field], b, d);
    ProjectBareFields(u, b, d);
  }

  lemma {:induction false} BareSavesNothing(t: Table, v: Json)
    requires Bare(v)
    ensures Saving(t, v) == 0
    decreases v, 1
  {
    match v
    case Arr(items) => BareItemsSaveNothing(t, items);
    case Obj(fields) =>
      GetAbsent(fields, "reference");
      GetAbsent(fields, "source_references");
      BareFieldsSave(t, fields, Decide(t, fields).1);
    case _ =>
  }

  lemma {:induction false} BareItemsSaveNothing(t: Table, items: seq<Json>)
    requires forall i :: 0 <= i < |items| ==> Bare(items[i])
    ensures ItemsSaving(t, items) == 0
    decreases items, 0
  {
    if items != [] {
      BareSavesNothing(t, items[0]);
      BareItemsSaveNothing(Project(t, items[0]).0, items[1..]);
    }
  }

  /** They only save something as the hidden bodies of an object. */
  lemma {:induction false} BareFieldsSave(t: Table, fields: seq<Field>, d: Decision)
    requires BareFields(fields)
    ensures !d.hidden ==> FieldsSaving(t, fields, d) == 0
    ensures Lacks(fields, MARK.key) ==> FieldsSaving(t, fields, d) >= 0
    decreases fields, 0
  {
    if fields != [] {
      BareSavesNothing(t, fields[0].value);
      BareFieldsSave(ProjectField(t, fields[0], d).0, fields[1..], d);
    }
  }

  lemma {:induction false} FieldsSavingConcat(t: Table, a: seq<Field>, b: seq<Field>, d: Decision)
    ensures FieldsSaving(t, a + b, d) == FieldsSaving(t, a, d) + FieldsSaving(ProjectFields(t, a, d).0, b, d)
    decreases |a|
  {
    if a == [] {
      assert a + b == b;
    } else {
      assert (a + b)[1..] == a[1..] + b;
      FieldsSavingConcat(ProjectField(t, a[0], d).0, a[1..], b, d);
    }
  }

  /** A field between fields without references saves what it saves alone. */
  lemma FieldsSavingAround(t: Table, a: seq<Field>, field: Field, b: seq<Field>, d: Decision)
    requires BareFields(a) && BareFields(b) && !d.hidden
    ensures FieldsSaving(t, a + [field] + b, d) == FieldSaving(t, field, d)
  {
    ProjectBareFields(t, a, d);
    BareFieldsSave(t, a, d);
    FieldsSavingConcat(t, a, [field], d);
    assert [field][1..] == [];
    FieldsSavingConcat(t, a + [field], b, d);
    BareFieldsSave(ProjectFields(t, a + [field], d).0, b, d);
  }

  // -------------------------------------------------------------- short handles

  const HANDLE_LIMIT := 10

  ghost predicate Short(t: Table) { forall h :: h in t.native ==> TextSize(h, Utf8) <= HANDLE_LIMIT }

  function PowerOfTen(n: nat): nat { if n == 0 then 1 else 10 * PowerOfTen(n - 1) }

  lemma {:induction false} DecimalSize(n: nat, digits: nat)
    requires digits > 0 && n < PowerOfTen(digits)
    ensures Plain(Decimal(n)) && |Decimal(n)| <= digits
    decreases digits
  {
    if n >= 10 { DecimalSize(n / 10, digits - 1); }
  }

  /** Below a billion originals a handle takes at most ten bytes. */
  lemma FewOriginals(t: Table)
    requires Valid(t) && |t.native| < PowerOfTen(9)
    ensures Short(t)
  {
    forall h | h in t.native ensures TextSize(h, Utf8) <= HANDLE_LIMIT { HandleSizeWithin(|t.native|, h); }
  }

  lemma {:induction false} HandleSizeWithin(n: nat, h: string)
    requires h in Names(n) && n < PowerOfTen(9)
    ensures TextSize(h, Utf8) <= HANDLE_LIMIT
  {
    if h == HandleName(n) {
      DecimalSize(n, 9);
      PlainSize(Decimal(n));
      assert h[0] == 'E' && h[1..] == Decimal(n);
    } else {
      HandleSizeWithin(n - 1, h);
    }
  }
}
