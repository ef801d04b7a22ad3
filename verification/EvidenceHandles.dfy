/**
 Conversation-local citation handles (`scripts/benchmark_pilot/evidence.py`): a two-way
 table between E1, E2, ... and native references, and what it does to a value on
 its way to the reader.
 */
module EvidenceHandles {
  import opened Wrappers
  import opened Json

  const NATIVE_PREFIX := "elf-source-v1/"

  predicate IsNative(reference: string) { NATIVE_PREFIX <= reference }

  // -------------------------------------------------------------- handle names

  function Digit(d: nat): char
    requires d < 10
  {
    ['0', '1', '2', '3', '4', '5', '6', '7', '8', '9'][d]
  }

  function Decimal(n: nat): string {
    if n < 10 then [Digit(n)] else Decimal(n / 10) + [Digit(n % 10)]
  }

  function HandleName(n: nat): string { "E" + Decimal(n) }

  lemma {:induction false} DecimalInjective(m: nat, n: nat)
    requires Decimal(m) == Decimal(n)
    ensures m == n
    decreases m
  {
    var x, y := Decimal(m), Decimal(n);
    assert x[|x| - 1] == Digit(m % 10) && y[|y| - 1] == Digit(n % 10);
    if m >= 10 && n >= 10 {
      assert x[..|x| - 1] == Decimal(m / 10) && y[..|y| - 1] == Decimal(n / 10);
      DecimalInjective(m / 10, n / 10);
    } else if m >= 10 {
      DecimalNonEmpty(m / 10);
    } else if n >= 10 {
      DecimalNonEmpty(n / 10);
    }
  }

  lemma {:induction false} DecimalNonEmpty(n: nat)
    ensures |Decimal(n)| >= 1
  {}

  lemma HandleNameInjective(m: nat, n: nat)
    requires HandleName(m) == HandleName(n)
    ensures m == n
  {
    assert HandleName(m)[1..] == Decimal(m) && HandleName(n)[1..] == Decimal(n);
    DecimalInjective(m, n);
  }

  /** E1..En. */
  ghost function Names(n: nat): set<string> {
    if n == 0 then {} else Names(n - 1) + {HandleName(n)}
  }

  lemma {:induction false} NamesMembers(n: nat, k: nat)
    requires k > 0
    ensures HandleName(k) in Names(n) <==> k <= n
  {
    if n > 0 {
      NamesMembers(n - 1, k);
      if HandleName(k) == HandleName(n) { HandleNameInjective(k, n); }
    }
  }

  // --------------------------------------------------------------------- table

  datatype Table = Table(native: map<string, string>, visible: set<string>)

  /** `native` is a bijection between E1..En and n distinct references; only its handles are visible. */
  ghost predicate Valid(t: Table) {
    && t.native.Keys == Names(|t.native|)
    && (forall g, h :: g in t.native && h in t.native && t.native[g] == t.native[h] ==> g == h)
    && t.visible <= t.native.Keys
  }

  ghost predicate Grows(t: Table, u: Table) {
    && t.visible == u.visible && forall h :: h in t.native ==> h in u.native && u.native[h] == t.native[h]
  }

  ghost function HandleFor(t: Table, reference: string): string {
    if reference in t.native.Values then
      var h :| h in t.native && t.native[h] == reference; h
    else HandleName(|t.native| + 1)
  }

  ghost function With(t: Table, reference: string): Table {
    t.(native := t.native[HandleFor(t, reference) := reference])
  }

  lemma WithIsValid(t: Table, reference: string)
    requires Valid(t)
    ensures Valid(With(t, reference)) && Grows(t, With(t, reference))
    ensures HandleFor(t, reference) in With(t, reference).native
    ensures With(t, reference).native[HandleFor(t, reference)] == reference
    ensures reference in t.native.Values <==> With(t, reference) == t
  {
    var h := HandleFor(t, reference);
    if reference !in t.native.Values {
      NamesMembers(|t.native|, |t.native| + 1);
      assert h !in t.native;
      assert With(t, reference).native.Keys == t.native.Keys + {h};
      assert |With(t, reference).native| == |t.native| + 1;
      assert forall g :: g in t.native ==> t.native[g] in t.native.Values;
    } else {
      assert With(t, reference).native == t.native;
    }
  }

  // ----------------------------------------------------------- what is projected

  function NativeReference(fields: seq<Field>): Option<string> {
    match Get(fields, "reference")
    case Some(Str(r)) => if IsNative(r) then Some(r) else None
    case _ => None
  }

  /** Renaming the strings of a reference list, one table entry at a time. */
  ghost function RenameAll(t: Table, items: seq<Json>): (Table, seq<Json>)
    decreases |items|
  {
    if items == [] then (t, [])
    else
      match items[0]
      case Str(r) =>
        var (u, rest) := RenameAll(With(t, r), items[1..]);
        (u, [Str(HandleFor(t, r))] + rest)
      case other =>
        var (u, rest) := RenameAll(t, items[1..]);
        (u, [other] + rest)
  }

  /** What the visit of an object has decided before it turns to the children. */
  datatype Decision = Decision(handle: Option<string>, hidden: bool, references: Option<seq<Json>>)

  predicate IsBody(key: string) { key == "text" || key == "excerpt" }

  function Marked(fields: seq<Field>, hidden: bool): seq<Field> {
    if hidden then Put(fields, "already_read", Bool(true)) else fields
  }

  ghost function Decide(t: Table, fields: seq<Field>): (Table, Decision) {
    var reference := NativeReference(fields);
    var handle := if reference.Some? then Some(HandleFor(t, reference.value)) else None;
    var t1 := if reference.Some? then With(t, reference.value) else t;
    var hidden := handle.Some? && handle.value in t.visible;
    var listed := Get(fields, "source_references");
    if listed.Some? && listed.value.Arr? then
      var (t2, renamed) := RenameAll(t1, listed.value.items);
      (t2, Decision(handle, hidden, Some(renamed)))
    else (t1, Decision(handle, hidden, None))
  }

  ghost function Project(t: Table, v: Json): (Table, Json)
    decreases v, 1
  {
    match v
    case Arr(items) => var (u, projected) := ProjectItems(t, items); (u, Arr(projected))
    case Obj(fields) =>
      var (t1, d) := Decide(t, fields);
      var (u, projected) := ProjectFields(t1, fields, d);
      (u, Obj(Marked(projected, d.hidden)))
    case _ => (t, v)
  }

  ghost function ProjectItems(t: Table, items: seq<Json>): (Table, seq<Json>)
    decreases items, 0
  {
    if items == [] then (t, [])
    else
      var (t1, first) := Project(t, items[0]);
      var (u, rest) := ProjectItems(t1, items[1..]);
      (u, [first] + rest)
  }

  ghost function ProjectFields(t: Table, fields: seq<Field>, d: Decision): (Table, seq<Field>)
    decreases fields, 0
  {
    if fields == [] then (t, [])
    else
      var (t1, first) := ProjectField(t, fields[0], d);
      var (u, rest) := ProjectFields(t1, fields[1..], d);
      (u, first + rest)
  }

  /** A field is decided by its node, dropped, or visited. */
  ghost function ProjectField(t: Table, field: Field, d: Decision): (Table, seq<Field>)
    decreases field, 0
  {
    if field.key == "reference" && d.handle.Some? then (t, [Field(field.key, Str(d.handle.value))])
    else if IsBody(field.key) && d.hidden then (t, [])
    else if field.key == "already_read" && d.hidden then (t, [Field(field.key, Bool(true))])
    else if field.key == "source_references" && d.references.Some? then (t, [Field(field.key, Arr(d.references.value))])
    else
      var (u, projected) := Project(t, field.value);
      (u, [Field(field.key, projected)])
  }

  lemma {:induction false} RenameAllIsValid(t: Table, items: seq<Json>)
    requires Valid(t)
    ensures Valid(RenameAll(t, items).0) && Grows(t, RenameAll(t, items).0)
    decreases |items|
  {
    if items != [] {
      if items[0].Str? {
        WithIsValid(t, items[0].s);
        RenameAllIsValid(With(t, items[0].s), items[1..]);
      } else {
        RenameAllIsValid(t, items[1..]);
      }
    }
  }

  lemma DecideIsValid(t: Table, fields: seq<Field>)
    requires Valid(t)
    ensures Valid(Decide(t, fields).0) && Grows(t, Decide(t, fields).0)
    ensures var reference := NativeReference(fields);
            var (t1, d) := Decide(t, fields);
            && d.handle.Some? == reference.Some?
            && (reference.Some? ==> d.handle.value in t1.native && t1.native[d.handle.value] == reference.value)
  {
    var reference := NativeReference(fields);
    var t1 := if reference.Some? then With(t, reference.value) else t;
    if reference.Some? { WithIsValid(t, reference.value); }
    var listed := Get(fields, "source_references");
    if listed.Some? && listed.value.Arr? { RenameAllIsValid(t1, listed.value.items); }
  }

  lemma {:induction false} ProjectIsValid(t: Table, v: Json)
    requires Valid(t)
    ensures Valid(Project(t, v).0) && Grows(t, Project(t, v).0)
    decreases v, 1
  {
    match v
    case Arr(items) => ProjectItemsIsValid(t, items);
    case Obj(fields) =>
      DecideIsValid(t, fields);
      ProjectFieldsIsValid(Decide(t, fields).0, fields, Decide(t, fields).1);
    case _ =>
  }

  lemma {:induction false} ProjectItemsIsValid(t: Table, items: seq<Json>)
    requires Valid(t)
    ensures Valid(ProjectItems(t, items).0) && Grows(t, ProjectItems(t, items).0)
    decreases items, 0
  {
    if items != [] {
      ProjectIsValid(t, items[0]);
      ProjectItemsIsValid(Project(t, items[0]).0, items[1..]);
    }
  }

  lemma {:induction false} ProjectFieldsIsValid(t: Table, fields: seq<Field>, d: Decision)
    requires Valid(t)
    ensures Valid(ProjectFields(t, fields, d).0) && Grows(t, ProjectFields(t, fields, d).0)
    decreases fields, 0
  {
    if fields != [] {
      ProjectFieldIsValid(t, fields[0], d);
      ProjectFieldsIsValid(ProjectField(t, fields[0], d).0, fields[1..], d);
    }
  }

  lemma {:induction false} ProjectFieldIsValid(t: Table, field: Field, d: Decision)
    requires Valid(t)
    ensures Valid(ProjectField(t, field, d).0) && Grows(t, ProjectField(t, field, d).0)
    decreases field, 0
  {
    var u := ProjectField(t, field, d).0;
    assert u == t || u == Project(t, field.value).0;
    if u != t { ProjectIsValid(t, field.value); }
  }

  // -------------------------------------------------------- undoing the renaming

  ghost predicate IsHandleName(s: string) { exists k: nat :: k > 0 && s == HandleName(k) }

  lemma {:induction false} NamesAreHandleNames(n: nat, s: string)
    requires s in Names(n)
    ensures IsHandleName(s)
  {
    if s != HandleName(n) { NamesAreHandleNames(n - 1, s); } else { assert n > 0; }
  }

  /** An object has one field per key. */
  predicate CleanNode(fields: seq<Field>) {
    forall i :: 0 <= i < |fields| ==> Get(fields, fields[i].key) == Some(fields[i].value)
  }

  ghost predicate Clean(v: Json)
    decreases v
  {
    match v
    case Arr(items) => forall i :: 0 <= i < |items| ==> Clean(items[i])
    case Obj(fields) => CleanNode(fields) && forall i :: 0 <= i < |fields| ==> Clean(fields[i].value)
    case _ => true
  }

  /** No object names itself by something that is not a native reference but is a handle of `native`. */
  ghost predicate Unforged(native: map<string, string>, v: Json)
    decreases v
  {
    match v
    case Arr(items) => forall i :: 0 <= i < |items| ==> Unforged(native, items[i])
    case Obj(fields) =>
      UnforgedNode(native, fields) && forall i :: 0 <= i < |fields| ==> Unforged(native, fields[i].value)
    case _ => true
  }

  predicate UnforgedNode(native: map<string, string>, fields: seq<Field>) {
    match Get(fields, "reference")
    case Some(Str(r)) => IsNative(r) || r !in native
    case _ => true
  }

  /** Replace every handle by the native reference it stands for. */
  function Restore(native: map<string, string>, v: Json): Json
    decreases v, 1
  {
    match v
    case Arr(items) => Arr(RestoreItems(native, items))
    case Obj(fields) => Obj(RestoreFields(native, fields))
    case _ => v
  }

  function RestoreItems(native: map<string, string>, items: seq<Json>): seq<Json>
    decreases items, 0
  {
    if items == [] then [] else [Restore(native, items[0])] + RestoreItems(native, items[1..])
  }

  function RestoreName(native: map<string, string>, v: Json): Json {
    if v.Str? && v.s in native then Str(native[v.s]) else v
  }

  function RestoreList(native: map<string, string>, items: seq<Json>): seq<Json> {
    if items == [] then [] else [RestoreName(native, items[0])] + RestoreList(native, items[1..])
  }

  function RestoreFields(native: map<string, string>, fields: seq<Field>): seq<Field>
    decreases fields, 0
  {
    if fields == [] then [] else [RestoreField(native, fields[0])] + RestoreFields(native, fields[1..])
  }

  function RestoreField(native: map<string, string>, field: Field): Field
    decreases field, 0
  {
    var value :=
      if field.key == "reference" && field.value.Str? then RestoreName(native, field.value)
      else if field.key == "source_references" && field.value.Arr? then Arr(RestoreList(native, field.value.items))
      else Restore(native, field.value);
    Field(field.key, value)
  }

  /** What the reader gets apart from renaming: originals already seen lose their body and are marked. */
  function Redact(seen: set<string>, v: Json): Json
    decreases v, 1
  {
    match v
    case Arr(items) => Arr(RedactItems(seen, items))
    case Obj(fields) =>
      var hidden := NativeReference(fields).Some? && NativeReference(fields).value in seen;
      Obj(Marked(RedactFields(seen, fields, hidden), hidden))
    case _ => v
  }

  function RedactItems(seen: set<string>, items: seq<Json>): seq<Json>
    decreases items, 0
  {
    if items == [] then [] else [Redact(seen, items[0])] + RedactItems(seen, items[1..])
  }

  function RedactFields(seen: set<string>, fields: seq<Field>, hidden: bool): seq<Field>
    decreases fields, 0
  {
    if fields == [] then [] else RedactField(seen, fields[0], hidden) + RedactFields(seen, fields[1..], hidden)
  }

  function RedactField(seen: set<string>, field: Field, hidden: bool): seq<Field>
    decreases field, 0
  {
    if IsBody(field.key) && hidden then []
    else if field.key == "already_read" && hidden then [Field(field.key, Bool(true))]
    else if field.key == "source_references" && field.value.Arr? then [field]
    else [Field(field.key, Redact(seen, field.value))]
  }

  /** The native references whose originals the conversation already holds. */
  ghost function Seen(t: Table): set<string> {
    set h | h in t.visible && h in t.native :: t.native[h]
  }

  ghost predicate Extends(native: map<string, string>, t: Table) {
    forall h :: h in t.native ==> h in native && native[h] == t.native[h]
  }

  lemma {:induction false} RestoreRenamed(t: Table, items: seq<Json>, native: map<string, string>)
    requires Valid(t) && Extends(native, RenameAll(t, items).0)
    requires forall i :: 0 <= i < |items| ==> items[i].Str?
    ensures RestoreList(native, RenameAll(t, items).1) == items
    decreases |items|
  {
    if items != [] {
      WithIsValid(t, items[0].s);
      RenameAllIsValid(With(t, items[0].s), items[1..]);
      RestoreRenamed(With(t, items[0].s), items[1..], native);
      assert RenameAll(t, items).1[1..] == RenameAll(With(t, items[0].s), items[1..]).1;
    }
  }

  lemma RestoreOne(native: map<string, string>, field: Field)
    ensures RestoreFields(native, [field]) == [RestoreField(native, field)]
  {
    assert [field][1..] == [];
  }

  lemma {:induction false} RestorePut(native: map<string, string>, fields: seq<Field>, key: string, b: bool)
    requires key != "reference"
    ensures RestoreFields(native, Put(fields, key, Bool(b))) == Put(RestoreFields(native, fields), key, Bool(b))
  {
    if fields == [] {
      RestoreOne(native, Field(key, Bool(b)));
    } else {
      var restored := RestoreFields(native, fields);
      if fields[0].key == key {
        assert RestoreField(native, Field(key, Bool(b))) == Field(key, Bool(b));
        assert Put(fields, key, Bool(b))[1..] == fields[1..];
        assert restored[0].key == key && restored[1..] == RestoreFields(native, fields[1..]);
      } else {
        RestorePut(native, fields[1..], key, b);
        assert Put(fields, key, Bool(b))[1..] == Put(fields[1..], key, Bool(b));
        assert restored[1..] == RestoreFields(native, fields[1..]);
      }
    }
  }

  /** Reference lists hold strings. */
  ghost predicate Listed(v: Json)
    decreases v
  {
    match v
    case Arr(items) => forall i :: 0 <= i < |items| ==> Listed(items[i])
    case Obj(fields) =>
      forall i :: 0 <= i < |fields| ==>
        && Listed(fields[i].value)
        && (fields[i].key == "source_references" && fields[i].value.Arr? ==> AllStrings(fields[i].value.items))
    case _ => true
  }

  predicate AllStrings(items: seq<Json>) { forall i :: 0 <= i < |items| ==> items[i].Str? }

  /**
   Projection only redacts and renames: putting the native references back, with the
   table of this or any later moment, gives the value with already-read bodies removed.
   */
  lemma {:induction false} ProjectThenRestore(t: Table, v: Json, native: map<string, string>)
    requires Valid(t) && Clean(v) && Listed(v) && Unforged(native, v) && Extends(native, Project(t, v).0)
    ensures Restore(native, Project(t, v).1) == Redact(Seen(t), v)
    decreases v, 1
  {
    match v
    case Arr(items) => ProjectItemsThenRestore(t, items, native);
    case Obj(fields) =>
      DecideIsValid(t, fields);
      var (t1, d) := Decide(t, fields);
      HiddenMeansSeen(t, fields);
      ProjectFieldsThenRestore(t, fields, t1, fields, d, native);
      if d.hidden { RestorePut(native, ProjectFields(t1, fields, d).1, "already_read", true); }
    case _ =>
  }

  lemma HiddenMeansSeen(t: Table, fields: seq<Field>)
    requires Valid(t)
    ensures Decide(t, fields).1.hidden <==> NativeReference(fields).Some? && NativeReference(fields).value in Seen(t)
  {
    var reference := NativeReference(fields);
    if reference.Some? {
      WithIsValid(t, reference.value);
      var h := HandleFor(t, reference.value);
      if h in t.visible { assert t.native[h] == reference.value; }
      if reference.value in Seen(t) {
        var g :| g in t.visible && g in t.native && t.native[g] == reference.value;
        assert reference.value in t.native.Values;
        assert g == h;
      }
    }
  }

  lemma {:induction false} ProjectItemsThenRestore(t: Table, items: seq<Json>, native: map<string, string>)
    requires Valid(t) && Extends(native, ProjectItems(t, items).0)
    requires forall i :: 0 <= i < |items| ==> Clean(items[i]) && Listed(items[i]) && Unforged(native, items[i])
    ensures RestoreItems(native, ProjectItems(t, items).1) == RedactItems(Seen(t), items)
    decreases items, 0
  {
    if items != [] {
      var (t1, first) := Project(t, items[0]);
      ProjectIsValid(t, items[0]);
      ProjectItemsIsValid(t1, items[1..]);
      SeenIsStable(t, t1);
      ProjectThenRestore(t, items[0], native);
      ProjectItemsThenRestore(t1, items[1..], native);
      assert ProjectItems(t, items).1[1..] == ProjectItems(t1, items[1..]).1;
    }
  }

  /** What the visit decided about a node reads back as what the node said. */
  lemma DecisionReadsBack(t: Table, fields: seq<Field>, native: map<string, string>)
    requires Valid(t) && Extends(native, Decide(t, fields).0) && Listed(Obj(fields))
    requires forall i :: 0 <= i < |fields| ==> Get(fields, fields[i].key) == Some(fields[i].value)
    ensures var d := Decide(t, fields).1;
            && (forall i :: 0 <= i < |fields| && fields[i].key == "reference" && d.handle.Some? ==>
                  fields[i].value.Str? && d.handle.value in native && native[d.handle.value] == fields[i].value.s)
            && (forall i :: 0 <= i < |fields| && fields[i].key == "source_references" ==>
                  if !fields[i].value.Arr? then d.references.None?
                  else d.references.Some? && RestoreList(native, d.references.value) == fields[i].value.items)
  {
    DecideIsValid(t, fields);
    var reference := NativeReference(fields);
    var t1 := if reference.Some? then With(t, reference.value) else t;
    if reference.Some? { WithIsValid(t, reference.value); }
    forall i | 0 <= i < |fields| && fields[i].key == "source_references" && fields[i].value.Arr?
      ensures Decide(t, fields).1.references.Some?
      ensures RestoreList(native, Decide(t, fields).1.references.value) == fields[i].value.items
    {
      RestoreRenamed(t1, fields[i].value.items, native);
    }
  }

  lemma {:induction false} RestoreConcat(native: map<string, string>, a: seq<Field>, b: seq<Field>)
    ensures RestoreFields(native, a + b) == RestoreFields(native, a) + RestoreFields(native, b)
  {
    if a == [] {
      assert a + b == b;
    } else {
      assert (a + b)[1..] == a[1..] + b;
      RestoreConcat(native, a[1..], b);
    }
  }

  /** The part of `ProjectThenRestore` about the fields of one node: `rest` is what is still to be visited. */
  lemma {:induction false} ProjectFieldsThenRestore(t: Table, whole: seq<Field>, now: Table, rest: seq<Field>,
          d: Decision, native: map<string, string>)
    requires Valid(t) && Valid(now) && d == Decide(t, whole).1 && Grows(t, now)
    requires Extends(now.native, Decide(t, whole).0)
    requires CleanNode(whole) && UnforgedNode(native, whole) && Listed(Obj(whole))
    requires forall i :: 0 <= i < |rest| ==> rest[i] in whole && Clean(rest[i].value) && Unforged(native, rest[i].value)
    requires Extends(native, ProjectFields(now, rest, d).0)
    ensures RestoreFields(native, ProjectFields(now, rest, d).1) == RedactFields(Seen(t), rest, d.hidden)
    decreases rest, 0
  {
    if rest != [] {
      var (after, first) := ProjectField(now, rest[0], d);
      assert rest[0] in whole;
      ProjectFieldIsValid(now, rest[0], d);
      ProjectFieldsIsValid(after, rest[1..], d);
      ProjectFieldThenRestore(t, whole, now, rest[0], d, native);
      ProjectFieldsThenRestore(t, whole, after, rest[1..], d, native);
      RestoreConcat(native, first, ProjectFields(after, rest[1..], d).1);
    }
  }

  predicate Visits(field: Field, d: Decision) {
    && !(field.key == "reference" && d.handle.Some?)
    && !(d.hidden && (IsBody(field.key) || field.key == "already_read"))
    && !(field.key == "source_references" && d.references.Some?)
  }

  lemma {:induction false} ProjectFieldThenRestore(t: Table, whole: seq<Field>, now: Table, field: Field, d: Decision,
          native: map<string, string>)
    requires Valid(t) && Valid(now) && d == Decide(t, whole).1 && Grows(t, now)
    requires Extends(now.native, Decide(t, whole).0)
    requires CleanNode(whole) && UnforgedNode(native, whole) && Listed(Obj(whole))
    requires field in whole && Clean(field.value) && Unforged(native, field.value)
    requires Extends(native, ProjectField(now, field, d).0)
    ensures RestoreFields(native, ProjectField(now, field, d).1) == RedactField(Seen(t), field, d.hidden)
    decreases field, 1
  {
    if Visits(field, d) {
      NotANativeReference(t, whole, native, field, d);
      SeenIsStable(t, now);
      VisitedFieldThenRestore(now, field, d.hidden, native);
      RestoreOne(native, Field(field.key, Project(now, field.value).1));
    } else {
      DecidedFieldThenRestore(t, whole, now, field, d, native, Seen(t));
    }
  }

  lemma {:induction false} VisitedFieldThenRestore(t: Table, field: Field, hidden: bool, native: map<string, string>)
    requires Valid(t) && Clean(field.value) && Listed(field.value) && Unforged(native, field.value)
    requires Extends(native, Project(t, field.value).0)
    requires field.key == "reference" && field.value.Str? ==> field.value.s !in native
    requires field.key == "source_references" ==> !field.value.Arr?
    requires !(hidden && (IsBody(field.key) || field.key == "already_read"))
    ensures [RestoreField(native, Field(field.key, Project(t, field.value).1))] == RedactField(Seen(t), field, hidden)
    decreases field, 0
  {
    ConstructorKept(t, field.value);
    ProjectThenRestore(t, field.value, native);
  }

  lemma DecidedFieldThenRestore(t: Table, whole: seq<Field>, now: Table, field: Field, d: Decision,
          native: map<string, string>, seen: set<string>)
    requires Valid(t) && d == Decide(t, whole).1 && Extends(native, Decide(t, whole).0)
    requires CleanNode(whole) && Listed(Obj(whole)) && field in whole && !Visits(field, d)
    ensures RestoreFields(native, ProjectField(now, field, d).1) == RedactField(seen, field, d.hidden)
  {
    hide Decide, Valid, Listed;
    var i :| 0 <= i < |whole| && whole[i] == field;
    DecisionReadsBack(t, whole, native);
    assert Get(whole, field.key) == Some(field.value);
    if field.key == "reference" && d.handle.Some? {
      RestoreOne(native, Field(field.key, Str(d.handle.value)));
    } else if field.key == "already_read" && d.hidden {
      RestoreOne(native, Field(field.key, Bool(true)));
    } else if field.key == "source_references" && d.references.Some? {
      RestoreOne(native, Field(field.key, Arr(d.references.value)));
    }
  }

  /** Projecting leaves strings alone and never turns a value into a string or a list. */
  lemma ConstructorKept(t: Table, v: Json)
    ensures Project(t, v).1.Str? <==> v.Str?
    ensures v.Str? ==> Project(t, v).1 == v
    ensures Project(t, v).1.Arr? <==> v.Arr?
  {}

  lemma NotANativeReference(t: Table, whole: seq<Field>, native: map<string, string>, field: Field, d: Decision)
    requires CleanNode(whole) && UnforgedNode(native, whole) && field in whole && d == Decide(t, whole).1
    requires Visits(field, d)
    ensures field.key == "reference" && field.value.Str? ==> field.value.s !in native
    ensures field.key == "source_references" ==> !field.value.Arr?
  {
    var i :| 0 <= i < |whole| && whole[i] == field;
    assert Get(whole, field.key) == Some(field.value);
  }

  lemma SeenIsStable(t: Table, u: Table)
    requires Valid(t) && Grows(t, u)
    ensures Seen(u) == Seen(t)
  {}

  // ------------------------------------------------ what a handle may stand for

  predicate Bodied(fields: seq<Field>) { Has(fields, "text") || Has(fields, "excerpt") }

  /** The object is named by a native reference, or by what looks like a handle. */
  ghost predicate NamesOriginal(fields: seq<Field>) {
    match Get(fields, "reference")
    case Some(Str(r)) => IsNative(r) || IsHandleName(r)
    case _ => false
  }

  /** Wherever a raw value names an original, or pretends to, it carries its body. */
  ghost predicate BodyCarrying(v: Json)
    decreases v
  {
    match v
    case Arr(items) => forall i :: 0 <= i < |items| ==> BodyCarrying(items[i])
    case Obj(fields) =>
      && (NamesOriginal(fields) ==> Bodied(fields))
      && forall i :: 0 <= i < |fields| ==> BodyCarrying(fields[i].value)
    case _ => true
  }

  /** An object named by a handle carries its body or names an original in `known`. */
  ghost predicate NodeAccounted(known: set<string>, fields: seq<Field>) {
    match Get(fields, "reference")
    case Some(Str(h)) => IsHandleName(h) ==> Bodied(fields) || h in known
    case _ => true
  }

  ghost predicate Accounted(known: set<string>, v: Json)
    decreases v
  {
    match v
    case Arr(items) => forall i :: 0 <= i < |items| ==> Accounted(known, items[i])
    case Obj(fields) =>
      NodeAccounted(known, fields) && forall i :: 0 <= i < |fields| ==> Accounted(known, fields[i].value)
    case _ => true
  }

  /** The handles that name some object of a value, and those whose object carries a body. */
  ghost function Named(v: Json): set<string>
    decreases v, 1
  {
    match v
    case Arr(items) => NamedInItems(items)
    case Obj(fields) =>
      (match Get(fields, "reference") case Some(Str(h)) => {h} case _ => {}) + NamedInFields(fields)
    case _ => {}
  }

  ghost function NamedInItems(items: seq<Json>): set<string>
    decreases items, 0
  {
    if items == [] then {} else Named(items[0]) + NamedInItems(items[1..])
  }

  ghost function NamedInFields(fields: seq<Field>): set<string>
    decreases fields, 0
  {
    if fields == [] then {} else Named(fields[0].value) + NamedInFields(fields[1..])
  }

  ghost function Bodies(v: Json): set<string>
    decreases v, 1
  {
    match v
    case Arr(items) => BodiesInItems(items)
    case Obj(fields) =>
      (match Get(fields, "reference")
       case Some(Str(h)) => (if Bodied(fields) then {h} else {})
       case _ => {})
      + BodiesInFields(fields)
    case _ => {}
  }

  ghost function BodiesInItems(items: seq<Json>): set<string>
    decreases items, 0
  {
    if items == [] then {} else Bodies(items[0]) + BodiesInItems(items[1..])
  }

  ghost function BodiesInFields(fields: seq<Field>): set<string>
    decreases fields, 0
  {
    if fields == [] then {} else Bodies(fields[0].value) + BodiesInFields(fields[1..])
  }

  lemma {:induction false} AccountedNames(known: set<string>, v: Json)
    requires Accounted(known, v)
    ensures forall h :: h in Named(v) && IsHandleName(h) ==> h in Bodies(v) || h in known
    decreases v, 1
  {
    match v
    case Arr(items) => AccountedItemNames(known, items);
    case Obj(fields) => AccountedFieldNames(known, fields);
    case _ =>
  }

  lemma {:induction false} AccountedItemNames(known: set<string>, items: seq<Json>)
    requires forall i :: 0 <= i < |items| ==> Accounted(known, items[i])
    ensures forall h :: h in NamedInItems(items) && IsHandleName(h) ==> h in BodiesInItems(items) || h in known
    decreases items, 0
  {
    if items != [] { AccountedNames(known, items[0]); AccountedItemNames(known, items[1..]); }
  }

  lemma {:induction false} AccountedFieldNames(known: set<string>, fields: seq<Field>)
    requires forall i :: 0 <= i < |fields| ==> Accounted(known, fields[i].value)
    ensures forall h :: h in NamedInFields(fields) && IsHandleName(h) ==> h in BodiesInFields(fields) || h in known
    decreases fields, 0
  {
    if fields != [] { AccountedNames(known, fields[0].value); AccountedFieldNames(known, fields[1..]); }
  }

  lemma {:induction false} ReferenceAfterProject(t: Table, fields: seq<Field>, d: Decision)
    ensures var before, after := Get(fields, "reference"), Get(ProjectFields(t, fields, d).1, "reference");
            && after.Some? == before.Some?
            && (before.Some? && d.handle.Some? ==> after == Some(Str(d.handle.value)))
            && (before.Some? && d.handle.None? ==>
                  after.value.Str? == before.value.Str? && (before.value.Str? ==> after == before))
    decreases fields
  {
    hide Project;
    if fields != [] {
      var (t1, first) := ProjectField(t, fields[0], d);
      var rest := ProjectFields(t1, fields[1..], d).1;
      ReferenceAfterProject(t1, fields[1..], d);
      if Visits(fields[0], d) { ConstructorKept(t, fields[0].value); }
      if first != [] { assert (first + rest)[1..] == rest; } else { assert first + rest == rest; }
    }
  }

  lemma {:induction false} KeysKept(t: Table, fields: seq<Field>, d: Decision, key: string)
    requires !d.hidden
    ensures Has(ProjectFields(t, fields, d).1, key) == Has(fields, key)
    decreases fields
  {
    if fields != [] {
      var (t1, first) := ProjectField(t, fields[0], d);
      KeysKept(t1, fields[1..], d, key);
      assert (first + ProjectFields(t1, fields[1..], d).1)[1..] == ProjectFields(t1, fields[1..], d).1;
    }
  }

  lemma {:induction false} PutAccounted(known: set<string>, fields: seq<Field>, key: string, b: bool)
    requires forall i :: 0 <= i < |fields| ==> Accounted(known, fields[i].value)
    ensures forall i :: 0 <= i < |Put(fields, key, Bool(b))| ==> Accounted(known, Put(fields, key, Bool(b))[i].value)
  {
    if fields != [] && fields[0].key != key { PutAccounted(known, fields[1..], key, b); }
  }

  lemma {:induction false} RenamedAreStrings(t: Table, items: seq<Json>)
    requires AllStrings(items)
    ensures AllStrings(RenameAll(t, items).1)
    decreases |items|
  {
    if items != [] { RenamedAreStrings(With(t, items[0].s), items[1..]); }
  }

  lemma {:induction false} ListedUnderKey(fields: seq<Field>, rest: seq<Field>)
    requires Listed(Obj(fields)) && forall i :: 0 <= i < |rest| ==> rest[i] in fields
    ensures var listed := Get(rest, "source_references");
            listed.Some? && listed.value.Arr? ==> AllStrings(listed.value.items)
  {
    if rest != [] && rest[0].key != "source_references" { ListedUnderKey(fields, rest[1..]); }
  }

  lemma DecidedReferencesAreStrings(t: Table, fields: seq<Field>)
    requires Listed(Obj(fields))
    ensures var d := Decide(t, fields).1; d.references.Some? ==> AllStrings(d.references.value)
  {
    ListedUnderKey(fields, fields);
    var reference, listed := NativeReference(fields), Get(fields, "source_references");
    var t1 := if reference.Some? then With(t, reference.value) else t;
    if listed.Some? && listed.value.Arr? { RenamedAreStrings(t1, listed.value.items); }
  }

  lemma ProjectedNodeAccounted(t: Table, fields: seq<Field>)
    requires Valid(t) && CleanNode(fields) && (NamesOriginal(fields) ==> Bodied(fields))
    ensures var (t1, d) := Decide(t, fields);
            NodeAccounted(t.visible, Marked(ProjectFields(t1, fields, d).1, d.hidden))
  {
    var (t1, d) := Decide(t, fields);
    var projected := ProjectFields(t1, fields, d).1;
    DecideIsValid(t, fields);
    ReferenceAfterProject(t1, fields, d);
    GetAfterPut(projected, "already_read", Bool(true), "reference");
    if !d.hidden {
      KeysKept(t1, fields, d, "text");
      KeysKept(t1, fields, d, "excerpt");
    }
  }

  /** A projected value shows a handle without a body only for an original that was visible before. */
  lemma {:induction false} ProjectAccounts(t: Table, v: Json)
    requires Valid(t) && Clean(v) && Listed(v) && BodyCarrying(v)
    ensures Accounted(t.visible, Project(t, v).1)
    decreases v, 1
  {
    match v
    case Arr(items) => ProjectItemsAccount(t, items);
    case Obj(fields) =>
      var (t1, d) := Decide(t, fields);
      DecideIsValid(t, fields);
      DecidedReferencesAreStrings(t, fields);
      ProjectFieldsAccount(t1, fields, d);
      ProjectedNodeAccounted(t, fields);
      PutAccounted(t.visible, ProjectFields(t1, fields, d).1, "already_read", true);
    case _ =>
  }

  lemma {:induction false} ProjectItemsAccount(t: Table, items: seq<Json>)
    requires Valid(t) && forall i :: 0 <= i < |items| ==> Clean(items[i]) && Listed(items[i]) && BodyCarrying(items[i])
    ensures forall i :: 0 <= i < |ProjectItems(t, items).1| ==> Accounted(t.visible, ProjectItems(t, items).1[i])
    decreases items, 0
  {
    if items != [] {
      ProjectAccounts(t, items[0]);
      ProjectIsValid(t, items[0]);
      ProjectItemsAccount(Project(t, items[0]).0, items[1..]);
    }
  }

  lemma {:induction false} ProjectFieldsAccount(t: Table, fields: seq<Field>, d: Decision)
    requires Valid(t)
    requires forall i :: 0 <= i < |fields| ==>
               Clean(fields[i].value) && Listed(fields[i].value) && BodyCarrying(fields[i].value)
    requires d.references.Some? ==> AllStrings(d.references.value)
    ensures forall i :: 0 <= i < |ProjectFields(t, fields, d).1| ==>
              Accounted(t.visible, ProjectFields(t, fields, d).1[i].value)
    decreases fields, 0
  {
    if fields != [] {
      var (t1, first) := ProjectField(t, fields[0], d);
      ProjectFieldIsValid(t, fields[0], d);
      if Visits(fields[0], d) { ProjectAccounts(t, fields[0].value); }
      assert |first| <= 1 && forall i :: 0 <= i < |first| ==> Accounted(t.visible, first[i].value);
      ProjectFieldsAccount(t1, fields[1..], d);
    }
  }

  // ------------------------------------------------------------------ citations

  datatype Citation = Citation(kind: string, reference: string)

  datatype Claim = Claim(text: string, state: string, citations: seq<Citation>)

  predicate Citable(t: Table, citation: Citation) {
    citation.kind == "reference" && citation.reference in t.visible && citation.reference in t.native
  }

  predicate AllCitable(t: Table, claims: seq<Claim>) {
    forall i, k :: 0 <= i < |claims| && 0 <= k < |claims[i].citations| ==> Citable(t, claims[i].citations[k])
  }

  /** Citations can be resolved exactly if each is of a reference and its handle is visible. */
  lemma CitableIsVisible(t: Table, claims: seq<Claim>)
    requires Valid(t)
    ensures AllCitable(t, claims) <==>
            forall i, k :: 0 <= i < |claims| && 0 <= k < |claims[i].citations| ==>
              claims[i].citations[k].kind == "reference" && claims[i].citations[k].reference in t.visible
  {}

  /** The claims with every citation replaced by the native reference of its handle, and nothing else changed. */
  ghost predicate ResolvedTo(t: Table, claims: seq<Claim>, resolved: seq<Claim>) {
    && |resolved| == |claims|
    && forall i :: 0 <= i < |claims| ==>
         && resolved[i].text == claims[i].text && resolved[i].state == claims[i].state
         && ResolvedCitations(t, claims[i].citations, resolved[i].citations)
  }

  ghost predicate ResolvedCitations(t: Table, citations: seq<Citation>, resolved: seq<Citation>) {
    && |resolved| == |citations|
    && forall k :: 0 <= k < |citations| ==>
         && citations[k].reference in t.native
         && resolved[k] == Citation(citations[k].kind, t.native[citations[k].reference])
  }

  /** Exposing a value makes visible exactly the handles that name one of its objects. */
  ghost function ExposedBy(t: Table, v: Json): Table {
    t.(visible := t.visible + (Named(v) * t.native.Keys))
  }

  /**
   Resolving undoes projecting: the handle that a value carries for an original, once
   exposed, resolves to that original's native reference now and ever after.
   */
  lemma ResolveUndoesProject(t: Table, fields: seq<Field>, later: Table)
    requires Valid(t) && NativeReference(fields).Some?
    requires Extends(later.native, Project(t, Obj(fields)).0)
    requires Named(Project(t, Obj(fields)).1) * later.native.Keys <= later.visible
    ensures var shown := Get(Project(t, Obj(fields)).1.fields, "reference");
            && shown.Some? && shown.value.Str?
            && Citable(later, Citation("reference", shown.value.s))
            && later.native[shown.value.s] == NativeReference(fields).value
  {
    var (t1, d) := Decide(t, fields);
    var projected := ProjectFields(t1, fields, d).1;
    DecideIsValid(t, fields);
    ProjectFieldsIsValid(t1, fields, d);
    ReferenceAfterProject(t1, fields, d);
    GetAfterPut(projected, "already_read", Bool(true), "reference");
    assert Get(Project(t, Obj(fields)).1.fields, "reference") == Some(Str(d.handle.value));
    assert d.handle.value in Named(Project(t, Obj(fields)).1);
  }

  lemma OneField(key: string, v: Json, other: string)
    ensures Get([Field(key, v)], other) == if other == key then Some(v) else None
  {
    assert [Field(key, v)][1..] == [] && Get([], other) == None;
  }

  lemma ProjectForged(t: Table, h: string)
    requires !IsNative(h)
    ensures Project(t, Obj([Field("reference", Str(h))])) == (t, Obj([Field("reference", Str(h))]))
  {
    var fields, d := [Field("reference", Str(h))], Decision(None, false, None);
    OneField("reference", Str(h), "reference");
    OneField("reference", Str(h), "source_references");
    assert Decide(t, fields) == (t, d);
    assert fields[1..] == [] && ProjectFields(t, [], d) == (t, []);
    assert ProjectField(t, fields[0], d) == (t, fields) && fields + [] == fields;
  }

  /**
   A raw object that is named by a handle of the table, though that is no native reference,
   passes unchanged, makes the handle visible without any body, and reads back as the
   original: projecting relies on results not to forge handles.
   */
  lemma ForgedHandlePasses(t: Table, h: string)
    requires Valid(t) && h in t.native && !IsNative(h)
    ensures var v := Obj([Field("reference", Str(h))]);
            && Project(t, v) == (t, v) && h in ExposedBy(t, v).visible && h !in Bodies(v)
            && Restore(t.native, v) == Obj([Field("reference", Str(t.native[h]))])
  {
    var fields := [Field("reference", Str(h))];
    ProjectForged(t, h);
    OneField("reference", Str(h), "reference");
    OneField("reference", Str(h), "text");
    OneField("reference", Str(h), "excerpt");
    assert fields[1..] == [] && BodiesInFields(fields) == Bodies(Str(h)) + BodiesInFields([]) == {};
    assert h in Named(Obj(fields));
    RestoreOne(t.native, fields[0]);
  }

  // --------------------------------------------------------- the mutable registry

  class Registry {
    var native: map<string, string>
    var visible: set<string>

    ghost function Now(): Table
      reads this
    {
      Table(native, visible)
    }

    constructor ()
      ensures Valid(Now()) && native == map[] && visible == {}
    {
      native, visible := map[], {};
    }

    method Handle(reference: string) returns (handle: string)
      requires Valid(Now())
      modifies this`native
      ensures handle == HandleFor(old(Now()), reference) && Now() == With(old(Now()), reference) && Valid(Now())
    {
      WithIsValid(Now(), reference);
      var left := native.Keys;
      while left != {}
        invariant left <= native.Keys && forall h :: h in native.Keys - left ==> native[h] != reference
        decreases left
      {
        handle :| handle in left;
        if native[handle] == reference {
          assert native[handle] in native.Values && native[handle := reference] == native;
          return;
        }
        left := left - {handle};
      }
      handle := HandleName(|native| + 1);
      native := native[handle := reference];
    }

    method RenameList(items: seq<Json>) returns (renamed: seq<Json>)
      requires Valid(Now())
      modifies this`native
      ensures (Now(), renamed) == RenameAll(old(Now()), items) && Valid(Now())
      decreases |items|
    {
      if items == [] {
        return [];
      }
      var first := items[0];
      if first.Str? {
        var handle := Handle(first.s);
        first := Str(handle);
      }
      var rest := RenameList(items[1..]);
      renamed := [first] + rest;
    }

    method ProjectValue(v: Json) returns (projected: Json)
      requires Valid(Now())
      modifies this`native
      ensures (Now(), projected) == Project(old(Now()), v) && Valid(Now())
      decreases v, 1
    {
      match v {
        case Arr(items) =>
          var inner := ProjectList(items);
          projected := Arr(inner);
        case Obj(fields) =>
          var d := DecideNode(fields);
          var inner := ProjectObject(fields, d);
          projected := Obj(Marked(inner, d.hidden));
        case _ =>
          projected := v;
      }
    }

    method DecideNode(fields: seq<Field>) returns (d: Decision)
      requires Valid(Now())
      modifies this`native
      ensures (Now(), d) == Decide(old(Now()), fields) && Valid(Now())
    {
      var reference := NativeReference(fields);
      var handle: Option<string> := None;
      if reference.Some? {
        var h := Handle(reference.value);
        handle := Some(h);
      }
      var listed := Get(fields, "source_references");
      var references: Option<seq<Json>> := None;
      if listed.Some? && listed.value.Arr? {
        var renamed := RenameList(listed.value.items);
        references := Some(renamed);
      }
      d := Decision(handle, handle.Some? && handle.value in visible, references);
    }

    method ProjectList(items: seq<Json>) returns (projected: seq<Json>)
      requires Valid(Now())
      modifies this`native
      ensures (Now(), projected) == ProjectItems(old(Now()), items) && Valid(Now())
      decreases items, 0
    {
      if items == [] {
        return [];
      }
      var first := ProjectValue(items[0]);
      var rest := ProjectList(items[1..]);
      projected := [first] + rest;
    }

    method ProjectObject(fields: seq<Field>, d: Decision) returns (projected: seq<Field>)
      requires Valid(Now())
      modifies this`native
      ensures (Now(), projected) == ProjectFields(old(Now()), fields, d) && Valid(Now())
      decreases fields, 0
    {
      if fields == [] {
        return [];
      }
      var field := fields[0];
      var first: seq<Field> := [];
      if field.key == "reference" && d.handle.Some? {
        first := [Field(field.key, Str(d.handle.value))];
      } else if d.hidden && IsBody(field.key) {
        // The original is still in this conversation: its body is not charged again.
      } else if d.hidden && field.key == "already_read" {
        first := [Field(field.key, Bool(true))];
      } else if field.key == "source_references" && d.references.Some? {
        first := [Field(field.key, Arr(d.references.value))];
      } else {
        var value := ProjectValue(field.value);
        first := [Field(field.key, value)];
      }
      var rest := ProjectObject(fields[1..], d);
      projected := first + rest;
    }

    method Expose(v: Json)
      modifies this`visible
      ensures Now() == ExposedBy(old(Now()), v)
      decreases v, 1
    {
      match v {
        case Arr(items) =>
          ExposeItems(items);
        case Obj(fields) =>
          var reference := Get(fields, "reference");
          if reference.Some? && reference.value.Str? && reference.value.s in native {
            visible := visible + {reference.value.s};
          }
          ExposeFields(fields);
        case _ =>
      }
    }

    method ExposeItems(items: seq<Json>)
      modifies this`visible
      ensures native == old(native) && visible == old(visible) + (NamedInItems(items) * native.Keys)
      decreases items, 0
    {
      if items != [] {
        Expose(items[0]);
        ExposeItems(items[1..]);
      }
    }

    method ExposeFields(fields: seq<Field>)
      modifies this`visible
      ensures native == old(native) && visible == old(visible) + (NamedInFields(fields) * native.Keys)
      decreases fields, 0
    {
      if fields != [] {
        Expose(fields[0].value);
        ExposeFields(fields[1..]);
      }
    }

    /** Only handles of originals already returned in this conversation resolve; anything else rejects the claims. */
    method Resolve(claims: seq<Claim>) returns (r: Option<seq<Claim>>)
      requires Valid(Now())
      ensures r.Some? <==> AllCitable(Now(), claims)
      ensures r.Some? <==>
                forall i, k :: 0 <= i < |claims| && 0 <= k < |claims[i].citations| ==>
                  claims[i].citations[k].kind == "reference" && claims[i].citations[k].reference in visible
      ensures r.Some? ==> ResolvedTo(Now(), claims, r.value)
    {
      CitableIsVisible(Now(), claims);
      hide Valid, Citable;
      var resolved: seq<Claim> := [];
      for i := 0 to |claims|
        invariant |resolved| == i && AllCitable(Now(), claims[..i]) && ResolvedTo(Now(), claims[..i], resolved)
      {
        var citations := ResolveOne(claims[i].citations);
        if citations.None? {
          return None;
        }
        resolved := resolved + [claims[i].(citations := citations.value)];
      }
      assert claims[..|claims|] == claims;
      r := Some(resolved);
    }

    method ResolveOne(given: seq<Citation>) returns (r: Option<seq<Citation>>)
      requires Valid(Now())
      ensures r.Some? <==> forall k :: 0 <= k < |given| ==> Citable(Now(), given[k])
      ensures r.Some? ==> ResolvedCitations(Now(), given, r.value)
    {
      var citations: seq<Citation> := [];
      for k := 0 to |given|
        invariant |citations| == k && ResolvedCitations(Now(), given[..k], citations)
        invariant forall j :: 0 <= j < k ==> Citable(Now(), given[j])
      {
        var citation := given[k];
        if citation.kind != "reference" || citation.reference !in visible {
          return None;
        }
        citations := citations + [Citation(citation.kind, native[citation.reference])];
      }
      assert given[..|given|] == given;
      r := Some(citations);
    }
  }
}
