/**
 JSON values as the evidence host handles them, with their exact serialised size.

 A string is modelled by its UTF-8 encoding, one `char` per byte, so that byte
 counts are lengths. An object is an ordered list of fields, as a Python `dict` is.
 */
module Json {
  import opened Wrappers

  datatype Json =
    | Null
    | Bool(b: bool)
    | Num(digits: string)
    | Str(s: string)
    | Arr(items: seq<Json>)
    | Obj(fields: seq<Field>)

  datatype Field = Field(key: string, value: Json)

  /** `json.dumps` with `ensure_ascii=False`, encoded as UTF-8, or with its default, counted in characters. */
  datatype Encoding = Utf8 | Ascii

  function CharSize(c: char, encoding: Encoding): nat {
    var code := c as int;
    if c == '"' || c == '\\' || c == '\n' || c == '\r' || c == '\t' || code == 8 || code == 12 then 2
    else if code < 0x20 then 6
    else if encoding == Utf8 || code < 0x7f then 1
    else if code == 0x7f then 6
    // \uXXXX for a lead byte, twice for a surrogate pair; continuation bytes are covered by their lead byte.
    else if code < 0xc0 then 0
    else if code < 0xf0 then 6
    else 12
  }

  function TextSize(s: string, encoding: Encoding): nat {
    if s == "" then 0 else CharSize(s[0], encoding) + TextSize(s[1..], encoding)
  }

  function Size(v: Json, encoding: Encoding): nat {
    match v
    case Null => 4
    case Bool(b) => if b then 4 else 5
    case Num(digits) => |digits|
    case Str(s) => 2 + TextSize(s, encoding)
    case Arr(items) => 2 + ItemsSize(items, encoding)
    case Obj(fields) => 2 + FieldsSize(fields, encoding)
  }

  /** Items with a two-byte separator between them. */
  function ItemsSize(items: seq<Json>, encoding: Encoding): nat {
    if items == [] then 0
    else Size(items[0], encoding) + (if |items| == 1 then 0 else 2) + ItemsSize(items[1..], encoding)
  }

  function FieldsSize(fields: seq<Field>, encoding: Encoding): nat {
    if fields == [] then 0
    else 2 + TextSize(fields[0].key, encoding) + 2 + Size(fields[0].value, encoding)
           + (if |fields| == 1 then 0 else 2) + FieldsSize(fields[1..], encoding)
  }

  function Bytes(v: Json): nat { Size(v, Utf8) }

  // ------------------------------------------------------------------- fields

  function Get(fields: seq<Field>, key: string): Option<Json> {
    if fields == [] then None
    else if fields[0].key == key then Some(fields[0].value)
    else Get(fields[1..], key)
  }

  predicate Has(fields: seq<Field>, key: string) { Get(fields, key).Some? }

  /** Assigning to a key keeps its place, or appends it. */
  function Put(fields: seq<Field>, key: string, value: Json): seq<Field> {
    if fields == [] then [Field(key, value)]
    else if fields[0].key == key then [Field(key, value)] + fields[1..]
    else [fields[0]] + Put(fields[1..], key, value)
  }

  function Remove(fields: seq<Field>, key: string): seq<Field> {
    if fields == [] then []
    else if fields[0].key == key then Remove(fields[1..], key)
    else [fields[0]] + Remove(fields[1..], key)
  }

  lemma {:induction false} GetAfterPut(fields: seq<Field>, key: string, value: Json, other: string)
    ensures Get(Put(fields, key, value), other) == if other == key then Some(value) else Get(fields, other)
  {
    if fields != [] && fields[0].key != key {
      GetAfterPut(fields[1..], key, value, other);
      assert Put(fields, key, value)[1..] == Put(fields[1..], key, value);
    } else if fields != [] {
      assert Put(fields, key, value)[1..] == fields[1..];
    }
  }

  lemma {:induction false} RemoveAfterPut(fields: seq<Field>, key: string, value: Json)
    ensures Remove(Put(fields, key, value), key) == Remove(fields, key)
  {
    if fields != [] && fields[0].key != key {
      RemoveAfterPut(fields[1..], key, value);
      assert Put(fields, key, value)[1..] == Put(fields[1..], key, value);
    } else if fields != [] {
      assert Put(fields, key, value)[1..] == fields[1..];
    }
  }

  predicate Lacks(fields: seq<Field>, key: string) { forall i :: 0 <= i < |fields| ==> fields[i].key != key }

  lemma {:induction false} GetPast(a: seq<Field>, b: seq<Field>, key: string)
    requires Lacks(a, key)
    ensures Get(a + b, key) == Get(b, key)
  {
    if a == [] {
      assert a + b == b;
    } else {
      assert (a + b)[1..] == a[1..] + b;
      GetPast(a[1..], b, key);
    }
  }

  lemma GetAbsent(fields: seq<Field>, key: string)
    requires Lacks(fields, key)
    ensures Get(fields, key) == None
  {
    GetPast(fields, [], key);
    assert fields + [] == fields;
  }

  lemma GetBetween(a: seq<Field>, field: Field, b: seq<Field>)
    requires Lacks(a, field.key)
    ensures Get(a + [field] + b, field.key) == Some(field.value)
  {
    assert a + [field] + b == a + ([field] + b);
    GetPast(a, [field] + b, field.key);
  }

  lemma LacksAround(a: seq<Field>, field: Field, b: seq<Field>, key: string)
    requires Lacks(a, key) && field.key != key && Lacks(b, key)
    ensures Get(a + [field] + b, key) == None
  {
    GetAbsent(a + [field] + b, key);
  }

  // ------------------------------------------------------------- escaping bound

  /** JSON escaping costs at most six bytes per original byte. */
  lemma {:induction false} EscapingBound(s: string)
    ensures |s| <= TextSize(s, Utf8) <= 6 * |s|
  {
    if s != "" { EscapingBound(s[1..]); }
  }

  predicate Plain(s: string) { forall i :: 0 <= i < |s| ==> CharSize(s[i], Utf8) == 1 }

  lemma {:induction false} PlainSize(s: string)
    requires Plain(s)
    ensures TextSize(s, Utf8) == |s|
  {
    if s != "" {
      assert forall i :: 0 <= i < |s[1..]| ==> s[1..][i] == s[i + 1];
      PlainSize(s[1..]);
    }
  }

  // ------------------------------------------------------------- outermost lists

  /** The lists reached through objects only, in the order a depth-first walk meets them. */
  function OuterLists(v: Json): seq<seq<Json>> {
    match v
    case Arr(items) => [items]
    case Obj(fields) => OuterListsOf(fields)
    case _ => []
  }

  function OuterListsOf(fields: seq<Field>): seq<seq<Json>> {
    if fields == [] then [] else OuterLists(fields[0].value) + OuterListsOf(fields[1..])
  }

  /** Drop the last record of the `n`-th outermost list. */
  function PopNth(v: Json, n: nat): Json
    requires n < |OuterLists(v)| && OuterLists(v)[n] != []
  {
    match v
    case Arr(items) => Arr(items[..|items| - 1])
    case Obj(fields) => Obj(PopField(fields, n))
  }

  function PopField(fields: seq<Field>, n: nat): seq<Field>
    requires n < |OuterListsOf(fields)| && OuterListsOf(fields)[n] != []
  {
    var own := |OuterLists(fields[0].value)|;
    if n < own then [Field(fields[0].key, PopNth(fields[0].value, n))] + fields[1..]
    else [fields[0]] + PopField(fields[1..], n - own)
  }

  function Total(lists: seq<seq<Json>>): nat {
    if lists == [] then 0 else |lists[0]| + Total(lists[1..])
  }

  lemma {:induction false} TotalConcat(a: seq<seq<Json>>, b: seq<seq<Json>>)
    ensures Total(a + b) == Total(a) + Total(b)
  {
    if a == [] {
      assert a + b == b;
    } else {
      assert (a + b)[1..] == a[1..] + b;
      TotalConcat(a[1..], b);
    }
  }

  lemma {:induction false} PopDecreases(v: Json, n: nat)
    requires n < |OuterLists(v)| && OuterLists(v)[n] != []
    ensures Total(OuterLists(PopNth(v, n))) == Total(OuterLists(v)) - 1
    decreases v, 1
  {
    match v
    case Arr(items) =>
    case Obj(fields) => PopFieldDecreases(fields, n);
  }

  lemma {:induction false} PopFieldDecreases(fields: seq<Field>, n: nat)
    requires n < |OuterListsOf(fields)| && OuterListsOf(fields)[n] != []
    ensures Total(OuterListsOf(PopField(fields, n))) == Total(OuterListsOf(fields)) - 1
    decreases fields, 0
  {
    var first, rest := OuterLists(fields[0].value), OuterListsOf(fields[1..]);
    TotalConcat(first, rest);
    var popped := PopField(fields, n);
    if n < |first| {
      PopDecreases(fields[0].value, n);
      assert popped[1..] == fields[1..];
      TotalConcat(OuterLists(popped[0].value), rest);
    } else {
      PopFieldDecreases(fields[1..], n - |first|);
      assert popped[1..] == PopField(fields[1..], n - |first|);
      TotalConcat(first, OuterListsOf(popped[1..]));
    }
  }

  // -------------------------------------------------------- whole-record cuts

  /** `cut` is `v` with outermost lists shortened to prefixes: records are kept whole. */
  predicate IsCut(v: Json, cut: Json) {
    match (v, cut)
    case (Arr(a), Arr(b)) => b <= a
    case (Obj(f), Obj(g)) => FieldsCut(f, g)
    case _ => v == cut
  }

  predicate FieldsCut(fields: seq<Field>, cut: seq<Field>) {
    && |fields| == |cut|
    && (|| fields == []
        || (&& fields[0].key == cut[0].key
            && IsCut(fields[0].value, cut[0].value)
            && FieldsCut(fields[1..], cut[1..])))
  }

  lemma {:induction false} CutReflexive(v: Json)
    ensures IsCut(v, v)
    decreases v, 1
  {
    if v.Obj? { FieldsCutReflexive(v.fields); }
  }

  lemma {:induction false} FieldsCutReflexive(fields: seq<Field>)
    ensures FieldsCut(fields, fields)
    decreases fields, 0
  {
    if fields != [] { CutReflexive(fields[0].value); FieldsCutReflexive(fields[1..]); }
  }

  lemma {:induction false} CutTransitive(a: Json, b: Json, c: Json)
    requires IsCut(a, b) && IsCut(b, c)
    ensures IsCut(a, c)
    decreases a, 1
  {
    if a.Obj? { FieldsCutTransitive(a.fields, b.fields, c.fields); }
  }

  lemma {:induction false} FieldsCutTransitive(a: seq<Field>, b: seq<Field>, c: seq<Field>)
    requires FieldsCut(a, b) && FieldsCut(b, c)
    ensures FieldsCut(a, c)
    decreases a, 0
  {
    if a != [] {
      CutTransitive(a[0].value, b[0].value, c[0].value);
      FieldsCutTransitive(a[1..], b[1..], c[1..]);
    }
  }

  lemma {:induction false} PopIsCut(v: Json, n: nat)
    requires n < |OuterLists(v)| && OuterLists(v)[n] != []
    ensures IsCut(v, PopNth(v, n))
    decreases v, 1
  {
    if v.Obj? { PopFieldIsCut(v.fields, n); }
  }

  lemma {:induction false} PopFieldIsCut(fields: seq<Field>, n: nat)
    requires n < |OuterListsOf(fields)| && OuterListsOf(fields)[n] != []
    ensures FieldsCut(fields, PopField(fields, n))
    decreases fields, 0
  {
    var own := |OuterLists(fields[0].value)|;
    var popped := PopField(fields, n);
    if n < own {
      PopIsCut(fields[0].value, n);
      assert popped[1..] == fields[1..];
      FieldsCutReflexive(fields[1..]);
    } else {
      PopFieldIsCut(fields[1..], n - own);
      assert popped[1..] == PopField(fields[1..], n - own);
      CutReflexive(fields[0].value);
    }
  }

  lemma {:induction false} RemoveKeepsCut(fields: seq<Field>, cut: seq<Field>, key: string)
    requires FieldsCut(fields, cut)
    ensures FieldsCut(Remove(fields, key), Remove(cut, key))
    decreases fields
  {
    if fields != [] {
      RemoveKeepsCut(fields[1..], cut[1..], key);
      if fields[0].key != key {
        assert Remove(fields, key)[1..] == Remove(fields[1..], key);
        assert Remove(cut, key)[1..] == Remove(cut[1..], key);
      }
    }
  }
}
