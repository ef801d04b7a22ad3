/**
 Fitting an oversized result (`scripts/benchmark_pilot/tools.py`, lines 273-288): whole
 records are dropped from the tail of the heaviest outermost list until the
 serialised object fits, or there is nothing left to drop.

 The source collects the lists once, before the loop. It edits them in place, so the
 lists of the current object are the same ones; a list that assigning `truncated`
 detaches can only cost idle iterations there, never change the result.
 */
module Truncation {
  import opened Wrappers
  import opened Json

  predicate Fits(fields: seq<Field>, cap: int) { Bytes(Obj(fields)) <= cap }

  /** The weight of a list is its default serialisation, not the UTF-8 one the limit is about. */
  function Weight(items: seq<Json>): nat { Size(Arr(items), Ascii) }

  /** The first of the heaviest non-empty lists. */
  function Heaviest(lists: seq<seq<Json>>): (r: Option<nat>)
    ensures r.Some? ==> r.value < |lists| && lists[r.value] != []
  {
    if lists == [] then None
    else
      var last := |lists| - 1;
      var best := Heaviest(lists[..last]);
      if lists[last] == [] || (best.Some? && Weight(lists[best.value]) >= Weight(lists[last])) then best else Some(last)
  }

  lemma {:induction false} HeaviestMeans(lists: seq<seq<Json>>)
    ensures Heaviest(lists).None? <==> forall i :: 0 <= i < |lists| ==> lists[i] == []
    ensures var h := Heaviest(lists);
            h.Some? ==>
              && (forall i :: 0 <= i < |lists| && lists[i] != [] ==> Weight(lists[i]) <= Weight(lists[h.value]))
              && (forall i :: 0 <= i < h.value && lists[i] != [] ==> Weight(lists[i]) < Weight(lists[h.value]))
  {
    if lists != [] {
      var last := |lists| - 1;
      HeaviestMeans(lists[..last]);
      assert forall i :: 0 <= i < last ==> lists[..last][i] == lists[i];
    }
  }

  function Shed(fields: seq<Field>, n: nat): seq<Field>
    requires n < |OuterListsOf(fields)| && OuterListsOf(fields)[n] != []
  {
    Put(PopField(fields, n), "truncated", Bool(true))
  }

  /** The fitted object, or nothing when dropping every record does not suffice. */
  function Fit(fields: seq<Field>, cap: int): Option<seq<Field>>
    decreases Total(OuterListsOf(fields))
  {
    if Fits(fields, cap) then Some(fields)
    else
      match Heaviest(OuterListsOf(fields))
      case None => None
      case Some(n) => ShedDecreases(fields, n); Fit(Shed(fields, n), cap)
  }

  lemma {:induction false} PutFlagTotal(fields: seq<Field>, key: string, b: bool)
    ensures Total(OuterListsOf(Put(fields, key, Bool(b)))) <= Total(OuterListsOf(fields))
  {
    if fields != [] {
      var put := Put(fields, key, Bool(b));
      TotalConcat(OuterLists(fields[0].value), OuterListsOf(fields[1..]));
      TotalConcat(OuterLists(put[0].value), OuterListsOf(put[1..]));
      if fields[0].key == key {
        assert put[1..] == fields[1..];
      } else {
        PutFlagTotal(fields[1..], key, b);
        assert put[1..] == Put(fields[1..], key, Bool(b));
      }
    } else {
      assert [Field(key, Bool(b))][1..] == [];
    }
  }

  /** Every pass drops a record, which is why the loop ends. */
  lemma ShedDecreases(fields: seq<Field>, n: nat)
    requires n < |OuterListsOf(fields)| && OuterListsOf(fields)[n] != []
    ensures Total(OuterListsOf(Shed(fields, n))) < Total(OuterListsOf(fields))
  {
    PopFieldDecreases(fields, n);
    PutFlagTotal(PopField(fields, n), "truncated", true);
  }

  // ------------------------------------------------------ what survives is whole

  /**
   A fitted object is within the limit. If anything was dropped it says so, and apart
   from that flag it is the original with outermost lists cut to prefixes.
   */
  lemma {:induction false} FitKeepsWholeRecords(fields: seq<Field>, cap: int)
    requires Fit(fields, cap).Some?
    ensures var fitted := Fit(fields, cap).value;
            && Fits(fitted, cap)
            && (if Fits(fields, cap) then fitted == fields else Get(fitted, "truncated") == Some(Bool(true)))
            && FieldsCut(Remove(fields, "truncated"), Remove(fitted, "truncated"))
    decreases Total(OuterListsOf(fields))
  {
    var fitted := Fit(fields, cap).value;
    if Fits(fields, cap) {
      FieldsCutReflexive(Remove(fields, "truncated"));
    } else {
      var n := Heaviest(OuterListsOf(fields)).value;
      var popped := PopField(fields, n);
      ShedDecreases(fields, n);
      FitKeepsWholeRecords(Shed(fields, n), cap);
      GetAfterPut(popped, "truncated", Bool(true), "truncated");
      RemoveAfterPut(popped, "truncated", Bool(true));
      PopFieldIsCut(fields, n);
      RemoveKeepsCut(fields, popped, "truncated");
      FieldsCutTransitive(Remove(fields, "truncated"), Remove(popped, "truncated"), Remove(fitted, "truncated"));
    }
  }

  /** No record is dropped needlessly: with the last one put back, the object did not fit. */
  lemma {:induction false} FitStopsAtOnce(fields: seq<Field>, cap: int) returns (before: seq<Field>, n: nat)
    requires Fit(fields, cap).Some? && !Fits(fields, cap)
    ensures Heaviest(OuterListsOf(before)) == Some(n) && !Fits(before, cap) && Fit(fields, cap).value == Shed(before, n)
    decreases Total(OuterListsOf(fields))
  {
    before, n := fields, Heaviest(OuterListsOf(fields)).value;
    ShedDecreases(fields, n);
    if !Fits(Shed(fields, n), cap) { before, n := FitStopsAtOnce(Shed(fields, n), cap); }
  }

  // -------------------------------------------- when no amount of dropping helps

  function Emptied(v: Json): Json
    decreases v, 1
  {
    match v
    case Arr(items) => Arr([])
    case Obj(fields) => Obj(EmptiedFields(fields))
    case _ => v
  }

  function EmptiedFields(fields: seq<Field>): seq<Field>
    decreases fields, 0
  {
    if fields == [] then [] else [Field(fields[0].key, Emptied(fields[0].value))] + EmptiedFields(fields[1..])
  }

  /** The object with every record dropped. */
  function Drained(fields: seq<Field>): seq<Field> { Put(EmptiedFields(fields), "truncated", Bool(true)) }

  lemma {:induction false} EmptiedAfterPop(v: Json, n: nat)
    requires n < |OuterLists(v)| && OuterLists(v)[n] != []
    ensures Emptied(PopNth(v, n)) == Emptied(v)
    decreases v, 1
  {
    if v.Obj? { EmptiedFieldsAfterPop(v.fields, n); }
  }

  lemma {:induction false} EmptiedFieldsAfterPop(fields: seq<Field>, n: nat)
    requires n < |OuterListsOf(fields)| && OuterListsOf(fields)[n] != []
    ensures EmptiedFields(PopField(fields, n)) == EmptiedFields(fields)
    decreases fields, 0
  {
    var own := |OuterLists(fields[0].value)|;
    var popped := PopField(fields, n);
    if n < own {
      EmptiedAfterPop(fields[0].value, n);
      assert popped[1..] == fields[1..];
    } else {
      EmptiedFieldsAfterPop(fields[1..], n - own);
      assert popped[1..] == PopField(fields[1..], n - own);
    }
  }

  lemma {:induction false} EmptiedAfterPut(fields: seq<Field>, key: string, b: bool)
    ensures EmptiedFields(Put(fields, key, Bool(b))) == Put(EmptiedFields(fields), key, Bool(b))
  {
    if fields == [] {
      assert [Field(key, Bool(b))][1..] == [];
    } else {
      var emptied := EmptiedFields(fields);
      assert emptied[1..] == EmptiedFields(fields[1..]);
      if fields[0].key == key {
        assert Put(fields, key, Bool(b))[1..] == fields[1..];
      } else {
        EmptiedAfterPut(fields[1..], key, b);
        assert Put(fields, key, Bool(b))[1..] == Put(fields[1..], key, Bool(b));
      }
    }
  }

  lemma {:induction false} PutAgain(fields: seq<Field>, key: string, v: Json)
    ensures Put(Put(fields, key, v), key, v) == Put(fields, key, v)
  {
    if fields != [] && fields[0].key != key {
      PutAgain(fields[1..], key, v);
      assert Put(fields, key, v)[1..] == Put(fields[1..], key, v);
    } else if fields != [] {
      assert Put(fields, key, v)[1..] == fields[1..];
    }
  }

  lemma DrainedAfterShed(fields: seq<Field>, n: nat)
    requires n < |OuterListsOf(fields)| && OuterListsOf(fields)[n] != []
    ensures Drained(Shed(fields, n)) == Drained(fields)
  {
    EmptiedAfterPut(PopField(fields, n), "truncated", true);
    EmptiedFieldsAfterPop(fields, n);
    PutAgain(EmptiedFields(fields), "truncated", Bool(true));
  }

  lemma {:induction false} EmptiedIsSmaller(v: Json)
    ensures Bytes(Emptied(v)) <= Bytes(v)
    decreases v, 1
  {
    if v.Obj? { EmptiedFieldsAreSmaller(v.fields); }
  }

  lemma {:induction false} EmptiedFieldsAreSmaller(fields: seq<Field>)
    ensures |EmptiedFields(fields)| == |fields|
    ensures FieldsSize(EmptiedFields(fields), Utf8) <= FieldsSize(fields, Utf8)
    decreases fields, 0
  {
    if fields != [] {
      EmptiedIsSmaller(fields[0].value);
      EmptiedFieldsAreSmaller(fields[1..]);
      assert EmptiedFields(fields)[1..] == EmptiedFields(fields[1..]);
    }
  }

  lemma {:induction false} EmptiedWhenEmpty(v: Json)
    requires Total(OuterLists(v)) == 0
    ensures Emptied(v) == v
    decreases v, 1
  {
    if v.Obj? { EmptiedFieldsWhenEmpty(v.fields); }
    if v.Arr? { TotalConcat([v.items], []); assert [v.items][1..] == []; }
  }

  lemma {:induction false} EmptiedFieldsWhenEmpty(fields: seq<Field>)
    requires Total(OuterListsOf(fields)) == 0
    ensures EmptiedFields(fields) == fields
    decreases fields, 0
  {
    if fields != [] {
      TotalConcat(OuterLists(fields[0].value), OuterListsOf(fields[1..]));
      EmptiedWhenEmpty(fields[0].value);
      EmptiedFieldsWhenEmpty(fields[1..]);
    }
  }

  lemma {:induction false} TotalIsZero(lists: seq<seq<Json>>)
    ensures Total(lists) == 0 <==> forall i :: 0 <= i < |lists| ==> lists[i] == []
  {
    if lists != [] {
      TotalIsZero(lists[1..]);
      assert forall i :: 1 <= i < |lists| ==> lists[i] == lists[1..][i - 1];
      if Total(lists) == 0 {
        forall i | 0 <= i < |lists| ensures lists[i] == [] {
          if i > 0 { assert lists[1..][i - 1] == []; }
        }
      } else if lists[0] == [] {
        var j :| 0 <= j < |lists[1..]| && lists[1..][j] != [];
        assert lists[j + 1] != [];
      }
    }
  }

  lemma ShedIsDrainedLast(fields: seq<Field>, n: nat)
    requires n < |OuterListsOf(fields)| && OuterListsOf(fields)[n] != []
    ensures var s := Shed(fields, n);
            && (Total(OuterListsOf(s)) == 0 ==> s == Drained(fields))
            && Bytes(Obj(Drained(fields))) <= Bytes(Obj(s))
  {
    var popped := PopField(fields, n);
    var s := Shed(fields, n);
    DrainedAfterShed(fields, n);
    EmptiedAfterPut(popped, "truncated", true);
    PutAgain(EmptiedFields(popped), "truncated", Bool(true));
    assert Drained(s) == EmptiedFields(s);
    EmptiedFieldsAreSmaller(s);
    if Total(OuterListsOf(s)) == 0 { EmptiedFieldsWhenEmpty(s); }
  }

  /** A result is given up exactly when not even the object without any record fits. */
  lemma {:induction false} GivenUpIff(fields: seq<Field>, cap: int)
    ensures Fit(fields, cap).None? <==>
            !Fits(fields, cap) && (Total(OuterListsOf(fields)) == 0 || !Fits(Drained(fields), cap))
    decreases Total(OuterListsOf(fields))
  {
    var lists := OuterListsOf(fields);
    HeaviestMeans(lists);
    TotalIsZero(lists);
    if !Fits(fields, cap) && Heaviest(lists).Some? {
      var n := Heaviest(lists).value;
      ShedDecreases(fields, n);
      GivenUpIff(Shed(fields, n), cap);
      DrainedAfterShed(fields, n);
      ShedIsDrainedLast(fields, n);
    }
  }

  // ------------------------------------------------------------------- the loop

  method HeaviestList(lists: seq<seq<Json>>) returns (best: Option<nat>)
    ensures best == Heaviest(lists)
  {
    best := None;
    for i := 0 to |lists|
      invariant best == Heaviest(lists[..i])
    {
      assert lists[..i + 1][..i] == lists[..i];
      if lists[i] != [] && (best.None? || Weight(lists[best.value]) < Weight(lists[i])) {
        best := Some(i);
      }
    }
    assert lists[..|lists|] == lists;
  }

  method Truncate(fields: seq<Field>, cap: int) returns (fitted: Option<seq<Field>>)
    ensures fitted == Fit(fields, cap)
  {
    var value := fields;
    while !Fits(value, cap)
      invariant Fit(value, cap) == Fit(fields, cap)
      decreases Total(OuterListsOf(value))
    {
      var heaviest := HeaviestList(OuterListsOf(value));
      if heaviest.None? {
        return None;
      }
      ShedDecreases(value, heaviest.value);
      value := PopField(value, heaviest.value);
      value := Put(value, "truncated", Bool(true));
    }
    fitted := Some(value);
  }
}
