/**
 What repairing a truncated result does to it (`scripts/benchmark_pilot/tools.py`, lines
 289-303), told from the result's own fields: when it is repaired at all, and what becomes
 of each note, its references and its quotes.
 */
module RepairedPack {
  import opened Wrappers
  import opened Json
  import opened PackRepair

  // ------------------------------------------------------- when it is repaired

  /** What Python takes for false: nothing, an empty value, or a number whose mantissa is all zeros. */
  ghost predicate Falsy(v: Json) {
    || v == Null || v == Bool(false) || v == Str("") || v == Arr([]) || v == Obj([])
    || (v.Num? && forall i :: 0 <= i < |v.digits| && '1' <= v.digits[i] <= '9' ==> Exponent(v.digits, i))
  }

  /** Position `i` of a number is past its mantissa. */
  ghost predicate Exponent(digits: string, i: nat)
    requires i <= |digits|
  {
    exists k :: 0 <= k < i && (digits[k] == 'e' || digits[k] == 'E')
  }

  lemma {:induction false} NonZeroMeans(digits: string)
    ensures NonZero(digits) <==> exists i :: 0 <= i < |digits| && '1' <= digits[i] <= '9' && !Exponent(digits, i)
  {
    if digits != "" && digits[0] != 'e' && digits[0] != 'E' {
      var rest := digits[1..];
      NonZeroMeans(rest);
      forall i | 0 <= i < |rest| ensures Exponent(rest, i) <==> Exponent(digits, i + 1) {
        if Exponent(rest, i) {
          var k :| 0 <= k < i && (rest[k] == 'e' || rest[k] == 'E');
          assert digits[k + 1] == rest[k];
        }
        if Exponent(digits, i + 1) {
          var k :| 0 <= k < i + 1 && (digits[k] == 'e' || digits[k] == 'E');
          assert rest[k - 1] == digits[k];
        }
      }
      if NonZero(digits) {
        if '1' <= digits[0] <= '9' {
          assert !Exponent(digits, 0);
        } else {
          var i :| 0 <= i < |rest| && '1' <= rest[i] <= '9' && !Exponent(rest, i);
          assert digits[i + 1] == rest[i] && !Exponent(digits, i + 1);
        }
      }
      if i :| 0 <= i < |digits| && '1' <= digits[i] <= '9' && !Exponent(digits, i) {
        if i > 0 { assert rest[i - 1] == digits[i] && !Exponent(rest, i - 1); }
      }
    } else {
      forall i | 0 < i < |digits| ensures Exponent(digits, i) {}
    }
  }

  lemma TruthyMeans(v: Json)
    ensures Truthy(v) <==> !Falsy(v)
  {
    if v.Num? { NonZeroMeans(v.digits); }
  }

  // ------------------------------------------------------- what becomes of a note

  ghost predicate RefersTo(source: Json, reference: Json) {
    if source.Obj? && Get(source.fields, "reference").Some?
    then Get(source.fields, "reference") == Some(reference)
    else reference == Null
  }

  /** A source without a text is taken to have an empty one. */
  function TextIn(source: Json): string {
    match if source.Obj? then Get(source.fields, "text") else None
    case Some(Str(text)) => text
    case _ => ""
  }

  ghost predicate Contains(source: Json, quote: string) { exists a: nat :: StandsAt(quote, TextIn(source), a) }

  predicate StandsAt(part: string, s: string, a: nat) { a + |part| <= |s| && s[a..a + |part|] == part }

  lemma {:induction false} OccursMeans(part: string, s: string)
    ensures Occurs(part, s) <==> exists a: nat :: StandsAt(part, s, a)
  {
    assert part <= s <==> StandsAt(part, s, 0);
    if s != "" {
      OccursMeans(part, s[1..]);
      forall a: nat ensures StandsAt(part, s[1..], a) <==> StandsAt(part, s, a + 1) {
        if a + 1 + |part| <= |s| { assert s[1..][a..a + |part|] == s[a + 1..a + 1 + |part|]; }
      }
      if a: nat :| a > 0 && StandsAt(part, s, a) { assert StandsAt(part, s[1..], a - 1); }
    }
  }

  lemma ContainsMeans(source: Json, quote: string)
    ensures Occurs(quote, TextOf(source)) <==> Contains(source, quote)
  {
    OccursMeans(quote, TextOf(source));
    assert TextOf(source) == TextIn(source);
  }

  ghost predicate Supplied(sources: seq<Json>, reference: Json) {
    exists i :: 0 <= i < |sources| && RefersTo(sources[i], reference)
  }

  ghost predicate Shown(sources: seq<Json>, references: seq<Json>, quote: Json) {
    && quote.Str?
    && exists i, r :: 0 <= i < |sources| && r in references && RefersTo(sources[i], r) && Contains(sources[i], quote.s)
  }

  lemma AvailableMeans(sources: seq<Json>, reference: Json)
    ensures Available(sources, reference) <==> Supplied(sources, reference)
  {
    forall i | 0 <= i < |sources| ensures ReferenceOf(sources[i]) == reference <==> RefersTo(sources[i], reference) {}
  }

  lemma BackedMeans(sources: seq<Json>, references: seq<Json>, quote: Json)
    ensures Backed(sources, references, quote) <==> Shown(sources, references, quote)
  {
    hide TextOf, Occurs, Contains;
    if quote.Str? {
      forall i | 0 <= i < |sources|
        ensures Quotes(sources[i], references, quote) <==>
                Contains(sources[i], quote.s) && exists r :: r in references && RefersTo(sources[i], r)
      {
        ContainsMeans(sources[i], quote.s);
        assert RefersTo(sources[i], ReferenceOf(sources[i]));
      }
    }
  }

  /** Some of the items, in the same order. */
  predicate Within(kept: seq<Json>, all: seq<Json>)
    decreases |all|
  {
    || kept == []
    || (&& all != []
        && var front := all[..|all| - 1];
        || (kept[|kept| - 1] == all[|all| - 1] && Within(kept[..|kept| - 1], front))
        || Within(kept, front))
  }

  /**
   A note keeps, in order, the references that some source has and the quotes that the text
   of such a source contains; without one of its references it no longer says it is complete.
   */
  ghost predicate NoteAfter(sources: seq<Json>, note: seq<Field>, after: seq<Field>) {
    var references, kept := ListOf(note, "source_references"), ListOf(after, "source_references");
    var quotes, left := ListOf(note, "evidence_quotes"), ListOf(after, "evidence_quotes");
    && Within(kept, references) && Within(left, quotes)
    && (forall r :: multiset(kept)[r] == if Supplied(sources, r) then multiset(references)[r] else 0)
    && (forall q :: multiset(left)[q] == if Shown(sources, references, q) then multiset(quotes)[q] else 0)
    && Get(after, "complete")
       == (if exists i :: 0 <= i < |references| && !Supplied(sources, references[i]) then Some(Bool(false))
           else Get(note, "complete"))
    && forall key :: key != "complete" && key != "source_references" && key != "evidence_quotes" ==>
         Get(after, key) == Get(note, key)
  }

  lemma {:induction false} LinkedIsWithin(sources: seq<Json>, references: seq<Json>)
    ensures Within(Linked(sources, references), references)
  {
    if references != [] {
      var front, last := references[..|references| - 1], references[|references| - 1];
      LinkedIsWithin(sources, front);
      var kept := Linked(sources, front);
      assert (kept + [last])[..|kept|] == kept && kept + [] == kept;
    }
  }

  lemma {:induction false} BackedIsWithin(sources: seq<Json>, references: seq<Json>, quotes: seq<Json>)
    ensures Within(BackedQuotes(sources, references, quotes), quotes)
  {
    if quotes != [] {
      var front, last := quotes[..|quotes| - 1], quotes[|quotes| - 1];
      BackedIsWithin(sources, references, front);
      var kept := BackedQuotes(sources, references, front);
      assert (kept + [last])[..|kept|] == kept && kept + [] == kept;
    }
  }

  lemma NoteLists(sources: seq<Json>, note: seq<Field>)
    ensures var after := Requoted(sources, Relinked(sources, note));
            var references := ListOf(note, "source_references");
            && ListOf(after, "source_references") == Linked(sources, references)
            && ListOf(after, "evidence_quotes") == BackedQuotes(sources, references, ListOf(note, "evidence_quotes"))
  {
    hide Linked, BackedQuotes, Relinked;
    var linked, references := Relinked(sources, note), ListOf(note, "source_references");
    RelinkedLists(sources, note);
    var quotes := ListOf(note, "evidence_quotes");
    LinkedKeepsQuotes(sources, references, quotes);
    var kept := Arr(BackedQuotes(sources, Linked(sources, references), quotes));
    GetAfterPut(linked, "evidence_quotes", kept, "evidence_quotes");
    GetAfterPut(linked, "evidence_quotes", kept, "source_references");
    NoQuotes(sources, Linked(sources, references));
    NoQuotes(sources, references);
  }

  lemma NoQuotes(sources: seq<Json>, references: seq<Json>)
    ensures BackedQuotes(sources, references, []) == []
  {}

  lemma NoteFields(sources: seq<Json>, note: seq<Field>, key: string)
    requires key != "source_references" && key != "evidence_quotes"
    ensures Get(Requoted(sources, Relinked(sources, note)), key)
            == if key == "complete" && Dangling(sources, ListOf(note, "source_references")) then Some(Bool(false))
               else Get(note, key)
  {
    hide Linked, BackedQuotes, Dangling;
    var linked, references := Relinked(sources, note), ListOf(note, "source_references");
    var flagged := Put(note, "complete", Bool(false));
    GetAfterPut(note, "complete", Bool(false), key);
    GetAfterPut(flagged, "source_references", Arr(Linked(sources, references)), key);
    if Get(linked, "evidence_quotes").Some? && Get(linked, "evidence_quotes").value.Arr? {
      var quotes := Get(linked, "evidence_quotes").value.items;
      GetAfterPut(linked, "evidence_quotes",
        Arr(BackedQuotes(sources, ListOf(linked, "source_references"), quotes)), key);
    }
  }

  lemma NoteMeans(sources: seq<Json>, note: seq<Field>)
    ensures RepairNote(sources, Obj(note)).Obj?
    ensures NoteAfter(sources, note, RepairNote(sources, Obj(note)).fields)
  {
    hide Linked, BackedQuotes, Requoted, Relinked, Supplied, Shown, Within, Available, Backed;
    var references, quotes := ListOf(note, "source_references"), ListOf(note, "evidence_quotes");
    NoteLists(sources, note);
    LinkedIsWithin(sources, references);
    BackedIsWithin(sources, references, quotes);
    forall r ensures Available(sources, r) <==> Supplied(sources, r) { AvailableMeans(sources, r); }
    forall r ensures multiset(Linked(sources, references))[r]
                     == if Supplied(sources, r) then multiset(references)[r] else 0
    {
      LinkedAreAvailable(sources, references, r);
    }
    forall q ensures multiset(BackedQuotes(sources, references, quotes))[q]
                     == if Shown(sources, references, q) then multiset(quotes)[q] else 0
    {
      KeptQuotes(sources, references, quotes, q);
      BackedMeans(sources, references, q);
    }
    forall key | key != "source_references" && key != "evidence_quotes"
      ensures Get(RepairNote(sources, Obj(note)).fields, key)
              == if key == "complete" && Dangling(sources, references) then Some(Bool(false)) else Get(note, key)
    {
      NoteFields(sources, note, key);
    }
  }

  // ------------------------------------------------------- the whole result

  /** The pack is the result itself, or what it holds under `pack`. */
  function PackIn(fields: seq<Field>): seq<Field> {
    match Get(fields, "pack")
    case None => fields
    case Some(Obj(pack)) => pack
    case Some(_) => []
  }

  /** The result says it was truncated, and holds a pack. */
  ghost predicate Claims(fields: seq<Field>) {
    && Get(fields, "truncated").Some? && !Falsy(Get(fields, "truncated").value)
    && Get(PackIn(fields), "sources").Some? && Get(PackIn(fields), "notes").Some?
  }

  ghost predicate PackAfter(pack: seq<Field>, after: seq<Field>) {
    var sources, notes := ListOf(pack, "sources"), ListOf(pack, "notes");
    && Get(after, "complete") == Some(Bool(false))
    && (forall key :: key != "complete" && key != "notes" ==> Get(after, key) == Get(pack, key))
    && (Get(pack, "notes") != Some(Arr(notes)) ==> Get(after, "notes") == Get(pack, "notes"))
    && (Get(pack, "notes") == Some(Arr(notes)) ==>
          && Get(after, "notes") == Some(Arr(ListOf(after, "notes"))) && |ListOf(after, "notes")| == |notes|
          && forall i :: 0 <= i < |notes| ==> NoteAt(sources, notes[i], ListOf(after, "notes")[i]))
  }

  ghost predicate NoteAt(sources: seq<Json>, note: Json, after: Json) {
    if note.Obj? then after.Obj? && NoteAfter(sources, note.fields, after.fields) else after == note
  }

  lemma PackMeans(pack: seq<Field>)
    ensures PackAfter(pack, RepairPack(pack))
  {
    hide RepairNote, NoteAfter;
    var sources, notes := ListOf(pack, "sources"), ListOf(pack, "notes");
    var flagged, repaired := Put(pack, "complete", Bool(false)), Arr(RepairNotes(sources, notes));
    forall key ensures Get(flagged, key) == if key == "complete" then Some(Bool(false)) else Get(pack, key) {
      GetAfterPut(pack, "complete", Bool(false), key);
    }
    forall key
      ensures Get(Put(flagged, "notes", repaired), key) == if key == "notes" then Some(repaired) else Get(flagged, key)
    {
      GetAfterPut(flagged, "notes", repaired, key);
    }
    forall i | 0 <= i < |notes| ensures NoteAt(sources, notes[i], RepairNote(sources, notes[i])) {
      if notes[i].Obj? {
        NoteMeans(sources, notes[i].fields);
      } else {
        OtherNote(sources, notes[i]);
      }
    }
  }

  lemma OtherNote(sources: seq<Json>, note: Json)
    requires !note.Obj?
    ensures RepairNote(sources, note) == note
  {}

  /**
   A result is left alone unless it claims to be a truncated pack. Then the pack no longer
   says it is complete, each of its notes keeps exactly what the remaining sources support,
   and everything else stays.
   */
  lemma RepairMeans(fields: seq<Field>)
    ensures !Claims(fields) ==> Repair(fields) == fields
    ensures Claims(fields) ==>
              && PackAfter(PackIn(fields), PackIn(Repair(fields)))
              && (Get(fields, "pack").Some? ==>
                    forall key :: key != "pack" ==> Get(Repair(fields), key) == Get(fields, key))
  {
    hide RepairPack, PackAfter, Falsy, Truthy;
    var pack := PackOf(fields);
    if Get(fields, "truncated").Some? { TruthyMeans(Get(fields, "truncated").value); }
    assert Claims(fields) <==> NeedsRepair(fields);
    if Claims(fields) {
      PackMeans(pack);
      PackOfRepaired(fields);
      forall key | Get(fields, "pack").Some? && key != "pack"
        ensures Get(Repair(fields), key) == Get(fields, key)
      {
        GetAfterPut(fields, "pack", Obj(RepairPack(pack)), key);
      }
    }
  }
}
