/**
 What the host does to an evidence pack that says it was truncated
 (`scripts/benchmark_pilot/tools.py`, lines 289-303): no completeness claim, no link
 to an original that is not there, no quote without its original.
 */
module PackRepair {
  import opened Wrappers
  import opened Json

  /** Python truth of a JSON value. */
  predicate Truthy(v: Json) {
    match v
    case Null => false
    case Bool(b) => b
    case Num(digits) => NonZero(digits)
    case Str(s) => s != ""
    case Arr(items) => items != []
    case Obj(fields) => fields != []
  }

  /** A number is zero when its mantissa has no other digit. */
  predicate NonZero(digits: string) {
    digits != "" && digits[0] != 'e' && digits[0] != 'E' && ('1' <= digits[0] <= '9' || NonZero(digits[1..]))
  }

  function ListOf(fields: seq<Field>, key: string): seq<Json> {
    match Get(fields, key)
    case Some(Arr(items)) => items
    case _ => []
  }

  /** The evidence pack of a result: its `pack` field, or the result itself. */
  function PackOf(fields: seq<Field>): seq<Field> {
    match Get(fields, "pack")
    case None => fields
    case Some(Obj(pack)) => pack
    case Some(_) => []
  }

  predicate IsPack(pack: seq<Field>) { Has(pack, "sources") && Has(pack, "notes") }

  predicate SaysTruncated(fields: seq<Field>) {
    var flag := Get(fields, "truncated");
    flag.Some? && Truthy(flag.value)
  }

  predicate NeedsRepair(fields: seq<Field>) { SaysTruncated(fields) && IsPack(PackOf(fields)) }

  function ReferenceOf(source: Json): Json {
    if source.Obj? then (match Get(source.fields, "reference") case Some(v) => v case None => Null) else Null
  }

  function TextOf(source: Json): string {
    if source.Obj? then (match Get(source.fields, "text") case Some(Str(s)) => s case _ => "") else ""
  }

  predicate Available(sources: seq<Json>, reference: Json) {
    exists i :: 0 <= i < |sources| && ReferenceOf(sources[i]) == reference
  }

  predicate Occurs(part: string, s: string) { part <= s || (s != "" && Occurs(part, s[1..])) }

  predicate Quotes(source: Json, references: seq<Json>, quote: Json) {
    ReferenceOf(source) in references && quote.Str? && Occurs(quote.s, TextOf(source))
  }

  predicate Backed(sources: seq<Json>, references: seq<Json>, quote: Json) {
    exists i :: 0 <= i < |sources| && Quotes(sources[i], references, quote)
  }

  function Linked(sources: seq<Json>, references: seq<Json>): seq<Json> {
    if references == [] then []
    else
      var last := references[|references| - 1];
      Linked(sources, references[..|references| - 1]) + if Available(sources, last) then [last] else []
  }

  function BackedQuotes(sources: seq<Json>, references: seq<Json>, quotes: seq<Json>): seq<Json> {
    if quotes == [] then []
    else
      var last := quotes[|quotes| - 1];
      BackedQuotes(sources, references, quotes[..|quotes| - 1])
      + if Backed(sources, references, last) then [last] else []
  }

  predicate Dangling(sources: seq<Json>, references: seq<Json>) {
    exists i :: 0 <= i < |references| && !Available(sources, references[i])
  }

  function Relinked(sources: seq<Json>, note: seq<Field>): seq<Field> {
    var references := ListOf(note, "source_references");
    if Dangling(sources, references)
    then Put(Put(note, "complete", Bool(false)), "source_references", Arr(Linked(sources, references)))
    else note
  }

  function Requoted(sources: seq<Json>, note: seq<Field>): seq<Field> {
    match Get(note, "evidence_quotes")
    case Some(Arr(quotes)) =>
      Put(note, "evidence_quotes", Arr(BackedQuotes(sources, ListOf(note, "source_references"), quotes)))
    case _ => note
  }

  function RepairNote(sources: seq<Json>, note: Json): Json {
    if note.Obj? then Obj(Requoted(sources, Relinked(sources, note.fields))) else note
  }

  function RepairNotes(sources: seq<Json>, notes: seq<Json>): (r: seq<Json>)
    ensures |r| == |notes|
    ensures forall i :: 0 <= i < |notes| ==> r[i] == RepairNote(sources, notes[i])
  {
    if notes == [] then []
    else RepairNotes(sources, notes[..|notes| - 1]) + [RepairNote(sources, notes[|notes| - 1])]
  }

  function RepairPack(pack: seq<Field>): seq<Field> {
    var flagged := Put(pack, "complete", Bool(false));
    match Get(pack, "notes")
    case Some(Arr(notes)) => Put(flagged, "notes", Arr(RepairNotes(ListOf(pack, "sources"), notes)))
    case _ => flagged
  }

  function Repair(fields: seq<Field>): seq<Field> {
    if !NeedsRepair(fields) then fields
    else if Has(fields, "pack") then Put(fields, "pack", Obj(RepairPack(PackOf(fields))))
    else RepairPack(fields)
  }

  // ------------------------------------------------- what a repaired pack says

  /** Nothing in the note points outside `sources`. */
  predicate Closed(sources: seq<Json>, note: Json) {
    note.Obj? ==>
      && !Dangling(sources, ListOf(note.fields, "source_references"))
      && AllBacked(sources, ListOf(note.fields, "source_references"), ListOf(note.fields, "evidence_quotes"))
  }

  predicate AllBacked(sources: seq<Json>, references: seq<Json>, quotes: seq<Json>) {
    forall i :: 0 <= i < |quotes| ==> Backed(sources, references, quotes[i])
  }

  predicate SaysIncomplete(fields: seq<Field>) { Get(fields, "complete") == Some(Bool(false)) }

  /** Exactly the references to originals of the pack are kept, each as often as it was there. */
  lemma {:induction false} LinkedAreAvailable(sources: seq<Json>, references: seq<Json>, r: Json)
    ensures multiset(Linked(sources, references))[r] == if Available(sources, r) then multiset(references)[r] else 0
  {
    if references != [] {
      var front, last := references[..|references| - 1], references[|references| - 1];
      assert references == front + [last];
      LinkedAreAvailable(sources, front, r);
    }
  }

  lemma {:induction false} NothingToUnlink(sources: seq<Json>, references: seq<Json>)
    requires !Dangling(sources, references)
    ensures Linked(sources, references) == references
  {
    if references != [] {
      var front, last := references[..|references| - 1], references[|references| - 1];
      assert references == front + [last];
      DanglingSnoc(sources, front, last);
      NothingToUnlink(sources, front);
    }
  }

  lemma DanglingSnoc(sources: seq<Json>, references: seq<Json>, last: Json)
    ensures Dangling(sources, references + [last]) <==> Dangling(sources, references) || !Available(sources, last)
  {
    var all := references + [last];
    assert all[|references|] == last && forall i :: 0 <= i < |references| ==> all[i] == references[i];
  }

  lemma LinkedDoNotDangle(sources: seq<Json>, references: seq<Json>)
    ensures !Dangling(sources, Linked(sources, references))
  {
    var linked := Linked(sources, references);
    forall i | 0 <= i < |linked| ensures Available(sources, linked[i]) {
      LinkedAreAvailable(sources, references, linked[i]);
      assert linked[i] in multiset(linked);
    }
  }

  /** Exactly the quotes that some still-linked original contains are kept. */
  lemma {:induction false} KeptQuotes(sources: seq<Json>, references: seq<Json>, quotes: seq<Json>, q: Json)
    ensures multiset(BackedQuotes(sources, references, quotes))[q] ==
            if Backed(sources, references, q) then multiset(quotes)[q] else 0
  {
    if quotes != [] {
      var front, last := quotes[..|quotes| - 1], quotes[|quotes| - 1];
      assert quotes == front + [last];
      KeptQuotes(sources, references, front, q);
    }
  }

  lemma KeptQuotesAreBacked(sources: seq<Json>, references: seq<Json>, quotes: seq<Json>)
    ensures AllBacked(sources, references, BackedQuotes(sources, references, quotes))
  {
    var kept := BackedQuotes(sources, references, quotes);
    forall i | 0 <= i < |kept| ensures Backed(sources, references, kept[i]) {
      KeptQuotes(sources, references, quotes, kept[i]);
      assert kept[i] in multiset(kept);
    }
  }

  lemma {:induction false} BackedQuotesAreKept(sources: seq<Json>, references: seq<Json>, quotes: seq<Json>)
    requires AllBacked(sources, references, quotes)
    ensures BackedQuotes(sources, references, quotes) == quotes
  {
    if quotes != [] {
      var front, last := quotes[..|quotes| - 1], quotes[|quotes| - 1];
      assert quotes == front + [last];
      assert forall i :: 0 <= i < |front| ==> front[i] == quotes[i];
      BackedQuotesAreKept(sources, references, front);
    }
  }

  lemma RelinkedNote(sources: seq<Json>, note: seq<Field>)
    ensures var linked := Relinked(sources, note);
            && !Dangling(sources, ListOf(linked, "source_references"))
            && Get(linked, "evidence_quotes") == Get(note, "evidence_quotes")
            && (linked != note ==> SaysIncomplete(linked))
  {
    var references := ListOf(note, "source_references");
    if Dangling(sources, references) {
      LinkedDoNotDangle(sources, references);
      var flagged := Put(note, "complete", Bool(false));
      var list := Arr(Linked(sources, references));
      GetAfterPut(flagged, "source_references", list, "source_references");
      GetAfterPut(flagged, "source_references", list, "complete");
      GetAfterPut(flagged, "source_references", list, "evidence_quotes");
      GetAfterPut(note, "complete", Bool(false), "complete");
      GetAfterPut(note, "complete", Bool(false), "evidence_quotes");
    }
  }

  lemma RepairedNoteIsClosed(sources: seq<Json>, note: Json)
    ensures Closed(sources, RepairNote(sources, note))
    ensures note.Obj? && Dangling(sources, ListOf(note.fields, "source_references")) ==>
              SaysIncomplete(RepairNote(sources, note).fields)
  {
    if note.Obj? {
      RelinkedNote(sources, note.fields);
      var linked := Relinked(sources, note.fields);
      if Dangling(sources, ListOf(note.fields, "source_references")) { assert linked != note.fields; }
      match Get(linked, "evidence_quotes")
      case Some(Arr(quotes)) =>
        var references := ListOf(linked, "source_references");
        var kept := Arr(BackedQuotes(sources, references, quotes));
        KeptQuotesAreBacked(sources, references, quotes);
        GetAfterPut(linked, "evidence_quotes", kept, "evidence_quotes");
        GetAfterPut(linked, "evidence_quotes", kept, "source_references");
        GetAfterPut(linked, "evidence_quotes", kept, "complete");
      case _ =>
    }
  }

  lemma RepairedPack(pack: seq<Field>)
    ensures var r := RepairPack(pack);
            && SaysIncomplete(r)
            && Get(r, "sources") == Get(pack, "sources")
            && Has(r, "notes") == Has(pack, "notes")
            && ListOf(r, "notes") == RepairNotes(ListOf(pack, "sources"), ListOf(pack, "notes"))
  {
    var flagged := Put(pack, "complete", Bool(false));
    GetAfterPut(pack, "complete", Bool(false), "complete");
    GetAfterPut(pack, "complete", Bool(false), "sources");
    GetAfterPut(pack, "complete", Bool(false), "notes");
    match Get(pack, "notes")
    case Some(Arr(notes)) =>
      var repaired := Arr(RepairNotes(ListOf(pack, "sources"), notes));
      GetAfterPut(flagged, "notes", repaired, "complete");
      GetAfterPut(flagged, "notes", repaired, "sources");
      GetAfterPut(flagged, "notes", repaired, "notes");
    case _ =>
  }

  lemma PackOfRepaired(fields: seq<Field>)
    requires NeedsRepair(fields)
    ensures PackOf(Repair(fields)) == RepairPack(PackOf(fields))
  {
    var pack := PackOf(fields);
    if Has(fields, "pack") {
      GetAfterPut(fields, "pack", Obj(RepairPack(pack)), "pack");
    } else {
      var flagged := Put(pack, "complete", Bool(false));
      GetAfterPut(pack, "complete", Bool(false), "pack");
      GetAfterPut(flagged, "notes", Arr(RepairNotes(ListOf(pack, "sources"), ListOf(pack, "notes"))), "pack");
    }
  }

  /**
   A truncated pack claims no completeness, keeps its originals and the number of its
   notes, and no note links or quotes an original the pack does not hold.
   */
  lemma RepairLeavesNoDanglingLink(fields: seq<Field>)
    requires NeedsRepair(fields)
    ensures var before, after := PackOf(fields), PackOf(Repair(fields));
            && SaysIncomplete(after)
            && Get(after, "sources") == Get(before, "sources")
            && |ListOf(after, "notes")| == |ListOf(before, "notes")|
            && forall i :: 0 <= i < |ListOf(after, "notes")| ==>
                  Closed(ListOf(after, "sources"), ListOf(after, "notes")[i])
  {
    PackOfRepaired(fields);
    RepairedPack(PackOf(fields));
    var sources, notes := ListOf(PackOf(fields), "sources"), ListOf(PackOf(fields), "notes");
    forall i | 0 <= i < |notes| ensures Closed(sources, RepairNotes(sources, notes)[i]) {
      RepairedNoteIsClosed(sources, notes[i]);
    }
  }

  // ---------------------------------------------------------- repairing settles

  lemma {:induction false} PutSame(fields: seq<Field>, key: string, v: Json)
    requires Get(fields, key) == Some(v)
    ensures Put(fields, key, v) == fields
  {
    if fields[0].key != key { PutSame(fields[1..], key, v); }
  }

  lemma ClosedNoteIsKept(sources: seq<Json>, note: Json)
    requires Closed(sources, note)
    ensures RepairNote(sources, note) == note
  {
    if note.Obj? {
      match Get(note.fields, "evidence_quotes")
      case Some(Arr(quotes)) =>
        BackedQuotesAreKept(sources, ListOf(note.fields, "source_references"), quotes);
        PutSame(note.fields, "evidence_quotes", Arr(quotes));
      case _ =>
    }
  }

  lemma RepairPackTwice(pack: seq<Field>)
    ensures RepairPack(RepairPack(pack)) == RepairPack(pack)
  {
    var once := RepairPack(pack);
    RepairedPack(pack);
    PutSame(once, "complete", Bool(false));
    var sources, notes := ListOf(pack, "sources"), ListOf(pack, "notes");
    forall i | 0 <= i < |notes|
      ensures RepairNote(sources, RepairNotes(sources, notes)[i]) == RepairNotes(sources, notes)[i]
    {
      RepairedNoteIsClosed(sources, notes[i]);
      ClosedNoteIsKept(sources, RepairNote(sources, notes[i]));
    }
    assert RepairNotes(sources, RepairNotes(sources, notes)) == RepairNotes(sources, notes);
    match Get(once, "notes")
    case Some(Arr(items)) => PutSame(once, "notes", Arr(items));
    case _ =>
  }

  /** A second repair changes nothing. */
  lemma RepairTwice(fields: seq<Field>)
    ensures Repair(Repair(fields)) == Repair(fields)
  {
    if NeedsRepair(fields) && NeedsRepair(Repair(fields)) {
      PackOfRepaired(fields);
      RepairPackTwice(PackOf(fields));
      var pack := RepairPack(PackOf(fields));
      if Has(fields, "pack") {
        GetAfterPut(fields, "pack", Obj(pack), "pack");
        PutSame(Repair(fields), "pack", Obj(pack));
      } else {
        var flagged := Put(fields, "complete", Bool(false));
        GetAfterPut(fields, "complete", Bool(false), "pack");
        GetAfterPut(flagged, "notes", Arr(RepairNotes(ListOf(fields, "sources"), ListOf(fields, "notes"))), "pack");
      }
    }
  }

  // ------------------------------------------------------------ what it may cost

  lemma {:induction false} PutSize(fields: seq<Field>, key: string, v: Json)
    ensures FieldsSize(Put(fields, key, v), Utf8)
         == match Get(fields, key)
            case Some(w) => FieldsSize(fields, Utf8) - Bytes(w) + Bytes(v)
            case None => FieldsSize(fields, Utf8) + 4 + TextSize(key, Utf8) + Bytes(v) + if fields == [] then 0 else 2
    ensures |Put(fields, key, v)| == |fields| + if Has(fields, key) then 0 else 1
  {
    if fields == [] {
      assert [Field(key, v)][1..] == [];
    } else if fields[0].key == key {
      assert Put(fields, key, v)[1..] == fields[1..];
    } else {
      PutSize(fields[1..], key, v);
      assert Put(fields, key, v)[1..] == Put(fields[1..], key, v);
    }
  }

  lemma {:induction false} ItemsSizeConcat(a: seq<Json>, b: seq<Json>)
    ensures ItemsSize(a + b, Utf8) == ItemsSize(a, Utf8) + ItemsSize(b, Utf8) + if a == [] || b == [] then 0 else 2
  {
    if a == [] {
      assert a + b == b;
    } else if b == [] {
      assert a + b == a;
    } else {
      assert (a + b)[1..] == a[1..] + b;
      ItemsSizeConcat(a[1..], b);
    }
  }

  lemma OneItemSize(v: Json)
    ensures ItemsSize([v], Utf8) == Bytes(v)
  {
    assert [v][1..] == [];
  }

  /** The references that a repair drops, and the quotes. */
  function Unlinked(sources: seq<Json>, references: seq<Json>): seq<Json> {
    if references == [] then []
    else
      var last := references[|references| - 1];
      Unlinked(sources, references[..|references| - 1]) + if Available(sources, last) then [] else [last]
  }

  function Unbacked(sources: seq<Json>, references: seq<Json>, quotes: seq<Json>): seq<Json> {
    if quotes == [] then []
    else
      var last := quotes[|quotes| - 1];
      Unbacked(sources, references, quotes[..|quotes| - 1]) + if Backed(sources, references, last) then [] else [last]
  }

  /** What leaving out the `dropped` ones of some items saves, separators included. */
  function Saved(items: seq<Json>, dropped: seq<Json>): nat {
    if dropped == [] then 0 else ItemsSize(dropped, Utf8) + if |dropped| < |items| then 2 else 0
  }

  /** `items` falls into `kept` and `dropped`, as far as sizes go. */
  ghost predicate SplitsInto(items: seq<Json>, kept: seq<Json>, dropped: seq<Json>) {
    |items| == |kept| + |dropped| && Weights(items) == Weights(kept) + Weights(dropped)
  }

  function Weights(items: seq<Json>): nat {
    if items == [] then 0 else Weights(items[..|items| - 1]) + Bytes(items[|items| - 1]) + 2
  }

  lemma {:induction false} WeightsAndSize(items: seq<Json>)
    ensures ItemsSize(items, Utf8) == if items == [] then 0 else Weights(items) - 2
  {
    if items != [] {
      var front, last := items[..|items| - 1], items[|items| - 1];
      WeightsAndSize(front);
      assert items == front + [last];
      ItemsSizeConcat(front, [last]);
      OneItemSize(last);
    }
  }

  lemma SplitSize(items: seq<Json>, kept: seq<Json>, dropped: seq<Json>)
    requires SplitsInto(items, kept, dropped)
    ensures ItemsSize(kept, Utf8) == ItemsSize(items, Utf8) - Saved(items, dropped)
  {
    WeightsAndSize(items);
    WeightsAndSize(kept);
    WeightsAndSize(dropped);
  }

  lemma SplitSnoc(items: seq<Json>, kept: seq<Json>, dropped: seq<Json>, last: Json)
    requires SplitsInto(items, kept, dropped)
    ensures SplitsInto(items + [last], kept + [last], dropped) && SplitsInto(items + [last], kept, dropped + [last])
  {
    WeightsSnoc(items, last);
    WeightsSnoc(kept, last);
    WeightsSnoc(dropped, last);
  }

  lemma WeightsSnoc(items: seq<Json>, last: Json)
    ensures Weights(items + [last]) == Weights(items) + Bytes(last) + 2
  {
    assert (items + [last])[..|items|] == items;
  }

  lemma {:induction false} ReferencesSplit(sources: seq<Json>, references: seq<Json>)
    ensures SplitsInto(references, Linked(sources, references), Unlinked(sources, references))
    ensures Unlinked(sources, references) == [] <==> !Dangling(sources, references)
  {
    if references != [] {
      var front, last := references[..|references| - 1], references[|references| - 1];
      assert references == front + [last];
      ReferencesSplit(sources, front);
      SplitSnoc(front, Linked(sources, front), Unlinked(sources, front), last);
      assert Linked(sources, front) + [] == Linked(sources, front);
      assert Unlinked(sources, front) + [] == Unlinked(sources, front);
      DanglingSnoc(sources, front, last);
    }
  }

  lemma {:induction false} QuotesSplit(sources: seq<Json>, references: seq<Json>, quotes: seq<Json>)
    ensures SplitsInto(quotes, BackedQuotes(sources, references, quotes), Unbacked(sources, references, quotes))
  {
    if quotes != [] {
      var front, last := quotes[..|quotes| - 1], quotes[|quotes| - 1];
      assert quotes == front + [last];
      QuotesSplit(sources, references, front);
      var kept, dropped := BackedQuotes(sources, references, front), Unbacked(sources, references, front);
      SplitSnoc(front, kept, dropped, last);
      assert kept + [] == kept && dropped + [] == dropped;
    }
  }

  /** Dropping dangling references takes no quote its original: originals are never dangling. */
  lemma LinkedBacks(sources: seq<Json>, references: seq<Json>, quote: Json)
    ensures Backed(sources, Linked(sources, references), quote) <==> Backed(sources, references, quote)
  {
    var linked := Linked(sources, references);
    forall i | 0 <= i < |sources| ensures Quotes(sources[i], linked, quote) <==> Quotes(sources[i], references, quote) {
      var reference := ReferenceOf(sources[i]);
      assert Available(sources, reference);
      LinkedAreAvailable(sources, references, reference);
      assert multiset(linked)[reference] == multiset(references)[reference];
      assert reference in linked <==> reference in multiset(linked);
      assert reference in references <==> reference in multiset(references);
    }
  }

  lemma {:induction false} LinkedKeepsQuotes(sources: seq<Json>, references: seq<Json>, quotes: seq<Json>)
    ensures BackedQuotes(sources, Linked(sources, references), quotes) == BackedQuotes(sources, references, quotes)
  {
    if quotes != [] {
      LinkedKeepsQuotes(sources, references, quotes[..|quotes| - 1]);
      LinkedBacks(sources, references, quotes[|quotes| - 1]);
    }
  }

  // Setting `complete` to false: a byte for a claim, nothing where it stands, else a whole field.
  function FlagGrowth(fields: seq<Field>): int {
    match Get(fields, "complete") case Some(w) => 5 - Bytes(w) case None => 19
  }

  lemma CompleteKeySize()
    ensures TextSize("complete", Utf8) == 8
  {
    assert Plain("complete");
    PlainSize("complete");
  }

  lemma FlagSize(fields: seq<Field>)
    requires fields != []
    ensures FieldsSize(Put(fields, "complete", Bool(false)), Utf8) == FieldsSize(fields, Utf8) + FlagGrowth(fields)
  {
    PutSize(fields, "complete", Bool(false));
    CompleteKeySize();
  }

  /** How much a note grows: its flag, if it loses a reference, less what is dropped. */
  function NoteGrowth(sources: seq<Json>, note: Json): int {
    if !note.Obj? then 0
    else
      var references, quotes := ListOf(note.fields, "source_references"), ListOf(note.fields, "evidence_quotes");
      var dropped := Unlinked(sources, references);
      (if dropped == [] then 0 else FlagGrowth(note.fields) - Saved(references, dropped))
      - Saved(quotes, Unbacked(sources, references, quotes))
  }

  function NotesGrowth(sources: seq<Json>, notes: seq<Json>): int {
    if notes == [] then 0
    else NotesGrowth(sources, notes[..|notes| - 1]) + NoteGrowth(sources, notes[|notes| - 1])
  }

  function PackGrowth(pack: seq<Field>): int {
    FlagGrowth(pack) + NotesGrowth(ListOf(pack, "sources"), ListOf(pack, "notes"))
  }

  /** By how much a repair will change the size of a value, told from the flags and lists it has before. */
  function RepairGrowth(fields: seq<Field>): int { if NeedsRepair(fields) then PackGrowth(PackOf(fields)) else 0 }

  lemma RelinkedSize(sources: seq<Json>, note: seq<Field>)
    ensures var references := ListOf(note, "source_references");
            var dropped := Unlinked(sources, references);
            FieldsSize(Relinked(sources, note), Utf8)
            == FieldsSize(note, Utf8) + if dropped == [] then 0 else FlagGrowth(note) - Saved(references, dropped)
  {
    var references := ListOf(note, "source_references");
    ReferencesSplit(sources, references);
    if Dangling(sources, references) {
      FlagSize(note);
      GetAfterPut(note, "complete", Bool(false), "source_references");
      PutSize(Put(note, "complete", Bool(false)), "source_references", Arr(Linked(sources, references)));
      SplitSize(references, Linked(sources, references), Unlinked(sources, references));
    }
  }

  lemma RelinkedLists(sources: seq<Json>, note: seq<Field>)
    ensures Get(Relinked(sources, note), "evidence_quotes") == Get(note, "evidence_quotes")
    ensures ListOf(Relinked(sources, note), "source_references") == Linked(sources, ListOf(note, "source_references"))
  {
    RelinkedNote(sources, note);
    var references := ListOf(note, "source_references");
    if Dangling(sources, references) {
      var open := Put(note, "complete", Bool(false));
      GetAfterPut(open, "source_references", Arr(Linked(sources, references)), "source_references");
    } else {
      NothingToUnlink(sources, references);
    }
  }

  lemma NoteGrows(sources: seq<Json>, note: Json)
    ensures Bytes(RepairNote(sources, note)) == Bytes(note) + NoteGrowth(sources, note)
  {
    if note.Obj? {
      var references := ListOf(note.fields, "source_references");
      var linked := Relinked(sources, note.fields);
      RelinkedSize(sources, note.fields);
      RelinkedLists(sources, note.fields);
      match Get(note.fields, "evidence_quotes")
      case Some(Arr(quotes)) =>
        LinkedKeepsQuotes(sources, references, quotes);
        QuotesSplit(sources, references, quotes);
        SplitSize(quotes, BackedQuotes(sources, references, quotes), Unbacked(sources, references, quotes));
        PutSize(linked, "evidence_quotes", Arr(BackedQuotes(sources, references, quotes)));
      case _ =>
    }
  }

  lemma {:induction false} NotesGrow(sources: seq<Json>, notes: seq<Json>)
    ensures ItemsSize(RepairNotes(sources, notes), Utf8) == ItemsSize(notes, Utf8) + NotesGrowth(sources, notes)
  {
    if notes != [] {
      var front, last := notes[..|notes| - 1], notes[|notes| - 1];
      NotesGrow(sources, front);
      NoteGrows(sources, last);
      assert notes == front + [last];
      OneItemSize(last);
      OneItemSize(RepairNote(sources, last));
      ItemsSizeConcat(front, [last]);
      ItemsSizeConcat(RepairNotes(sources, front), [RepairNote(sources, last)]);
    }
  }

  lemma PackGrows(pack: seq<Field>)
    requires pack != []
    ensures FieldsSize(RepairPack(pack), Utf8) == FieldsSize(pack, Utf8) + PackGrowth(pack)
  {
    FlagSize(pack);
    match Get(pack, "notes")
    case Some(Arr(notes)) =>
      GetAfterPut(pack, "complete", Bool(false), "notes");
      NotesGrow(ListOf(pack, "sources"), notes);
      PutSize(Put(pack, "complete", Bool(false)), "notes", Arr(RepairNotes(ListOf(pack, "sources"), notes)));
    case _ =>
  }

  /** A repair changes the size of a value by exactly its growth. */
  lemma RepairGrows(fields: seq<Field>)
    ensures Bytes(Obj(Repair(fields))) == Bytes(Obj(fields)) + RepairGrowth(fields)
  {
    if NeedsRepair(fields) {
      PackGrows(PackOf(fields));
      if Has(fields, "pack") { PutSize(fields, "pack", Obj(RepairPack(PackOf(fields)))); }
    }
  }

  predicate SaysIncompleteNote(note: Json) { note.Obj? && SaysIncomplete(note.fields) }

  /** How many notes do not already say that they are incomplete. */
  function Unflagged(notes: seq<Json>): nat {
    if notes == [] then 0
    else Unflagged(notes[..|notes| - 1]) + if SaysIncompleteNote(notes[|notes| - 1]) then 0 else 1
  }

  function Claims(pack: seq<Field>): nat {
    Unflagged(ListOf(pack, "notes")) + if SaysIncomplete(pack) then 0 else 1
  }

  lemma {:induction false} NotesGrowthBound(sources: seq<Json>, notes: seq<Json>)
    ensures NotesGrowth(sources, notes) <= 19 * Unflagged(notes)
  {
    if notes != [] { NotesGrowthBound(sources, notes[..|notes| - 1]); }
  }

  /**
   The growth is at most nineteen bytes for each completeness claim withdrawn; a pack
   that already says it is incomplete throughout does not grow.
   */
  lemma GrowthWithinClaims(fields: seq<Field>)
    ensures RepairGrowth(fields) <= 19 * Claims(PackOf(fields))
  {
    var pack := PackOf(fields);
    NotesGrowthBound(ListOf(pack, "sources"), ListOf(pack, "notes"));
  }

  /** Every note of the pack links and quotes only originals the pack holds. */
  predicate AllClosed(pack: seq<Field>) {
    forall i :: 0 <= i < |ListOf(pack, "notes")| ==> Closed(ListOf(pack, "sources"), ListOf(pack, "notes")[i])
  }

  lemma {:induction false} BackedQuotesSaveNothing(sources: seq<Json>, references: seq<Json>, quotes: seq<Json>)
    requires AllBacked(sources, references, quotes)
    ensures Unbacked(sources, references, quotes) == []
  {
    if quotes != [] {
      var front := quotes[..|quotes| - 1];
      assert forall i :: 0 <= i < |front| ==> front[i] == quotes[i];
      BackedQuotesSaveNothing(sources, references, front);
    }
  }

  lemma {:induction false} ClosedNotesDoNotGrow(sources: seq<Json>, notes: seq<Json>)
    requires forall i :: 0 <= i < |notes| ==> Closed(sources, notes[i])
    ensures NotesGrowth(sources, notes) == 0
  {
    if notes != [] {
      var front, last := notes[..|notes| - 1], notes[|notes| - 1];
      assert forall i :: 0 <= i < |front| ==> front[i] == notes[i];
      ClosedNotesDoNotGrow(sources, front);
      assert Closed(sources, last);
      if last.Obj? {
        var references := ListOf(last.fields, "source_references");
        ReferencesSplit(sources, references);
        BackedQuotesSaveNothing(sources, references, ListOf(last.fields, "evidence_quotes"));
      }
    }
  }

  /** A pack as the native service returns it grows by the one byte between `true` and `false`. */
  lemma ClosedPackGrowth(fields: seq<Field>, claims: bool)
    requires NeedsRepair(fields) && AllClosed(PackOf(fields)) && Get(PackOf(fields), "complete") == Some(Bool(claims))
    ensures RepairGrowth(fields) == if claims then 1 else 0
  {
    ClosedNotesDoNotGrow(ListOf(PackOf(fields), "sources"), ListOf(PackOf(fields), "notes"));
  }

  lemma {:induction false} LinkedNotesDoNotGrow(sources: seq<Json>, notes: seq<Json>)
    requires forall i :: 0 <= i < |notes| && notes[i].Obj? ==>
               !Dangling(sources, ListOf(notes[i].fields, "source_references"))
    ensures NotesGrowth(sources, notes) <= 0
  {
    if notes != [] {
      var front, last := notes[..|notes| - 1], notes[|notes| - 1];
      assert forall i :: 0 <= i < |front| ==> front[i] == notes[i];
      LinkedNotesDoNotGrow(sources, front);
      if last.Obj? { ReferencesSplit(sources, ListOf(last.fields, "source_references")); }
    }
  }

  /** Without a dangling link only the claim of the pack can grow; quotes can only go. */
  lemma LinkedPackGrowth(fields: seq<Field>, claims: bool)
    requires forall i :: 0 <= i < |ListOf(PackOf(fields), "notes")| && ListOf(PackOf(fields), "notes")[i].Obj? ==>
               var note := ListOf(PackOf(fields), "notes")[i].fields;
               !Dangling(ListOf(PackOf(fields), "sources"), ListOf(note, "source_references"))
    requires Get(PackOf(fields), "complete") == Some(Bool(claims))
    ensures RepairGrowth(fields) <= if claims then 1 else 0
  {
    LinkedNotesDoNotGrow(ListOf(PackOf(fields), "sources"), ListOf(PackOf(fields), "notes"));
  }

  // ------------------------------------------------------------------- the loops

  method KeepLinked(sources: seq<Json>, references: seq<Json>) returns (kept: seq<Json>)
    ensures kept == Linked(sources, references)
  {
    kept := [];
    for i := 0 to |references|
      invariant kept == Linked(sources, references[..i])
    {
      assert references[..i + 1][..i] == references[..i];
      if Available(sources, references[i]) { kept := kept + [references[i]]; }
    }
    assert references[..|references|] == references;
  }

  method KeepBacked(sources: seq<Json>, references: seq<Json>, quotes: seq<Json>) returns (kept: seq<Json>)
    ensures kept == BackedQuotes(sources, references, quotes)
  {
    kept := [];
    for i := 0 to |quotes|
      invariant kept == BackedQuotes(sources, references, quotes[..i])
    {
      assert quotes[..i + 1][..i] == quotes[..i];
      if Backed(sources, references, quotes[i]) { kept := kept + [quotes[i]]; }
    }
    assert quotes[..|quotes|] == quotes;
  }

  method CloseNote(sources: seq<Json>, note: Json) returns (closed: Json)
    ensures closed == RepairNote(sources, note)
  {
    if !note.Obj? {
      return note;
    }
    var fields := note.fields;
    var references := ListOf(fields, "source_references");
    if Dangling(sources, references) {
      var kept := KeepLinked(sources, references);
      fields := Put(fields, "complete", Bool(false));
      fields := Put(fields, "source_references", Arr(kept));
    }
    var quotes := Get(fields, "evidence_quotes");
    if quotes.Some? && quotes.value.Arr? {
      var kept := KeepBacked(sources, ListOf(fields, "source_references"), quotes.value.items);
      fields := Put(fields, "evidence_quotes", Arr(kept));
    }
    closed := Obj(fields);
  }

  method CloseNotes(sources: seq<Json>, notes: seq<Json>) returns (items: seq<Json>)
    ensures items == RepairNotes(sources, notes)
  {
    items := notes;
    for i := 0 to |notes|
      invariant |items| == |notes|
      invariant forall k :: 0 <= k < |notes| ==> items[k] == if k < i then RepairNote(sources, notes[k]) else notes[k]
    {
      var closed := CloseNote(sources, items[i]);
      items := items[i := closed];
    }
  }

  method WithdrawClaims(fields: seq<Field>) returns (repaired: seq<Field>)
    ensures repaired == Repair(fields)
  {
    if !NeedsRepair(fields) {
      return fields;
    }
    var pack := PackOf(fields);
    var notes := Get(pack, "notes");
    var marked := Put(pack, "complete", Bool(false));
    if notes.value.Arr? {
      var items := CloseNotes(ListOf(pack, "sources"), notes.value.items);
      marked := Put(marked, "notes", Arr(items));
    }
    if Has(fields, "pack") {
      repaired := Put(fields, "pack", Obj(marked));
    } else {
      repaired := marked;
    }
  }
}
