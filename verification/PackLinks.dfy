/**
 What a pack links and quotes once its originals are named by handles: projection
 (`scripts/benchmark_pilot/evidence.py`, lines 48-69) followed by the repair of a
 truncated pack (`scripts/benchmark_pilot/tools.py`, lines 289-303).
 */
module PackLinks {
  import opened Wrappers
  import opened Json
  import opened EvidenceHandles
  import opened HandleSize
  import opened PackRepair
  import opened HostSafety

  // ---------------------------------------------------- what a projection leaves

  /** A kept field holds its value projected somewhere between the table before and after. */
  lemma {:induction false} FieldAfterProject(t: Table, fields: seq<Field>, d: Decision, key: string) returns (u: Table)
    requires Valid(t) && Kept(key)
    ensures var before, after := Get(fields, key), Get(ProjectFields(t, fields, d).1, key);
            && after == (match before case None => None case Some(v) => Some(Project(u, v).1))
            && Valid(u) && Grows(t, u)
            && (before.Some? ==> Grows(Project(u, before.value).0, ProjectFields(t, fields, d).0))
    decreases |fields|
  {
    u := t;
    if fields != [] {
      var (t1, first) := ProjectField(t, fields[0], d);
      var rest := ProjectFields(t1, fields[1..], d).1;
      ProjectFieldIsValid(t, fields[0], d);
      ProjectFieldsIsValid(t1, fields[1..], d);
      assert |first| <= 1 && (first != [] ==> first[0].key == fields[0].key && (first + rest)[1..] == rest);
      assert first == [] ==> first + rest == rest;
      if fields[0].key != key { u := FieldAfterProject(t1, fields[1..], d, key); }
    }
  }

  lemma NodeAfterProject(t: Table, fields: seq<Field>, key: string) returns (u: Table)
    requires Valid(t) && Kept(key)
    ensures var before, after := Get(fields, key), Get(Project(t, Obj(fields)).1.fields, key);
            && after == (match before case None => None case Some(v) => Some(Project(u, v).1))
            && Valid(u) && Grows(t, u)
            && (before.Some? ==> Grows(Project(u, before.value).0, Project(t, Obj(fields)).0))
  {
    var (t1, d) := Decide(t, fields);
    DecideIsValid(t, fields);
    u := FieldAfterProject(t1, fields, d, key);
    GetAfterPut(ProjectFields(t1, fields, d).1, "already_read", Bool(true), key);
  }

  lemma {:induction false} ItemAfterProject(t: Table, items: seq<Json>, i: nat) returns (u: Table)
    requires Valid(t) && i < |items|
    ensures |ProjectItems(t, items).1| == |items|
    ensures ProjectItems(t, items).1[i] == Project(u, items[i]).1
    ensures Valid(u) && Grows(t, u) && Grows(Project(u, items[i]).0, ProjectItems(t, items).0)
    decreases |items|
  {
    ItemsKeepLength(t, items);
    var (t1, first) := Project(t, items[0]);
    ProjectIsValid(t, items[0]);
    ProjectItemsIsValid(t1, items[1..]);
    u := t;
    if i > 0 {
      u := ItemAfterProject(t1, items[1..], i - 1);
      assert ProjectItems(t, items).1[i] == ProjectItems(t1, items[1..]).1[i - 1];
    }
  }

  /** The `i`-th entry of a list of the pack, projected where its turn comes. */
  lemma EntryAfterProject(t: Table, pack: seq<Field>, key: string, i: nat) returns (u: Table)
    requires Valid(t) && Kept(key) && i < |ListOf(pack, key)|
    ensures |ListOf(Project(t, Obj(pack)).1.fields, key)| == |ListOf(pack, key)|
    ensures ListOf(Project(t, Obj(pack)).1.fields, key)[i] == Project(u, ListOf(pack, key)[i]).1
    ensures Valid(u) && Grows(t, u) && Grows(Project(u, ListOf(pack, key)[i]).0, Project(t, Obj(pack)).0)
  {
    var w := NodeAfterProject(t, pack, key);
    u := ItemAfterProject(w, ListOf(pack, key), i);
    ProjectIsValid(w, Get(pack, key).value);
  }

  lemma ListKeepsLength(t: Table, pack: seq<Field>, key: string)
    requires Valid(t) && Kept(key)
    ensures |ListOf(Project(t, Obj(pack)).1.fields, key)| == |ListOf(pack, key)|
  {
    var w := NodeAfterProject(t, pack, key);
    if ListOf(pack, key) != [] { ItemsKeepLength(w, ListOf(pack, key)); }
  }

  // ------------------------------------------------------- names after projection

  /** `named` is the handle of `original` in `u`. */
  ghost predicate IsHandleOf(u: Table, named: Json, original: string) {
    named.Str? && named.s in u.native && u.native[named.s] == original
  }

  lemma {:induction false} RenamedNames(t: Table, items: seq<Json>)
    requires Valid(t) && AllStrings(items)
    ensures var (u, renamed) := RenameAll(t, items);
            && Valid(u) && Grows(t, u) && |renamed| == |items|
            && forall i :: 0 <= i < |items| ==> IsHandleOf(u, renamed[i], items[i].s)
    decreases |items|
  {
    hide HandleName, Names;
    if items != [] {
      WithIsValid(t, items[0].s);
      RenamedNames(With(t, items[0].s), items[1..]);
    }
  }

  lemma {:induction false} ReferencesAfterFields(t: Table, fields: seq<Field>, d: Decision)
    requires d.references.Some?
    ensures Get(ProjectFields(t, fields, d).1, "source_references") ==
            if Has(fields, "source_references") then Some(Arr(d.references.value)) else None
    decreases |fields|
  {
    if fields != [] {
      var (t1, first) := ProjectField(t, fields[0], d);
      var rest := ProjectFields(t1, fields[1..], d).1;
      ReferencesAfterFields(t1, fields[1..], d);
      if first == [] { assert first + rest == rest; } else { assert (first + rest)[1..] == rest; }
    }
  }

  /** A note links the handles of the originals it linked. */
  lemma ReferencesAfterProject(t: Table, note: seq<Field>)
    requires Valid(t) && Get(note, "source_references").Some? && Get(note, "source_references").value.Arr?
    requires AllStrings(ListOf(note, "source_references"))
    ensures var before := ListOf(note, "source_references");
            var after := ListOf(Project(t, Obj(note)).1.fields, "source_references");
            && |after| == |before|
            && forall i :: 0 <= i < |before| ==> IsHandleOf(Project(t, Obj(note)).0, after[i], before[i].s)
  {
    hide Names;
    var (t1, d) := Decide(t, note);
    DecideIsValid(t, note);
    ProjectFieldsIsValid(t1, note, d);
    ReferencesAfterFields(t1, note, d);
    GetAfterPut(ProjectFields(t1, note, d).1, "already_read", Bool(true), "source_references");
    var first := if NativeReference(note).Some? then With(t, NativeReference(note).value) else t;
    if NativeReference(note).Some? { WithIsValid(t, NativeReference(note).value); }
    RenamedNames(first, ListOf(note, "source_references"));
  }

  lemma {:induction false} BodyAfterFields(t: Table, fields: seq<Field>, d: Decision, key: string)
    requires key == "text" || key == "excerpt"
    ensures var before, after := Get(fields, key), Get(ProjectFields(t, fields, d).1, key);
            if d.hidden then after == None
            else
              && after.Some? == before.Some?
              && (before.Some? ==> after.value.Str? == before.value.Str? && (before.value.Str? ==> after == before))
    decreases |fields|
  {
    if fields != [] {
      var (t1, first) := ProjectField(t, fields[0], d);
      var rest := ProjectFields(t1, fields[1..], d).1;
      BodyAfterFields(t1, fields[1..], d, key);
      if Visits(fields[0], d) { ConstructorKept(t, fields[0].value); }
      if first == [] { assert first + rest == rest; } else { assert (first + rest)[1..] == rest; }
    }
  }

  /** What the reader sees of an original's text: nothing if the conversation already holds it. */
  ghost function TextShown(t: Table, source: seq<Field>): string
    requires NativeReference(source).Some?
  {
    if NativeReference(source).value in Seen(t) then "" else TextOf(Obj(source))
  }

  lemma SourceAfterProject(t: Table, source: seq<Field>)
    requires Valid(t) && NativeReference(source).Some?
    ensures var (u, shown) := Project(t, Obj(source));
            && IsHandleOf(u, ReferenceOf(shown), NativeReference(source).value)
            && TextOf(shown) == TextShown(t, source)
  {
    var (t1, d) := Decide(t, source);
    DecideIsValid(t, source);
    ProjectFieldsIsValid(t1, source, d);
    HiddenMeansSeen(t, source);
    ReferenceAfterProject(t1, source, d);
    BodyAfterFields(t1, source, d, "text");
    var fields := ProjectFields(t1, source, d).1;
    GetAfterPut(fields, "already_read", Bool(true), "reference");
    GetAfterPut(fields, "already_read", Bool(true), "text");
  }

  /**
   What the reader is shown of an original: a handle the table resolves to it, and its text
   and excerpt unless the conversation already holds it; then neither, and a mark instead.
   */
  lemma OriginalShown(t: Table, fields: seq<Field>, original: string)
    requires Valid(t) && Get(fields, "reference") == Some(Str(original)) && "elf-source-v1/" <= original
    ensures var (u, v) := Project(t, Obj(fields));
            && v.Obj? && IsHandleOf(u, ReferenceOf(v), original)
            && if exists h :: h in t.visible && h in t.native && t.native[h] == original
               then
                 && Get(v.fields, "text") == None && Get(v.fields, "excerpt") == None
                 && Get(v.fields, "already_read") == Some(Bool(true))
               else
                 && (forall s :: Get(v.fields, "text") == Some(Str(s)) <==> Get(fields, "text") == Some(Str(s)))
                 && (forall s :: Get(v.fields, "excerpt") == Some(Str(s)) <==> Get(fields, "excerpt") == Some(Str(s)))
  {
    hide Project, Valid;
    var (t1, d) := Decide(t, fields);
    assert original in Seen(t) <==> exists h :: h in t.visible && h in t.native && t.native[h] == original;
    SourceAfterProject(t, fields);
    HiddenMeansSeen(t, fields);
    ProjectObject(t, fields);
    BodyAfterFields(t1, fields, d, "text");
    BodyAfterFields(t1, fields, d, "excerpt");
    var kept := ProjectFields(t1, fields, d).1;
    GetAfterPut(kept, "already_read", Bool(true), "already_read");
    GetAfterPut(kept, "already_read", Bool(true), "text");
    GetAfterPut(kept, "already_read", Bool(true), "excerpt");
  }

  lemma ProjectObject(t: Table, fields: seq<Field>)
    ensures var (t1, d) := Decide(t, fields);
            Project(t, Obj(fields)).1 == Obj(Marked(ProjectFields(t1, fields, d).1, d.hidden))
  {}

  lemma SeenSame(t: Table, u: Table)
    requires Valid(t) && Grows(t, u)
    ensures Seen(u) == Seen(t)
  {}

  // ------------------------------------------------------------- links of a pack

  /** Every source of the pack is named by a native reference. */
  predicate NativeSources(sources: seq<Json>) {
    forall k :: 0 <= k < |sources| ==> sources[k].Obj? && NativeReference(sources[k].fields).Some?
  }

  function OriginalOf(sources: seq<Json>, k: nat): string
    requires NativeSources(sources) && k < |sources|
  {
    NativeReference(sources[k].fields).value
  }

  predicate Holds(sources: seq<Json>, original: string)
    requires NativeSources(sources)
  {
    exists k :: 0 <= k < |sources| && OriginalOf(sources, k) == original
  }

  predicate NoteOf(note: Json) {
    && note.Obj? && Get(note.fields, "source_references").Some? && Get(note.fields, "source_references").value.Arr?
    && AllStrings(ListOf(note.fields, "source_references"))
  }

  /** The pack as the reader sees it. */
  ghost function Seeing(t: Table, pack: seq<Field>): seq<Field> { Project(t, Obj(pack)).1.fields }

  lemma SourceSeen(t: Table, pack: seq<Field>, k: nat)
    requires Valid(t) && NativeSources(ListOf(pack, "sources")) && k < |ListOf(pack, "sources")|
    ensures |ListOf(Seeing(t, pack), "sources")| == |ListOf(pack, "sources")|
    ensures var shown := ListOf(Seeing(t, pack), "sources")[k];
            && IsHandleOf(Project(t, Obj(pack)).0, ReferenceOf(shown), OriginalOf(ListOf(pack, "sources"), k))
            && TextOf(shown) == TextShown(t, ListOf(pack, "sources")[k].fields)
  {
    var u := EntryAfterProject(t, pack, "sources", k);
    SourceAfterProject(u, ListOf(pack, "sources")[k].fields);
    SeenSame(t, u);
  }

  lemma NoteSeen(t: Table, pack: seq<Field>, i: nat)
    requires Valid(t) && i < |ListOf(pack, "notes")| && NoteOf(ListOf(pack, "notes")[i])
    ensures |ListOf(Seeing(t, pack), "notes")| == |ListOf(pack, "notes")|
    ensures var before := ListOf(ListOf(pack, "notes")[i].fields, "source_references");
            var note := ListOf(Seeing(t, pack), "notes")[i];
            && note.Obj? && |ListOf(note.fields, "source_references")| == |before|
            && forall j :: 0 <= j < |before| ==>
                 IsHandleOf(Project(t, Obj(pack)).0, ListOf(note.fields, "source_references")[j], before[j].s)
  {
    var u := EntryAfterProject(t, pack, "notes", i);
    ReferencesAfterProject(u, ListOf(pack, "notes")[i].fields);
  }

  /** Handles stand for the same original exactly if they are the same. */
  lemma SameHandle(u: Table, a: Json, b: Json, x: string, y: string)
    requires Valid(u) && IsHandleOf(u, a, x) && IsHandleOf(u, b, y)
    ensures a == b <==> x == y
  {}

  /** A link of a note is answered after projection exactly if it was before. */
  lemma LinkSurvivesIff(t: Table, pack: seq<Field>, i: nat, j: nat)
    requires Valid(t) && NativeSources(ListOf(pack, "sources"))
    requires i < |ListOf(pack, "notes")| && NoteOf(ListOf(pack, "notes")[i])
    requires j < |ListOf(ListOf(pack, "notes")[i].fields, "source_references")|
    ensures |ListOf(Seeing(t, pack), "notes")| == |ListOf(pack, "notes")| && ListOf(Seeing(t, pack), "notes")[i].Obj?
    ensures |ListOf(ListOf(Seeing(t, pack), "notes")[i].fields, "source_references")| > j
    ensures Available(ListOf(Seeing(t, pack), "sources"),
              ListOf(ListOf(Seeing(t, pack), "notes")[i].fields, "source_references")[j])
            <==> Holds(ListOf(pack, "sources"), ListOf(ListOf(pack, "notes")[i].fields, "source_references")[j].s)
  {
    NoteSeen(t, pack, i);
    ProjectIsValid(t, Obj(pack));
    ListKeepsLength(t, pack, "sources");
    var u, sources, shown := Project(t, Obj(pack)).0, ListOf(pack, "sources"), ListOf(Seeing(t, pack), "sources");
    var original := ListOf(ListOf(pack, "notes")[i].fields, "source_references")[j].s;
    var handle := ListOf(ListOf(Seeing(t, pack), "notes")[i].fields, "source_references")[j];
    forall k | 0 <= k < |sources|
      ensures ReferenceOf(shown[k]) == handle <==> OriginalOf(sources, k) == original
    {
      SourceSeen(t, pack, k);
      SameHandle(u, ReferenceOf(shown[k]), handle, OriginalOf(sources, k), original);
    }
  }

  /** Every note is one with a reference list, and every reference names a source of the pack. */
  predicate AllLinked(pack: seq<Field>)
    requires NativeSources(ListOf(pack, "sources"))
  {
    forall i :: 0 <= i < |ListOf(pack, "notes")| ==> LinkedNote(pack, ListOf(pack, "notes")[i])
  }

  predicate LinkedNote(pack: seq<Field>, note: Json)
    requires NativeSources(ListOf(pack, "sources"))
  {
    && NoteOf(note)
    && forall j :: 0 <= j < |ListOf(note.fields, "source_references")| ==>
         Holds(ListOf(pack, "sources"), ListOf(note.fields, "source_references")[j].s)
  }

  lemma LinkedDoesNotDangle(pack: seq<Field>, i: nat)
    requires NativeSources(ListOf(pack, "sources")) && AllLinked(pack) && i < |ListOf(pack, "notes")|
    ensures !Dangling(ListOf(pack, "sources"), ListOf(ListOf(pack, "notes")[i].fields, "source_references"))
  {
    var sources, note := ListOf(pack, "sources"), ListOf(pack, "notes")[i];
    assert LinkedNote(pack, note);
    var links := ListOf(note.fields, "source_references");
    forall j | 0 <= j < |links| ensures Available(sources, links[j]) {
      var k :| 0 <= k < |sources| && OriginalOf(sources, k) == links[j].s;
      assert ReferenceOf(sources[k]) == links[j];
    }
  }

  /** Repairing a reply around a linked pack adds at most the byte between `true` and `false`. */
  lemma LinkedGrowth(reply: seq<Field>, pack: seq<Field>, claims: bool)
    requires Get(reply, "pack") == Some(Obj(pack)) && Get(pack, "complete") == Some(Bool(claims))
    requires NativeSources(ListOf(pack, "sources")) && AllLinked(pack)
    ensures RepairGrowth(reply) <= if claims then 1 else 0
  {
    hide Dangling, RepairGrowth, AllLinked, NativeSources;
    forall i | 0 <= i < |ListOf(pack, "notes")| && ListOf(pack, "notes")[i].Obj?
      ensures !Dangling(ListOf(pack, "sources"), ListOf(ListOf(pack, "notes")[i].fields, "source_references"))
    {
      LinkedDoesNotDangle(pack, i);
    }
    LinkedPackGrowth(reply, claims);
  }

  /** A linked pack has no dangling link for the reader either. */
  lemma SeenIsLinked(t: Table, pack: seq<Field>, i: nat)
    requires Valid(t) && NativeSources(ListOf(pack, "sources")) && AllLinked(pack) && i < |ListOf(pack, "notes")|
    ensures |ListOf(Seeing(t, pack), "notes")| == |ListOf(pack, "notes")| && ListOf(Seeing(t, pack), "notes")[i].Obj?
    ensures !Dangling(ListOf(Seeing(t, pack), "sources"),
              ListOf(ListOf(Seeing(t, pack), "notes")[i].fields, "source_references"))
  {
    hide Seeing, Available, Holds;
    assert LinkedNote(pack, ListOf(pack, "notes")[i]);
    NoteSeen(t, pack, i);
    var links := ListOf(ListOf(Seeing(t, pack), "notes")[i].fields, "source_references");
    forall j | 0 <= j < |links| ensures Available(ListOf(Seeing(t, pack), "sources"), links[j]) {
      LinkSurvivesIff(t, pack, i, j);
    }
  }

  /** Nor does it add more to what the reader sees of it. */
  lemma SeenGrowth(t: Table, reply: seq<Field>, pack: seq<Field>, claims: bool)
    requires Valid(t) && Get(reply, "pack") == Some(Obj(pack)) && Get(pack, "complete") == Some(Bool(claims))
    requires NativeSources(ListOf(pack, "sources")) && AllLinked(pack)
    ensures RepairGrowth(Seeing(t, reply)) <= if claims then 1 else 0
  {
    hide Dangling, RepairGrowth, AllLinked, NativeSources;
    var u := NodeAfterProject(t, reply, "pack");
    assert PackOf(Seeing(t, reply)) == Seeing(u, pack);
    var w := NodeAfterProject(u, pack, "complete");
    ListKeepsLength(u, pack, "notes");
    forall i | 0 <= i < |ListOf(pack, "notes")|
      ensures ListOf(Seeing(u, pack), "notes")[i].Obj?
      ensures !Dangling(ListOf(Seeing(u, pack), "sources"),
                ListOf(ListOf(Seeing(u, pack), "notes")[i].fields, "source_references"))
    {
      SeenIsLinked(u, pack, i);
    }
    LinkedPackGrowth(Seeing(t, reply), claims);
  }

  // ------------------------------------------------------------ quotes of a pack

  /** The reader is shown the quote in an original the note links. */
  ghost predicate QuoteShown(t: Table, sources: seq<Json>, references: seq<Json>, q: string)
    requires NativeSources(sources)
  {
    exists k :: 0 <= k < |sources| && QuoteShownIn(t, sources, references, q, k)
  }

  ghost predicate QuoteShownIn(t: Table, sources: seq<Json>, references: seq<Json>, q: string, k: nat)
    requires NativeSources(sources) && k < |sources|
  {
    Str(OriginalOf(sources, k)) in references && Occurs(q, TextShown(t, sources[k].fields))
  }

  lemma QuoteBackedIff(t: Table, pack: seq<Field>, i: nat, q: string)
    requires Valid(t) && NativeSources(ListOf(pack, "sources"))
    requires i < |ListOf(pack, "notes")| && NoteOf(ListOf(pack, "notes")[i])
    ensures |ListOf(Seeing(t, pack), "notes")| == |ListOf(pack, "notes")| && ListOf(Seeing(t, pack), "notes")[i].Obj?
    ensures Backed(ListOf(Seeing(t, pack), "sources"),
              ListOf(ListOf(Seeing(t, pack), "notes")[i].fields, "source_references"), Str(q))
            <==> QuoteShown(t, ListOf(pack, "sources"), ListOf(ListOf(pack, "notes")[i].fields, "source_references"), q)
  {
    NoteSeen(t, pack, i);
    ProjectIsValid(t, Obj(pack));
    ListKeepsLength(t, pack, "sources");
    var u, sources, shown := Project(t, Obj(pack)).0, ListOf(pack, "sources"), ListOf(Seeing(t, pack), "sources");
    var before := ListOf(ListOf(pack, "notes")[i].fields, "source_references");
    var after := ListOf(ListOf(Seeing(t, pack), "notes")[i].fields, "source_references");
    forall k | 0 <= k < |sources|
      ensures Quotes(shown[k], after, Str(q)) <==> QuoteShownIn(t, sources, before, q, k)
    {
      SourceSeen(t, pack, k);
      SameLinks(u, before, after, ReferenceOf(shown[k]), OriginalOf(sources, k));
    }
  }

  lemma SameLinks(u: Table, before: seq<Json>, after: seq<Json>, handle: Json, original: string)
    requires Valid(u) && AllStrings(before) && |after| == |before| && IsHandleOf(u, handle, original)
    requires forall j :: 0 <= j < |before| ==> IsHandleOf(u, after[j], before[j].s)
    ensures handle in after <==> Str(original) in before
  {
    forall j | 0 <= j < |before| ensures after[j] == handle <==> before[j] == Str(original) {
      SameHandle(u, after[j], handle, before[j].s, original);
    }
  }

  lemma QuotesAfterProject(t: Table, note: seq<Field>)
    requires Valid(t) && Get(note, "evidence_quotes").Some? && Get(note, "evidence_quotes").value.Arr?
    requires AllStrings(ListOf(note, "evidence_quotes"))
    ensures Get(Project(t, Obj(note)).1.fields, "evidence_quotes") == Get(note, "evidence_quotes")
  {
    var u := NodeAfterProject(t, note, "evidence_quotes");
    ProjectBareItems(u, ListOf(note, "evidence_quotes"));
  }

  /**
   Exactly which quotes of a note are left after a truncated pack is projected and repaired:
   those that stand in a linked original whose body is shown now. An original that the
   conversation already holds is shown without its body and backs no quote any more.
   */
  lemma QuoteKeptIff(t: Table, pack: seq<Field>, i: nat, q: string)
    requires Valid(t) && NativeSources(ListOf(pack, "sources"))
    requires i < |ListOf(pack, "notes")| && NoteOf(ListOf(pack, "notes")[i])
    requires var quotes := Get(ListOf(pack, "notes")[i].fields, "evidence_quotes");
             quotes.Some? && quotes.value.Arr? && AllStrings(quotes.value.items)
    ensures |ListOf(RepairPack(Seeing(t, pack)), "notes")| == |ListOf(pack, "notes")|
    ensures var note, kept := ListOf(pack, "notes")[i].fields, ListOf(RepairPack(Seeing(t, pack)), "notes")[i];
            && kept.Obj?
            && multiset(ListOf(kept.fields, "evidence_quotes"))[Str(q)] ==
               if QuoteShown(t, ListOf(pack, "sources"), ListOf(note, "source_references"), q)
               then multiset(ListOf(note, "evidence_quotes"))[Str(q)] else 0
  {
    QuoteBackedIff(t, pack, i, q);
    RepairedPack(Seeing(t, pack));
    var u := EntryAfterProject(t, pack, "notes", i);
    QuotesAfterProject(u, ListOf(pack, "notes")[i].fields);
    var sources, note := ListOf(Seeing(t, pack), "sources"), ListOf(Seeing(t, pack), "notes")[i].fields;
    RepairedQuotes(sources, note, Str(q));
  }

  /** Repairing a note keeps exactly the quotes its links back. */
  lemma RepairedQuotes(sources: seq<Json>, note: seq<Field>, q: Json)
    requires Get(note, "evidence_quotes").Some? && Get(note, "evidence_quotes").value.Arr?
    ensures multiset(ListOf(RepairNote(sources, Obj(note)).fields, "evidence_quotes"))[q] ==
            if Backed(sources, ListOf(note, "source_references"), q) then multiset(ListOf(note, "evidence_quotes"))[q]
            else 0
  {
    hide Backed, BackedQuotes, Dangling, Linked;
    var references, quotes := ListOf(note, "source_references"), ListOf(note, "evidence_quotes");
    var relinked := Relinked(sources, note);
    var linked := ListOf(relinked, "source_references");
    RelinkedLists(sources, note);
    GetAfterPut(relinked, "evidence_quotes", Arr(BackedQuotes(sources, linked, quotes)), "evidence_quotes");
    KeptQuotes(sources, linked, quotes, q);
    LinkedBacks(sources, references, q);
  }

  /** So a quote goes, however valid, when every linked original that holds it was delivered before. */
  lemma DeliveredQuoteIsLost(t: Table, pack: seq<Field>, i: nat, q: string)
    requires Valid(t) && NativeSources(ListOf(pack, "sources")) && q != ""
    requires i < |ListOf(pack, "notes")| && NoteOf(ListOf(pack, "notes")[i])
    requires var quotes := Get(ListOf(pack, "notes")[i].fields, "evidence_quotes");
             quotes.Some? && quotes.value.Arr? && AllStrings(quotes.value.items)
    requires forall k :: 0 <= k < |ListOf(pack, "sources")| && Occurs(q, TextOf(ListOf(pack, "sources")[k])) ==>
               OriginalOf(ListOf(pack, "sources"), k) in Seen(t)
    ensures |ListOf(RepairPack(Seeing(t, pack)), "notes")| == |ListOf(pack, "notes")|
    ensures var kept := ListOf(RepairPack(Seeing(t, pack)), "notes")[i];
            kept.Obj? && Str(q) !in ListOf(kept.fields, "evidence_quotes")
  {
    QuoteKeptIff(t, pack, i, q);
    var kept := ListOf(RepairPack(Seeing(t, pack)), "notes")[i];
    assert Str(q) in ListOf(kept.fields, "evidence_quotes") <==>
        Str(q) in multiset(ListOf(kept.fields, "evidence_quotes"));
  }

  lemma TwoFields(a: Field, b: Field)
    requires a.key != b.key
    ensures Get([a, b], a.key) == Some(a.value) && Get([a, b], b.key) == Some(b.value)
  {
    assert [a, b][1..] == [b];
  }

  function QuotedSource(original: string, body: string): seq<Field> {
    [Field("reference", Str(original)), Field("text", Str(body))]
  }

  function QuotingNote(original: string, q: string): seq<Field> {
    [Field("source_references", Arr([Str(original)])), Field("evidence_quotes", Arr([Str(q)]))]
  }

  /** A pack of one original and one note that quotes it. */
  function QuotingPack(original: string, body: string, q: string): seq<Field> {
    [Field("sources", Arr([Obj(QuotedSource(original, body))])), Field("notes", Arr([Obj(QuotingNote(original, q))]))]
  }

  lemma ClosedExample(source: seq<Field>, note: seq<Field>, original: string, q: string)
    requires ReferenceOf(Obj(source)) == Str(original) && Quotes(Obj(source), [Str(original)], Str(q))
    requires ListOf(note, "source_references") == [Str(original)] && ListOf(note, "evidence_quotes") == [Str(q)]
    ensures Closed([Obj(source)], Obj(note))
  {
    var sources := [Obj(source)];
    assert ReferenceOf(sources[0]) == Str(original) && Quotes(sources[0], [Str(original)], Str(q));
  }

  /** In this pack the quote is backed; for a reader who holds the original the repair drops it all the same. */
  lemma QuoteOfDeliveredOriginal(t: Table, original: string, body: string, q: string)
    requires Valid(t) && original in Seen(t) && IsNative(original) && Occurs(q, body) && q != ""
    ensures AllClosed(QuotingPack(original, body, q))
    ensures var notes := ListOf(RepairPack(Seeing(t, QuotingPack(original, body, q))), "notes");
            |notes| == 1 && notes[0].Obj? && Str(q) !in ListOf(notes[0].fields, "evidence_quotes")
  {
    hide Seeing, Names;
    var pack, source, note := QuotingPack(original, body, q), QuotedSource(original, body), QuotingNote(original, q);
    TwoFields(pack[0], pack[1]);
    TwoFields(source[0], source[1]);
    TwoFields(note[0], note[1]);
    assert ListOf(pack, "sources") == [Obj(source)] && ListOf(pack, "notes") == [Obj(note)];
    assert Quotes(Obj(source), [Str(original)], Str(q));
    ClosedExample(source, note, original, q);
    DeliveredQuoteIsLost(t, pack, 0, q);
  }
}
