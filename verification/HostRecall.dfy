/**
 Recalls as the native service returns them (`packages/elf-service/src/evidence/recall.rs`,
 lines 39-89, and `packages/elf-service/src/evidence/pack.rs`, lines 37-99), read by the
 host. With handles they never cost more than their cap. Without handles one can, and it
 overdraws the budget; with or without, one can fail to fit although its limit was kept.
 */
module HostRecall {
  import opened Wrappers
  import opened Json
  import opened Compact
  import opened EvidenceHandles
  import opened HandleSize
  import opened PackRepair
  import opened PackLinks
  import opened HostBudget
  import opened HostSafety
  import opened HostRead

  // ----------------------------------------------------------- the native response

  datatype Note = Note(id: string, kind: string, project: string, scope: string, text: string, facts: seq<string>,
    quotes: seq<string>, references: seq<string>, complete: bool)

  datatype Source = Source(reference: string, docId: string, hash: string, start: nat, end: nat, text: string,
    title: Option<string>, origin: Option<string>, timestamp: Option<string>, captured: string)

  datatype Pack = Pack(notes: seq<Note>, sources: seq<Source>, complete: bool, bytes: nat, omitted: seq<string>)

  datatype Candidate = Candidate(id: string, lexical: bool, entities: seq<string>)

  datatype Recall = Recall(asOf: Option<string>, truncated: bool, candidates: seq<Candidate>, pack: Pack)

  /** A note stores at most this many facts, and a complete one was read through at most this many pointers. */
  const FACT_LIMIT := 64
  const SOURCE_LIMIT := 4
  /** A reference holds a document id and a content hash; an entity id is a UUID. */
  const REFERENCE_SIZE := 119
  const UUID_SIZE := 36

  predicate IsReference(s: string) { IsNative(s) && TextSize(s, Utf8) >= REFERENCE_SIZE }

  /** A complete note read all its pointers, at most four, and found at least one original. */
  predicate NativeNote(sources: seq<Source>, n: Note) {
    && |n.facts| <= FACT_LIMIT
    && (forall i :: 0 <= i < |n.references| ==> IsReference(n.references[i]) && Included(sources, n.references[i]))
    && (n.complete ==> n.references != [] && |n.quotes| <= SOURCE_LIMIT)
  }

  predicate Included(sources: seq<Source>, reference: string) {
    exists k :: 0 <= k < |sources| && sources[k].reference == reference
  }

  predicate NativeCandidate(c: Candidate) {
    forall i :: 0 <= i < |c.entities| ==> TextSize(c.entities[i], Utf8) >= UUID_SIZE
  }

  predicate NativePack(p: Pack) {
    && |p.notes| <= NATIVE_NOTES
    && (forall i :: 0 <= i < |p.notes| ==> NativeNote(p.sources, p.notes[i]))
    && (forall k :: 0 <= k < |p.sources| ==> IsReference(p.sources[k].reference))
    && (p.complete ==> p.omitted == [] && forall i :: 0 <= i < |p.notes| ==> p.notes[i].complete)
  }

  predicate Native(r: Recall) {
    && NativePack(r.pack)
    && |r.candidates| <= NATIVE_NOTES && (forall i :: 0 <= i < |r.candidates| ==> NativeCandidate(r.candidates[i]))
    && (!r.pack.complete ==> r.truncated)
  }

  // ---------------------------------------------------------------- as JSON

  function Texts(items: seq<string>): (r: seq<Json>)
    ensures |r| == |items| && forall i :: 0 <= i < |items| ==> r[i] == Str(items[i])
  {
    if items == [] then [] else [Str(items[0])] + Texts(items[1..])
  }

  function OptionalText(text: Option<string>): Json { match text case Some(s) => Str(s) case None => Null }

  /** The service leaves an empty list of facts or quotes out. */
  function ListField(key: string, items: seq<string>): seq<Field> {
    if items == [] then [] else [Field(key, Arr(Texts(items)))]
  }

  function NoteHead(n: Note): seq<Field> {
    [Field("note_id", Str(n.id)), Field("note_type", Str(n.kind)), Field("project_id", Str(n.project)),
     Field("scope", Str(n.scope)), Field("text", Str(n.text))]
  }

  function NoteLists(n: Note): seq<Field> { ListField("facts", n.facts) + ListField("evidence_quotes", n.quotes) }

  function LinkField(n: Note): Field { Field("source_references", Arr(Texts(n.references))) }

  function NoteFields(n: Note): seq<Field> {
    (NoteHead(n) + NoteLists(n)) + [LinkField(n)] + [Field("complete", Bool(n.complete))]
  }

  function NoteList(notes: seq<Note>): (r: seq<Json>)
    ensures |r| == |notes| && forall i :: 0 <= i < |notes| ==> r[i] == Obj(NoteFields(notes[i]))
  {
    if notes == [] then [] else [Obj(NoteFields(notes[0]))] + NoteList(notes[1..])
  }

  function SourceTail(s: Source): seq<Field> {
    [Field("doc_id", Str(s.docId)), Field("content_hash", Str(s.hash)), Field("start", Num(Decimal(s.start))),
     Field("end", Num(Decimal(s.end))), Field("text", Str(s.text)), Field("title", OptionalText(s.title)),
     Field("origin", OptionalText(s.origin)), Field("source_timestamp", OptionalText(s.timestamp)),
     Field("captured_at", Str(s.captured))]
  }

  function SourceFields(s: Source): seq<Field> { [Field("reference", Str(s.reference))] + SourceTail(s) }

  function SourceList(sources: seq<Source>): (r: seq<Json>)
    ensures |r| == |sources| && forall k :: 0 <= k < |sources| ==> r[k] == Obj(SourceFields(sources[k]))
  {
    if sources == [] then [] else [Obj(SourceFields(sources[0]))] + SourceList(sources[1..])
  }

  function CandidateFields(c: Candidate): seq<Field> {
    [Field("note_id", Str(c.id)), Field("lexical_match", Bool(c.lexical))] +
    [Field("entity_ids", Arr(Texts(c.entities)))]
  }

  function CandidateList(candidates: seq<Candidate>): (r: seq<Json>)
    ensures |r| == |candidates| && forall i :: 0 <= i < |candidates| ==> r[i] == Obj(CandidateFields(candidates[i]))
  {
    if candidates == [] then [] else [Obj(CandidateFields(candidates[0]))] + CandidateList(candidates[1..])
  }

  const PACK_HEAD := [Field("schema", Str("elf.evidence_pack/v1"))]

  function PackTail(p: Pack): seq<Field> {
    [Field("complete", Bool(p.complete)), Field("source_bytes", Num(Decimal(p.bytes)))] +
    [Field("omitted_note_ids", Arr(Texts(p.omitted)))]
  }

  function NotesField(p: Pack): Field { Field("notes", Arr(NoteList(p.notes))) }

  /** The pack with its sources as they are given. */
  function PackWith(p: Pack, sources: seq<Json>): seq<Field> {
    (PACK_HEAD + [NotesField(p)]) + [Field("sources", Arr(sources))] + PackTail(p)
  }

  function RecallHead(r: Recall): seq<Field> {
    [Field("schema", Str("elf.evidence_recall/v1")), Field("as_of", OptionalText(r.asOf)),
     Field("truncated", Bool(r.truncated))]
  }

  function CandidatesField(r: Recall): Field { Field("candidates", Arr(CandidateList(r.candidates))) }

  function RecallWith(r: Recall, sources: seq<Json>): seq<Field> {
    (RecallHead(r) + [CandidatesField(r)]) + [Field("pack", Obj(PackWith(r.pack, sources)))] + []
  }

  /** The reply as the native service sends it. */
  function RecallFields(r: Recall): seq<Field> { RecallWith(r, SourceList(r.pack.sources)) }

  // ------------------------------------------------------- reading the fields back

  lemma {:induction false} PutPast(a: seq<Field>, b: seq<Field>, key: string, v: Json)
    requires Lacks(a, key)
    ensures Put(a + b, key, v) == a + Put(b, key, v)
    decreases |a|
  {
    if a == [] {
      assert a + b == b && a + Put(b, key, v) == Put(b, key, v);
    } else {
      assert (a + b)[1..] == a[1..] + b && (a + b)[0] == a[0];
      PutPast(a[1..], b, key, v);
      assert [a[0]] + (a[1..] + Put(b, key, v)) == a + Put(b, key, v);
    }
  }

  lemma PutBetween(a: seq<Field>, field: Field, b: seq<Field>, v: Json)
    requires Lacks(a, field.key)
    ensures Put(a + [field] + b, field.key, v) == a + [Field(field.key, v)] + b
  {
    assert a + [field] + b == a + ([field] + b);
    PutPast(a, [field] + b, field.key, v);
    assert ([field] + b)[1..] == b;
    assert a + ([Field(field.key, v)] + b) == a + [Field(field.key, v)] + b;
  }

  lemma PackLists(p: Pack, sources: seq<Json>)
    ensures var pack := PackWith(p, sources);
            && Get(pack, "notes") == Some(NotesField(p).value) && Get(pack, "sources") == Some(Arr(sources))
            && Get(pack, "complete") == Some(Bool(p.complete))
            && Get(pack, "reference") == None && Get(pack, "source_references") == None
  {
    hide NoteList, Texts;
    var listed := Field("sources", Arr(sources));
    GetBetween(PACK_HEAD + [NotesField(p)], listed, PackTail(p));
    GetPast(PACK_HEAD + [NotesField(p)] + [listed], PackTail(p), "complete");
    LacksAround(PACK_HEAD + [NotesField(p)], listed, PackTail(p), "reference");
    LacksAround(PACK_HEAD + [NotesField(p)], listed, PackTail(p), "source_references");
    GetBetween(PACK_HEAD, NotesField(p), [listed] + PackTail(p));
    assert PACK_HEAD + [NotesField(p)] + ([listed] + PackTail(p)) == PackWith(p, sources);
  }

  lemma RecallLists(r: Recall, sources: seq<Json>)
    ensures var recall := RecallWith(r, sources);
            && Get(recall, "pack") == Some(Obj(PackWith(r.pack, sources)))
            && Get(recall, "truncated") == Some(Bool(r.truncated))
            && Get(recall, "reference") == None && Get(recall, "source_references") == None
  {
    hide CandidateList, PackWith;
    var head, pack := RecallHead(r), Field("pack", Obj(PackWith(r.pack, sources)));
    GetBetween(head + [CandidatesField(r)], pack, []);
    LacksAround(head + [CandidatesField(r)], pack, [], "reference");
    LacksAround(head + [CandidatesField(r)], pack, [], "source_references");
    GetBetween(head[..2], head[2], [CandidatesField(r)] + [pack]);
    assert head[..2] + [head[2]] + ([CandidatesField(r)] + [pack]) == RecallWith(r, sources);
  }

  lemma SourceFieldsRead(s: Source)
    ensures Get(SourceFields(s), "reference") == Some(Str(s.reference))
    ensures Get(SourceFields(s), "doc_id") == Some(Str(s.docId))
    ensures Get(SourceFields(s), "source_id") == None && Get(SourceFields(s), "source_references") == None
  {
    var fields, tail := SourceFields(s), SourceTail(s);
    assert fields[0] == Field("reference", Str(s.reference)) && fields[1..] == tail;
    assert tail[0] == Field("doc_id", Str(s.docId));
    GetAbsent(fields, "source_id");
    GetAbsent(fields, "source_references");
  }

  lemma NoteFieldsRead(n: Note)
    ensures Get(NoteFields(n), "source_references") == Some(Arr(Texts(n.references)))
    ensures Get(NoteFields(n), "reference") == None
    ensures NoteOf(Obj(NoteFields(n)))
  {
    var head, tail := NoteHead(n) + NoteLists(n), [Field("complete", Bool(n.complete))];
    GetBetween(head, LinkField(n), tail);
    LacksAround(head, LinkField(n), tail, "reference");
  }

  /** All documents are of the checkpoint. */
  predicate Known(ids: Ids, sources: seq<Source>) { forall k :: 0 <= k < |sources| ==> sources[k].docId in ids }

  lemma NamedPackWith(ids: Ids, p: Pack)
    requires Known(ids, p.sources)
    ensures AllKnown(ids, SourceList(p.sources))
    ensures NamedPack(ids, PackWith(p, SourceList(p.sources))) ==
            Some(PackWith(p, WithIds(ids, SourceList(p.sources))))
  {
    hide NoteList, Texts, SourceFields, WithId;
    var sources := SourceList(p.sources);
    forall k | 0 <= k < |sources| ensures IdOf(ids, sources[k]).Some? { SourceFieldsRead(p.sources[k]); }
    PackLists(p, sources);
    PutBetween(PACK_HEAD + [NotesField(p)], Field("sources", Arr(sources)), PackTail(p), Arr(WithIds(ids, sources)));
  }

  lemma NamedRecall(ids: Ids, r: Recall)
    requires Known(ids, r.pack.sources)
    ensures AllKnown(ids, SourceList(r.pack.sources))
    ensures NamedReply(ids, RECALL, RecallFields(r)) ==
            Some(RecallWith(r, WithIds(ids, SourceList(r.pack.sources))))
    ensures RawPack(RECALL, RecallFields(r)) == PackWith(r.pack, SourceList(r.pack.sources))
  {
    hide PackWith, NamedPack, CandidateList, SourceList, WithIds, Known, AllKnown;
    NamedPackWith(ids, r.pack);
    var sources := SourceList(r.pack.sources);
    RecallLists(r, sources);
    PutBetween(RecallHead(r) + [CandidatesField(r)], Field("pack", Obj(PackWith(r.pack, sources))), [],
      Obj(PackWith(r.pack, WithIds(ids, sources))));
  }

  // ---------------------------------------------------------- what a repair adds

  lemma NamedSourceRead(ids: Ids, s: Source)
    requires s.docId in ids && IsReference(s.reference)
    ensures IdOf(ids, Obj(SourceFields(s))) == Some(ids[s.docId])
    ensures var named := WithId(ids, Obj(SourceFields(s)));
            && named == Obj(SourceFields(s) + [Field("source_id", Str(ids[s.docId]))])
            && NativeReference(named.fields) == Some(s.reference) && ReferenceOf(named) == Str(s.reference)
  {
    SourceFieldsRead(s);
    var fields := SourceFields(s);
    PutPast(fields, [], "source_id", Str(ids[s.docId]));
    assert fields + [] == fields;
    GetAfterPut(fields, "source_id", Str(ids[s.docId]), "reference");
  }

  lemma SourcesAreNative(ids: Ids, p: Pack)
    requires NativePack(p) && Known(ids, p.sources) && AllKnown(ids, SourceList(p.sources))
    ensures var named := WithIds(ids, SourceList(p.sources));
            && NativeSources(named)
            && forall k :: 0 <= k < |p.sources| ==>
                 OriginalOf(named, k) == p.sources[k].reference && ReferenceOf(named[k]) == Str(p.sources[k].reference)
  {
    var named := WithIds(ids, SourceList(p.sources));
    forall k | 0 <= k < |named|
      ensures named[k].Obj? && NativeReference(named[k].fields) == Some(p.sources[k].reference)
      ensures ReferenceOf(named[k]) == Str(p.sources[k].reference)
    {
      NamedSourceRead(ids, p.sources[k]);
    }
  }

  lemma NotesLinked(ids: Ids, p: Pack, i: nat, j: nat)
    requires NativePack(p) && Known(ids, p.sources) && AllKnown(ids, SourceList(p.sources))
    requires i < |p.notes| && j < |p.notes[i].references|
    ensures var named := WithIds(ids, SourceList(p.sources));
            NativeSources(named) && Holds(named, p.notes[i].references[j])
  {
    SourcesAreNative(ids, p);
    var named := WithIds(ids, SourceList(p.sources));
    assert NativeNote(p.sources, p.notes[i]);
    assert Included(p.sources, p.notes[i].references[j]);
    var k :| 0 <= k < |p.sources| && p.sources[k].reference == p.notes[i].references[j];
    assert OriginalOf(named, k) == p.notes[i].references[j];
  }

  lemma PackIsLinked(ids: Ids, p: Pack)
    requires NativePack(p) && Known(ids, p.sources) && AllKnown(ids, SourceList(p.sources))
    ensures var pack := PackWith(p, WithIds(ids, SourceList(p.sources)));
            NativeSources(ListOf(pack, "sources")) && AllLinked(pack)
  {
    hide Holds, NoteFields, NativeNote, IsReference, WithId;
    var named := WithIds(ids, SourceList(p.sources));
    var pack := PackWith(p, named);
    PackLists(p, named);
    SourcesAreNative(ids, p);
    forall i | 0 <= i < |p.notes| ensures LinkedNote(pack, NoteList(p.notes)[i]) {
      NoteFieldsRead(p.notes[i]);
      forall j | 0 <= j < |p.notes[i].references| ensures Holds(named, p.notes[i].references[j]) {
        NotesLinked(ids, p, i, j);
      }
    }
  }

  /** A repair of a native recall adds at most the byte between `true` and `false`. */
  lemma NativeGrowth(v3: bool, t: Table, ids: Ids, r: Recall)
    requires Native(r) && Known(ids, r.pack.sources) && (v3 ==> Valid(t))
    ensures NamedReply(ids, RECALL, RecallFields(r)).Some?
    ensures Growth(v3, t, ids, RECALL, RecallFields(r)) <= if r.pack.complete then 1 else 0
  {
    hide AllLinked;
    NamedRecall(ids, r);
    var named := WithIds(ids, SourceList(r.pack.sources));
    RecallLists(r, named);
    PackLists(r.pack, named);
    PackIsLinked(ids, r.pack);
    var reply, pack := RecallWith(r, named), PackWith(r.pack, named);
    if v3 { SeenGrowth(t, reply, pack, r.pack.complete); } else { LinkedGrowth(reply, pack, r.pack.complete); }
  }

  // --------------------------------------------------------------- separators

  lemma TextsMarks(items: seq<string>)
    ensures Separators(Arr(Texts(items))) == if items == [] then 0 else |items| - 1
  {
    ScalarItemMarks(Texts(items));
    MarksOfItems(Texts(items));
  }

  lemma ListFieldMarks(key: string, items: seq<string>)
    ensures FieldMarks(ListField(key, items)) == if items == [] then 0 else |items| + 1
  {
    if items != [] {
      var field := Field(key, Arr(Texts(items)));
      TextsMarks(items);
      assert [field][1..] == [] && FieldMarks([]) == 0;
    }
  }

  function Between(n: nat): nat { if n == 0 then 0 else n - 1 }

  function Listed(n: nat): nat { if n == 0 then 0 else n + 1 }

  lemma NoteMarks(n: Note)
    ensures Separators(Obj(NoteFields(n))) ==
            13 + Listed(|n.facts|) + Listed(|n.quotes|) + Between(|n.references|)
  {
    var head, lists, tail := NoteHead(n), NoteLists(n), [Field("complete", Bool(n.complete))];
    ScalarMarks(head);
    ScalarMarks(tail);
    ListFieldMarks("facts", n.facts);
    ListFieldMarks("evidence_quotes", n.quotes);
    FieldMarksConcat(ListField("facts", n.facts), ListField("evidence_quotes", n.quotes));
    FieldMarksConcat(head, lists);
    FieldMarksAround(head + lists, LinkField(n), tail);
    TextsMarks(n.references);
    MarksOfFields(NoteFields(n));
  }

  lemma SourceMarks(s: Source)
    ensures Separators(Obj(SourceFields(s))) == 19
  {
    ScalarMarks(SourceFields(s));
    MarksOfFields(SourceFields(s));
  }

  lemma CandidateMarks(c: Candidate)
    ensures Separators(Obj(CandidateFields(c))) == 5 + Between(|c.entities|)
  {
    var head, last := [Field("note_id", Str(c.id)), Field("lexical_match", Bool(c.lexical))],
      Field("entity_ids", Arr(Texts(c.entities)));
    ScalarMarks(head);
    FieldMarksAround(head, last, []);
    assert head + [last] + [] == CandidateFields(c);
    TextsMarks(c.entities);
    MarksOfFields(CandidateFields(c));
  }

  lemma PackMarks(p: Pack, sources: seq<Json>)
    ensures Separators(Obj(PackWith(p, sources))) ==
            11 + Separators(Arr(NoteList(p.notes))) + Separators(Arr(sources)) + Between(|p.omitted|)
  {
    var listed, omitted := Field("sources", Arr(sources)), Field("omitted_note_ids", Arr(Texts(p.omitted)));
    var flags := [Field("complete", Bool(p.complete)), Field("source_bytes", Num(Decimal(p.bytes)))];
    ScalarMarks(PACK_HEAD);
    ScalarMarks(flags);
    FieldMarksAround(flags, omitted, []);
    assert flags + [omitted] + [] == PackTail(p);
    FieldMarksAround(PACK_HEAD, NotesField(p), []);
    assert PACK_HEAD + [NotesField(p)] + [] == PACK_HEAD + [NotesField(p)];
    FieldMarksAround(PACK_HEAD + [NotesField(p)], listed, PackTail(p));
    TextsMarks(p.omitted);
    MarksOfFields(PackWith(p, sources));
  }

  lemma RecallMarks(r: Recall)
    ensures Separators(Obj(RecallFields(r))) ==
            20 + Separators(Arr(CandidateList(r.candidates))) + Separators(Arr(NoteList(r.pack.notes)))
            + Separators(Arr(SourceList(r.pack.sources))) + Between(|r.pack.omitted|)
  {
    var sources := SourceList(r.pack.sources);
    var head, pack := RecallHead(r), Field("pack", Obj(PackWith(r.pack, sources)));
    ScalarMarks(head);
    FieldMarksAround(head, CandidatesField(r), []);
    assert head + [CandidatesField(r)] + [] == head + [CandidatesField(r)];
    FieldMarksAround(head + [CandidatesField(r)], pack, []);
    PackMarks(r.pack, sources);
    MarksOfFields(RecallFields(r));
  }

  // ------------------------------------------------------------ what handles save

  /** A reference is at least this much longer than its handle. */
  const HANDLE_SAVES := 109

  lemma {:induction false} RenameSaves(t: Table, references: seq<string>)
    requires Valid(t) && Short(RenameAll(t, Texts(references)).0)
    requires forall i :: 0 <= i < |references| ==> IsReference(references[i])
    ensures var renamed := RenameAll(t, Texts(references)).1;
            && |renamed| == |references|
            && ItemsSize(renamed, Utf8) + HANDLE_SAVES * |references| <= ItemsSize(Texts(references), Utf8)
    decreases |references|
  {
    hide Valid;
    if references != [] {
      var first := references[0];
      var u := With(t, first);
      WithIsValid(t, first);
      RenameAllIsValid(u, Texts(references[1..]));
      RenameSaves(u, references[1..]);
      var renamed := RenameAll(t, Texts(references)).1;
      assert Texts(references)[1..] == Texts(references[1..]);
      assert renamed[0] == Str(HandleFor(t, first)) && renamed[1..] == RenameAll(u, Texts(references[1..])).1;
      assert TextSize(HandleFor(t, first), Utf8) <= HANDLE_LIMIT;
    }
  }

  lemma NoteIsBareAround(n: Note)
    ensures BareFields(NoteHead(n) + NoteLists(n)) && BareFields([Field("complete", Bool(n.complete))])
  {}

  lemma NoteSaves(t: Table, n: Note)
    requires Valid(t) && Short(Project(t, Obj(NoteFields(n))).0)
    requires forall i :: 0 <= i < |n.references| ==> IsReference(n.references[i])
    ensures Saving(t, Obj(NoteFields(n))) >= HANDLE_SAVES * |n.references|
  {
    hide NoteLists, NoteHead;
    NoteFieldsRead(n);
    NoteIsBareAround(n);
    var (u, renamed) := RenameAll(t, Texts(n.references));
    var d := Decision(None, false, Some(renamed));
    assert Decide(t, NoteFields(n)) == (u, d);
    ProjectAround(u, NoteHead(n) + NoteLists(n), LinkField(n), [Field("complete", Bool(n.complete))], d);
    assert Project(t, Obj(NoteFields(n))).0 == u;
    RenameSaves(t, n.references);
    FieldsSavingAround(u, NoteHead(n) + NoteLists(n), LinkField(n), [Field("complete", Bool(n.complete))], d);
  }

  /** A complete native note saves more than it has separators. */
  lemma NoteIsSaved(t: Table, sources: seq<Source>, n: Note)
    requires Valid(t) && NativeNote(sources, n) && n.complete && Short(Project(t, Obj(NoteFields(n))).0)
    ensures 1 + Separators(Obj(NoteFields(n))) <= Saving(t, Obj(NoteFields(n)))
  {
    NoteMarks(n);
    NoteSaves(t, n);
  }

  lemma ShortBefore(t: Table, u: Table)
    requires Grows(t, u) && Short(u)
    ensures Short(t)
  {}

  lemma {:induction false} NotesAreSaved(t: Table, sources: seq<Source>, notes: seq<Note>)
    requires Valid(t) && Short(ProjectItems(t, NoteList(notes)).0)
    requires forall i :: 0 <= i < |notes| ==> NativeNote(sources, notes[i]) && notes[i].complete
    ensures ItemMarks(NoteList(notes)) <= ItemsSaving(t, NoteList(notes))
    decreases |notes|
  {
    hide NoteFields, NativeNote, Separators, Short, Valid;
    if notes != [] {
      var first := Obj(NoteFields(notes[0]));
      assert NoteList(notes)[0] == first && NoteList(notes)[1..] == NoteList(notes[1..]);
      ProjectIsValid(t, first);
      var u := Project(t, first).0;
      ProjectItemsIsValid(u, NoteList(notes[1..]));
      ShortBefore(u, ProjectItems(u, NoteList(notes[1..])).0);
      NoteIsSaved(t, sources, notes[0]);
      NotesAreSaved(u, sources, notes[1..]);
    }
  }

  /** An id the host gives to a source takes at most this much. */
  const ID_LIMIT := 50

  predicate ShortIds(ids: Ids) { forall doc :: doc in ids ==> TextSize(ids[doc], Utf8) <= ID_LIMIT }

  lemma NamedTailIsBare(s: Source, id: string)
    ensures BareFields(SourceTail(s) + [Field("source_id", Str(id))])
    ensures Lacks(SourceTail(s) + [Field("source_id", Str(id))], MARK.key)
  {
    hide Decimal;
  }

  lemma NamedSourceSaves(t: Table, ids: Ids, s: Source)
    requires Valid(t) && s.docId in ids && IsReference(s.reference)
    requires IdOf(ids, Obj(SourceFields(s))).Some? && Short(Project(t, WithId(ids, Obj(SourceFields(s)))).0)
    ensures Saving(t, WithId(ids, Obj(SourceFields(s)))) >= HANDLE_SAVES - 22
  {
    hide Bare, SourceTail, Short, TextSize;
    NamedSourceRead(ids, s);
    var tail := SourceTail(s) + [Field("source_id", Str(ids[s.docId]))];
    assert SourceFields(s) + [Field("source_id", Str(ids[s.docId]))] == [Field("reference", Str(s.reference))] + tail;
    NamedTailIsBare(s, ids[s.docId]);
    NamedObjectSaves(t, s.reference, tail);
  }

  /** An object saves most of its reference, and pays for the mark when its body is hidden. */
  lemma NamedObjectSaves(t: Table, reference: string, tail: seq<Field>)
    requires Valid(t) && IsReference(reference) && BareFields(tail) && Lacks(tail, MARK.key)
    requires Short(Project(t, Obj([Field("reference", Str(reference))] + tail)).0)
    ensures Saving(t, Obj([Field("reference", Str(reference))] + tail)) >= HANDLE_SAVES - 22
  {
    hide Decide, Bare, IsReference, Valid, Short, FieldsSaving, FieldCost, Bytes;
    var field := Field("reference", Str(reference));
    var (u, d) := Decide(t, [field] + tail);
    DecideNamed(t, reference, tail);
    NamedFieldsSave(u, field, tail, d);
    BareFieldsSave(u, tail, d);
    HandleBytes(d.handle.value);
    MarkCost();
  }

  lemma NamedFieldsSave(u: Table, field: Field, tail: seq<Field>, d: Decision)
    requires field.key == "reference" && d.handle.Some?
    ensures FieldsSaving(u, [field] + tail, d) ==
            Bytes(field.value) - Bytes(Str(d.handle.value)) + FieldsSaving(u, tail, d)
  {
    assert ([field] + tail)[0] == field && ([field] + tail)[1..] == tail;
    assert ProjectField(u, field, d).0 == u;
  }

  lemma HandleBytes(handle: string)
    ensures Bytes(Str(handle)) == 2 + TextSize(handle, Utf8)
  {}

  lemma DecideNamed(t: Table, reference: string, tail: seq<Field>)
    requires Valid(t) && IsReference(reference) && BareFields(tail)
    requires Short(Project(t, Obj([Field("reference", Str(reference))] + tail)).0)
    ensures var (u, d) := Decide(t, [Field("reference", Str(reference))] + tail);
            && d.handle.Some? && d.references.None?
            && TextSize(d.handle.value, Utf8) <= HANDLE_LIMIT
            && Bytes(Str(reference)) >= REFERENCE_SIZE + 2
  {
    var fields := [Field("reference", Str(reference))] + tail;
    var (u, d) := Decide(t, fields);
    assert fields[0] == Field("reference", Str(reference)) && fields[1..] == tail;
    GetAbsent(fields, "source_references");
    DecideIsValid(t, fields);
    ProjectFieldsIsValid(u, fields, d);
    assert d.handle.value in Project(t, Obj(fields)).0.native;
  }

  lemma MarkCost()
    ensures FieldCost(MARK) == 22
  {
    assert Plain("already_read");
    PlainSize("already_read");
  }

  /** A named source saves what its separators and its id cost. */
  lemma SourceIsSaved(t: Table, ids: Ids, s: Source)
    requires Valid(t) && s.docId in ids && IsReference(s.reference) && ShortIds(ids)
    requires IdOf(ids, Obj(SourceFields(s))).Some? && Short(Project(t, WithId(ids, Obj(SourceFields(s)))).0)
    ensures 1 + Separators(Obj(SourceFields(s))) + IdCost(ids, Obj(SourceFields(s)))
         <= Saving(t, WithId(ids, Obj(SourceFields(s))))
  {
    hide SourceFields, Separators, Saving;
    SourceMarks(s);
    NamedSourceSaves(t, ids, s);
    SourceFieldsRead(s);
    NamedSourceRead(ids, s);
  }

  lemma {:induction false} SourcesAreSaved(t: Table, ids: Ids, sources: seq<Source>)
    requires AllKnown(ids, SourceList(sources)) && Known(ids, sources) && ShortIds(ids) && Valid(t)
    requires forall k :: 0 <= k < |sources| ==> IsReference(sources[k].reference)
    requires Short(ProjectItems(t, WithIds(ids, SourceList(sources))).0)
    ensures ItemMarks(SourceList(sources)) + IdsCost(ids, SourceList(sources))
         <= ItemsSaving(t, WithIds(ids, SourceList(sources)))
    decreases |sources|
  {
    hide SourceFields, Separators, IdCost, WithId, IsReference, ShortIds;
    if sources != [] {
      var raw, rest := SourceList(sources), SourceList(sources[1..]);
      assert raw[0] == Obj(SourceFields(sources[0])) && raw[1..] == rest;
      var named := WithIds(ids, raw);
      var first := WithId(ids, raw[0]);
      assert named[0] == first && named[1..] == WithIds(ids, rest);
      ProjectIsValid(t, first);
      var u := Project(t, first).0;
      ProjectItemsIsValid(u, named[1..]);
      ShortBefore(u, ProjectItems(u, named[1..]).0);
      SourceIsSaved(t, ids, sources[0]);
      SourcesAreSaved(u, ids, sources[1..]);
    }
  }

  lemma CandidateIsBare(c: Candidate)
    ensures Bare(Obj(CandidateFields(c)))
  {
    assert Bare(Arr(Texts(c.entities)));
  }

  lemma CandidatesAreBare(candidates: seq<Candidate>)
    ensures Bare(Arr(CandidateList(candidates)))
  {
    forall i | 0 <= i < |candidates| ensures Bare(CandidateList(candidates)[i]) { CandidateIsBare(candidates[i]); }
  }

  /** Handles save in the notes and in the sources of a recall, one list after the other. */
  lemma RecallSaving(t: Table, r: Recall, named: seq<Json>)
    ensures var u := ProjectItems(t, NoteList(r.pack.notes)).0;
            && Saving(t, Obj(RecallWith(r, named))) ==
               ItemsSaving(t, NoteList(r.pack.notes)) + ItemsSaving(u, named)
            && Project(t, Obj(RecallWith(r, named))).0 == ProjectItems(u, named).0
  {
    hide PackWith, CandidateList;
    var d, head, pack := Decision(None, false, None), RecallHead(r) + [CandidatesField(r)], PackWith(r.pack, named);
    RecallLists(r, named);
    CandidatesAreBare(r.candidates);
    assert BareFields(head);
    assert Decide(t, RecallWith(r, named)) == (t, d);
    FieldsSavingAround(t, head, Field("pack", Obj(pack)), [], d);
    ProjectAround(t, head, Field("pack", Obj(pack)), [], d);
    PackSaving(t, r.pack, named);
  }

  lemma PackSaving(t: Table, p: Pack, named: seq<Json>)
    ensures var u := ProjectItems(t, NoteList(p.notes)).0;
            && Saving(t, Obj(PackWith(p, named))) == ItemsSaving(t, NoteList(p.notes)) + ItemsSaving(u, named)
            && Project(t, Obj(PackWith(p, named))).0 == ProjectItems(u, named).0
  {
    hide NoteList, PackTail;
    var d, listed := Decision(None, false, None), Field("sources", Arr(named));
    var front := PACK_HEAD + [NotesField(p)];
    PackLists(p, named);
    PackTailIsBare(p);
    assert Decide(t, PackWith(p, named)) == (t, d);
    assert front + [] == front && BareFields(PACK_HEAD);
    FieldsSavingAround(t, PACK_HEAD, NotesField(p), [], d);
    ProjectAround(t, PACK_HEAD, NotesField(p), [], d);
    var u := ProjectFields(t, front, d).0;
    FieldsSavingAround(u, [], listed, PackTail(p), d);
    ProjectAround(u, [], listed, PackTail(p), d);
    assert [] + [listed] + PackTail(p) == [listed] + PackTail(p);
    FieldsSavingConcat(t, front, [listed] + PackTail(p), d);
    ProjectInTurn(t, front, [listed] + PackTail(p), d);
    assert front + ([listed] + PackTail(p)) == PackWith(p, named);
  }

  lemma PackTailIsBare(p: Pack)
    ensures BareFields(PackTail(p))
  {}

  // ------------------------------------------------- with handles the slack suffices

  lemma {:induction false} TextsWithinSize(items: seq<string>)
    requires forall i :: 0 <= i < |items| ==> TextSize(items[i], Utf8) >= UUID_SIZE
    ensures CompactItems(Texts(items)) + 1 >= (UUID_SIZE + 3) * |items|
  {
    if items != [] {
      assert Texts(items)[1..] == Texts(items[1..]);
      TextsWithinSize(items[1..]);
    }
  }

  /** A candidate has a separator for each entity id, and 39 bytes of text. */
  lemma CandidateMarksBound(c: Candidate)
    requires NativeCandidate(c)
    ensures 39 * (1 + Separators(Obj(CandidateFields(c)))) <= CompactSize(Obj(CandidateFields(c))) + 39 * 6
  {
    var head, last := [Field("note_id", Str(c.id)), Field("lexical_match", Bool(c.lexical))],
      Field("entity_ids", Arr(Texts(c.entities)));
    CandidateMarks(c);
    TextsWithinSize(c.entities);
    FieldWithinSize(head, last, []);
    assert head + [last] + [] == CandidateFields(c);
  }

  lemma {:induction false} CandidatesMarksBound(candidates: seq<Candidate>)
    requires forall i :: 0 <= i < |candidates| ==> NativeCandidate(candidates[i])
    ensures 39 * ItemMarks(CandidateList(candidates)) <=
            CompactItems(CandidateList(candidates)) + 39 * 6 * |candidates|
  {
    hide CandidateFields, NativeCandidate, Separators, CompactSize;
    if candidates != [] {
      var list := CandidateList(candidates);
      assert list[0] == Obj(CandidateFields(candidates[0])) && list[1..] == CandidateList(candidates[1..]);
      CandidateMarksBound(candidates[0]);
      CandidatesMarksBound(candidates[1..]);
    }
  }

  lemma CandidatesWithinSize(r: Recall)
    ensures CompactItems(CandidateList(r.candidates)) <= CompactSize(Obj(RecallFields(r)))
  {
    hide CandidateList, PackWith, RecallHead;
    var pack := Field("pack", Obj(PackWith(r.pack, SourceList(r.pack.sources))));
    var list := CandidatesField(r);
    FieldWithinSize(RecallHead(r), list, [pack]);
    assert (RecallHead(r) + [list]) + [pack] + [] == RecallHead(r) + [list] + [pack];
  }

  /** What handles leave of the overhead: the separators between entity ids, and a constant. */
  lemma HandledOverhead(t: Table, ids: Ids, r: Recall)
    requires Valid(t) && Native(r) && r.pack.complete && Known(ids, r.pack.sources) && ShortIds(ids)
    requires CompactSize(Obj(RecallFields(r))) <= GREATEST_LIMIT
    requires NamedReply(ids, RECALL, RecallFields(r)).Some?
    requires Short(Project(t, Obj(NamedReply(ids, RECALL, RecallFields(r)).value)).0)
    ensures NamedPack(ids, RawPack(RECALL, RecallFields(r))).Some?
    ensures Overhead(true, t, ids, RECALL, RecallFields(r)) <= 932
  {
    hide NoteList, SourceList, RecallFields, Separators, ItemMarks, ItemsSaving, IdsCost, WithIds, Overhead;
    hide NamedReply, RawPack, RecallWith, CompactSize, Short, NativeNote, NativeCandidate, IsReference;
    OverheadParts(t, ids, r);
    CompletePackSaves(t, ids, r);
    RecallSeparatorsBound(r);
  }

  lemma RecallSeparatorsBound(r: Recall)
    requires forall i :: 0 <= i < |r.candidates| ==> NativeCandidate(r.candidates[i])
    requires |r.candidates| <= NATIVE_NOTES && r.pack.omitted == []
    requires CompactSize(Obj(RecallFields(r))) <= GREATEST_LIMIT
    ensures Separators(Obj(RecallFields(r))) <=
            932 + ItemMarks(NoteList(r.pack.notes)) + ItemMarks(SourceList(r.pack.sources))
  {
    hide NativeCandidate, NoteList, SourceList, CandidateList, RecallFields, Separators, ItemMarks, CompactItems;
    hide CompactSize;
    RecallMarks(r);
    MarksOfItems(NoteList(r.pack.notes));
    MarksOfItems(SourceList(r.pack.sources));
    MarksOfItems(CandidateList(r.candidates));
    CandidatesMarksBound(r.candidates);
    CandidatesWithinSize(r);
  }

  lemma OverheadParts(t: Table, ids: Ids, r: Recall)
    requires Known(ids, r.pack.sources) && NamedReply(ids, RECALL, RecallFields(r)).Some?
    ensures NamedPack(ids, RawPack(RECALL, RecallFields(r))).Some? && AllKnown(ids, SourceList(r.pack.sources))
    ensures var named := WithIds(ids, SourceList(r.pack.sources));
            var u := ProjectItems(t, NoteList(r.pack.notes)).0;
            && NamedReply(ids, RECALL, RecallFields(r)) == Some(RecallWith(r, named))
            && Project(t, Obj(RecallWith(r, named))).0 == ProjectItems(u, named).0
            && Overhead(true, t, ids, RECALL, RecallFields(r)) ==
               Separators(Obj(RecallFields(r))) + IdsCost(ids, SourceList(r.pack.sources))
               - ItemsSaving(t, NoteList(r.pack.notes)) - ItemsSaving(u, named)
  {
    hide NoteList, Separators, RecallWith, PackWith, CompactSize;
    NamedRecall(ids, r);
    NamedReplySize(ids, RECALL, RecallFields(r));
    PackLists(r.pack, SourceList(r.pack.sources));
    RecallSaving(t, r, WithIds(ids, SourceList(r.pack.sources)));
  }

  lemma CompletePackSaves(t: Table, ids: Ids, r: Recall)
    requires Valid(t) && NativePack(r.pack) && r.pack.complete && Known(ids, r.pack.sources) && ShortIds(ids)
    requires AllKnown(ids, SourceList(r.pack.sources))
    requires var named := WithIds(ids, SourceList(r.pack.sources));
             Short(ProjectItems(ProjectItems(t, NoteList(r.pack.notes)).0, named).0)
    ensures var named := WithIds(ids, SourceList(r.pack.sources));
            var u := ProjectItems(t, NoteList(r.pack.notes)).0;
            && ItemMarks(NoteList(r.pack.notes)) <= ItemsSaving(t, NoteList(r.pack.notes))
            && ItemMarks(SourceList(r.pack.sources)) + IdsCost(ids, SourceList(r.pack.sources)) <= ItemsSaving(u, named)
  {
    hide NativeNote, Short, IsReference, IdsCost, ItemMarks, ItemsSaving;
    var named := WithIds(ids, SourceList(r.pack.sources));
    var u := ProjectItems(t, NoteList(r.pack.notes)).0;
    ProjectItemsIsValid(t, NoteList(r.pack.notes));
    ProjectItemsIsValid(u, named);
    ShortBefore(u, ProjectItems(u, named).0);
    NotesAreSaved(t, r.pack.sources, r.pack.notes);
    SourcesAreSaved(u, ids, r.pack.sources);
  }

  /**
   With handles a native recall never costs more than its cap: a complete one saves more on
   its references than white space, ids and the repair add, and an incomplete one does not grow.
   */
  lemma NativeRecallWithinCap(l: Limits, s: Host, asked: int, ids: Ids, r: Recall)
    requires l.clientV3 && Valid(s.table) && Native(r) && Known(ids, r.pack.sources) && ShortIds(ids)
    requires Reads(l, s, RECALL, asked, ids, RecallFields(r))
    requires Short(Project(s.table, Obj(NamedReply(ids, RECALL, RecallFields(r)).value)).0)
    ensures CallTurn(l, s, RECALL, Executed(NamedReply(ids, RECALL, RecallFields(r)).value)).charged
         <= Cap(l, s.remaining, RECALL)
  {
    hide RecallFields, Native, Short, CallTurn, Overhead, Growth;
    NativeGrowth(true, s.table, ids, r);
    ReadWithinCapIff(l, s, RECALL, asked, ids, RecallFields(r));
    if r.pack.complete { HandledOverhead(s.table, ids, r); }
  }

  // -------------------------------------------------- where the slack does not suffice

  function Repeat(text: string, n: nat): (r: seq<string>)
    ensures |r| == n && forall i :: 0 <= i < n ==> r[i] == text
  {
    seq(n, i => text)
  }

  const SCOPE := "agent_" + "private"

  /** As many facts as the service stores; complete if it links originals. */
  function CrowdedNote(id: string, references: seq<string>, fact: string): Note {
    Note(id, "fact", "pilot", SCOPE, fact, Repeat(fact, FACT_LIMIT), [], references, references != [])
  }

  function CrowdedNotes(noteIds: seq<string>, references: seq<string>, fact: string): (r: seq<Note>)
    ensures |r| == |noteIds|
    ensures forall i :: 0 <= i < |r| ==> r[i] == CrowdedNote(noteIds[i], references, fact)
  {
    if noteIds == [] then []
    else [CrowdedNote(noteIds[0], references, fact)] + CrowdedNotes(noteIds[1..], references, fact)
  }

  function PlainCandidates(noteIds: seq<string>): (r: seq<Candidate>)
    ensures |r| == |noteIds| && forall i :: 0 <= i < |r| ==> r[i] == Candidate(noteIds[i], true, [])
  {
    if noteIds == [] then [] else [Candidate(noteIds[0], true, [])] + PlainCandidates(noteIds[1..])
  }

  /** More than twelve candidates matched; the twelve notes link all the sources. */
  function Crowded(noteIds: seq<string>, sources: seq<Source>, references: seq<string>, fact: string): Recall {
    Recall(None, true, PlainCandidates(noteIds),
      Pack(CrowdedNotes(noteIds, references, fact), sources, references != [], 1, []))
  }

  lemma CrowdedIsNative(noteIds: seq<string>, sources: seq<Source>, references: seq<string>, fact: string)
    requires |noteIds| == NATIVE_NOTES && forall k :: 0 <= k < |sources| ==> IsReference(sources[k].reference)
    requires forall i :: 0 <= i < |references| ==> IsReference(references[i]) && Included(sources, references[i])
    ensures Native(Crowded(noteIds, sources, references, fact))
  {}

  lemma {:induction false} CrowdedNotesMarks(notes: seq<Note>)
    requires forall i :: 0 <= i < |notes| ==>
               |notes[i].facts| == FACT_LIMIT && notes[i].quotes == [] && |notes[i].references| <= 1
    ensures ItemMarks(NoteList(notes)) == 79 * |notes|
  {
    hide NoteFields, Separators;
    if notes != [] {
      assert NoteList(notes)[0] == Obj(NoteFields(notes[0])) && NoteList(notes)[1..] == NoteList(notes[1..]);
      NoteMarks(notes[0]);
      CrowdedNotesMarks(notes[1..]);
    }
  }

  lemma {:induction false} PlainCandidatesMarks(candidates: seq<Candidate>)
    requires forall i :: 0 <= i < |candidates| ==> candidates[i].entities == []
    ensures ItemMarks(CandidateList(candidates)) == 6 * |candidates|
  {
    hide CandidateFields, Separators;
    if candidates != [] {
      var list := CandidateList(candidates);
      assert list[0] == Obj(CandidateFields(candidates[0])) && list[1..] == CandidateList(candidates[1..]);
      CandidateMarks(candidates[0]);
      PlainCandidatesMarks(candidates[1..]);
    }
  }

  lemma CrowdedMarks(noteIds: seq<string>, sources: seq<Source>, references: seq<string>, fact: string)
    requires |noteIds| == NATIVE_NOTES && |references| <= 1
    ensures var r := Crowded(noteIds, sources, references, fact);
            Separators(Obj(RecallFields(r))) == 1038 + Separators(Arr(SourceList(sources)))
  {
    hide RecallFields, NoteList, CandidateList, SourceList, Separators, ItemMarks;
    var r := Crowded(noteIds, sources, references, fact);
    RecallMarks(r);
    CrowdedNotesMarks(r.pack.notes);
    PlainCandidatesMarks(r.candidates);
    MarksOfItems(NoteList(r.pack.notes));
    MarksOfItems(CandidateList(r.candidates));
  }

  /** Twelve notes that link the one original there is. */
  function Citing(noteIds: seq<string>, source: Source, fact: string): Recall {
    Crowded(noteIds, [source], [source.reference], fact)
  }

  lemma CitingOverhead(t: Table, ids: Ids, noteIds: seq<string>, source: Source, fact: string)
    requires |noteIds| == NATIVE_NOTES && IsReference(source.reference) && source.docId in ids
    ensures var r := Citing(noteIds, source, fact);
            && Native(r) && Known(ids, r.pack.sources)
            && NamedReply(ids, RECALL, RecallFields(r)).Some?
            && NamedPack(ids, RawPack(RECALL, RecallFields(r))).Some?
            && Overhead(false, t, ids, RECALL, RecallFields(r)) == 1074 + TextSize(ids[source.docId], Utf8)
            && CompactSize(Obj(RecallFields(r))) >= 1057
  {
    hide NoteList, CandidateList, RecallWith, Crowded, IsReference, CompactSize, Separators;
    assert [source][0] == source && Included([source], source.reference);
    CrowdedIsNative(noteIds, [source], [source.reference], fact);
    CrowdedShape(noteIds, [source], [source.reference], fact);
    var r := Citing(noteIds, source, fact);
    NamedRecall(ids, r);
    PackLists(r.pack, SourceList([source]));
    NamedReplySize(ids, RECALL, RecallFields(r));
    CrowdedMarks(noteIds, [source], [source.reference], fact);
    OneSource(ids, source);
    SeparatorsWithinSize(Obj(RecallFields(r)));
  }

  lemma CrowdedShape(noteIds: seq<string>, sources: seq<Source>, references: seq<string>, fact: string)
    ensures var r := Crowded(noteIds, sources, references, fact);
            && r.truncated && r.pack.sources == sources && r.pack.complete == (references != [])
            && r.pack.notes == CrowdedNotes(noteIds, references, fact)
  {}

  lemma OneSource(ids: Ids, source: Source)
    requires source.docId in ids && IdOf(ids, Obj(SourceFields(source))).Some?
    ensures AllKnown(ids, SourceList([source]))
    ensures Separators(Arr(SourceList([source]))) == 19
    ensures IdsCost(ids, SourceList([source])) == 17 + TextSize(ids[source.docId], Utf8)
  {
    var list := SourceList([source]);
    assert list == [Obj(SourceFields(source))] && list[1..] == [];
    SourceMarks(source);
    SourceFieldsRead(source);
    assert ItemSeparators(list) == 19 + ItemSeparators([]);
    assert IdsCost(ids, list) == IdCost(ids, list[0]) + IdsCost(ids, []);
  }

  lemma CitingIsClosed(ids: Ids, noteIds: seq<string>, source: Source, fact: string)
    requires IsReference(source.reference) && source.docId in ids && |noteIds| == NATIVE_NOTES
    requires AllKnown(ids, SourceList([source]))
    ensures AllClosed(PackWith(Citing(noteIds, source, fact).pack, WithIds(ids, SourceList([source]))))
  {
    hide Dangling, NoteFields, IsReference;
    var r, named := Citing(noteIds, source, fact), WithIds(ids, SourceList([source]));
    CitingIsNative(noteIds, source, fact);
    PackLists(r.pack, named);
    PackIsLinked(ids, r.pack);
    forall i | 0 <= i < |r.pack.notes| ensures Closed(named, NoteList(r.pack.notes)[i]) {
      LinkedDoesNotDangle(PackWith(r.pack, named), i);
      NoteFieldsRead(r.pack.notes[i]);
      NoQuotes(r.pack.notes[i]);
    }
  }

  lemma CitingIsNative(noteIds: seq<string>, source: Source, fact: string)
    requires |noteIds| == NATIVE_NOTES && IsReference(source.reference)
    ensures Native(Citing(noteIds, source, fact))
  {
    assert [source][0] == source && Included([source], source.reference);
    CrowdedIsNative(noteIds, [source], [source.reference], fact);
  }

  lemma NoQuotes(n: Note)
    requires n.quotes == []
    ensures ListOf(NoteFields(n), "evidence_quotes") == []
  {
    LacksAround(NoteHead(n) + NoteLists(n), LinkField(n), [Field("complete", Bool(n.complete))], "evidence_quotes");
  }

  lemma CitingReply(ids: Ids, noteIds: seq<string>, source: Source, fact: string)
    requires |noteIds| == NATIVE_NOTES && IsReference(source.reference) && source.docId in ids
    ensures AllKnown(ids, SourceList([source]))
    ensures var r, named := Citing(noteIds, source, fact), WithIds(ids, SourceList([source]));
            var reply := RecallWith(r, named);
            && NamedReply(ids, RECALL, RecallFields(r)) == Some(reply)
            && NeedsRepair(reply) && AllClosed(PackOf(reply)) && Get(PackOf(reply), "complete") == Some(Bool(true))
            && Get(reply, "pack").Some?
  {
    hide PackWith, RecallWith, AllClosed, Crowded, IsReference;
    CrowdedShape(noteIds, [source], [source.reference], fact);
    var r := Citing(noteIds, source, fact);
    NamedRecall(ids, r);
    var named := WithIds(ids, SourceList([source]));
    RecallLists(r, named);
    PackLists(r.pack, named);
    CitingIsClosed(ids, noteIds, source, fact);
  }

  /**
   Without handles the cap is not always kept. This recall, which the service may send for
   the bytes it is given, leaves a budget it just fits a byte below zero.
   */
  lemma RecallMayOverdraw(l: Limits, s: Host, ids: Ids, noteIds: seq<string>, source: Source, fact: string)
    requires |noteIds| == NATIVE_NOTES && IsReference(source.reference) && source.docId in ids && !l.clientV3
    requires NamedReply(ids, RECALL, RecallFields(Citing(noteIds, source, fact))).Some?
    requires s.remaining == Charge(NamedReply(ids, RECALL, RecallFields(Citing(noteIds, source, fact))).value)
    requires s.remaining <= l.maxResult <= GREATEST_LIMIT
    ensures var r := Citing(noteIds, source, fact);
            var reply := NamedReply(ids, RECALL, RecallFields(r)).value;
            var turn := CallTurn(l, s, RECALL, Executed(reply));
            && Native(r) && Reads(l, s, RECALL, GREATEST_LIMIT, ids, RecallFields(r))
            && turn.charged == Cap(l, s.remaining, RECALL) + 1 && turn.host.remaining == -1
            && turn.reply == Some(Repair(reply)) && turn.reply != Some(NO_FIT)
  {
    hide RecallFields, RecallWith, NeedsRepair, AllClosed, CompactSize, Overhead, Repair, CallTurn, Native, Citing;
    hide IsReference;
    var r := Citing(noteIds, source, fact);
    CitingOverhead(s.table, ids, noteIds, source, fact);
    ShownSize(false, s.table, ids, RECALL, RecallFields(r));
    CitingReply(ids, noteIds, source, fact);
    var reply := NamedReply(ids, RECALL, RecallFields(r)).value;
    assert Projected(l, s.table, reply).1 == reply;
    ReadWithinCapIff(l, s, RECALL, GREATEST_LIMIT, ids, RecallFields(r));
    ClosedPackCharge(l, s, RECALL, Executed(reply), true);
    RepairedIsNoError(reply);
  }

  lemma RepairedIsNoError(reply: seq<Field>)
    requires NeedsRepair(reply) && Get(reply, "pack").Some?
    ensures Repair(reply) != NO_FIT
  {
    PackOfRepaired(reply);
    RepairedPack(PackOf(reply));
    MessageIsNoPack(NO_FIT[0].value.s);
  }

  /** So 1024 bytes do not suffice for it, whatever the conversation has seen. */
  lemma RecallMayExceedCap(t: Table, ids: Ids, noteIds: seq<string>, source: Source, fact: string)
    requires |noteIds| == NATIVE_NOTES && IsReference(source.reference) && source.docId in ids
    requires CompactSize(Obj(RecallFields(Citing(noteIds, source, fact)))) <= GREATEST_LIMIT
    ensures Native(Citing(noteIds, source, fact))
    ensures !AlwaysWithinCap(false, t, ids, RECALL, RecallFields(Citing(noteIds, source, fact)))
  {
    hide RecallFields, RecallWith, NeedsRepair, AllClosed, Overhead, Native, Citing, CompactSize, IsReference;
    hide RepairGrowth;
    var r := Citing(noteIds, source, fact);
    CitingOverhead(t, ids, noteIds, source, fact);
    CitingReply(ids, noteIds, source, fact);
    ClosedPackGrowth(NamedReply(ids, RECALL, RecallFields(r)).value, true);
    AlwaysWithinCapIff(false, t, ids, RECALL, RecallFields(r));
  }

  // -------------------------------------------------- a reply that is refused as too large

  lemma {:induction false} UnlinkedNotesSaveNothing(t: Table, notes: seq<Note>)
    requires forall i :: 0 <= i < |notes| ==> notes[i].references == []
    ensures ItemsSaving(t, NoteList(notes)) == 0
    decreases |notes|
  {
    hide NoteFields, Saving;
    if notes != [] {
      var first := Obj(NoteFields(notes[0]));
      assert NoteList(notes)[0] == first && NoteList(notes)[1..] == NoteList(notes[1..]);
      UnlinkedNoteSavesNothing(t, notes[0]);
      UnlinkedNotesSaveNothing(Project(t, first).0, notes[1..]);
    }
  }

  lemma UnlinkedNoteSavesNothing(t: Table, n: Note)
    requires n.references == []
    ensures Saving(t, Obj(NoteFields(n))) == 0
  {
    hide NoteLists, NoteHead;
    NoteFieldsRead(n);
    NoteIsBareAround(n);
    var d := Decision(None, false, Some([]));
    assert Texts([]) == [] && RenameAll(t, []) == (t, []);
    assert Decide(t, NoteFields(n)) == (t, d);
    FieldsSavingAround(t, NoteHead(n) + NoteLists(n), LinkField(n), [Field("complete", Bool(n.complete))], d);
  }

  /** Twelve notes whose pointers lead to no document: a recall without originals. */
  function Uncited(noteIds: seq<string>, fact: string): Recall { Crowded(noteIds, [], [], fact) }

  /**
   With or without handles a reply within its limit may not fit: white space alone exceeds
   the 1024 bytes, and the reader gets an error instead of the recall.
   */
  lemma RecallMayNotFit(v3: bool, t: Table, ids: Ids, noteIds: seq<string>, fact: string)
    requires |noteIds| == NATIVE_NOTES
    requires CompactSize(Obj(RecallFields(Uncited(noteIds, fact)))) <= GREATEST_LIMIT
    ensures var r := Uncited(noteIds, fact);
            && Native(r) && NamedReply(ids, RECALL, RecallFields(r)).Some?
            && !AlwaysFits(v3, t, ids, RECALL, RecallFields(r))
  {
    hide RecallFields, RecallWith, Native, CompactSize, Crowded, Separators, Overhead;
    CrowdedIsNative(noteIds, [], [], fact);
    CrowdedShape(noteIds, [], [], fact);
    var r := Uncited(noteIds, fact);
    NamedRecall(ids, r);
    UnlinkedOverhead(v3, t, ids, noteIds, fact);
    AlwaysFitsIff(v3, t, ids, RECALL, RecallFields(r));
  }

  lemma UnlinkedOverhead(v3: bool, t: Table, ids: Ids, noteIds: seq<string>, fact: string)
    requires |noteIds| == NATIVE_NOTES
    ensures var r := Uncited(noteIds, fact);
            && NamedReply(ids, RECALL, RecallFields(r)).Some?
            && NamedPack(ids, RawPack(RECALL, RecallFields(r))).Some?
            && Overhead(v3, t, ids, RECALL, RecallFields(r)) == 1038
            && CompactSize(Obj(RecallFields(r))) >= 1038
  {
    hide RecallFields, CompactSize, Crowded, NoteList, CandidateList, Separators, PackWith, RawPack;
    CrowdedShape(noteIds, [], [], fact);
    CrowdedMarks(noteIds, [], [], fact);
    var r := Uncited(noteIds, fact);
    assert SourceList([]) == [] && WithIds(ids, []) == [] && IdsCost(ids, []) == 0;
    NamedRecall(ids, r);
    OverheadParts(t, ids, r);
    UnlinkedNotesSaveNothing(t, r.pack.notes);
    NamedReplySize(ids, RECALL, RecallFields(r));
    PackLists(r.pack, []);
    SeparatorsWithinSize(Obj(RecallFields(r)));
    NoSeparators();
  }

  lemma NoSeparators()
    ensures Separators(Arr(SourceList([]))) == 0
  {}
}
