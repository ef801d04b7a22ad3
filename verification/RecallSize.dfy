/**
 How large a recall of short notes is: the one that overdraws a budget without handles
 fits the limit that a released protocol gives to one reply (`max_tool_result_bytes` in
 `config/benchmark/evidence/2026-10-15-complete-memory/protocol.json`).
 */
module RecallSize {
  import opened Json
  import opened EvidenceHandles
  import opened HandleSize
  import opened HostBudget
  import opened HostSafety
  import opened HostRead
  import opened HostRecall

  /** What a released protocol allows for one reply. */
  const RELEASED_RESULT := 12000

  /** The strings of the recall are no longer than those of a few short notes. */
  predicate Terse(ids: Ids, noteIds: seq<string>, source: Source, fact: string) {
    && (forall i :: 0 <= i < |noteIds| ==> TextSize(noteIds[i], Utf8) <= UUID_SIZE)
    && TextSize(source.reference, Utf8) <= 140 && TextSize(source.docId, Utf8) <= UUID_SIZE
    && TextSize(source.hash, Utf8) <= 64 && TextSize(source.text, Utf8) <= 64 && TextSize(source.captured, Utf8) <= 64
    && |Decimal(source.start)| <= 9 && |Decimal(source.end)| <= 9
    && source.title.None? && source.origin.None? && source.timestamp.None? && TextSize(fact, Utf8) <= 1
    && source.docId in ids && TextSize(ids[source.docId], Utf8) <= 8
  }

  // --------------------------------------------------------------- sums of bounds

  lemma OneMore(bound: nat, n: nat)
    ensures bound * (n + 1) == bound * n + bound
  {}

  lemma {:induction false} CostBound(fields: seq<Field>, bound: nat)
    requires forall i :: 0 <= i < |fields| ==> FieldCost(fields[i]) <= bound
    ensures FieldsCost(fields) <= bound * |fields|
  {
    if fields != [] {
      CostBound(fields[1..], bound);
      OneMore(bound, |fields[1..]|);
    }
  }

  lemma {:induction false} ItemsBound(items: seq<Json>, bound: nat)
    requires forall i :: 0 <= i < |items| ==> Bytes(items[i]) <= bound
    ensures ItemsSize(items, Utf8) <= (bound + 2) * |items|
  {
    if items != [] {
      ItemsBound(items[1..], bound);
      OneMore(bound + 2, |items[1..]|);
    }
  }

  lemma ObjectCost(fields: seq<Field>)
    ensures Bytes(Obj(fields)) <= FieldsCost(fields) + 2
  {
    CostAndSize(fields);
  }

  lemma CostAround(a: seq<Field>, field: Field, b: seq<Field>)
    ensures FieldsCost(a + [field] + b) == FieldsCost(a) + FieldCost(field) + FieldsCost(b)
  {
    CostConcat(a + [field], b);
    CostConcat(a, [field]);
    OneCost(field);
  }

  lemma KeyCost(key: string, v: Json, size: nat)
    requires Plain(key) && Bytes(v) <= size
    ensures FieldCost(Field(key, v)) <= 6 + |key| + size
  {
    PlainSize(key);
  }

  lemma WordSize(word: string)
    requires Plain(word)
    ensures Bytes(Str(word)) == 2 + |word|
  {
    PlainSize(word);
  }

  // ---------------------------------------------------------------------- a note

  lemma IdCost(id: string)
    requires TextSize(id, Utf8) <= UUID_SIZE
    ensures FieldCost(Field("note_id", Str(id))) <= 51
  {
    KeyCost("note_id", Str(id), 38);
  }

  lemma KindCost()
    ensures FieldCost(Field("note_type", Str("fact"))) <= 21
  {
    WordSize("fact");
    KeyCost("note_type", Str("fact"), 6);
  }

  lemma ProjectCost()
    ensures FieldCost(Field("project_id", Str("pilot"))) <= 23
  {
    WordSize("pilot");
    KeyCost("project_id", Str("pilot"), 7);
  }

  lemma PlainConcat(a: string, b: string)
    requires Plain(a) && Plain(b)
    ensures Plain(a + b)
  {}

  lemma ScopeCost()
    ensures FieldCost(Field("scope", Str(SCOPE))) <= 26
  {
    PlainConcat("agent_", "private");
    WordSize(SCOPE);
    KeyCost("scope", Str(SCOPE), 15);
  }

  lemma TextCost(text: string, size: nat)
    requires TextSize(text, Utf8) <= size
    ensures FieldCost(Field("text", Str(text))) <= 12 + size
  {
    KeyCost("text", Str(text), 2 + size);
  }

  lemma TextsCost(key: string, items: seq<string>, size: nat)
    requires Plain(key) && forall i :: 0 <= i < |items| ==> TextSize(items[i], Utf8) <= size
    ensures FieldCost(Field(key, Arr(Texts(items)))) <= 8 + |key| + (size + 4) * |items|
  {
    ItemsBound(Texts(items), 2 + size);
    KeyCost(key, Arr(Texts(items)), 2 + (size + 4) * |items|);
  }

  lemma LinkCost(n: Note)
    requires forall i :: 0 <= i < |n.references| ==> TextSize(n.references[i], Utf8) <= 140
    ensures FieldCost(LinkField(n)) <= 25 + 144 * |n.references|
  {
    PlainConcat("source_", "references");
    assert "source_references" == "source_" + "references";
    TextsCost("source_" + "references", n.references, 140);
  }

  lemma FlagCost(b: bool)
    ensures FieldCost(Field("complete", Bool(b))) <= 19
  {
    KeyCost("complete", Bool(b), 5);
  }

  lemma HeadCost(n: Note)
    requires TextSize(n.id, Utf8) <= UUID_SIZE && TextSize(n.text, Utf8) <= 1
    requires n.kind == "fact" && n.project == "pilot" && n.scope == SCOPE
    ensures FieldsCost(NoteHead(n)) <= 155
  {
    hide FieldCost;
    IdCost(n.id);
    KindCost();
    ProjectCost();
    ScopeCost();
    TextCost(n.text, 1);
    var head := NoteHead(n);
    var first, rest := head[0], head[1..];
    CostBound(rest, 26);
    assert head == [] + [first] + rest;
    CostAround([], first, rest);
  }

  lemma CrowdedNoteSize(id: string, reference: string, fact: string)
    requires TextSize(id, Utf8) <= UUID_SIZE && TextSize(fact, Utf8) <= 1 && TextSize(reference, Utf8) <= 140
    ensures Bytes(Obj(NoteFields(CrowdedNote(id, [reference], fact)))) <= 690
  {
    hide FieldCost, NoteHead, Texts;
    var n := CrowdedNote(id, [reference], fact);
    var facts, flag := Field("facts", Arr(Texts(n.facts))), Field("complete", Bool(true));
    HeadCost(n);
    TextsCost("facts", n.facts, 1);
    LinkCost(n);
    FlagCost(true);
    var link := LinkField(n);
    assert n.facts != [] && NoteLists(n) == [facts] + [] == [facts];
    OneCost(facts);
    OneCost(flag);
    CostConcat(NoteHead(n), [facts]);
    CostAround(NoteHead(n) + [facts], link, [flag]);
    ObjectCost(NoteFields(n));
  }

  // -------------------------------------------------------------- the whole recall

  /** A key whose letters are not looked at. */
  lemma LooseCost(key: string, v: Json, size: nat)
    requires Bytes(v) <= size
    ensures FieldCost(Field(key, v)) <= 6 + 6 * |key| + size
  {
    EscapingBound(key);
  }

  lemma MatchCost()
    ensures FieldCost(Field("lexical_match", Bool(true))) <= 23
  {
    PlainConcat("lexical_", "match");
    assert "lexical_match" == "lexical_" + "match";
    KeyCost("lexical_" + "match", Bool(true), 4);
  }

  lemma EntitiesCost()
    ensures FieldCost(Field("entity_ids", Arr(Texts([])))) <= 18
  {
    TextsCost("entity_ids", [], 0);
  }

  lemma CandidateSize(id: string)
    requires TextSize(id, Utf8) <= UUID_SIZE
    ensures Bytes(Obj(CandidateFields(Candidate(id, true, [])))) <= 94
  {
    hide FieldCost, Plain;
    var c := Candidate(id, true, []);
    var matched, entities := Field("lexical_match", Bool(true)), Field("entity_ids", Arr(Texts([])));
    IdCost(id);
    MatchCost();
    EntitiesCost();
    CostAround([Field("note_id", Str(id))], matched, [entities]);
    OneCost(Field("note_id", Str(id)));
    OneCost(entities);
    assert [Field("note_id", Str(id))] + [matched] + [entities] == CandidateFields(c);
    ObjectCost(CandidateFields(c));
  }

  lemma NamedSourceSize(ids: Ids, noteIds: seq<string>, source: Source, fact: string)
    requires Terse(ids, noteIds, source, fact) && IsReference(source.reference)
    requires IdOf(ids, Obj(SourceFields(source))).Some?
    ensures Bytes(WithId(ids, Obj(SourceFields(source)))) <= 1644
  {
    hide FieldCost;
    NamedSourceRead(ids, source);
    var reference, id := Field("reference", Str(source.reference)), Field("source_id", Str(ids[source.docId]));
    var fields := SourceFields(source) + [id];
    LooseCost("reference", reference.value, 142);
    LooseCost("source_id", id.value, 10);
    TailCosts(ids, noteIds, source, fact);
    CostBound(SourceTail(source) + [id], 144);
    CostAround([], reference, SourceTail(source) + [id]);
    assert fields == [] + [reference] + (SourceTail(source) + [id]);
    ObjectCost(fields);
  }

  lemma TailCosts(ids: Ids, noteIds: seq<string>, source: Source, fact: string)
    requires Terse(ids, noteIds, source, fact)
    ensures forall i :: 0 <= i < |SourceTail(source)| ==> FieldCost(SourceTail(source)[i]) <= 144
  {
    hide FieldCost;
    var tail := SourceTail(source);
    forall i | 0 <= i < |tail| ensures FieldCost(tail[i]) <= 144 {
      LooseCost(tail[i].key, tail[i].value, if i == 0 then 38 else if i in {1, 4, 8} then 66 else 9);
    }
  }

  lemma SixCosts(a: Field, b: Field, c: Field, d: Field, e: Field, f: Field)
    ensures FieldsCost(([a] + [b]) + [c] + ([d, e] + [f])) ==
            FieldCost(a) + FieldCost(b) + FieldCost(c) + FieldCost(d) + FieldCost(e) + FieldCost(f)
  {
    CostAround([a] + [b], c, [d, e] + [f]);
    CostConcat([a], [b]);
    CostConcat([d, e], [f]);
    CostConcat([d], [e]);
    assert [d] + [e] == [d, e];
    OneCost(a);
    OneCost(b);
    OneCost(d);
    OneCost(e);
    OneCost(f);
  }

  lemma SchemaCost(schema: string)
    ensures FieldCost(Field("schema", Str(schema))) <= 44 + 6 * |schema|
  {
    EscapingBound(schema);
    LooseCost("schema", Str(schema), 2 + 6 * |schema|);
  }

  lemma PackSize(p: Pack, named: seq<Json>)
    requires p.complete && p.bytes == 1 && p.omitted == []
    ensures Bytes(Obj(PackWith(p, named))) <= 460 + ItemsSize(NoteList(p.notes), Utf8) + ItemsSize(named, Utf8)
  {
    hide FieldCost, FieldsCost, NoteList, TextSize, ItemsSize, Texts;
    var schema, notes, listed := PACK_HEAD[0], NotesField(p), Field("sources", Arr(named));
    var flag, bytes := Field("complete", Bool(true)), Field("source_bytes", Num(Decimal(1)));
    var omitted := Field("omitted_note_ids", Arr(Texts([])));
    SchemaCost("elf.evidence_pack/v1");
    LooseCost("notes", notes.value, Bytes(notes.value));
    LooseCost("sources", listed.value, Bytes(listed.value));
    FlagCost(true);
    LooseCost("source_bytes", bytes.value, 1);
    NoTexts();
    LooseCost("omitted_note_ids", omitted.value, 2);
    SixCosts(schema, notes, listed, flag, bytes, omitted);
    ObjectCost(PackWith(p, named));
  }

  lemma NoTexts()
    ensures Bytes(Arr(Texts([]))) == 2
  {}

  lemma FiveCosts(a: Field, b: Field, c: Field, d: Field, e: Field)
    ensures FieldsCost(([a, b, c] + [d]) + [e] + []) ==
            FieldCost(a) + FieldCost(b) + FieldCost(c) + FieldCost(d) + FieldCost(e)
  {
    CostAround([a, b, c] + [d], e, []);
    CostConcat([a, b, c], [d]);
    CostAround([a], b, [c]);
    assert [a] + [b] + [c] == [a, b, c];
    OneCost(a);
    OneCost(c);
    OneCost(d);
  }

  lemma ReplySize(r: Recall, named: seq<Json>)
    requires r.asOf.None? && r.truncated
    ensures Bytes(Obj(RecallWith(r, named))) <=
            380 + ItemsSize(CandidateList(r.candidates), Utf8) + Bytes(Obj(PackWith(r.pack, named)))
  {
    hide FieldCost, FieldsCost, CandidateList, PackWith, TextSize, ItemsSize;
    var head, list, pack := RecallHead(r), CandidatesField(r), Field("pack", Obj(PackWith(r.pack, named)));
    SchemaCost("elf.evidence_recall/v1");
    LooseCost("as_of", Null, 4);
    LooseCost("truncated", Bool(true), 4);
    LooseCost("candidates", list.value, Bytes(list.value));
    LooseCost("pack", pack.value, Bytes(pack.value));
    FiveCosts(head[0], head[1], head[2], list, pack);
    ObjectCost(RecallWith(r, named));
  }

  /** The recall that overdraws a budget fits the released limit for one reply. */
  lemma CitingIsSmall(ids: Ids, noteIds: seq<string>, source: Source, fact: string)
    requires |noteIds| == NATIVE_NOTES && IsReference(source.reference) && Terse(ids, noteIds, source, fact)
    ensures NamedReply(ids, RECALL, RecallFields(Citing(noteIds, source, fact))).Some?
    ensures Charge(NamedReply(ids, RECALL, RecallFields(Citing(noteIds, source, fact))).value) <= RELEASED_RESULT
  {
    hide NoteFields, CandidateFields, SourceFields, PackWith, RecallWith, RecallFields;
    var r := Citing(noteIds, source, fact);
    NamedRecall(ids, r);
    var named := WithIds(ids, SourceList([source]));
    NamedSourceSize(ids, noteIds, source, fact);
    ItemsBound(named, 1644);
    forall i | 0 <= i < NATIVE_NOTES ensures Bytes(NoteList(r.pack.notes)[i]) <= 690 {
      CrowdedNoteSize(noteIds[i], source.reference, fact);
    }
    ItemsBound(NoteList(r.pack.notes), 690);
    forall i | 0 <= i < NATIVE_NOTES ensures Bytes(CandidateList(r.candidates)[i]) <= 94 {
      CandidateSize(noteIds[i]);
    }
    ItemsBound(CandidateList(r.candidates), 94);
    PackSize(r.pack, named);
    ReplySize(r, named);
  }
}
