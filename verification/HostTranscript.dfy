/**
 What a conversation has in hand when a reply refers to an original by its handle
 (`scripts/benchmark_pilot/evidence.py`, `scripts/benchmark_pilot/tools.py`, lines 262-263 and 315-335).
 */
module HostTranscript {
  import opened Json
  import opened EvidenceHandles
  import opened Truncation
  import opened PackRepair
  import opened HostBudget
  import HostSafety

  // --------------------------------------- cutting and repairing keep replies accounted

  lemma {:induction false} CutAccounted(known: set<string>, v: Json, cut: Json)
    requires Accounted(known, v) && IsCut(v, cut)
    ensures Accounted(known, cut)
    decreases v, 1
  {
    if v.Obj? {
      CutFieldsAccounted(known, v.fields, cut.fields);
      HostSafety.GetInCut(v.fields, cut.fields, "reference");
      HostSafety.GetInCut(v.fields, cut.fields, "text");
      HostSafety.GetInCut(v.fields, cut.fields, "excerpt");
    }
  }

  lemma {:induction false} CutFieldsAccounted(known: set<string>, fields: seq<Field>, cut: seq<Field>)
    requires FieldsCut(fields, cut) && forall i :: 0 <= i < |fields| ==> Accounted(known, fields[i].value)
    ensures forall i :: 0 <= i < |cut| ==> Accounted(known, cut[i].value)
    decreases fields, 0
  {
    if fields != [] {
      CutAccounted(known, fields[0].value, cut[0].value);
      CutFieldsAccounted(known, fields[1..], cut[1..]);
    }
  }

  lemma {:induction false} PutValueAccounted(known: set<string>, fields: seq<Field>, key: string, v: Json)
    requires Accounted(known, v) && forall i :: 0 <= i < |fields| ==> Accounted(known, fields[i].value)
    ensures forall i :: 0 <= i < |Put(fields, key, v)| ==> Accounted(known, Put(fields, key, v)[i].value)
  {
    if fields != [] && fields[0].key != key { PutValueAccounted(known, fields[1..], key, v); }
  }

  lemma PutKeepsAccounted(known: set<string>, fields: seq<Field>, key: string, v: Json)
    requires Accounted(known, Obj(fields)) && Accounted(known, v)
    requires key != "reference" && !IsBody(key)
    ensures Accounted(known, Obj(Put(fields, key, v)))
  {
    PutValueAccounted(known, fields, key, v);
    GetAfterPut(fields, key, v, "reference");
    GetAfterPut(fields, key, v, "text");
    GetAfterPut(fields, key, v, "excerpt");
  }

  lemma {:induction false} GetAccounted(known: set<string>, fields: seq<Field>, key: string)
    requires forall i :: 0 <= i < |fields| ==> Accounted(known, fields[i].value)
    ensures Has(fields, key) ==> Accounted(known, Get(fields, key).value)
  {
    if fields != [] && fields[0].key != key { GetAccounted(known, fields[1..], key); }
  }

  lemma {:induction false} FitKeepsAccounted(known: set<string>, fields: seq<Field>, cap: int)
    requires Accounted(known, Obj(fields)) && Fit(fields, cap).Some?
    ensures Accounted(known, Obj(Fit(fields, cap).value))
    decreases Total(OuterListsOf(fields))
  {
    if !Fits(fields, cap) {
      var n := Heaviest(OuterListsOf(fields)).value;
      var popped := PopField(fields, n);
      PopFieldIsCut(fields, n);
      CutAccounted(known, Obj(fields), Obj(popped));
      PutKeepsAccounted(known, popped, "truncated", Bool(true));
      ShedDecreases(fields, n);
      FitKeepsAccounted(known, Shed(fields, n), cap);
    }
  }

  lemma {:induction false} LinkedAccounted(known: set<string>, sources: seq<Json>, references: seq<Json>)
    requires forall i :: 0 <= i < |references| ==> Accounted(known, references[i])
    ensures forall i :: 0 <= i < |Linked(sources, references)| ==> Accounted(known, Linked(sources, references)[i])
  {
    if references != [] { LinkedAccounted(known, sources, references[..|references| - 1]); }
  }

  lemma {:induction false} BackedAccounted(known: set<string>, sources: seq<Json>, references: seq<Json>,
          quotes: seq<Json>)
    requires forall i :: 0 <= i < |quotes| ==> Accounted(known, quotes[i])
    ensures forall i :: 0 <= i < |BackedQuotes(sources, references, quotes)| ==>
              Accounted(known, BackedQuotes(sources, references, quotes)[i])
  {
    if quotes != [] { BackedAccounted(known, sources, references, quotes[..|quotes| - 1]); }
  }

  lemma NoteKeepsAccounted(known: set<string>, sources: seq<Json>, note: Json)
    requires Accounted(known, note)
    ensures Accounted(known, RepairNote(sources, note))
  {
    if note.Obj? {
      var references := ListOf(note.fields, "source_references");
      var linked := Relinked(sources, note.fields);
      if Dangling(sources, references) {
        GetAccounted(known, note.fields, "source_references");
        LinkedAccounted(known, sources, references);
        PutKeepsAccounted(known, note.fields, "complete", Bool(false));
        var open := Put(note.fields, "complete", Bool(false));
        PutKeepsAccounted(known, open, "source_references", Arr(Linked(sources, references)));
      }
      match Get(linked, "evidence_quotes")
      case Some(Arr(quotes)) =>
        var left := ListOf(linked, "source_references");
        GetAccounted(known, linked, "evidence_quotes");
        BackedAccounted(known, sources, left, quotes);
        PutKeepsAccounted(known, linked, "evidence_quotes", Arr(BackedQuotes(sources, left, quotes)));
      case _ =>
    }
  }

  lemma PackKeepsAccounted(known: set<string>, pack: seq<Field>)
    requires Accounted(known, Obj(pack))
    ensures Accounted(known, Obj(RepairPack(pack)))
  {
    PutKeepsAccounted(known, pack, "complete", Bool(false));
    match Get(pack, "notes")
    case Some(Arr(notes)) =>
      GetAccounted(known, pack, "notes");
      var sources := ListOf(pack, "sources");
      forall i | 0 <= i < |notes| ensures Accounted(known, RepairNotes(sources, notes)[i]) {
        NoteKeepsAccounted(known, sources, notes[i]);
      }
      PutKeepsAccounted(known, Put(pack, "complete", Bool(false)), "notes", Arr(RepairNotes(sources, notes)));
    case _ =>
  }

  lemma RepairKeepsAccounted(known: set<string>, fields: seq<Field>)
    requires Accounted(known, Obj(fields))
    ensures Accounted(known, Obj(Repair(fields)))
  {
    if NeedsRepair(fields) {
      var pack := PackOf(fields);
      GetAccounted(known, fields, "pack");
      PackKeepsAccounted(known, pack);
      if Has(fields, "pack") { PutKeepsAccounted(known, fields, "pack", Obj(RepairPack(pack))); }
    }
  }

  lemma MessageAccounted(known: set<string>, text: string)
    ensures Accounted(known, Obj(Message(text)))
  {
    HostSafety.GetInMessage(text, "reference");
  }

  // --------------------------------------------------------------- the transcript

  predicate IsCheck(l: Limits, r: Request) { l.clientV3 && r.Call? && r.name == CHECK }

  /** Raw values are well formed and an original in them carries its body. Verdicts of the checker need not. */
  ghost predicate Genuine(l: Limits, r: Request) {
    match r
    case Call(name, outcome) =>
      IsCheck(l, r) || (Caught(outcome).Some? ==> GenuineValue(Obj(Caught(outcome).value)))
    case Provide(originals) => GenuineValue(Obj([Field("originals", Arr(originals))]))
  }

  ghost predicate GenuineValue(v: Json) { Clean(v) && Listed(v) && BodyCarrying(v) }

  /** The handles whose original has been returned with its body. */
  ghost function Delivered(l: Limits, requests: seq<Request>): set<string> {
    if requests == [] then {}
    else
      var i := |requests| - 1;
      Delivered(l, requests[..i]) + BodiesReturned(l, requests[i], TurnAt(l, requests, i))
  }

  ghost function BodiesReturned(l: Limits, r: Request, turn: Turn): set<string> {
    if IsCheck(l, r) || turn.reply.None? then {} else Bodies(Obj(turn.reply.value))
  }

  /** The table is a bijection, all it shows was delivered, and every original it shows counts as seen. */
  ghost predicate Consistent(s: Host, known: set<string>) {
    Valid(s.table) && s.table.visible <= known && Seen(s.table) <= s.references
  }

  lemma {:induction false} KeysAreHandleNames(t: Table)
    requires Valid(t)
    ensures forall h :: h in t.native ==> IsHandleName(h)
  {
    forall h | h in t.native ensures IsHandleName(h) { NamesAreHandleNames(|t.native|, h); }
  }

  lemma ReplyIsAccounted(l: Limits, s: Host, r: Request)
    requires l.clientV3 && Valid(s.table) && Genuine(l, r) && !IsCheck(l, r)
    ensures var turn := Step(l, s, r); turn.reply.Some? ==> Accounted(s.table.visible, Obj(turn.reply.value))
  {
    var known := s.table.visible;
    match r
    case Provide(originals) =>
      ProjectAccounts(s.table, Obj([Field("originals", Arr(originals))]));
    case Call(name, outcome) =>
      MessageAccounted(known, EXHAUSTED[0].value.s);
      if s.remaining > Reserve(l, name) + 100 && Caught(outcome).Some? {
        CallReplyIsAccounted(l, s, name, Caught(outcome).value);
      }
  }

  lemma CallReplyIsAccounted(l: Limits, s: Host, name: string, raw: seq<Field>)
    requires l.clientV3 && Valid(s.table) && GenuineValue(Obj(raw))
    ensures var cap := Cap(l, s.remaining, name);
            Accounted(s.table.visible, Obj(Repair(Fitted(WholePack(name, Projected(l, s.table, raw).1, cap), cap))))
  {
    var known, cap := s.table.visible, Cap(l, s.remaining, name);
    var whole := WholePack(name, Projected(l, s.table, raw).1, cap);
    ProjectAccounts(s.table, Obj(raw));
    MessageAccounted(known, WHOLE_ONLY[0].value.s);
    MessageAccounted(known, NO_FIT[0].value.s);
    if Fit(whole, cap).Some? { FitKeepsAccounted(known, whole, cap); }
    RepairKeepsAccounted(known, Fitted(whole, cap));
  }

  /** Projecting may only add handles. */
  lemma StepGrowsTable(l: Limits, s: Host, r: Request)
    requires Valid(s.table)
    ensures var u := Step(l, s, r).host.table;
            && Valid(u) && s.table.visible <= u.visible
            && (forall h :: h in s.table.native ==> h in u.native && u.native[h] == s.table.native[h])
  {
    hide Fit, Project;
    match r
    case Provide(originals) => ProjectIsValid(s.table, Obj([Field("originals", Arr(originals))]));
    case Call(name, outcome) =>
      if Caught(outcome).Some? { ProjectIsValid(s.table, Obj(Caught(outcome).value)); }
  }

  /** Only what a reply names becomes visible. */
  lemma StepShows(l: Limits, s: Host, r: Request)
    requires l.clientV3 && Valid(s.table)
    ensures var turn := Step(l, s, r);
            turn.host.table.visible == s.table.visible +
              if IsCheck(l, r) || turn.reply.None? || turn.host == s then {}
              else Named(Obj(turn.reply.value)) * turn.host.table.native.Keys
  {
    hide Project, Fit, Repair;
    match r
    case Provide(originals) => ProjectIsValid(s.table, Obj([Field("originals", Arr(originals))]));
    case Call(name, outcome) =>
      if s.remaining > Reserve(l, name) + 100 && Caught(outcome).Some? {
        ProjectIsValid(s.table, Obj(Caught(outcome).value));
      }
  }

  lemma SeenGrows(t: Table, u: Table)
    requires Valid(t) && Grows(t, u)
    ensures Seen(u) == Seen(t)
  {}

  lemma StepRemembersReferences(l: Limits, s: Host, r: Request)
    requires l.clientV3 && Valid(s.table) && Seen(s.table) <= s.references
    ensures Seen(Step(l, s, r).host.table) <= Step(l, s, r).host.references
  {
    match r
    case Provide(originals) =>
      ProjectIsValid(s.table, Obj([Field("originals", Arr(originals))]));
      SeenGrows(s.table, Project(s.table, Obj([Field("originals", Arr(originals))])).0);
    case Call(name, outcome) =>
      if Caught(outcome).Some? {
        ProjectIsValid(s.table, Obj(Caught(outcome).value));
        SeenGrows(s.table, Project(s.table, Obj(Caught(outcome).value)).0);
      }
  }

  lemma StepKeepsConsistent(l: Limits, s: Host, r: Request, known: set<string>)
    requires l.clientV3 && Consistent(s, known) && Genuine(l, r)
    ensures Consistent(Step(l, s, r).host, known + BodiesReturned(l, r, Step(l, s, r)))
  {
    var turn := Step(l, s, r);
    StepGrowsTable(l, s, r);
    StepRemembersReferences(l, s, r);
    StepShows(l, s, r);
    if !IsCheck(l, r) && turn.reply.Some? {
      ReplyIsAccounted(l, s, r);
      AccountedNames(s.table.visible, Obj(turn.reply.value));
      KeysAreHandleNames(turn.host.table);
    }
  }

  lemma {:induction false} RunIsConsistent(l: Limits, requests: seq<Request>)
    requires l.clientV3 && forall i :: 0 <= i < |requests| ==> Genuine(l, requests[i])
    ensures Consistent(After(l, requests), Delivered(l, requests))
    decreases |requests|
  {
    if requests != [] {
      var front := requests[..|requests| - 1];
      RunIsConsistent(l, front);
      StepKeepsConsistent(l, After(l, front), requests[|requests| - 1], Delivered(l, front));
    }
  }

  /**
   At every turn of every conversation, an object that a reply names by a handle carries
   its body, or an earlier reply delivered the body: nothing marked as already read is missing.
   */
  lemma AlreadyReadWasDelivered(l: Limits, requests: seq<Request>, i: nat)
    requires l.clientV3 && i < |requests| && forall k :: 0 <= k < |requests| ==> Genuine(l, requests[k])
    requires !IsCheck(l, requests[i]) && TurnAt(l, requests, i).reply.Some?
    ensures Accounted(Delivered(l, requests[..i]), Obj(TurnAt(l, requests, i).reply.value))
  {
    RunIsConsistent(l, requests[..i]);
    ReplyIsAccounted(l, After(l, requests[..i]), requests[i]);
    var before, reply := After(l, requests[..i]), TurnAt(l, requests, i).reply.value;
    AccountedGrows(before.table.visible, Delivered(l, requests[..i]), Obj(reply));
  }

  lemma {:induction false} AccountedGrows(known: set<string>, more: set<string>, v: Json)
    requires Accounted(known, v) && known <= more
    ensures Accounted(more, v)
    decreases v
  {
    match v
    case Arr(items) =>
      forall i | 0 <= i < |items| ensures Accounted(more, items[i]) { AccountedGrows(known, more, items[i]); }
    case Obj(fields) =>
      forall i | 0 <= i < |fields| ensures Accounted(more, fields[i].value) {
        AccountedGrows(known, more, fields[i].value);
      }
    case _ =>
  }

  lemma {:induction false} TableStaysValid(l: Limits, requests: seq<Request>)
    ensures Valid(After(l, requests).table)
    decreases |requests|
  {
    if requests != [] {
      var front := requests[..|requests| - 1];
      TableStaysValid(l, front);
      StepGrowsTable(l, After(l, front), requests[|requests| - 1]);
    }
  }

  /** A handle keeps its meaning and its visibility for the rest of the conversation. */
  lemma {:induction false} HandlesNeverChange(l: Limits, requests: seq<Request>, n: nat)
    requires n <= |requests|
    ensures var t, u := After(l, requests[..n]).table, After(l, requests).table;
            && t.visible <= u.visible
            && (forall h :: h in t.native ==> h in u.native && u.native[h] == t.native[h])
    decreases |requests| - n
  {
    hide Step;
    if n == |requests| {
      assert requests[..n] == requests;
    } else {
      HandlesNeverChange(l, requests, n + 1);
      TableStaysValid(l, requests[..n]);
      assert requests[..n + 1][..n] == requests[..n];
      StepGrowsTable(l, After(l, requests[..n]), requests[n]);
    }
  }

  /** Every citation a final answer can resolve is of an original whose body was delivered. */
  lemma CitedOriginalsWereDelivered(l: Limits, requests: seq<Request>, claims: seq<Claim>)
    requires l.clientV3 && forall i :: 0 <= i < |requests| ==> Genuine(l, requests[i])
    requires AllCitable(After(l, requests).table, claims)
    ensures forall i, k :: 0 <= i < |claims| && 0 <= k < |claims[i].citations| ==>
              claims[i].citations[k].reference in Delivered(l, requests)
  {
    RunIsConsistent(l, requests);
  }
}
