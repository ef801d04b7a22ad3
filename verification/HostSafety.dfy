/**
 What no sequence of tool calls can do to the evidence budget
 (`scripts/benchmark_pilot/tools.py`, lines 96-98 and 250-335).
 */
module HostSafety {
  import opened Bounds
  import opened Wrappers
  import opened Json
  import opened EvidenceHandles
  import opened Truncation
  import opened PackRepair
  import opened HostBudget

  // ------------------------------------------------------ the fixed error replies

  lemma ErrorSize(text: string)
    requires Plain(text)
    ensures Charge(Message(text)) == |text| + 13
  {
    var field := Field("error", Str(text));
    PlainSize(text);
    assert Plain("error");
    PlainSize("error");
    assert Message(text)[0] == field && Message(text)[1..] == [];
    assert FieldsSize([], Utf8) == 0;
    assert FieldsSize(Message(text), Utf8) == 2 + 5 + 2 + Bytes(Str(text));
  }

  lemma NoFitSize()
    ensures Charge(NO_FIT) == 110
  {
    NoFitIsPlain();
    ErrorSize(
      "Result does not fit common " + "evidence-byte budget. "
      + "Request a smaller max_bytes " + "or fewer file lines.");
  }

  lemma NoFitIsPlain()
    ensures Plain("Result does not fit common " + "evidence-byte budget. "
                  + "Request a smaller max_bytes " + "or fewer file lines.")
  {
    assert Plain("Result does not fit common ");
    assert Plain("evidence-byte budget. ");
    assert Plain("Request a smaller max_bytes ");
    assert Plain("or fewer file lines.");
  }

  lemma NoVerdictSize()
    ensures Charge(NO_VERDICT) == 84
  {
    hide Message;
    assert Plain("Complete citation ");
    assert Plain("verdict does not fit. ");
    assert Plain("No partial success ");
    assert Plain("is returned.");
    ErrorSize("Complete citation " + "verdict does not fit. " + "No partial success " + "is returned.");
  }

  lemma MessageIsNoPack(text: string)
    ensures !SaysTruncated(Message(text)) && !IsPack(PackOf(Message(text))) && Repair(Message(text)) == Message(text)
  {
    GetInMessage(text, "truncated");
    GetInMessage(text, "pack");
    GetInMessage(text, "sources");
  }

  lemma GetInMessage(text: string, key: string)
    requires key != "error"
    ensures Get(Message(text), key) == None
  {
    assert Message(text)[0].key == "error" && Message(text)[1..] == [];
    assert Get([], key) == None;
  }

  // ------------------------------------------- which results can be repaired at all

  predicate Kept(key: string) {
    && key != "reference" && key != "source_references" && key != "already_read" && !IsBody(key)
  }

  /** Apart from references and bodies, projecting keeps the keys of an object and projects their values. */
  lemma {:induction false} ProjectedField(t: Table, fields: seq<Field>, d: Decision, key: string) returns (u: Table)
    requires Kept(key)
    ensures var before, after := Get(fields, key), Get(ProjectFields(t, fields, d).1, key);
            after == match before case None => None case Some(v) => Some(Project(u, v).1)
    decreases |fields|
  {
    u := t;
    if fields != [] {
      var (t1, first) := ProjectField(t, fields[0], d);
      var rest := ProjectFields(t1, fields[1..], d).1;
      assert |first| <= 1 && (first != [] ==> first[0].key == fields[0].key && (first + rest)[1..] == rest);
      assert first == [] ==> first + rest == rest;
      if fields[0].key != key { u := ProjectedField(t1, fields[1..], d, key); }
    }
  }

  lemma ProjectedNodeField(t: Table, fields: seq<Field>, key: string) returns (u: Table)
    requires Kept(key)
    ensures var before, after := Get(fields, key), Get(Project(t, Obj(fields)).1.fields, key);
            after == match before case None => None case Some(v) => Some(Project(u, v).1)
  {
    var (t1, d) := Decide(t, fields);
    u := ProjectedField(t1, fields, d, key);
    GetAfterPut(ProjectFields(t1, fields, d).1, "already_read", Bool(true), key);
  }

  lemma ProjectKeepsPackKeys(t: Table, pack: seq<Field>)
    ensures IsPack(Project(t, Obj(pack)).1.fields) <==> IsPack(pack)
  {
    var u := ProjectedNodeField(t, pack, "sources");
    u := ProjectedNodeField(t, pack, "notes");
  }

  lemma ProjectKeepsPack(l: Limits, t: Table, raw: seq<Field>)
    ensures IsPack(PackOf(Projected(l, t, raw).1)) <==> IsPack(PackOf(raw))
  {
    if l.clientV3 {
      var u := ProjectedNodeField(t, raw, "pack");
      match Get(raw, "pack")
      case None => ProjectKeepsPackKeys(t, raw);
      case Some(Obj(pack)) => ProjectKeepsPackKeys(u, pack);
      case Some(_) =>
    }
  }

  lemma ProjectKeepsTruth(t: Table, v: Json)
    ensures Truthy(Project(t, v).1) <==> Truthy(v)
  {
    match v
    case Arr(items) =>
    case Obj(fields) =>
      var (t1, d) := Decide(t, fields);
      if fields != [] {
        if d.hidden {
          GetAfterPut(ProjectFields(t1, fields, d).1, "already_read", Bool(true), "already_read");
        } else {
          assert ProjectField(t1, fields[0], d).1 != [];
        }
      }
    case _ =>
  }

  lemma ProjectKeepsTruncated(l: Limits, t: Table, raw: seq<Field>)
    ensures SaysTruncated(Projected(l, t, raw).1) <==> SaysTruncated(raw)
  {
    if l.clientV3 {
      var u := ProjectedNodeField(t, raw, "truncated");
      match Get(raw, "truncated")
      case None =>
      case Some(v) => ProjectKeepsTruth(u, v);
    }
  }

  lemma {:induction false} GetAfterRemove(fields: seq<Field>, key: string, other: string)
    requires other != key
    ensures Get(Remove(fields, key), other) == Get(fields, other)
  {
    if fields != [] { GetAfterRemove(fields[1..], key, other); }
  }

  lemma {:induction false} GetInCut(fields: seq<Field>, cut: seq<Field>, key: string)
    requires FieldsCut(fields, cut)
    ensures Has(cut, key) == Has(fields, key)
    ensures Has(fields, key) ==> IsCut(Get(fields, key).value, Get(cut, key).value)
    decreases |fields|
  {
    if fields != [] && fields[0].key != key { GetInCut(fields[1..], cut[1..], key); }
  }

  lemma CutKeepsPack(fields: seq<Field>, cut: seq<Field>)
    requires FieldsCut(Remove(fields, "truncated"), Remove(cut, "truncated"))
    ensures IsPack(PackOf(cut)) <==> IsPack(PackOf(fields))
  {
    KeyInCut(fields, cut, "pack");
    KeyInCut(fields, cut, "sources");
    KeyInCut(fields, cut, "notes");
    match Get(fields, "pack")
    case Some(Obj(pack)) =>
      GetInCut(pack, PackOf(cut), "sources");
      GetInCut(pack, PackOf(cut), "notes");
    case _ =>
  }

  lemma KeyInCut(fields: seq<Field>, cut: seq<Field>, key: string)
    requires FieldsCut(Remove(fields, "truncated"), Remove(cut, "truncated")) && key != "truncated"
    ensures Has(cut, key) == Has(fields, key)
    ensures Has(fields, key) ==> IsCut(Get(fields, key).value, Get(cut, key).value)
  {
    GetInCut(Remove(fields, "truncated"), Remove(cut, "truncated"), key);
    GetAfterRemove(fields, "truncated", key);
    GetAfterRemove(cut, "truncated", key);
  }

  /** A raw result whose truncation the host may have to repair; everything else is only cut. */
  predicate Reparable(name: string, raw: seq<Field>) {
    IsPack(PackOf(raw)) && (IsPackTool(name) ==> SaysTruncated(raw))
  }

  lemma FittedIsRepairedOnlyIf(l: Limits, t: Table, name: string, raw: seq<Field>, cap: int)
    requires NeedsRepair(Fitted(WholePack(name, Projected(l, t, raw).1, cap), cap))
    ensures Reparable(name, raw)
  {
    var projected := Projected(l, t, raw).1;
    var whole := WholePack(name, projected, cap);
    ProjectKeepsPack(l, t, raw);
    ProjectKeepsTruncated(l, t, raw);
    MessageIsNoPack(NO_FIT[0].value.s);
    MessageIsNoPack(WHOLE_ONLY[0].value.s);
    if Fit(whole, cap).Some? {
      FitKeepsWholeRecords(whole, cap);
      CutKeepsPack(whole, Fitted(whole, cap));
    }
  }

  lemma CutShrinksNotes(fields: seq<Field>, cut: seq<Field>)
    requires FieldsCut(Remove(fields, "truncated"), Remove(cut, "truncated"))
    ensures |ListOf(PackOf(cut), "notes")| <= |ListOf(PackOf(fields), "notes")|
  {
    KeyInCut(fields, cut, "pack");
    KeyInCut(fields, cut, "notes");
    match Get(fields, "pack")
    case Some(Obj(pack)) => GetInCut(pack, PackOf(cut), "notes");
    case _ =>
  }

  lemma ProjectKeepsNotes(l: Limits, t: Table, raw: seq<Field>)
    ensures |ListOf(PackOf(Projected(l, t, raw).1), "notes")| == |ListOf(PackOf(raw), "notes")|
  {
    if l.clientV3 {
      var u := ProjectedNodeField(t, raw, "pack");
      match Get(raw, "pack")
      case None => u := ProjectedNodeField(t, raw, "notes"); SameLength(u, raw);
      case Some(Obj(pack)) => u := ProjectedNodeField(u, pack, "notes"); SameLength(u, pack);
      case Some(_) =>
    }
  }

  lemma SameLength(u: Table, fields: seq<Field>)
    ensures var notes := Get(fields, "notes");
            notes.Some? && notes.value.Arr? ==> |Project(u, notes.value).1.items| == |notes.value.items|
  {
    var notes := Get(fields, "notes");
    if notes.Some? && notes.value.Arr? { ItemsKeepLength(u, notes.value.items); }
  }

  lemma {:induction false} ItemsKeepLength(t: Table, items: seq<Json>)
    ensures |ProjectItems(t, items).1| == |items|
    decreases |items|
  {
    if items != [] { ItemsKeepLength(Project(t, items[0]).0, items[1..]); }
  }

  // ---------------------------------------------------------- what one call costs

  /** The call is answered and charged: it is not refused, and nothing raises. */
  predicate Answers(s: Host, l: Limits, name: string, outcome: Outcome) {
    s.remaining > Reserve(l, name) + 100 && Caught(outcome).Some?
  }

  predicate IsCheckCall(l: Limits, name: string) { name == CHECK && l.clientV3 }

  /** The result on its way to the reader: projected, and whole if it is a pack. */
  ghost function Shown(l: Limits, s: Host, name: string, outcome: Outcome): seq<Field>
    requires Answers(s, l, name, outcome)
  {
    WholePack(name, Projected(l, s.table, Caught(outcome).value).1, Cap(l, s.remaining, name))
  }

  /** What is left of it once it is cut to the cap, before any repair. */
  ghost function Left(l: Limits, s: Host, name: string, outcome: Outcome): seq<Field>
    requires Answers(s, l, name, outcome)
  {
    Fitted(Shown(l, s, name, outcome), Cap(l, s.remaining, name))
  }

  ghost predicate GivenUp(l: Limits, s: Host, name: string, outcome: Outcome)
    requires Answers(s, l, name, outcome)
  {
    Fit(Shown(l, s, name, outcome), Cap(l, s.remaining, name)).None?
  }

  /** A check costs its verdict or a fixed error; any other call what is left of its result and what the repair adds. */
  lemma ChargeOfACall(l: Limits, s: Host, name: string, outcome: Outcome)
    requires Answers(s, l, name, outcome)
    ensures var turn := CallTurn(l, s, name, outcome);
            var cap := Cap(l, s.remaining, name);
            var left := Left(l, s, name, outcome);
            && turn.reply.Some? && turn.charged == Charge(turn.reply.value)
            && turn.host.remaining == s.remaining - turn.charged
            && (if IsCheckCall(l, name) then turn.charged <= cap || turn.charged == 84
                else
                  && turn.charged == Charge(left) + RepairGrowth(left)
                  && (if GivenUp(l, s, name, outcome) then turn.charged == 110 && turn.reply.value == NO_FIT
                      else Charge(left) <= cap))
  {
    var cap, left := Cap(l, s.remaining, name), Left(l, s, name, outcome);
    if IsCheckCall(l, name) {
      NoVerdictSize();
    } else {
      RepairGrows(left);
      MessageIsNoPack(NO_FIT[0].value.s);
      NoFitSize();
      if !GivenUp(l, s, name, outcome) { FitKeepsWholeRecords(Shown(l, s, name, outcome), cap); }
    }
  }

  /** Only a result shaped like a pack can grow, and a pack or recall only if it arrived truncated. */
  lemma GrowsOnlyIf(l: Limits, s: Host, name: string, outcome: Outcome)
    requires Answers(s, l, name, outcome) && RepairGrowth(Left(l, s, name, outcome)) != 0
    ensures Reparable(name, Caught(outcome).value)
  {
    FittedIsRepairedOnlyIf(l, s.table, name, Caught(outcome).value, Cap(l, s.remaining, name));
  }

  /** Exactly when a call costs more than its cap. */
  lemma OverrunsIff(l: Limits, s: Host, name: string, outcome: Outcome)
    requires Answers(s, l, name, outcome) && !IsCheckCall(l, name)
    ensures var cap, left := Cap(l, s.remaining, name), Left(l, s, name, outcome);
            CallTurn(l, s, name, outcome).charged > cap <==>
            if GivenUp(l, s, name, outcome) then cap < 110 else Charge(left) + RepairGrowth(left) > cap
  {
    ChargeOfACall(l, s, name, outcome);
  }

  /** A pack or a recall comes back whole, or as an error; only one that arrived truncated is touched. */
  lemma PacksAreWhole(l: Limits, s: Host, name: string, outcome: Outcome)
    requires IsPackTool(name) && Answers(s, l, name, outcome)
    ensures var raw := Caught(outcome).value;
            var reply := CallTurn(l, s, name, outcome).reply.value;
            var projected := Projected(l, s.table, raw).1;
            || reply == WHOLE_ONLY || reply == NO_FIT
            || (&& Fits(projected, Cap(l, s.remaining, name))
                && reply == if Reparable(name, raw) then Repair(projected) else projected)
  {
    var raw := Caught(outcome).value;
    var cap := Cap(l, s.remaining, name);
    MessageIsNoPack(NO_FIT[0].value.s);
    MessageIsNoPack(WHOLE_ONLY[0].value.s);
    NoListsInMessage(WHOLE_ONLY[0].value.s);
    GivenUpIff(WHOLE_ONLY, cap);
    ProjectKeepsPack(l, s.table, raw);
    ProjectKeepsTruncated(l, s.table, raw);
  }

  /**
   Exactly when a pack or a recall costs more than its cap: it fits but has no room left
   to grow, or it does not fit and the cap is too small even for the error that says so.
   */
  lemma PackOverrunsIff(l: Limits, s: Host, name: string, outcome: Outcome)
    requires IsPackTool(name) && Answers(s, l, name, outcome)
    ensures var projected := Projected(l, s.table, Caught(outcome).value).1;
            var cap := Cap(l, s.remaining, name);
            CallTurn(l, s, name, outcome).charged > cap <==>
            if Fits(projected, cap) then Charge(projected) + RepairGrowth(projected) > cap else cap < 110
  {
    OverrunsIff(l, s, name, outcome);
    MessageIsNoPack(WHOLE_ONLY[0].value.s);
    NoListsInMessage(WHOLE_ONLY[0].value.s);
    GivenUpIff(WHOLE_ONLY, Cap(l, s.remaining, name));
    WholeOnlySize();
  }

  /** A pack whose notes are all closed costs one byte for the claim it loses. */
  lemma ClosedPackCharge(l: Limits, s: Host, name: string, outcome: Outcome, claims: bool)
    requires IsPackTool(name) && Answers(s, l, name, outcome)
    requires var projected := Projected(l, s.table, Caught(outcome).value).1;
             && NeedsRepair(projected) && AllClosed(PackOf(projected))
             && Get(PackOf(projected), "complete") == Some(Bool(claims)) && Fits(projected, Cap(l, s.remaining, name))
    ensures var projected := Projected(l, s.table, Caught(outcome).value).1;
            var turn := CallTurn(l, s, name, outcome);
            && turn.charged == Charge(projected) + (if claims then 1 else 0)
            && turn.reply == Some(Repair(projected)) && turn.host.remaining == s.remaining - turn.charged
  {
    ChargeOfACall(l, s, name, outcome);
    ClosedPackGrowth(Projected(l, s.table, Caught(outcome).value).1, claims);
  }

  /** A pack whose notes are all closed exceeds its cap exactly when it fills it and claims to be complete. */
  lemma ClosedPackOverrunsIff(l: Limits, s: Host, name: string, outcome: Outcome, claims: bool)
    requires IsPackTool(name) && Answers(s, l, name, outcome)
    requires var projected := Projected(l, s.table, Caught(outcome).value).1;
             && NeedsRepair(projected) && AllClosed(PackOf(projected))
             && Get(PackOf(projected), "complete") == Some(Bool(claims)) && Fits(projected, Cap(l, s.remaining, name))
    ensures CallTurn(l, s, name, outcome).charged > Cap(l, s.remaining, name) <==>
            claims && Charge(Projected(l, s.table, Caught(outcome).value).1) == Cap(l, s.remaining, name)
  {
    ClosedPackCharge(l, s, name, outcome, claims);
  }

  lemma WholeOnlySize()
    ensures Charge(WHOLE_ONLY) >= 110
  {
    ErrorAtLeast(
      "Complete native response does not fit host transport budget. Request fewer note IDs or a smaller max_bytes.");
  }

  lemma ErrorAtLeast(text: string)
    ensures Charge(Message(text)) >= |text| + 13
  {
    var field := Field("error", Str(text));
    EscapingBound(text);
    assert Plain("error");
    PlainSize("error");
    assert Message(text)[0] == field && Message(text)[1..] == [] && FieldsSize([], Utf8) == 0;
    assert FieldsSize(Message(text), Utf8) == 2 + 5 + 2 + Bytes(Str(text));
  }

  lemma NoListsInMessage(text: string)
    ensures OuterListsOf(Message(text)) == []
  {
    assert Message(text)[1..] == [];
  }

  // ------------------------------------------------------------ a call in numbers

  /** The bytes one reply may take: what is left beside the reserve for checks, and the limit of one result. */
  ghost predicate MayTake(l: Limits, s: Host, name: string, m: int) {
    var kept := if l.clientV3 && name != "elf_evidence_check" then 2048 else 0;
    && m <= s.remaining - kept && m <= l.maxResult
    && (m == s.remaining - kept || m == l.maxResult)
  }

  /** A call is refused for free when no more than a hundred bytes are left; raising changes nothing. */
  lemma UnansweredIff(l: Limits, s: Host, name: string, outcome: Outcome)
    ensures var turn := CallTurn(l, s, name, outcome);
            var spent := s.remaining <= 100 + if l.clientV3 && name != "elf_evidence_check" then 2048 else 0;
            && (spent ==> turn == Turn(s, Some(EXHAUSTED), 0))
            && (turn.reply.None? <==>
                  && !spent
                  && (outcome == Uncaught || (outcome.HttpError? && (outcome.status == 402 || outcome.status >= 500))))
            && (turn.reply.None? ==> turn == Turn(s, None, 0))
            && (Answers(s, l, name, outcome) <==> !spent && turn.reply.Some?)
  {}

  /** What becomes of an error that does not raise, and of a result. */
  lemma CaughtAs(outcome: Outcome)
    requires Caught(outcome).Some?
    ensures outcome.Executed? ==> Caught(outcome).value == outcome.fields
    ensures outcome.Refused? ==> Caught(outcome).value == [Field("error", Str(outcome.message))]
    ensures outcome.HttpError? ==>
              Get(Caught(outcome).value, "error") ==
              Some(Obj([Field("status", Num(Decimal(outcome.status))), Field("detail", Str(outcome.detail))]))
  {}

  /** A check is returned whole if it fits, and is otherwise the error of 84 bytes. */
  lemma CheckInNumbers(l: Limits, s: Host, outcome: Outcome, m: int)
    requires l.clientV3 && MayTake(l, s, "elf_evidence_check", m) && Answers(s, l, "elf_evidence_check", outcome)
    ensures var turn := CallTurn(l, s, "elf_evidence_check", outcome);
            var verdict := Project(s.table, Obj(Caught(outcome).value)).1.fields;
            if Charge(verdict) <= m then turn.reply == Some(verdict) && turn.charged == Charge(verdict)
            else turn.reply == Some(NO_VERDICT) && turn.charged == 84
  {
    NoVerdictSize();
  }

  /** Every other result that fits comes back uncut, whatever the tool, but for the repair of a truncated pack. */
  lemma FittingInNumbers(l: Limits, s: Host, name: string, outcome: Outcome, m: int)
    requires MayTake(l, s, name, m) && Answers(s, l, name, outcome) && !(l.clientV3 && name == "elf_evidence_check")
    ensures var raw, turn := Caught(outcome).value, CallTurn(l, s, name, outcome);
            var shown := if l.clientV3 then Project(s.table, Obj(raw)).1.fields else raw;
            Charge(shown) <= m ==> turn.reply == Some(Repair(shown))
  {}

  /** A pack or a recall that does not fit is replaced by an error, the longer one if that fits. */
  lemma UnfittingPackInNumbers(l: Limits, s: Host, name: string, outcome: Outcome, m: int)
    requires MayTake(l, s, name, m) && Answers(s, l, name, outcome)
    requires name == "elf_evidence_pack" || name == "elf_evidence_recall"
    requires var raw := Caught(outcome).value;
             m < Charge(if l.clientV3 then Project(s.table, Obj(raw)).1.fields else raw)
    ensures var turn := CallTurn(l, s, name, outcome);
            if Charge(WHOLE_ONLY) <= m then turn.reply == Some(WHOLE_ONLY) && turn.charged <= m
            else turn.reply == Some(NO_FIT) && turn.charged == 110
  {
    hide Repair, CallTurn, Fitted, Charge, Answers;
    UnfittingPackReply(l, s, name, outcome, m);
    FittedMessage(WHOLE_ONLY[0].value.s, m);
    MessageIsNoPack(WHOLE_ONLY[0].value.s);
    MessageIsNoPack(NO_FIT[0].value.s);
    NoFitSize();
  }

  lemma UnfittingPackReply(l: Limits, s: Host, name: string, outcome: Outcome, m: int)
    requires MayTake(l, s, name, m) && Answers(s, l, name, outcome) && IsPackTool(name)
    requires m < Charge(Projected(l, s.table, Caught(outcome).value).1)
    ensures var turn := CallTurn(l, s, name, outcome);
            turn.reply == Some(Repair(Fitted(WHOLE_ONLY, m))) && turn.charged == Charge(turn.reply.value)
  {
    hide Repair, Project, Fitted;
    assert Cap(l, s.remaining, name) == m;
  }

  lemma FittedMessage(text: string, m: int)
    ensures Fitted(Message(text), m) == if Charge(Message(text)) <= m then Message(text) else NO_FIT
  {
    NoListsInMessage(text);
    GivenUpIff(Message(text), m);
  }

  /**
   Any other result that does not fit is cut by whole records until it does, and says so;
   it is given up for the error of 110 bytes exactly if it does not fit without any record.
   */
  lemma UnfittingInNumbers(l: Limits, s: Host, name: string, outcome: Outcome, m: int) returns (left: seq<Field>)
    requires MayTake(l, s, name, m) && Answers(s, l, name, outcome) && !(l.clientV3 && name == "elf_evidence_check")
    requires name != "elf_evidence_pack" && name != "elf_evidence_recall"
    requires var raw := Caught(outcome).value;
             m < Charge(if l.clientV3 then Project(s.table, Obj(raw)).1.fields else raw)
    ensures var raw, turn := Caught(outcome).value, CallTurn(l, s, name, outcome);
            var shown := if l.clientV3 then Project(s.table, Obj(raw)).1.fields else raw;
            if Total(OuterListsOf(shown)) == 0 || Charge(Drained(shown)) > m
            then turn.reply == Some(NO_FIT) && turn.charged == 110
            else
              && turn.reply == Some(Repair(left)) && Charge(left) <= m && SaysTruncated(left)
              && FieldsCut(Remove(shown, "truncated"), Remove(left, "truncated"))
  {
    hide Repair, Project, Drained;
    var shown := Shown(l, s, name, outcome);
    left := Fitted(shown, m);
    MessageIsNoPack(NO_FIT[0].value.s);
    NoFitSize();
    GivenUpIff(shown, m);
    if Fit(shown, m).Some? { FitKeepsWholeRecords(shown, m); }
  }

  /** Originals are handed over whole if they leave the reserve untouched, and with handles only. */
  lemma ProvidedIff(l: Limits, s: Host, originals: seq<Json>)
    ensures var turn := ProvideTurn(l, s, originals);
            var shown := Project(s.table, Obj([Field("originals", Arr(originals))])).1.fields;
            && (turn.reply.Some? <==> l.clientV3 && Charge(shown) <= s.remaining - 2048)
            && (turn.reply.Some? ==> turn.reply == Some(shown) && turn.charged == Charge(shown))
            && (turn.reply.None? ==> turn.charged == 0 && turn.host.remaining == s.remaining)
  {}

  // ------------------------------------------------------------- over a whole run

  /** How far the fixed error of an unfittable result may reach beyond what was left. */
  const OVERRUN := 9

  /** How much the reply to a request grows after it was cut to its cap. */
  ghost function ReplyGrowth(l: Limits, s: Host, r: Request): int {
    if !r.Call? || !Answers(s, l, r.name, r.outcome) || IsCheckCall(l, r.name) then 0
    else RepairGrowth(Left(l, s, r.name, r.outcome))
  }

  ghost function LargestGrowth(l: Limits, requests: seq<Request>): nat {
    if requests == [] then 0
    else
      var front := requests[..|requests| - 1];
      Max(LargestGrowth(l, front), ReplyGrowth(l, After(l, front), requests[|requests| - 1]))
  }

  /** Exactly when a request overdraws the budget. */
  lemma OverdrawsIff(l: Limits, s: Host, r: Request)
    requires s.remaining >= 0
    ensures Step(l, s, r).host.remaining < 0 <==>
            && r.Call? && Answers(s, l, r.name, r.outcome) && !IsCheckCall(l, r.name)
            && if GivenUp(l, s, r.name, r.outcome) then s.remaining < 110
               else Charge(Left(l, s, r.name, r.outcome)) + RepairGrowth(Left(l, s, r.name, r.outcome)) > s.remaining
  {
    if r.Call? && Answers(s, l, r.name, r.outcome) { ChargeOfACall(l, s, r.name, r.outcome); }
  }

  /**
   For a tool other than pack and recall, whose results are not shaped like packs, told from
   the projected result: nothing that could be dropped makes it fit, and 110 bytes are too many.
   */
  lemma ToolOverdrawsIff(l: Limits, s: Host, name: string, outcome: Outcome)
    requires s.remaining >= 0 && !IsPackTool(name) && !IsCheckCall(l, name)
    requires Caught(outcome).Some? ==> !IsPack(PackOf(Caught(outcome).value))
    ensures CallTurn(l, s, name, outcome).host.remaining < 0 <==>
            && Answers(s, l, name, outcome) && s.remaining < 110
            && var projected, cap := Projected(l, s.table, Caught(outcome).value).1, Cap(l, s.remaining, name);
            && !Fits(projected, cap) && (Total(OuterListsOf(projected)) == 0 || !Fits(Drained(projected), cap))
  {
    if Answers(s, l, name, outcome) {
      var projected, cap := Projected(l, s.table, Caught(outcome).value).1, Cap(l, s.remaining, name);
      OverdrawsIff(l, s, Call(name, outcome));
      ChargeOfACall(l, s, name, outcome);
      GivenUpIff(projected, cap);
      if RepairGrowth(Left(l, s, name, outcome)) != 0 { GrowsOnlyIf(l, s, name, outcome); }
    }
  }

  /** For a pack or a recall, told from the projected reply and its growth. */
  lemma PackOverdrawsIff(l: Limits, s: Host, name: string, outcome: Outcome)
    requires s.remaining >= 0 && IsPackTool(name)
    ensures CallTurn(l, s, name, outcome).host.remaining < 0 <==>
            && Answers(s, l, name, outcome)
            && var projected, cap := Projected(l, s.table, Caught(outcome).value).1, Cap(l, s.remaining, name);
            && if Fits(projected, cap) then Charge(projected) + RepairGrowth(projected) > s.remaining
               else s.remaining < 110 && cap < 110
  {
    if Answers(s, l, name, outcome) {
      OverdrawsIff(l, s, Call(name, outcome));
      PackOverrunsIff(l, s, name, outcome);
      ChargeOfACall(l, s, name, outcome);
      MessageIsNoPack(WHOLE_ONLY[0].value.s);
      NoListsInMessage(WHOLE_ONLY[0].value.s);
      GivenUpIff(WHOLE_ONLY, Cap(l, s.remaining, name));
      WholeOnlySize();
    }
  }

  /**
   A step reaches below the check reserve, or below zero without handles, by no more than its reply grows or the
   fixed error overruns.
   */
  lemma StepDips(l: Limits, s: Host, r: Request)
    ensures var after := Step(l, s, r).host.remaining;
            && after <= s.remaining
            && (after < s.remaining && r.Call? && IsCheckCall(l, r.name) ==> after >= 0)
            && (after < s.remaining && !(r.Call? && IsCheckCall(l, r.name)) ==>
                  after >= (if l.clientV3 then CHECK_RESERVE else 0) - Max(OVERRUN, ReplyGrowth(l, s, r)))
  {
    StepIsAccounted(l, s, r);
    if r.Call? && Answers(s, l, r.name, r.outcome) { ChargeOfACall(l, s, r.name, r.outcome); }
  }

  /** The lowest a budget can get: with handles a dip starts from the check reserve. */
  function Floor(l: Limits, growth: nat): int {
    if l.clientV3 then (if growth <= CHECK_RESERVE then 0 else CHECK_RESERVE - growth) else -Max(OVERRUN, growth)
  }

  /**
   Over any sequence of requests the budget is overdrawn by no more than the largest
   growth of a reply reaches: beyond the check reserve with handles, beyond zero without.
   */
  lemma {:induction false} NeverOverdrawn(l: Limits, requests: seq<Request>)
    requires l.maxEvidence >= 0
    ensures After(l, requests).remaining >= Floor(l, LargestGrowth(l, requests))
    decreases |requests|
  {
    if requests != [] {
      var front := requests[..|requests| - 1];
      NeverOverdrawn(l, front);
      StepDips(l, After(l, front), requests[|requests| - 1]);
    }
  }

  predicate NeverChecks(requests: seq<Request>) {
    forall i :: 0 <= i < |requests| && requests[i].Call? ==> requests[i].name != CHECK
  }

  /** Until the first citation check, the bytes kept for it are touched by at most nine, or by the largest growth. */
  lemma {:induction false} CheckReserveIsKept(l: Limits, requests: seq<Request>)
    requires l.clientV3 && l.maxEvidence >= CHECK_RESERVE
    requires NeverChecks(requests)
    ensures After(l, requests).remaining >= CHECK_RESERVE - Max(OVERRUN, LargestGrowth(l, requests))
    decreases |requests|
  {
    if requests != [] {
      var front := requests[..|requests| - 1];
      CheckReserveIsKept(l, front);
      StepDips(l, After(l, front), requests[|requests| - 1]);
    }
  }

  // ---------------------------------------------- growth bounded by what is asked for

  /** How many notes the raw result of a request carries. */
  function NoteCount(r: Request): nat {
    if r.Call? && Caught(r.outcome).Some? then |ListOf(PackOf(Caught(r.outcome).value), "notes")| else 0
  }

  lemma {:induction false} UnflaggedBound(notes: seq<Json>)
    ensures Unflagged(notes) <= |notes|
  {
    if notes != [] { UnflaggedBound(notes[..|notes| - 1]); }
  }

  lemma GrowthWithinNotes(l: Limits, s: Host, r: Request)
    ensures ReplyGrowth(l, s, r) <= 19 * (NoteCount(r) + 1)
  {
    if r.Call? && Answers(s, l, r.name, r.outcome) && ReplyGrowth(l, s, r) != 0 {
      var left := Left(l, s, r.name, r.outcome);
      GrowthWithinClaims(left);
      UnflaggedBound(ListOf(PackOf(left), "notes"));
      MessageIsNoPack(NO_FIT[0].value.s);
      MessageIsNoPack(WHOLE_ONLY[0].value.s);
      LeftHasFewerNotes(l, s, r.name, r.outcome);
    }
  }

  lemma LeftHasFewerNotes(l: Limits, s: Host, name: string, outcome: Outcome)
    requires Answers(s, l, name, outcome) && NeedsRepair(Left(l, s, name, outcome))
    ensures |ListOf(PackOf(Left(l, s, name, outcome)), "notes")| <= |ListOf(PackOf(Caught(outcome).value), "notes")|
  {
    var shown, cap := Shown(l, s, name, outcome), Cap(l, s.remaining, name);
    MessageIsNoPack(NO_FIT[0].value.s);
    MessageIsNoPack(WHOLE_ONLY[0].value.s);
    if Fit(shown, cap).Some? {
      FitKeepsWholeRecords(shown, cap);
      CutKeepsPack(shown, Left(l, s, name, outcome));
      CutShrinksNotes(shown, Left(l, s, name, outcome));
      ProjectKeepsNotes(l, s.table, Caught(outcome).value);
    }
  }

  lemma {:induction false} LargestWithinNotes(l: Limits, requests: seq<Request>, notes: nat)
    requires forall i :: 0 <= i < |requests| ==> NoteCount(requests[i]) <= notes
    ensures LargestGrowth(l, requests) <= 19 * (notes + 1)
    decreases |requests|
  {
    if requests != [] {
      var front := requests[..|requests| - 1];
      LargestWithinNotes(l, front, notes);
      GrowthWithinNotes(l, After(l, front), requests[|requests| - 1]);
    }
  }

  /** A native pack holds at most this many notes. */
  const NATIVE_NOTES := 12

  /**
   While packs are no larger than the native service makes them, the budget is never
   negative with handles, and until the first check all but 247 reserved bytes remain;
   without handles it is never below -247.
   */
  lemma NativePacksStayWithinBudget(l: Limits, requests: seq<Request>)
    requires l.maxEvidence >= 0
    requires forall i :: 0 <= i < |requests| ==> NoteCount(requests[i]) <= NATIVE_NOTES
    ensures After(l, requests).remaining >= if l.clientV3 then 0 else -247
    ensures l.clientV3 && l.maxEvidence >= CHECK_RESERVE && NeverChecks(requests) ==>
              After(l, requests).remaining >= CHECK_RESERVE - 247
  {
    LargestWithinNotes(l, requests, NATIVE_NOTES);
    NeverOverdrawn(l, requests);
    if l.clientV3 && l.maxEvidence >= CHECK_RESERVE && NeverChecks(requests) {
      CheckReserveIsKept(l, requests);
    }
  }

  /** Without handles nothing but the fixed error overdraws while no reply grows by more than it does. */
  lemma UnrepairedStaysWithinBudget(l: Limits, requests: seq<Request>)
    requires l.maxEvidence >= 0 && LargestGrowth(l, requests) <= OVERRUN
    ensures After(l, requests).remaining >= if l.clientV3 then 0 else -OVERRUN
    ensures l.clientV3 && l.maxEvidence >= CHECK_RESERVE && NeverChecks(requests) ==>
              After(l, requests).remaining >= CHECK_RESERVE - OVERRUN
  {
    NeverOverdrawn(l, requests);
    if l.clientV3 && l.maxEvidence >= CHECK_RESERVE && NeverChecks(requests) {
      CheckReserveIsKept(l, requests);
    }
  }
}
