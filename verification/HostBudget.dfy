/**
 The evidence budget of one conversation (`scripts/benchmark_pilot/tools.py`, lines
 84-98 and 250-335): what a tool call returns, what it is charged, and what the
 conversation knows afterwards.
 */
module HostBudget {
  import opened Bounds
  import opened Wrappers
  import opened Json
  import opened EvidenceHandles
  import opened Truncation
  import opened PackRepair

  const CHECK := "elf_evidence_check"
  /** Kept back for citation checks. */
  const CHECK_RESERVE := 2048

  datatype Limits = Limits(maxEvidence: int, maxResult: int, clientV3: bool)

  /** What running a tool gives: a result, a caught error, or an exception the host lets through. */
  datatype Outcome =
    | Executed(fields: seq<Field>)
    | HttpError(status: nat, detail: string)
    | Refused(message: string)
    | Uncaught

  datatype Host = Host(remaining: int, references: set<string>, table: Table)

  /** `reply` is absent when the call raised. */
  datatype Turn = Turn(host: Host, reply: Option<seq<Field>>, charged: nat)

  datatype Request = Call(name: string, outcome: Outcome) | Provide(originals: seq<Json>)

  function Message(text: string): seq<Field> { [Field("error", Str(text))] }

  const EXHAUSTED := Message("Common evidence-byte budget exhausted.")
  const WHOLE_ONLY := Message(
    "Complete native response does not fit host transport budget. Request fewer note IDs or a smaller max_bytes.")
  const NO_VERDICT := Message("Complete citation " + "verdict does not fit. " + "No partial success " + "is returned.")
  const NO_FIT := Message(
    "Result does not fit common " + "evidence-byte budget. " + "Request a smaller max_bytes " + "or fewer file lines.")

  function Charge(fields: seq<Field>): nat { Bytes(Obj(fields)) }

  function Reserve(l: Limits, name: string): int { if l.clientV3 && name != CHECK then CHECK_RESERVE else 0 }

  function Cap(l: Limits, remaining: int, name: string): int { Min(remaining - Reserve(l, name), l.maxResult) }

  predicate IsPackTool(name: string) { name == "elf_evidence_pack" || name == "elf_evidence_recall" }

  function Caught(outcome: Outcome): Option<seq<Field>> {
    match outcome
    case Executed(fields) => Some(fields)
    case HttpError(status, detail) =>
      if status >= 500 || status == 402 then None
      else Some([Field("error", Obj([Field("status", Num(Decimal(status))), Field("detail", Str(detail))]))])
    case Refused(message) => Some(Message(message))
    case Uncaught => None
  }

  ghost function Projected(l: Limits, t: Table, fields: seq<Field>): (Table, seq<Field>) {
    if l.clientV3 then var (u, v) := Project(t, Obj(fields)); (u, v.fields) else (t, fields)
  }

  /** Packs are returned whole or not at all. */
  function WholePack(name: string, fields: seq<Field>, cap: int): seq<Field> {
    if IsPackTool(name) && !Fits(fields, cap) then WHOLE_ONLY else fields
  }

  function Fitted(fields: seq<Field>, cap: int): seq<Field> {
    match Fit(fields, cap) case Some(fitted) => fitted case None => NO_FIT
  }

  /** The native references a value shows. */
  function Natives(v: Json): set<string>
    decreases v, 1
  {
    match v
    case Arr(items) => NativesOfItems(items)
    case Obj(fields) => OwnNative(fields) + NativesOfFields(fields)
    case _ => {}
  }

  function OwnNative(fields: seq<Field>): set<string> {
    match NativeReference(fields) case Some(r) => {r} case None => {}
  }

  function NativesOfItems(items: seq<Json>): set<string>
    decreases items, 0
  {
    if items == [] then {} else Natives(items[0]) + NativesOfItems(items[1..])
  }

  function NativesOfFields(fields: seq<Field>): set<string>
    decreases fields, 0
  {
    if fields == [] then {} else Natives(fields[0].value) + NativesOfFields(fields[1..])
  }

  ghost function Delivered(l: Limits, s: Host, value: seq<Field>): Host {
    var references := s.references + Natives(Obj(value));
    if l.clientV3 then
      var u := ExposedBy(s.table, Obj(value));
      Host(s.remaining - Charge(value), references + Seen(u), u)
    else Host(s.remaining - Charge(value), references, s.table)
  }

  /** What is returned of a projected result, and what that does to the conversation. */
  ghost function Settled(l: Limits, s: Host, name: string, projected: seq<Field>, cap: int): Turn {
    var whole := WholePack(name, projected, cap);
    if name == CHECK && l.clientV3 then
      var verdict := if Fits(whole, cap) then whole else NO_VERDICT;
      Turn(s.(remaining := s.remaining - Charge(verdict)), Some(verdict), Charge(verdict))
    else
      var value := Repair(Fitted(whole, cap));
      Turn(Delivered(l, s, value), Some(value), Charge(value))
  }

  ghost function CallTurn(l: Limits, s: Host, name: string, outcome: Outcome): Turn {
    if s.remaining <= Reserve(l, name) + 100 then Turn(s, Some(EXHAUSTED), 0)
    else
      match Caught(outcome)
      case None => Turn(s, None, 0)
      case Some(raw) => Answered(l, s, name, raw)
  }

  ghost function Answered(l: Limits, s: Host, name: string, raw: seq<Field>): Turn {
    var (t, projected) := Projected(l, s.table, raw);
    Settled(l, s.(table := t), name, projected, Cap(l, s.remaining, name))
  }

  /** Frozen originals handed over before the first turn; there is nothing to hand over without handles. */
  ghost function ProvideTurn(l: Limits, s: Host, originals: seq<Json>): Turn {
    if !l.clientV3 then Turn(s, None, 0)
    else
      var (t, value) := Projected(l, s.table, [Field("originals", Arr(originals))]);
      if Charge(value) > s.remaining - CHECK_RESERVE then Turn(s.(table := t), None, 0)
      else
        var u := ExposedBy(t, Obj(value));
        Turn(Host(s.remaining - Charge(value), s.references + Seen(u), u), Some(value), Charge(value))
  }

  ghost function Step(l: Limits, s: Host, r: Request): Turn {
    match r
    case Call(name, outcome) => CallTurn(l, s, name, outcome)
    case Provide(originals) => ProvideTurn(l, s, originals)
  }

  function Start(l: Limits): Host { Host(l.maxEvidence, {}, Table(map[], {})) }

  ghost function After(l: Limits, requests: seq<Request>): Host {
    if requests == [] then Start(l)
    else Step(l, After(l, requests[..|requests| - 1]), requests[|requests| - 1]).host
  }

  ghost function TurnAt(l: Limits, requests: seq<Request>, i: nat): Turn
    requires i < |requests|
  {
    Step(l, After(l, requests[..i]), requests[i])
  }

  // ------------------------------------------------------------ exact accounting

  ghost function Spent(l: Limits, requests: seq<Request>): nat {
    if requests == [] then 0
    else Spent(l, requests[..|requests| - 1]) + TurnAt(l, requests, |requests| - 1).charged
  }

  /**
   The evidence bytes a conversation reports are the serialised sizes of what it was
   given. Only the refusal at an exhausted budget is free.
   */
  lemma {:induction false} SpentIsWhatWasReturned(l: Limits, requests: seq<Request>)
    ensures l.maxEvidence - After(l, requests).remaining == Spent(l, requests)
    ensures forall i :: 0 <= i < |requests| ==> ChargedInFull(TurnAt(l, requests, i))
  {
    if requests != [] {
      SpentIsWhatWasReturned(l, requests[..|requests| - 1]);
      StepIsAccounted(l, After(l, requests[..|requests| - 1]), requests[|requests| - 1]);
    }
    forall i | 0 <= i < |requests| ensures ChargedInFull(TurnAt(l, requests, i)) {
      StepIsAccounted(l, After(l, requests[..i]), requests[i]);
    }
  }

  lemma StepIsAccounted(l: Limits, s: Host, r: Request)
    ensures Step(l, s, r).host.remaining == s.remaining - Step(l, s, r).charged && ChargedInFull(Step(l, s, r))
  {}

  predicate ChargedInFull(turn: Turn) {
    match turn.reply
    case None => turn.charged == 0
    case Some(value) => turn.charged == Charge(value) || (turn.charged == 0 && value == EXHAUSTED)
  }
}
