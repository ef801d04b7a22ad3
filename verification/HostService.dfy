/**
 Conversations whose tools answer as they do (`scripts/benchmark_pilot/tools.py`, lines
 186-248): packs and recalls come from the native service within the limit it is given,
 and no other result looks like a pack. Then the budget is safe, and so is the reserve.
 */
module HostService {
  import opened Json
  import opened Compact
  import opened EvidenceHandles
  import opened HandleSize
  import opened PackRepair
  import opened Truncation
  import opened HostBudget
  import opened HostSafety
  import opened HostTranscript
  import opened HostRead
  import opened HostRecall

  /** A pack is never marked as truncated. */
  predicate PackAnswer(l: Limits, s: Host, asked: int, ids: Ids, raw: seq<Field>, fields: seq<Field>) {
    && Reads(l, s, PACK, asked, ids, raw) && !SaysTruncated(raw)
    && fields == NamedReply(ids, PACK, raw).value
  }

  predicate RecallAnswer(l: Limits, s: Host, asked: int, ids: Ids, r: Recall, fields: seq<Field>) {
    && Native(r) && Known(ids, r.pack.sources) && Reads(l, s, RECALL, asked, ids, RecallFields(r))
    && fields == NamedReply(ids, RECALL, RecallFields(r)).value
  }

  ghost predicate Answered(l: Limits, s: Host, ids: Ids, name: string, outcome: Outcome) {
    if name == PACK then
      outcome.Executed? ==> exists asked, raw :: PackAnswer(l, s, asked, ids, raw, outcome.fields)
    else if name == RECALL then
      outcome.Executed? ==> exists asked, r :: RecallAnswer(l, s, asked, ids, r, outcome.fields)
    else Caught(outcome).Some? ==> !IsPack(PackOf(Caught(outcome).value))
  }

  ghost predicate FromService(l: Limits, s: Host, ids: Ids, r: Request) {
    r.Call? ==> Answered(l, s, ids, r.name, r.outcome)
  }

  // ------------------------------------------------------------------- one step

  lemma ErrorIsNoPack(outcome: Outcome)
    requires !outcome.Executed? && Caught(outcome).Some?
    ensures !IsPack(PackOf(Caught(outcome).value))
  {
    var fields := Caught(outcome).value;
    assert |fields| == 1 && fields[0].key == "error";
    GetAbsent(fields, "pack");
    GetAbsent(fields, "sources");
  }

  /** Nothing but a recall grows after it was cut. */
  lemma OnlyRecallsGrow(l: Limits, s: Host, ids: Ids, name: string, outcome: Outcome)
    requires Answered(l, s, ids, name, outcome) && Answers(s, l, name, outcome)
    requires name != RECALL || !outcome.Executed?
    ensures RepairGrowth(Left(l, s, name, outcome)) == 0
  {
    hide RepairGrowth, Left, IsPack;
    if RepairGrowth(Left(l, s, name, outcome)) != 0 {
      GrowsOnlyIf(l, s, name, outcome);
      if !outcome.Executed? {
        ErrorIsNoPack(outcome);
      } else if name == PACK {
        var asked, raw :| PackAnswer(l, s, asked, ids, raw, outcome.fields);
        NamedPackIsNotTruncated(ids, raw);
      }
    }
  }

  lemma NamedPackIsNotTruncated(ids: Ids, raw: seq<Field>)
    requires NamedReply(ids, PACK, raw).Some?
    ensures SaysTruncated(NamedReply(ids, PACK, raw).value) <==> SaysTruncated(raw)
  {
    GetAfterPut(raw, "sources", Arr(WithIds(ids, ListOf(raw, "sources"))), "truncated");
  }

  /** A recall costs its cap at most with handles, and a byte more without. */
  lemma RecallCost(l: Limits, s: Host, ids: Ids, outcome: Outcome)
    requires Answered(l, s, ids, RECALL, outcome) && outcome.Executed? && ShortIds(ids)
    requires l.clientV3 ==> Valid(s.table) && Short(Projected(l, s.table, outcome.fields).0)
    ensures Answers(s, l, RECALL, outcome)
    ensures CallTurn(l, s, RECALL, outcome).charged <= Cap(l, s.remaining, RECALL) + if l.clientV3 then 0 else 1
  {
    hide Native, RecallFields, Short, CallTurn, RepairGrowth, Overhead, CompactSize, NamedReply;
    var asked, r :| RecallAnswer(l, s, asked, ids, r, outcome.fields);
    ReadWithinCapIff(l, s, RECALL, asked, ids, RecallFields(r));
    if l.clientV3 {
      NativeRecallWithinCap(l, s, asked, ids, r);
    } else {
      NativeGrowth(false, s.table, ids, r);
      FittingCharge(l, s, outcome);
      assert Projected(l, s.table, outcome.fields).1 == ShownReply(false, s.table, ids, RECALL, RecallFields(r));
    }
  }

  /** What fits is charged with its growth. */
  lemma FittingCharge(l: Limits, s: Host, outcome: Outcome)
    requires Answers(s, l, RECALL, outcome)
    ensures var shown := Projected(l, s.table, Caught(outcome).value).1;
            Fits(shown, Cap(l, s.remaining, RECALL)) ==>
              CallTurn(l, s, RECALL, outcome).charged == Charge(shown) + RepairGrowth(shown)
  {
    ChargeOfACall(l, s, RECALL, outcome);
  }

  lemma StepIsSafe(l: Limits, s: Host, ids: Ids, r: Request)
    requires FromService(l, s, ids, r) && ShortIds(ids)
    requires l.clientV3 ==> Valid(s.table) && Short(Step(l, s, r).host.table)
    ensures var after := Step(l, s, r).host.remaining;
            && after <= s.remaining
            && (after < s.remaining && r.Call? && IsCheckCall(l, r.name) ==> after >= 0)
            && (after < s.remaining && !(r.Call? && IsCheckCall(l, r.name)) ==>
                  after >= (if l.clientV3 then CHECK_RESERVE else 0) - OVERRUN)
  {
    hide RepairGrowth, Left, Short, Answered;
    StepDips(l, s, r);
    if r.Call? && Answers(s, l, r.name, r.outcome) && !IsCheckCall(l, r.name) {
      if r.name == RECALL && r.outcome.Executed? {
        TableOfStep(l, s, r.outcome);
        RecallCost(l, s, ids, r.outcome);
        ChargeOfACall(l, s, RECALL, r.outcome);
      } else {
        OnlyRecallsGrow(l, s, ids, r.name, r.outcome);
      }
    }
  }

  lemma TableOfStep(l: Limits, s: Host, outcome: Outcome)
    requires Answers(s, l, RECALL, outcome) && outcome.Executed?
    ensures Short(Step(l, s, Call(RECALL, outcome)).host.table) ==> Short(Projected(l, s.table, outcome.fields).0)
  {
    assert Step(l, s, Call(RECALL, outcome)).host.table.native == Projected(l, s.table, outcome.fields).0.native;
  }

  // ------------------------------------------------------------- whole conversations

  ghost predicate ServiceRun(l: Limits, ids: Ids, requests: seq<Request>) {
    forall i :: 0 <= i < |requests| ==> FromService(l, After(l, requests[..i]), ids, requests[i])
  }

  lemma ServicePrefix(l: Limits, ids: Ids, requests: seq<Request>)
    requires ServiceRun(l, ids, requests) && requests != []
    ensures ServiceRun(l, ids, requests[..|requests| - 1])
    ensures FromService(l, After(l, requests[..|requests| - 1]), ids, requests[|requests| - 1])
  {
    var front := requests[..|requests| - 1];
    forall i | 0 <= i < |front| ensures FromService(l, After(l, front[..i]), ids, front[i]) {
      assert front[..i] == requests[..i];
    }
  }

  lemma ShortEarlier(l: Limits, requests: seq<Request>)
    requires requests != [] && Short(After(l, requests).table)
    ensures Short(After(l, requests[..|requests| - 1]).table)
  {
    HandlesNeverChange(l, requests, |requests| - 1);
  }

  /**
   With handles such a conversation never overdraws its budget, and until the first check
   it keeps all but nine reserved bytes; without handles it ends at -9 at the lowest.
   */
  lemma {:induction false} ServiceRunIsSafe(l: Limits, ids: Ids, requests: seq<Request>)
    requires l.maxEvidence >= 0 && ShortIds(ids) && ServiceRun(l, ids, requests)
    requires l.clientV3 ==> Short(After(l, requests).table)
    ensures After(l, requests).remaining >= if l.clientV3 then 0 else -OVERRUN
    ensures l.clientV3 && l.maxEvidence >= CHECK_RESERVE && NeverChecks(requests) ==>
              After(l, requests).remaining >= CHECK_RESERVE - OVERRUN
    decreases |requests|
  {
    hide Short, FromService, Step;
    if requests != [] {
      var front, last := requests[..|requests| - 1], requests[|requests| - 1];
      ServicePrefix(l, ids, requests);
      if l.clientV3 {
        ShortEarlier(l, requests);
        TableStaysValid(l, front);
      }
      ServiceRunIsSafe(l, ids, front);
      StepIsSafe(l, After(l, front), ids, last);
    }
  }

  /** Below a billion originals every handle is short enough. */
  lemma BudgetIsSafe(l: Limits, ids: Ids, requests: seq<Request>)
    requires l.maxEvidence >= 0 && ShortIds(ids) && ServiceRun(l, ids, requests)
    requires l.clientV3 ==> |After(l, requests).table.native| < PowerOfTen(9)
    ensures After(l, requests).remaining >= if l.clientV3 then 0 else -OVERRUN
    ensures l.clientV3 && l.maxEvidence >= CHECK_RESERVE && NeverChecks(requests) ==>
              After(l, requests).remaining >= CHECK_RESERVE - OVERRUN
  {
    TableStaysValid(l, requests);
    if l.clientV3 { FewOriginals(After(l, requests).table); }
    ServiceRunIsSafe(l, ids, requests);
  }
}
