/** The evidence host itself (`scripts/benchmark_pilot/tools.py`, lines 84-98 and 250-348). */
module SourceTools {
  import opened Wrappers
  import opened Json
  import opened EvidenceHandles
  import opened Truncation
  import opened PackRepair
  import opened HostBudget

  /** One verdict of the native checker: the claim it says it is about, and whether the binding holds. */
  datatype Check = Check(index: Option<int>, verified: bool)

  datatype CheckerReply = Checks(checks: seq<Check>) | NoList | ClientError | ServerError

  /** A drafted answer; a field of another type than the contract asks for is absent. */
  datatype Draft = Draft(text: Option<string>, supported: Option<bool>, claims: Option<seq<Claim>>)

  datatype Final =
    | Completed(text: string, supported: bool, claims: seq<Claim>, checks: seq<Check>, allReferencesSeen: bool)
    | Rejected(verdicts: seq<Check>)
    | Invalid
    | Failed

  predicate InOrder(checks: seq<Check>, count: nat) {
    |checks| == count && forall i :: 0 <= i < count ==> checks[i].index == Some(i)
  }

  predicate AllVerified(checks: seq<Check>) { forall i :: 0 <= i < |checks| ==> checks[i].verified }

  predicate Passes(reply: CheckerReply, count: nat) {
    reply.Checks? && InOrder(reply.checks, count) && AllVerified(reply.checks)
  }

  predicate HasCitation(claims: seq<Claim>) { exists i :: 0 <= i < |claims| && claims[i].citations != [] }

  predicate CitesReference(citations: seq<Citation>) {
    exists k :: 0 <= k < |citations| && citations[k].kind == "reference"
  }

  predicate SomeReference(claims: seq<Claim>) { exists i :: 0 <= i < |claims| && CitesReference(claims[i].citations) }

  predicate SeenCitations(references: set<string>, citations: seq<Citation>) {
    forall k :: 0 <= k < |citations| && citations[k].kind == "reference" ==> citations[k].reference in references
  }

  predicate SeenClaims(references: set<string>, claims: seq<Claim>) {
    forall i :: 0 <= i < |claims| ==> SeenCitations(references, claims[i].citations)
  }

  class SourceTools {
    const limits: Limits
    const handles: Registry?
    var remaining: int
    var references: set<string>

    ghost function Now(): Host
      reads this, handles
    {
      Host(remaining, references, if handles == null then Table(map[], {}) else handles.Now())
    }

    ghost predicate Valid()
      reads this, handles
    {
      && (limits.clientV3 <==> handles != null)
      && EvidenceHandles.Valid(Now().table)
      && (limits.clientV3 ==> Seen(Now().table) <= references)
    }

    constructor (limits: Limits)
      ensures Valid() && this.limits == limits && Now() == Start(limits)
      ensures handles != null ==> fresh(handles)
    {
      this.limits := limits;
      remaining := limits.maxEvidence;
      references := {};
      if limits.clientV3 {
        var registry := new Registry();
        handles := registry;
      } else {
        handles := null;
      }
    }

    method CollectReferences(v: Json)
      modifies this`references
      ensures references == old(references) + Natives(v)
      decreases v, 1
    {
      match v {
        case Arr(items) =>
          CollectFromItems(items);
        case Obj(fields) =>
          references := references + OwnNative(fields);
          CollectFromFields(fields);
        case _ =>
      }
    }

    method CollectFromItems(items: seq<Json>)
      modifies this`references
      ensures references == old(references) + NativesOfItems(items)
      decreases items, 0
    {
      if items != [] {
        CollectReferences(items[0]);
        CollectFromItems(items[1..]);
      }
    }

    method CollectFromFields(fields: seq<Field>)
      modifies this`references
      ensures references == old(references) + NativesOfFields(fields)
      decreases fields, 0
    {
      if fields != [] {
        CollectReferences(fields[0].value);
        CollectFromFields(fields[1..]);
      }
    }

    method ProjectResult(raw: seq<Field>) returns (value: seq<Field>)
      requires Valid()
      modifies handles
      ensures (Now().table, value) == Projected(limits, old(Now().table), raw)
      ensures Valid() && (handles != null ==> handles.visible == old(handles.visible))
    {
      if handles == null {
        return raw;
      }
      ghost var before := handles.Now();
      ProjectIsValid(before, Obj(raw));
      var projected := handles.ProjectValue(Obj(raw));
      assert Seen(handles.Now()) == Seen(before);
      value := projected.fields;
    }

    method Call(name: string, outcome: Outcome) returns (reply: Option<seq<Field>>)
      requires Valid()
      modifies this, handles
      ensures Valid()
      ensures var turn := CallTurn(limits, old(Now()), name, outcome); Now() == turn.host && reply == turn.reply
    {
      var reserve := if handles != null && name != CHECK then CHECK_RESERVE else 0;
      if remaining <= reserve + 100 {
        return Some(EXHAUSTED);
      }
      var caught := Caught(outcome);
      if caught.None? {
        return None;
      }
      var value := Answer(name, caught.value);
      reply := Some(value);
    }

    method Answer(name: string, raw: seq<Field>) returns (value: seq<Field>)
      requires Valid()
      modifies this, handles
      ensures Valid()
      ensures var turn := Answered(limits, old(Now()), name, raw); Now() == turn.host && turn.reply == Some(value)
    {
      var cap := Cap(limits, remaining, name);
      value := ProjectResult(raw);
      value := Settle(name, value, cap);
    }

    /** What is returned of a projected result, and what that does to the conversation. */
    method Settle(name: string, projected: seq<Field>, cap: int) returns (value: seq<Field>)
      requires Valid()
      modifies this, handles
      ensures Valid()
      ensures var turn := Settled(limits, old(Now()), name, projected, cap);
              Now() == turn.host && turn.reply == Some(value)
    {
      value := projected;
      if IsPackTool(name) && !Fits(value, cap) {
        value := WHOLE_ONLY;
      }
      if name == CHECK && handles != null {
        if !Fits(value, cap) {
          value := NO_VERDICT;
        }
        remaining := remaining - Charge(value);
        return;
      }
      var fitted := Truncate(value, cap);
      value := if fitted.Some? then fitted.value else NO_FIT;
      value := WithdrawClaims(value);
      Deliver(value);
    }

    /** The value becomes part of the conversation and is paid for. */
    method Deliver(value: seq<Field>)
      requires EvidenceHandles.Valid(Now().table) && (limits.clientV3 <==> handles != null)
      modifies this, handles
      ensures Valid() && Now() == Delivered(limits, old(Now()), value)
    {
      CollectReferences(Obj(value));
      if handles != null {
        handles.Expose(Obj(value));
        references := references + set h | h in handles.visible && h in handles.native :: handles.native[h];
      }
      remaining := remaining - Charge(value);
    }

    method ProvideOriginals(originals: seq<Json>) returns (reply: Option<seq<Field>>)
      requires Valid()
      modifies this, handles
      ensures Valid()
      ensures var turn := ProvideTurn(limits, old(Now()), originals); Now() == turn.host && reply == turn.reply
    {
      if handles == null {
        return None;
      }
      var value := ProjectResult([Field("originals", Arr(originals))]);
      if Charge(value) > remaining - CHECK_RESERVE {
        return None;
      }
      remaining := remaining - Charge(value);
      handles.Expose(Obj(value));
      references := references + set h | h in handles.visible && h in handles.native :: handles.native[h];
      reply := Some(value);
    }

    /** The claims the native checker is asked about: with handles, citations of the native references. */
    ghost predicate Resolves(claims: seq<Claim>, resolved: seq<Claim>)
      reads this, handles
    {
      if !limits.clientV3 then resolved == claims
      else AllCitable(Now().table, claims) && ResolvedTo(Now().table, claims, resolved)
    }

    /**
     A final answer is the draft itself with its citations resolved, and only if the
     native checker confirms every claim, in order. With handles, every citation is then
     of an original this conversation has seen.
     */
    method Finalize(draft: Draft, api: seq<Claim> -> CheckerReply) returns (final: Final)
      requires Valid()
      ensures final.Completed? ==>
                && draft.text == Some(final.text) && draft.supported == Some(final.supported)
                && draft.claims.Some? && draft.claims.value != [] && Resolves(draft.claims.value, final.claims)
                && api(final.claims) == Checks(final.checks) && |final.checks| == |final.claims|
                && forall i :: 0 <= i < |final.checks| ==> final.checks[i] == Check(Some(i), true)
      ensures draft.text.Some? && draft.supported.Some? && draft.claims.Some? && draft.claims.value != [] ==>
                forall resolved ::
                  && Resolves(draft.claims.value, resolved)
                  && api(resolved).Checks? && |api(resolved).checks| == |resolved|
                  && (forall i :: 0 <= i < |resolved| ==> api(resolved).checks[i] == Check(Some(i), true))
                  ==> final.Completed?
      ensures final.Rejected? ==>
                && draft.claims.Some? && |final.verdicts| == |draft.claims.value|
                && (forall i :: 0 <= i < |final.verdicts| ==> final.verdicts[i].index == Some(i))
                && exists i :: 0 <= i < |final.verdicts| && !final.verdicts[i].verified
      ensures draft.text.Some? && draft.supported.Some? && draft.claims.Some? && draft.claims.value != [] ==>
                forall resolved ::
                  && Resolves(draft.claims.value, resolved)
                  && api(resolved).Checks? && |api(resolved).checks| == |resolved|
                  && (forall i :: 0 <= i < |resolved| ==> api(resolved).checks[i].index == Some(i))
                  && (exists i :: 0 <= i < |resolved| && !api(resolved).checks[i].verified)
                  ==> final == Rejected(api(resolved).checks)
      ensures final.Failed? ==>
                && draft.claims.Some?
                && exists resolved :: Resolves(draft.claims.value, resolved) && api(resolved).ServerError?
      ensures final.Completed? && limits.clientV3 ==>
                (final.allReferencesSeen <==>
                   exists i :: 0 <= i < |draft.claims.value| && draft.claims.value[i].citations != [])
      ensures final.Completed? && !limits.clientV3 ==>
                (final.allReferencesSeen <==>
                   && (exists i, k :: 0 <= i < |final.claims| && 0 <= k < |final.claims[i].citations|
                                      && final.claims[i].citations[k].kind == "reference")
                   && (forall i, k :: 0 <= i < |final.claims| && 0 <= k < |final.claims[i].citations|
                                      && final.claims[i].citations[k].kind == "reference" ==>
                         final.claims[i].citations[k].reference in references))
    {
      if draft.claims.None? {
        return Invalid;
      }
      var claims := draft.claims.value;
      if handles != null {
        var resolved := handles.Resolve(claims);
        if resolved.None? {
          return Invalid;
        }
        claims := resolved.value;
        ResolvedIsUnique(Now().table, draft.claims.value, claims);
      }
      if draft.text.None? || draft.supported.None? || claims == [] {
        return Invalid;
      }
      var reply := api(claims);
      match reply {
        case ServerError =>
          return Failed;
        case ClientError =>
          return Invalid;
        case NoList =>
          return Invalid;
        case Checks(checks) =>
          if !InOrder(checks, |claims|) {
            return Invalid;
          }
          if !AllVerified(checks) {
            return Rejected(checks);
          }
          var seen := AllReferencesSeen(claims);
          if handles != null { ResolvedAreSeen(Now(), draft.claims.value, claims); }
          final := Completed(draft.text.value, draft.supported.value, claims, checks, seen);
      }
    }

    method AllReferencesSeen(claims: seq<Claim>) returns (seen: bool)
      ensures seen <==> SomeReference(claims) && SeenClaims(references, claims)
    {
      var some := false;
      for i := 0 to |claims|
        invariant some <==> exists j :: 0 <= j < i && CitesReference(claims[j].citations)
        invariant forall j :: 0 <= j < i ==> SeenCitations(references, claims[j].citations)
      {
        if CitesReference(claims[i].citations) {
          some := true;
        }
        if !SeenCitations(references, claims[i].citations) {
          return false;
        }
      }
      seen := some;
    }
  }

  lemma ResolvedIsUnique(t: Table, claims: seq<Claim>, resolved: seq<Claim>)
    requires ResolvedTo(t, claims, resolved)
    ensures forall other :: ResolvedTo(t, claims, other) ==> other == resolved
  {
    forall other: seq<Claim> | ResolvedTo(t, claims, other) ensures other == resolved {
      forall i | 0 <= i < |claims| ensures other[i] == resolved[i] {
        assert ResolvedCitations(t, claims[i].citations, other[i].citations);
        assert ResolvedCitations(t, claims[i].citations, resolved[i].citations);
        assert other[i].citations == resolved[i].citations;
      }
    }
  }

  /** Resolved citations are all of seen originals, so the answer has seen references exactly when it cites any. */
  lemma ResolvedAreSeen(s: Host, claims: seq<Claim>, resolved: seq<Claim>)
    requires AllCitable(s.table, claims) && ResolvedTo(s.table, claims, resolved) && Seen(s.table) <= s.references
    ensures SeenClaims(s.references, resolved)
    ensures SomeReference(resolved) <==> HasCitation(claims)
  {
    forall i | 0 <= i < |claims|
      ensures SeenCitations(s.references, resolved[i].citations)
      ensures CitesReference(resolved[i].citations) <==> claims[i].citations != []
    {
      var before, after := claims[i].citations, resolved[i].citations;
      assert ResolvedCitations(s.table, before, after);
      forall k | 0 <= k < |before| ensures after[k].kind == "reference" && after[k].reference in s.references {
        assert Citable(s.table, before[k]);
      }
      if before != [] { assert after[0].kind == "reference"; }
    }
  }
}
