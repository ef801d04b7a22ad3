/**
 Which original references a conversation without handles has seen when its answer is
 checked (`scripts/benchmark_pilot/tools.py`, lines 304-314 and 347-348).
 */
module HostReferences {
  import opened Wrappers
  import opened Json
  import opened EvidenceHandles
  import opened HostBudget

  /** A native reference stands under `reference` in the value, or in something the value holds. */
  ghost predicate Cites(v: Json, r: string)
    decreases v
  {
    match v
    case Arr(items) => exists i :: 0 <= i < |items| && Cites(items[i], r)
    case Obj(fields) =>
      || ("elf-source-v1/" <= r && Get(fields, "reference") == Some(Str(r)))
      || exists i :: 0 <= i < |fields| && Cites(fields[i].value, r)
    case _ => false
  }

  lemma {:induction false} NativesMean(v: Json, r: string)
    ensures r in Natives(v) <==> Cites(v, r)
    decreases v, 1
  {
    match v
    case Arr(items) => ItemsMean(items, r);
    case Obj(fields) =>
      FieldsMean(fields, r);
      assert r in OwnNative(fields) <==> "elf-source-v1/" <= r && Get(fields, "reference") == Some(Str(r));
    case _ =>
  }

  lemma {:induction false} ItemsMean(items: seq<Json>, r: string)
    ensures r in NativesOfItems(items) <==> exists i :: 0 <= i < |items| && Cites(items[i], r)
    decreases items, 0
  {
    if items != [] {
      NativesMean(items[0], r);
      ItemsMean(items[1..], r);
      assert forall i :: 0 < i < |items| ==> items[i] == items[1..][i - 1];
      assert forall i :: 0 <= i < |items| - 1 ==> items[1..][i] == items[i + 1];
    }
  }

  lemma {:induction false} FieldsMean(fields: seq<Field>, r: string)
    ensures r in NativesOfFields(fields) <==> exists i :: 0 <= i < |fields| && Cites(fields[i].value, r)
    decreases fields, 0
  {
    if fields != [] {
      NativesMean(fields[0].value, r);
      FieldsMean(fields[1..], r);
      assert forall i :: 0 < i < |fields| ==> fields[i] == fields[1..][i - 1];
      assert forall i :: 0 <= i < |fields| - 1 ==> fields[1..][i] == fields[i + 1];
    }
  }

  lemma MessageCitesNothing(text: string, r: string)
    ensures !Cites(Obj(Message(text)), r)
  {
    var fields := Message(text);
    assert |fields| == 1 && fields[0].key == "error" && fields[0].value == Str(text);
    assert |"error"| != |"reference"|;
    assert Get(fields, "reference") == Get(fields[1..], "reference") == None;
  }

  lemma StepReferences(l: Limits, s: Host, request: Request, r: string)
    requires !l.clientV3
    ensures var turn := Step(l, s, request);
            r in turn.host.references <==>
            r in s.references || (turn.reply.Some? && Cites(Obj(turn.reply.value), r))
  {
    hide Cites, Message, Natives;
    MessageCitesNothing("Common evidence-byte budget exhausted.", r);
    var turn := Step(l, s, request);
    if turn.reply.Some? { NativesMean(Obj(turn.reply.value), r); }
  }

  /** Without handles the references seen are exactly those that the replies of the conversation cite. */
  lemma {:induction false} ReferencesAreCited(l: Limits, requests: seq<Request>, r: string)
    requires !l.clientV3
    ensures r in After(l, requests).references <==>
            exists i :: 0 <= i < |requests| && TurnAt(l, requests, i).reply.Some?
                        && Cites(Obj(TurnAt(l, requests, i).reply.value), r)
    decreases |requests|
  {
    hide Step, Cites;
    if requests != [] {
      var n := |requests| - 1;
      var front := requests[..n];
      ReferencesAreCited(l, front, r);
      StepReferences(l, After(l, front), requests[n], r);
      forall i | 0 <= i < n ensures TurnAt(l, requests, i) == TurnAt(l, front, i) {
        assert requests[..i] == front[..i];
      }
      assert TurnAt(l, requests, n) == Step(l, After(l, front), requests[n]);
    }
  }
}
