/**
 How the host reads packs and recalls (`scripts/benchmark_pilot/tools.py`, lines 229-248):
 it asks the native service for 1024 bytes less than the cap, because the reply will grow
 by source ids and white space. This says exactly by how much, and when 1024 suffice.
 */
module HostRead {
  import opened Bounds
  import opened Wrappers
  import opened Json
  import opened Compact
  import opened EvidenceHandles
  import opened HandleSize
  import opened PackRepair
  import opened Truncation
  import opened HostBudget
  import opened HostSafety

  const PACK := "elf_evidence_pack"
  const RECALL := "elf_evidence_recall"

  /** Left for what the host adds to a native reply. */
  const SLACK := 1024
  /** The limits the native service accepts. */
  const LEAST_LIMIT := 1024
  const GREATEST_LIMIT := 32768

  // ------------------------------------------------------------------ source ids

  type Ids = map<string, string>

  function IdOf(ids: Ids, source: Json): Option<string> {
    if !source.Obj? then None
    else
      match Get(source.fields, "doc_id")
      case Some(Str(doc)) => if doc in ids then Some(ids[doc]) else None
      case _ => None
  }

  predicate AllKnown(ids: Ids, sources: seq<Json>) { forall i :: 0 <= i < |sources| ==> IdOf(ids, sources[i]).Some? }

  function WithId(ids: Ids, source: Json): Json
    requires IdOf(ids, source).Some?
  {
    Obj(Put(source.fields, "source_id", Str(IdOf(ids, source).value)))
  }

  function WithIds(ids: Ids, sources: seq<Json>): (r: seq<Json>)
    requires AllKnown(ids, sources)
    ensures |r| == |sources| && forall i :: 0 <= i < |sources| ==> r[i] == WithId(ids, sources[i])
  {
    if sources == [] then [] else [WithId(ids, sources[0])] + WithIds(ids, sources[1..])
  }

  /** The pack with a source id for every original, unless one is not of this checkpoint. */
  function NamedPack(ids: Ids, pack: seq<Field>): Option<seq<Field>> {
    match Get(pack, "sources")
    case Some(Arr(sources)) =>
      if AllKnown(ids, sources) then Some(Put(pack, "sources", Arr(WithIds(ids, sources)))) else None
    case _ => None
  }

  /** The reply as the host goes on with it. */
  function NamedReply(ids: Ids, name: string, raw: seq<Field>): Option<seq<Field>> {
    if name == PACK then NamedPack(ids, raw)
    else
      match Get(raw, "pack")
      case Some(Obj(pack)) =>
        var named := NamedPack(ids, pack);
        if named.Some? then Some(Put(raw, "pack", Obj(named.value))) else None
      case _ => None
  }

  function RawPack(name: string, raw: seq<Field>): seq<Field> {
    if name == PACK then raw else match Get(raw, "pack") case Some(Obj(pack)) => pack case _ => []
  }

  /** What an id costs: a field of its own, or the difference to the one that is there. */
  function IdCost(ids: Ids, source: Json): int
    requires IdOf(ids, source).Some?
  {
    var id := IdOf(ids, source).value;
    match Get(source.fields, "source_id")
    case Some(w) => Bytes(Str(id)) - Bytes(w)
    case None => 17 + TextSize(id, Utf8)
  }

  function IdsCost(ids: Ids, sources: seq<Json>): int
    requires AllKnown(ids, sources)
  {
    if sources == [] then 0 else IdCost(ids, sources[0]) + IdsCost(ids, sources[1..])
  }

  lemma NamedSourceSize(ids: Ids, source: Json)
    requires IdOf(ids, source).Some?
    ensures Bytes(WithId(ids, source)) == Bytes(source) + IdCost(ids, source)
  {
    assert Plain("source_id");
    PlainSize("source_id");
    PutSize(source.fields, "source_id", Str(IdOf(ids, source).value));
    assert source.fields != [];
  }

  lemma {:induction false} NamedSourcesSize(ids: Ids, sources: seq<Json>)
    requires AllKnown(ids, sources)
    ensures ItemsSize(WithIds(ids, sources), Utf8) == ItemsSize(sources, Utf8) + IdsCost(ids, sources)
  {
    if sources != [] {
      NamedSourceSize(ids, sources[0]);
      NamedSourcesSize(ids, sources[1..]);
      var named := WithIds(ids, sources);
      assert named[1..] == WithIds(ids, sources[1..]) && |named| == |sources|;
    }
  }

  lemma NamedPackSize(ids: Ids, pack: seq<Field>)
    requires NamedPack(ids, pack).Some?
    ensures Bytes(Obj(NamedPack(ids, pack).value)) == Bytes(Obj(pack)) + IdsCost(ids, ListOf(pack, "sources"))
  {
    var sources := ListOf(pack, "sources");
    NamedSourcesSize(ids, sources);
    PutSize(pack, "sources", Arr(WithIds(ids, sources)));
  }

  lemma NamedReplySize(ids: Ids, name: string, raw: seq<Field>)
    requires NamedReply(ids, name, raw).Some?
    ensures NamedPack(ids, RawPack(name, raw)).Some?
    ensures Bytes(Obj(NamedReply(ids, name, raw).value)) ==
            Bytes(Obj(raw)) + IdsCost(ids, ListOf(RawPack(name, raw), "sources"))
  {
    NamedPackSize(ids, RawPack(name, raw));
    if name != PACK { PutSize(raw, "pack", Obj(NamedPack(ids, RawPack(name, raw)).value)); }
  }

  // ------------------------------------------------------------- asking for a reply

  /** How many bytes the native service may use. */
  function ReadLimit(l: Limits, s: Host, name: string, asked: int): int {
    Min(asked, Cap(l, s.remaining, name) - SLACK)
  }

  function ExecuteRead(l: Limits, s: Host, name: string, asked: int, ids: Ids, native: int -> Outcome): Outcome {
    var limit := ReadLimit(l, s, name, asked);
    if limit < LEAST_LIMIT then Refused("Insufficient evidence budget for a complete native response")
    else
      match native(limit)
      case Executed(raw) =>
        var named := NamedReply(ids, name, raw);
        if named.Some? then Executed(named.value) else Refused("Future or foreign source crossed the checkpoint")
      case other => other
  }

  /** The native service answers limits it accepts, in compact text within them. */
  ghost predicate Honours(native: int -> Outcome) {
    forall limit :: native(limit).Executed? ==>
      LEAST_LIMIT <= limit <= GREATEST_LIMIT && CompactSize(Obj(native(limit).fields)) <= limit
  }

  /** `raw` is what such a service may answer here. */
  predicate Reads(l: Limits, s: Host, name: string, asked: int, ids: Ids, raw: seq<Field>) {
    && IsPackTool(name) && NamedReply(ids, name, raw).Some?
    && LEAST_LIMIT <= ReadLimit(l, s, name, asked) <= GREATEST_LIMIT
    && CompactSize(Obj(raw)) <= ReadLimit(l, s, name, asked)
  }

  lemma ExecutedIsRead(l: Limits, s: Host, name: string, asked: int, ids: Ids, native: int -> Outcome)
      returns (raw: seq<Field>)
    requires IsPackTool(name) && Honours(native) && ExecuteRead(l, s, name, asked, ids, native).Executed?
    ensures Reads(l, s, name, asked, ids, raw)
    ensures ExecuteRead(l, s, name, asked, ids, native) == Executed(NamedReply(ids, name, raw).value)
  {
    raw := native(ReadLimit(l, s, name, asked)).fields;
  }

  /** The service is asked for what may be taken less 1024 bytes, or for less; below 1024 bytes it is not asked. */
  lemma AskedInNumbers(l: Limits, s: Host, name: string, asked: int, ids: Ids, native: int -> Outcome, m: int)
    requires MayTake(l, s, name, m)
    ensures var limit := if asked < m - 1024 then asked else m - 1024;
            var outcome := ExecuteRead(l, s, name, asked, ids, native);
            && (limit < 1024 ==> outcome.Refused?)
            && (limit >= 1024 && !native(limit).Executed? ==> outcome == native(limit))
            && (outcome.Executed? <==>
                  && limit >= 1024 && native(limit).Executed?
                  && NamedReply(ids, name, native(limit).fields).Some?)
            && (outcome.Executed? ==> Some(outcome.fields) == NamedReply(ids, name, native(limit).fields))
  {
    hide NamedReply;
  }

  // ------------------------------------------------------------ what the host adds

  /** What the host makes of the reply before it cuts or repairs anything. */
  ghost function ShownReply(v3: bool, t: Table, ids: Ids, name: string, raw: seq<Field>): seq<Field>
    requires NamedReply(ids, name, raw).Some?
  {
    Projected(Limits(0, 0, v3), t, NamedReply(ids, name, raw).value).1
  }

  /** By how much it is larger than the native text: white space and source ids, less what handles save. */
  ghost function Overhead(v3: bool, t: Table, ids: Ids, name: string, raw: seq<Field>): int
    requires NamedReply(ids, name, raw).Some? && NamedPack(ids, RawPack(name, raw)).Some?
  {
    Separators(Obj(raw)) + IdsCost(ids, ListOf(RawPack(name, raw), "sources"))
    - if v3 then Saving(t, Obj(NamedReply(ids, name, raw).value)) else 0
  }

  lemma ShownSize(v3: bool, t: Table, ids: Ids, name: string, raw: seq<Field>)
    requires NamedReply(ids, name, raw).Some?
    ensures NamedPack(ids, RawPack(name, raw)).Some?
    ensures Charge(ShownReply(v3, t, ids, name, raw)) == CompactSize(Obj(raw)) + Overhead(v3, t, ids, name, raw)
  {
    NamedReplySize(ids, name, raw);
    SizeWithSeparators(Obj(raw));
    if v3 { ProjectSize(t, Obj(NamedReply(ids, name, raw).value)); }
  }

  /** What a repair will add. */
  ghost function Growth(v3: bool, t: Table, ids: Ids, name: string, raw: seq<Field>): int
    requires NamedReply(ids, name, raw).Some?
  {
    RepairGrowth(ShownReply(v3, t, ids, name, raw))
  }

  /** Exactly when a reply that the native service kept within its limit exceeds the cap of the host. */
  lemma ReadWithinCapIff(l: Limits, s: Host, name: string, asked: int, ids: Ids, raw: seq<Field>)
    requires Reads(l, s, name, asked, ids, raw)
    ensures NamedPack(ids, RawPack(name, raw)).Some?
    ensures var outcome := Executed(NamedReply(ids, name, raw).value);
            var cap, size := Cap(l, s.remaining, name), CompactSize(Obj(raw));
            var overhead := Overhead(l.clientV3, s.table, ids, name, raw);
            var growth := Growth(l.clientV3, s.table, ids, name, raw);
            && Answers(s, l, name, outcome)
            && (Fits(ShownReply(l.clientV3, s.table, ids, name, raw), cap) <==> size + overhead <= cap)
            && (CallTurn(l, s, name, outcome).charged <= cap <==>
                  size + overhead > cap || size + overhead + growth <= cap)
  {
    var named := NamedReply(ids, name, raw).value;
    ShownSize(l.clientV3, s.table, ids, name, raw);
    assert Projected(l, s.table, named).1 == ShownReply(l.clientV3, s.table, ids, name, raw);
    PackOverrunsIff(l, s, name, Executed(named));
  }

  // --------------------------------------------------------- when the slack suffices

  /** Whatever the budget, a reply that the native service can send here fits. */
  ghost predicate AlwaysFits(v3: bool, t: Table, ids: Ids, name: string, raw: seq<Field>) {
    forall l: Limits, s: Host, asked: int ::
      Reads(l, s, name, asked, ids, raw) && l.clientV3 == v3 && s.table == t ==>
        Fits(ShownReply(v3, t, ids, name, raw), Cap(l, s.remaining, name))
  }

  /** Whatever the budget, the call costs no more than its cap. */
  ghost predicate AlwaysWithinCap(v3: bool, t: Table, ids: Ids, name: string, raw: seq<Field>) {
    forall l: Limits, s: Host, asked: int ::
      Reads(l, s, name, asked, ids, raw) && l.clientV3 == v3 && s.table == t ==>
        CallTurn(l, s, name, Executed(NamedReply(ids, name, raw).value)).charged <= Cap(l, s.remaining, name)
  }

  /** What the slack leaves at least; a text below the least limit leaves more. */
  function Room(raw: seq<Field>): nat { SLACK + Max(0, LEAST_LIMIT - CompactSize(Obj(raw))) }

  /** The conversation in which the cap is just `cap` and the reply can just be sent. */
  function TightLimits(v3: bool, cap: int): Limits { Limits(cap, cap, v3) }

  function TightHost(v3: bool, t: Table, name: string, cap: int): Host {
    Host(cap + Reserve(TightLimits(v3, cap), name), {}, t)
  }

  lemma TightRead(v3: bool, t: Table, ids: Ids, name: string, raw: seq<Field>, cap: int) returns (asked: int)
    requires IsPackTool(name) && NamedReply(ids, name, raw).Some?
    requires CompactSize(Obj(raw)) <= GREATEST_LIMIT && cap >= CompactSize(Obj(raw)) + Room(raw)
    ensures Cap(TightLimits(v3, cap), TightHost(v3, t, name, cap).remaining, name) == cap
    ensures Reads(TightLimits(v3, cap), TightHost(v3, t, name, cap), name, asked, ids, raw)
  {
    asked := Max(LEAST_LIMIT, CompactSize(Obj(raw)));
  }

  /** The slack is enough for a reply to fit exactly if the overhead is within it. */
  lemma AlwaysFitsIff(v3: bool, t: Table, ids: Ids, name: string, raw: seq<Field>)
    requires IsPackTool(name) && NamedReply(ids, name, raw).Some? && CompactSize(Obj(raw)) <= GREATEST_LIMIT
    ensures NamedPack(ids, RawPack(name, raw)).Some?
    ensures AlwaysFits(v3, t, ids, name, raw) <==> Overhead(v3, t, ids, name, raw) <= Room(raw)
  {
    ShownSize(v3, t, ids, name, raw);
    if AlwaysFits(v3, t, ids, name, raw) {
      var cap := CompactSize(Obj(raw)) + Room(raw);
      var asked := TightRead(v3, t, ids, name, raw, cap);
      assert Fits(ShownReply(v3, t, ids, name, raw), cap);
    }
  }

  /** And for no reply to exceed its cap exactly if a repair adds nothing or stays within it as well. */
  lemma AlwaysWithinCapIff(v3: bool, t: Table, ids: Ids, name: string, raw: seq<Field>)
    requires IsPackTool(name) && NamedReply(ids, name, raw).Some? && CompactSize(Obj(raw)) <= GREATEST_LIMIT
    ensures NamedPack(ids, RawPack(name, raw)).Some?
    ensures AlwaysWithinCap(v3, t, ids, name, raw) <==>
            || Growth(v3, t, ids, name, raw) <= 0
            || Overhead(v3, t, ids, name, raw) + Growth(v3, t, ids, name, raw) <= Room(raw)
  {
    hide NamedReply, Overhead, Growth;
    ShownSize(v3, t, ids, name, raw);
    var size, overhead := CompactSize(Obj(raw)), Overhead(v3, t, ids, name, raw);
    var growth := Growth(v3, t, ids, name, raw);
    if growth <= 0 || overhead + growth <= Room(raw) {
      forall l: Limits, s: Host, asked: int |
        Reads(l, s, name, asked, ids, raw) && l.clientV3 == v3 && s.table == t
        ensures CallTurn(l, s, name, Executed(NamedReply(ids, name, raw).value)).charged <= Cap(l, s.remaining, name)
      {
        ReadWithinCapIff(l, s, name, asked, ids, raw);
      }
    } else {
      var cap := size + overhead + growth - 1;
      var asked := TightRead(v3, t, ids, name, raw, cap);
      ReadWithinCapIff(TightLimits(v3, cap), TightHost(v3, t, name, cap), name, asked, ids, raw);
    }
  }
}
