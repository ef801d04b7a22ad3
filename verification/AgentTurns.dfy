/**
 What every turn of a fresh run does (`scripts/benchmark_agent/runner.py`, lines 55-95),
 told from rounds, calls and tools alone: which requests carry the closing notice, which
 calls run with which results, and how the run ends.
 */
module AgentTurns {
  import opened Wrappers
  import opened AgentRun

  function Whole(cfg: Config, env: Env): Progress { RunFrom(cfg, env, Fresh(cfg), 0) }

  // --------------------------------------------------------- what one batch runs

  /** The first `n` calls ran, the executions of the run being counted from `first`. */
  predicate RanFirst(env: Env, calls: seq<ToolCall>, first: nat, tools: seq<ToolRun>, n: nat) {
    && |tools| == n <= |calls|
    && forall j :: 0 <= j < n ==>
         && calls[j].arguments.Some? && env.result(first + j).Some?
         && tools[j] == ToolRun(calls[j].name, calls[j].arguments.value, env.result(first + j).value)
  }

  /** Nothing runs, or calls run in order until the budget is used, a call is unreadable or running it raises. */
  ghost predicate RunsAsFar(cfg: Config, env: Env, reply: Reply, first: nat, closing: bool, tools: seq<ToolRun>) {
    if closing || reply.finish.Broken? then tools == []
    else
      var n := |tools|;
      && RanFirst(env, reply.calls, first, tools, n)
      && (|| n == |reply.calls| || first + n == cfg.maxCalls
          || reply.calls[n].arguments.None? || env.result(first + n).None?)
  }

  /** How many calls of a step have been answered, with a result or a refusal. */
  function AnsweredCalls(step: Step): nat { |step.tools| + |step.unexecuted| }

  lemma {:induction false} BatchRunsAsFar(cfg: Config, env: Env, before: Conv, reply: Reply, closing: bool, k: nat,
          conv: Conv)
    requires k <= |reply.calls| && MidBatch(cfg, before, reply, closing, k, conv) && reply.finish.Usual?
    requires RanFirst(env, reply.calls, before.calls, conv.trace[|before.trace|].tools,
               |conv.trace[|before.trace|].tools|)
    ensures var p := Batch(cfg, env, reply.calls, k, closing, conv);
            && |p.conv.trace| == |before.trace| + 1 && p.conv.trace[..|before.trace|] == before.trace
            && p.conv.trace[|before.trace|].reply == reply
            && p.conv.trace[|before.trace|].turn == conv.trace[|before.trace|].turn
            && AnsweredCalls(p.conv.trace[|before.trace|]) <= |reply.calls|
            && (p.ending.None? <==> AnsweredCalls(p.conv.trace[|before.trace|]) == |reply.calls|)
            && (p.ending.Some? ==> p.ending == Some(Raised))
            && RunsAsFar(cfg, env, reply, before.calls, closing, p.conv.trace[|before.trace|].tools)
            && conv.messages <= p.conv.messages
    decreases |reply.calls| - k
  {
    hide Answers;
    if k < |reply.calls| && AfterCall(cfg, env, reply.calls[k], closing, conv).Some? {
      AfterCallKeepsPairing(cfg, env, before, reply, closing, k, conv);
      var next := AfterCall(cfg, env, reply.calls[k], closing, conv).value;
      BatchRunsAsFar(cfg, env, before, reply, closing, k + 1, next);
    }
  }

  // --------------------------------------------------------- turn by turn

  /** A turn ends the run by raising, also on a call it cannot get past, or by a reply without calls. */
  ghost predicate EndsAs(env: Env, t: nat, p: Progress) {
    && (p.ending == Some(Raised) <==>
          || env.fails(t) || env.reply(t).finish.Broken?
          || (|p.conv.trace| == t + 1 && AnsweredCalls(p.conv.trace[t]) < |env.reply(t).calls|))
    && (forall v :: p.ending == Some(Answered(v)) <==>
          !env.fails(t) && env.reply(t).finish.Usual? && env.reply(t).calls == [] && v == env.verdict(t))
    && p.ending != Some(RoundsExhausted)
  }

  /** The reply has calls, and all of them were answered. */
  predicate TurnGoesOn(env: Env, p: Progress, t: nat)
    requires t < |p.conv.trace|
  {
    && !env.fails(t) && env.reply(t).finish.Usual? && env.reply(t).calls != []
    && AnsweredCalls(p.conv.trace[t]) == |env.reply(t).calls|
  }

  /** A turn is closing in the last round, when all calls are used, or without tools. */
  lemma TurnMeans(cfg: Config, env: Env, before: Conv, t: nat)
    requires AtBoundary(cfg, before, t) && t < cfg.maxRounds
    ensures var closing := t == cfg.maxRounds - 1 || before.calls == cfg.maxCalls || !cfg.hasTools;
            var sent := before.messages + if closing then [ClosingNotice] else [];
            var p := Turn(cfg, env, before, t);
            && sent <= p.conv.messages
            && (env.fails(t) || env.reply(t).finish.Broken? ==> p.conv.messages == sent && p.ending == Some(Raised))
            && (env.fails(t) ==> p.conv.trace == before.trace)
            && (!env.fails(t) ==>
                  && |p.conv.trace| == t + 1 && p.conv.trace[..t] == before.trace
                  && p.conv.trace[t].turn == t && p.conv.trace[t].reply == env.reply(t)
                  && RunsAsFar(cfg, env, env.reply(t), before.calls, closing, p.conv.trace[t].tools))
            && (!env.fails(t) && env.reply(t).finish.Usual? ==>
                  |p.conv.messages| > |sent| && p.conv.messages[|sent|] == Assistant(env.reply(t)))
            && EndsAs(env, t, p)
            && (p.ending.None? ==> |p.conv.trace| == t + 1 && TurnGoesOn(env, p, t))
  {
    var reply, closing := env.reply(t), Closing(cfg, t, before.calls);
    if !env.fails(t) && reply.finish.Usual? && reply.calls != [] {
      var asked := Asked(cfg, env, before, t);
      var started := asked.(messages := asked.messages + [Assistant(reply)]);
      TurnStartsBatch(cfg, env, before, t);
      BatchRunsAsFar(cfg, env, before, reply, closing, 0, started);
    }
  }

  // --------------------------------------------------------- over a whole run

  lemma {:induction false} RunExtends(cfg: Config, env: Env, conv: Conv, t: nat)
    requires AtBoundary(cfg, conv, t) && t <= cfg.maxRounds
    ensures conv.trace <= RunFrom(cfg, env, conv, t).conv.trace
    ensures conv.messages <= RunFrom(cfg, env, conv, t).conv.messages
    decreases cfg.maxRounds - t
  {
    hide Turn, AtBoundary, RunsAsFar;
    if t < cfg.maxRounds {
      TurnMeans(cfg, env, conv, t);
      TurnKeepsBoundary(cfg, env, conv, t);
      OneMoreTurn(cfg, env, conv, t);
      var p := Turn(cfg, env, conv, t);
      if p.ending.None? { RunExtends(cfg, env, p.conv, t + 1); }
    }
  }

  /** A run keeps what each of its turns leaves. */
  lemma TurnIsKept(cfg: Config, env: Env, t: nat)
    requires Boundary(cfg, env, t).Some? && t < cfg.maxRounds
    ensures AtBoundary(cfg, Boundary(cfg, env, t).value, t)
    ensures var p := Turn(cfg, env, Boundary(cfg, env, t).value, t);
            p.conv.trace <= Whole(cfg, env).conv.trace && p.conv.messages <= Whole(cfg, env).conv.messages
            && (p.ending.Some? ==> p.conv == Whole(cfg, env).conv)
  {
    var before := Boundary(cfg, env, t).value;
    BoundaryHolds(cfg, env, t);
    RunContinues(cfg, env, t);
    OneMoreTurn(cfg, env, before, t);
    TurnKeepsBoundary(cfg, env, before, t);
    var p := Turn(cfg, env, before, t);
    if p.ending.None? { RunExtends(cfg, env, p.conv, t + 1); }
  }

  lemma {:induction false} RequestsFrom(cfg: Config, env: Env, t: nat)
    requires Boundary(cfg, env, t).Some?
    ensures Whole(cfg, env).requests == t + RunFrom(cfg, env, Boundary(cfg, env, t).value, t).requests
  {
    hide RunFrom;
    if t > 0 {
      RequestsFrom(cfg, env, t - 1);
      OneMoreTurn(cfg, env, Boundary(cfg, env, t - 1).value, t - 1);
    }
  }

  lemma {:induction false} RequestedTurn(cfg: Config, env: Env, t: nat)
    requires t < Whole(cfg, env).requests
    ensures Boundary(cfg, env, t).Some? && t < cfg.maxRounds
  {
    if t > 0 {
      RequestedTurn(cfg, env, t - 1);
      RequestsFrom(cfg, env, t - 1);
      OneMoreTurn(cfg, env, Boundary(cfg, env, t - 1).value, t - 1);
    }
    RequestsFrom(cfg, env, t);
  }

  /**
   The request of every turn is made after the answers of the turn before. It carries the
   closing notice exactly if it is the last round, every call is used or there are no tools.
   */
  lemma NoticeIff(cfg: Config, env: Env, t: nat) returns (base: seq<Message>)
    requires t < Whole(cfg, env).requests
    ensures var messages, trace := Whole(cfg, env).conv.messages, Whole(cfg, env).conv.trace;
            && t <= |trace|
            && var closing := t == cfg.maxRounds - 1 || CallCount(trace[..t]) == cfg.maxCalls || !cfg.hasTools;
            var sent := base + if closing then [ClosingNotice] else [];
            && sent <= messages
            && (|messages| > |sent| ==> messages[|sent|] == Assistant(env.reply(t)))
            && (t == 0 ==> base == cfg.opening)
            && (t > 0 ==> base != [] && AnswersLast(env.reply(t - 1), base[|base| - 1]))
  {
    hide Turn, AtBoundary, RunsAsFar, AnswersLast, Boundary, Whole, RunFrom;
    RequestedTurn(cfg, env, t);
    TurnIsKept(cfg, env, t);
    var before := Boundary(cfg, env, t).value;
    TurnMeans(cfg, env, before, t);
    RunKeepsBoundary(cfg, env, t);
    base := before.messages;
    if t == 0 { FirstBoundary(cfg, env); } else { BoundaryAnswers(cfg, env, t); }
  }

  lemma FirstBoundary(cfg: Config, env: Env)
    ensures Boundary(cfg, env, 0).value.messages == cfg.opening
  {}

  lemma BoundaryAnswers(cfg: Config, env: Env, t: nat)
    requires t > 0 && Boundary(cfg, env, t).Some?
    ensures var messages := Boundary(cfg, env, t).value.messages;
            messages != [] && AnswersLast(env.reply(t - 1), messages[|messages| - 1])
  {
    hide RunsAsFar, Turn;
    var before, after := Boundary(cfg, env, t - 1).value, Boundary(cfg, env, t).value;
    BoundaryHolds(cfg, env, t - 1);
    BoundaryHolds(cfg, env, t);
    TurnMeans(cfg, env, before, t - 1);
    assert WellPaired(after.trace[t - 1]);
    var answers := Answers(after.trace[t - 1], BudgetEnded);
    assert after.messages[|after.messages| - 1] == answers[|answers| - 1];
  }

  predicate AnswersLast(reply: Reply, message: Message) {
    reply.calls != [] && message.ToolResult? && message.id == reply.calls[|reply.calls| - 1].id
  }

  lemma RunKeepsBoundary(cfg: Config, env: Env, t: nat)
    requires Boundary(cfg, env, t).Some? && t < cfg.maxRounds
    ensures Boundary(cfg, env, t).value.trace <= Whole(cfg, env).conv.trace
    ensures |Boundary(cfg, env, t).value.trace| == t
    ensures Boundary(cfg, env, t).value.calls == CallCount(Whole(cfg, env).conv.trace[..t])
  {
    BoundaryHolds(cfg, env, t);
    RunContinues(cfg, env, t);
    RunExtends(cfg, env, Boundary(cfg, env, t).value, t);
    assert Whole(cfg, env).conv.trace[..t] == Boundary(cfg, env, t).value.trace;
  }

  /**
   Every recorded turn executes nothing if it is the last round, every call is used or there
   are no tools. Otherwise its calls run in order, with the results the tools gave, until the
   budget is used or the run raises.
   */
  lemma ExecutedOfTurn(cfg: Config, env: Env, t: nat)
    requires t < |Whole(cfg, env).conv.trace|
    ensures t < Whole(cfg, env).requests && !env.fails(t)
    ensures var trace := Whole(cfg, env).conv.trace;
            var closing := t == cfg.maxRounds - 1 || CallCount(trace[..t]) == cfg.maxCalls || !cfg.hasTools;
            && trace[t].turn == t && trace[t].reply == env.reply(t)
            && RunsAsFar(cfg, env, env.reply(t), CallCount(trace[..t]), closing, trace[t].tools)
  {
    FreshRunWithinBudget(cfg, env);
    RequestedTurn(cfg, env, t);
    RunKeepsBoundary(cfg, env, t);
    TurnIsKept(cfg, env, t);
    TurnMeans(cfg, env, Boundary(cfg, env, t).value, t);
    if env.fails(t) { FailsLast(cfg, env, t); }
  }

  lemma FailsLast(cfg: Config, env: Env, t: nat)
    requires Boundary(cfg, env, t).Some? && t < cfg.maxRounds && env.fails(t)
    ensures |Whole(cfg, env).conv.trace| == t
  {
    BoundaryHolds(cfg, env, t);
    RunContinues(cfg, env, t);
    OneMoreTurn(cfg, env, Boundary(cfg, env, t).value, t);
  }

  lemma {:induction false} RunEndsAs(cfg: Config, env: Env, t: nat)
    requires Boundary(cfg, env, t).Some?
    ensures var q := RunFrom(cfg, env, Boundary(cfg, env, t).value, t);
            && t <= cfg.maxRounds && q.ending.Some?
            && (q.ending == Some(RoundsExhausted) ==>
                  && q.requests == cfg.maxRounds - t && |q.conv.trace| == cfg.maxRounds
                  && forall u :: t <= u < cfg.maxRounds ==> TurnGoesOn(env, q, u))
            && (q.ending != Some(RoundsExhausted) ==> q.requests > 0 && EndsAs(env, t + q.requests - 1, q))
    decreases cfg.maxRounds - t
  {
    hide Turn, AtBoundary, RunsAsFar;
    BoundaryHolds(cfg, env, t);
    BoundaryLength(cfg, env, t);
    if t < cfg.maxRounds {
      var before := Boundary(cfg, env, t).value;
      TurnMeans(cfg, env, before, t);
      OneMoreTurn(cfg, env, before, t);
      TurnKeepsBoundary(cfg, env, before, t);
      OneRequest(cfg, env, before, t);
      var p := Turn(cfg, env, before, t);
      if p.ending.None? {
        RunEndsAs(cfg, env, t + 1);
        RunExtends(cfg, env, p.conv, t + 1);
        var rest, q := RunFrom(cfg, env, p.conv, t + 1), RunFrom(cfg, env, before, t);
        assert rest.conv == q.conv && rest.conv.trace[t] == p.conv.trace[t];
        if q.ending == Some(RoundsExhausted) {
          forall u | t <= u < cfg.maxRounds ensures TurnGoesOn(env, q, u) {
            assert u > t ==> TurnGoesOn(env, rest, u);
          }
        }
      }
    }
  }

  lemma BoundaryLength(cfg: Config, env: Env, t: nat)
    requires Boundary(cfg, env, t).Some?
    ensures |Boundary(cfg, env, t).value.trace| == t
  {
    BoundaryHolds(cfg, env, t);
  }

  lemma OneRequest(cfg: Config, env: Env, before: Conv, t: nat)
    requires AtBoundary(cfg, before, t) && t < cfg.maxRounds
    ensures Turn(cfg, env, before, t).requests == 1
  {
    TurnExtendsTrace(cfg, env, before, t);
  }

  /** How a run ends is how its last turn ends, or by having used all rounds. */
  lemma EndingIff(cfg: Config, env: Env)
    ensures var p := Whole(cfg, env);
            && p.requests <= cfg.maxRounds && p.ending.Some?
            && (p.ending == Some(RoundsExhausted) <==>
                  && p.requests == cfg.maxRounds == |p.conv.trace|
                  && forall t :: 0 <= t < cfg.maxRounds ==> TurnGoesOn(env, p, t))
            && (p.ending != Some(RoundsExhausted) ==> p.requests > 0 && EndsAs(env, p.requests - 1, p))
  {
    FreshRunWithinBudget(cfg, env);
    RunEndsAs(cfg, env, 0);
    var p := Whole(cfg, env);
    if p.requests == cfg.maxRounds == |p.conv.trace| && p.ending != Some(RoundsExhausted) {
      var last := cfg.maxRounds - 1;
      assert !TurnGoesOn(env, p, last) by {
        if p.ending.value.Answered? { assert p.ending == Some(Answered(p.ending.value.verdict)); }
      }
    }
  }

  // --------------------------------------------------------- what is saved

  /** The trace as it is saved once `k` calls of turn `t` have run. */
  function Snapshot(trace: seq<Step>, t: nat, k: nat): seq<Step>
    requires t < |trace| && k <= |trace[t].tools|
  {
    trace[..t] + [Step(trace[t].turn, trace[t].reply, trace[t].tools[..k], [])]
  }

  lemma {:induction false} BatchSaves(cfg: Config, env: Env, before: Conv, reply: Reply, closing: bool, k: nat,
          conv: Conv)
    requires k <= |reply.calls| && MidBatch(cfg, before, reply, closing, k, conv)
    ensures var t, p := |before.trace|, Batch(cfg, env, reply.calls, k, closing, conv);
            && |p.conv.trace| == t + 1 && p.conv.trace[..t] == before.trace
            && p.conv.trace[t].reply == reply && p.conv.trace[t].turn == conv.trace[t].turn
            && conv.trace[t].tools <= p.conv.trace[t].tools
            && |p.saved| == |p.conv.trace[t].tools| - |conv.trace[t].tools|
            && forall n :: |conv.trace[t].tools| < n <= |p.conv.trace[t].tools| ==>
                 Snapshot(p.conv.trace, t, n) in p.saved
    decreases |reply.calls| - k
  {
    hide Answers;
    var t := |before.trace|;
    if k < |reply.calls| && AfterCall(cfg, env, reply.calls[k], closing, conv).Some? {
      AfterCallKeepsPairing(cfg, env, before, reply, closing, k, conv);
      var next := AfterCall(cfg, env, reply.calls[k], closing, conv).value;
      BatchSaves(cfg, env, before, reply, closing, k + 1, next);
      var p := Batch(cfg, env, reply.calls, k, closing, conv);
      if next.calls > conv.calls {
        var n := |next.trace[t].tools|;
        assert p.conv.trace[t].tools[..n] == next.trace[t].tools;
        assert Snapshot(p.conv.trace, t, n) == next.trace;
      }
    }
  }

  lemma TurnSaves(cfg: Config, env: Env, before: Conv, t: nat)
    requires AtBoundary(cfg, before, t) && t < cfg.maxRounds
    ensures var p := Turn(cfg, env, before, t);
            if env.fails(t) then p.saved == [] && p.conv.trace == before.trace
            else
              && |p.conv.trace| == t + 1 && p.conv.trace[..t] == before.trace
              && |p.saved| == 1 + |p.conv.trace[t].tools|
              && forall n :: 0 <= n <= |p.conv.trace[t].tools| ==> Snapshot(p.conv.trace, t, n) in p.saved
  {
    var reply, closing := env.reply(t), Closing(cfg, t, before.calls);
    if !env.fails(t) {
      var asked := Asked(cfg, env, before, t);
      var p := Turn(cfg, env, before, t);
      if reply.finish.Usual? && reply.calls != [] {
        TurnStartsBatch(cfg, env, before, t);
        BatchSaves(cfg, env, before, reply, closing, 0, asked.(messages := asked.messages + [Assistant(reply)]));
      }
      assert p.conv.trace[t].tools[..0] == [];
      assert Snapshot(p.conv.trace, t, 0) == asked.trace == p.saved[0];
    }
  }

  lemma {:induction false} RunSaves(cfg: Config, env: Env, conv: Conv, t: nat)
    requires AtBoundary(cfg, conv, t) && t <= cfg.maxRounds
    ensures var q := RunFrom(cfg, env, conv, t);
            && conv.trace <= q.conv.trace
            && |q.saved| == |q.conv.trace| - t + CallCount(q.conv.trace) - CallCount(conv.trace)
            && forall u, n :: t <= u < |q.conv.trace| && 0 <= n <= |q.conv.trace[u].tools| ==>
                 Snapshot(q.conv.trace, u, n) in q.saved
    decreases cfg.maxRounds - t
  {
    hide Turn, AtBoundary, RunFrom;
    RunExtends(cfg, env, conv, t);
    BoundaryHasTurns(cfg, conv, t);
    if t < cfg.maxRounds {
      TurnSaves(cfg, env, conv, t);
      TurnKeepsBoundary(cfg, env, conv, t);
      OneMoreTurn(cfg, env, conv, t);
      var p, q := Turn(cfg, env, conv, t), RunFrom(cfg, env, conv, t);
      if p.ending.None? {
        TurnMeans(cfg, env, conv, t);
        RunSaves(cfg, env, p.conv, t + 1);
        RunExtends(cfg, env, p.conv, t + 1);
        forall n | 0 <= n <= |p.conv.trace[t].tools|
          ensures Snapshot(q.conv.trace, t, n) == Snapshot(p.conv.trace, t, n)
        {
          assert q.conv.trace[..t] == p.conv.trace[..t];
        }
      }
    } else {
      NoMoreTurns(cfg, env, conv, t);
    }
  }

  lemma NoMoreTurns(cfg: Config, env: Env, conv: Conv, t: nat)
    requires t >= cfg.maxRounds
    ensures RunFrom(cfg, env, conv, t) == Progress(conv, Some(RoundsExhausted), [], 0)
  {}

  lemma BoundaryHasTurns(cfg: Config, conv: Conv, t: nat)
    requires AtBoundary(cfg, conv, t)
    ensures |conv.trace| == t
  {}

  /** The trace is saved with every reply and again after every executed call, and at no other time. */
  lemma SavedEveryTime(cfg: Config, env: Env)
    ensures var p := Whole(cfg, env);
            && |p.saved| == |p.conv.trace| + CallCount(p.conv.trace)
            && forall t, n :: 0 <= t < |p.conv.trace| && 0 <= n <= |p.conv.trace[t].tools| ==>
                 Snapshot(p.conv.trace, t, n) in p.saved
  {
    RunSaves(cfg, env, Fresh(cfg), 0);
  }
}
