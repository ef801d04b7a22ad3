/**
 The bounded agent conversation (`scripts/benchmark_agent/runner.py`): call and round
 budgets, the pairing of tool calls with results, and resuming from a saved trace.
 */
module AgentRun {
  import opened Wrappers

  /** `arguments` is absent when the argument text is not JSON, which raises. */
  datatype ToolCall = ToolCall(id: string, name: string, arguments: Option<string>)

  datatype Finish = Usual | Broken

  /** One provider completion; `Broken` stands for the finish reasons `error` and `length`. */
  datatype Reply = Reply(finish: Finish, content: string, calls: seq<ToolCall>)

  datatype ToolRun = ToolRun(name: string, arguments: string, result: string)

  datatype Step = Step(turn: nat, reply: Reply, tools: seq<ToolRun>, unexecuted: seq<string>)

  datatype Content = Evidence(json: string) | BudgetEnded | BudgetExhausted

  datatype Message =
    | Opening(text: string)
    | Assistant(reply: Reply)
    | ToolResult(id: string, content: Content)
    | ClosingNotice
    | FinalRequest

  datatype Config = Config(opening: seq<Message>, maxRounds: nat, maxCalls: nat, hasTools: bool)

  datatype Verdict = Completed | InvalidAnswer

  /**
   The outside world of one run: whether a turn's request raises, else the reply to it; the
   result of each executed call (absent when executing it raises); and what becomes of a
   final answer.
   */
  datatype Env = Env(fails: nat -> bool, reply: nat -> Reply, result: nat -> Option<string>, verdict: nat -> Verdict)

  datatype Conv = Conv(messages: seq<Message>, trace: seq<Step>, calls: nat)

  datatype Ending = Answered(verdict: Verdict) | RoundsExhausted | Raised

  datatype Refusal = RecordedFinalAnswer | IncompleteBatch

  function Closing(cfg: Config, turn: nat, calls: nat): bool {
    turn == cfg.maxRounds - 1 || calls >= cfg.maxCalls || !cfg.hasTools
  }

  // --------------------------------------------------------- what one turn does

  /** `saved` lists the traces handed to the checkpoint callback, in order; `requests` counts the model requests. */
  datatype Progress = Progress(conv: Conv, ending: Option<Ending>, saved: seq<seq<Step>>, requests: nat)

  function Prefixed(saved: seq<seq<Step>>, requests: nat, p: Progress): Progress {
    p.(saved := saved + p.saved, requests := requests + p.requests)
  }

  function WithStep(conv: Conv, step: Step): Conv
    requires conv.trace != []
  {
    conv.(trace := conv.trace[|conv.trace| - 1 := step])
  }

  /** One call of a batch, whose step is the last of the trace: it raises, it is refused, or it runs. */
  function AfterCall(cfg: Config, env: Env, call: ToolCall, closing: bool, conv: Conv): Option<Conv>
    requires conv.trace != []
  {
    var step := conv.trace[|conv.trace| - 1];
    if call.arguments.None? then None
    else if closing || conv.calls >= cfg.maxCalls then
      Some(WithStep(conv, step.(unexecuted := step.unexecuted + [call.id]))
           .(messages := conv.messages + [ToolResult(call.id, BudgetEnded)]))
    else
      var result := env.result(conv.calls);
      if result.None? then None
      else Some(WithStep(conv, step.(tools := step.tools + [ToolRun(call.name, call.arguments.value, result.value)]))
                .(messages := conv.messages + [ToolResult(call.id, Evidence(result.value))], calls := conv.calls + 1))
  }

  /** The calls of one batch from index `k` on; the trace is saved after each executed call. */
  function Batch(cfg: Config, env: Env, calls: seq<ToolCall>, k: nat, closing: bool, conv: Conv): Progress
    requires k <= |calls| && conv.trace != []
    decreases |calls| - k
  {
    if k == |calls| then Progress(conv, None, [], 0)
    else
      var next := AfterCall(cfg, env, calls[k], closing, conv);
      if next.None? then Progress(conv, Some(Raised), [], 0)
      else
        var rest := Batch(cfg, env, calls, k + 1, closing, next.value);
        if next.value.calls > conv.calls then rest.(saved := [next.value.trace] + rest.saved) else rest
  }

  /** The conversation a turn's request is made with. */
  function Noticed(cfg: Config, conv: Conv, turn: nat): Conv {
    conv.(messages := conv.messages + (if Closing(cfg, turn, conv.calls) then [ClosingNotice] else []))
  }

  /** The conversation once the reply of a turn has been recorded. */
  function Asked(cfg: Config, env: Env, conv: Conv, turn: nat): Conv {
    Noticed(cfg, conv, turn).(trace := conv.trace + [Step(turn, env.reply(turn), [], [])])
  }

  function Turn(cfg: Config, env: Env, conv: Conv, turn: nat): Progress {
    var reply := env.reply(turn);
    var asked := Asked(cfg, env, conv, turn);
    if env.fails(turn) then Progress(Noticed(cfg, conv, turn), Some(Raised), [], 1)
    else if reply.finish.Broken? then Progress(asked, Some(Raised), [asked.trace], 1)
    else
      var heard := asked.(messages := asked.messages + [Assistant(reply)]);
      if reply.calls == [] then Progress(heard, Some(Answered(env.verdict(turn))), [asked.trace], 1)
      else
        var batch := Batch(cfg, env, reply.calls, 0, Closing(cfg, turn, conv.calls), heard);
        batch.(saved := [asked.trace] + batch.saved, requests := 1)
  }

  function RunFrom(cfg: Config, env: Env, conv: Conv, turn: nat): Progress
    decreases cfg.maxRounds - turn
  {
    if turn >= cfg.maxRounds then Progress(conv, Some(RoundsExhausted), [], 0)
    else
      var first := Turn(cfg, env, conv, turn);
      if first.ending.Some? then first
      else
        Prefixed(first.saved, first.requests, RunFrom(cfg, env, first.conv, turn + 1))
  }

  // -------------------------------------------------------------------- resume

  function Replies(step: Step): seq<Message>
    requires |step.tools| == |step.reply.calls|
  {
    seq(|step.tools|, i requires 0 <= i < |step.tools| =>
      ToolResult(step.reply.calls[i].id, Evidence(step.tools[i].result)))
  }

  /** The conversation after one recorded step has been replayed. */
  function AfterStep(conv: Conv, step: Step): Conv
    requires |step.tools| == |step.reply.calls|
  {
    Conv(conv.messages + [Assistant(step.reply)] + Replies(step), conv.trace + [step], conv.calls + |step.tools|)
  }

  function Rebuild(conv: Conv, steps: seq<Step>): Result<Conv, Refusal>
    decreases |steps|
  {
    if steps == [] then Ok(conv)
    else
      var step := steps[0];
      if step.reply.calls == [] then Err(RecordedFinalAnswer)
      else if |step.reply.calls| != |step.tools| then Err(IncompleteBatch)
      else
        Rebuild(AfterStep(conv, step), steps[1..])
  }

  function Fresh(cfg: Config): Conv { Conv(cfg.opening, [], 0) }

  method Resume(cfg: Config, prior: seq<Step>) returns (r: Result<Conv, Refusal>)
    ensures r == Rebuild(Fresh(cfg), prior)
  {
    var messages, calls := cfg.opening, 0;
    for i := 0 to |prior|
      invariant Rebuild(Fresh(cfg), prior) == Rebuild(Conv(messages, prior[..i], calls), prior[i..])
    {
      var step := prior[i];
      if step.reply.calls == [] {
        return Err(RecordedFinalAnswer);
      }
      if |step.reply.calls| != |step.tools| {
        return Err(IncompleteBatch);
      }
      ghost var before := messages + [Assistant(step.reply)];
      ghost var count := calls;
      messages := messages + [Assistant(step.reply)];
      for k := 0 to |step.tools|
        invariant messages == before + Replies(step)[..k] && calls == count + k
      {
        messages := messages + [ToolResult(step.reply.calls[k].id, Evidence(step.tools[k].result))];
        calls := calls + 1;
      }
      assert prior[..i] + [step] == prior[..i + 1] && prior[i..][1..] == prior[i + 1..];
      assert before + Replies(step)[..|step.tools|] == before + Replies(step);
    }
    assert prior[..|prior|] == prior;
    r := Ok(Conv(messages, prior, calls));
  }

  lemma PrefixedTwice(a: seq<seq<Step>>, m: nat, b: seq<seq<Step>>, n: nat, p: Progress)
    ensures Prefixed(a, m, Prefixed(b, n, p)) == Prefixed(a + b, m + n, p)
  {
    assert a + (b + p.saved) == (a + b) + p.saved;
  }

  method ExecuteBatch(cfg: Config, env: Env, calls: seq<ToolCall>, closing: bool, heard: Conv) returns (p: Progress)
    requires heard.trace != []
    ensures p == Batch(cfg, env, calls, 0, closing, heard)
  {
    var conv := heard;
    var saved: seq<seq<Step>> := [];
    ghost var whole := Batch(cfg, env, calls, 0, closing, heard);
    for k := 0 to |calls|
      invariant conv.trace != []
      invariant whole == Prefixed(saved, 0, Batch(cfg, env, calls, k, closing, conv))
    {
      var call := calls[k];
      var step := conv.trace[|conv.trace| - 1];
      ghost var next := AfterCall(cfg, env, call, closing, conv);
      if call.arguments.None? {
        return Progress(conv, Some(Raised), saved, 0);
      }
      if closing || conv.calls >= cfg.maxCalls {
        conv := WithStep(conv, step.(unexecuted := step.unexecuted + [call.id]))
                .(messages := conv.messages + [ToolResult(call.id, BudgetEnded)]);
      } else {
        var result := env.result(conv.calls);
        if result.None? {
          return Progress(conv, Some(Raised), saved, 0);
        }
        conv := WithStep(conv, step.(tools := step.tools + [ToolRun(call.name, call.arguments.value, result.value)]))
                .(messages := conv.messages + [ToolResult(call.id, Evidence(result.value))], calls := conv.calls + 1);
        PrefixedTwice(saved, 0, [conv.trace], 0, Batch(cfg, env, calls, k + 1, closing, conv));
        saved := saved + [conv.trace];
      }
      assert next == Some(conv);
    }
    p := Progress(conv, None, saved, 0);
  }

  method TakeTurn(cfg: Config, env: Env, before: Conv, turn: nat) returns (p: Progress)
    ensures p == Turn(cfg, env, before, turn)
  {
    var conv := before;
    var closing := Closing(cfg, turn, conv.calls);
    if closing {
      conv := conv.(messages := conv.messages + [ClosingNotice]);
    }
    assert conv.messages == Noticed(cfg, before, turn).messages;
    if env.fails(turn) {
      return Progress(conv, Some(Raised), [], 1);
    }
    var reply := env.reply(turn);
    conv := conv.(trace := conv.trace + [Step(turn, reply, [], [])]);
    assert conv == Asked(cfg, env, before, turn);
    var saved := [conv.trace];
    if reply.finish.Broken? {
      return Progress(conv, Some(Raised), saved, 1);
    }
    conv := conv.(messages := conv.messages + [Assistant(reply)]);
    if reply.calls == [] {
      return Progress(conv, Some(Answered(env.verdict(turn))), saved, 1);
    }
    var batch := ExecuteBatch(cfg, env, reply.calls, closing, conv);
    p := batch.(saved := saved + batch.saved, requests := 1);
  }

  method RunTurns(cfg: Config, env: Env, start: Conv, first: nat) returns (p: Progress)
    ensures p == RunFrom(cfg, env, start, first)
  {
    var conv, turn := start, first;
    var saved: seq<seq<Step>> := [];
    var requests: nat := 0;
    while turn < cfg.maxRounds
      invariant RunFrom(cfg, env, start, first) == Prefixed(saved, requests, RunFrom(cfg, env, conv, turn))
    {
      var done := TakeTurn(cfg, env, conv, turn);
      if done.ending.Some? {
        return Progress(done.conv, done.ending, saved + done.saved, requests + done.requests);
      }
      PrefixedTwice(saved, requests, done.saved, done.requests, RunFrom(cfg, env, done.conv, turn + 1));
      saved, requests := saved + done.saved, requests + done.requests;
      conv := done.conv;
      turn := turn + 1;
    }
    p := Progress(conv, Some(RoundsExhausted), saved, requests);
  }

  /** The whole conversation, fresh (an empty prior trace) or resumed. */
  method Run(cfg: Config, env: Env, prior: seq<Step>) returns (r: Result<Progress, Refusal>)
    ensures var resumed := Rebuild(Fresh(cfg), prior);
            r == if resumed.Err? then Err(resumed.error) else Ok(RunFrom(cfg, env, resumed.value, |prior|))
  {
    var resumed := Resume(cfg, prior);
    if resumed.Err? {
      return Err(resumed.error);
    }
    var p := RunTurns(cfg, env, resumed.value, |prior|);
    r := Ok(p);
  }

  // ------------------------------------------------------------- turn boundaries

  function CallCount(trace: seq<Step>): nat {
    if trace == [] then 0 else CallCount(trace[..|trace| - 1]) + |trace[|trace| - 1].tools|
  }

  /** The answers to a batch: evidence for the executed prefix, a refusal for the rest. */
  function Answers(step: Step, refusal: Content): seq<Message> {
    seq(|step.reply.calls|, i requires 0 <= i < |step.reply.calls| =>
      ToolResult(step.reply.calls[i].id, if i < |step.tools| then Evidence(step.tools[i].result) else refusal))
  }

  /** The messages that a recorded trace stands for. */
  function Rendered(cfg: Config, trace: seq<Step>): seq<Message> {
    if trace == [] then cfg.opening
    else
      var past := trace[..|trace| - 1];
      var step := trace[|trace| - 1];
      Rendered(cfg, past)
        + (if Closing(cfg, |past|, CallCount(past)) then [ClosingNotice] else [])
        + [Assistant(step.reply)] + Answers(step, BudgetEnded)
  }

  predicate Ran(call: ToolCall, run: ToolRun) {
    run.name == call.name && call.arguments == Some(run.arguments)
  }

  /** A step whose batch was answered completely: what ran is a prefix of the calls, the rest is listed as not run. */
  ghost predicate WellPaired(step: Step) {
    && step.reply.calls != []
    && |step.tools| + |step.unexecuted| == |step.reply.calls|
    && (forall i :: 0 <= i < |step.tools| ==> Ran(step.reply.calls[i], step.tools[i]))
    && (forall i :: 0 <= i < |step.unexecuted| ==> step.unexecuted[i] == step.reply.calls[|step.tools| + i].id)
  }

  /** What holds whenever a turn begins. */
  ghost predicate AtBoundary(cfg: Config, conv: Conv, turn: nat) {
    && |conv.trace| == turn
    && conv.calls == CallCount(conv.trace)
    && conv.calls <= cfg.maxCalls
    && conv.messages == Rendered(cfg, conv.trace)
    && forall i :: 0 <= i < |conv.trace| ==>
         && WellPaired(conv.trace[i])
         && (Closing(cfg, i, CallCount(conv.trace[..i])) ==> conv.trace[i].tools == [])
  }

  /** The state of one batch after its first `k` calls. */
  ghost predicate MidBatch(cfg: Config, before: Conv, reply: Reply, closing: bool, k: nat, conv: Conv) {
    && k <= |reply.calls|
    && |conv.trace| == |before.trace| + 1 && conv.trace[..|before.trace|] == before.trace
    && var step := conv.trace[|before.trace|];
    && step.reply == reply
    && |step.tools| + |step.unexecuted| == k
    && (forall i :: 0 <= i < |step.tools| ==> Ran(reply.calls[i], step.tools[i]))
    && (forall i :: 0 <= i < |step.unexecuted| ==> step.unexecuted[i] == reply.calls[|step.tools| + i].id)
    && conv.calls == before.calls + |step.tools| && conv.calls <= cfg.maxCalls
    && (step.unexecuted != [] ==> closing || conv.calls >= cfg.maxCalls)
    && (closing ==> step.tools == [])
    && var notice := if closing then [ClosingNotice] else [];
    && conv.messages == before.messages + notice + [Assistant(reply)] + Answers(step, BudgetEnded)[..k]
  }

  /** Every snapshot taken while `before`'s turn runs extends its trace by that one step, cut short at some call. */
  ghost predicate SnapshotOf(before: Conv, reply: Reply, snapshot: seq<Step>) {
    && |snapshot| == |before.trace| + 1 && snapshot[..|before.trace|] == before.trace
    && snapshot[|before.trace|].reply == reply
    && |snapshot[|before.trace|].tools| <= |reply.calls|
  }

  ghost predicate FullyExecuted(before: Conv, reply: Reply, snapshot: seq<Step>) {
    SnapshotOf(before, reply, snapshot) && |snapshot[|before.trace|].tools| == |reply.calls|
  }

  lemma AfterCallKeepsPairing(cfg: Config, env: Env, before: Conv, reply: Reply, closing: bool, k: nat, conv: Conv)
    requires k < |reply.calls| && MidBatch(cfg, before, reply, closing, k, conv)
    requires AfterCall(cfg, env, reply.calls[k], closing, conv).Some?
    ensures MidBatch(cfg, before, reply, closing, k + 1, AfterCall(cfg, env, reply.calls[k], closing, conv).value)
  {
    var next := AfterCall(cfg, env, reply.calls[k], closing, conv).value;
    var earlier := Answers(conv.trace[|before.trace|], BudgetEnded);
    var later := Answers(next.trace[|before.trace|], BudgetEnded);
    assert later[..k] == earlier[..k];
    assert later[..k + 1] == later[..k] + [later[k]];
  }

  /** A batch that does not raise ends with every call answered, within the budget; a closing one runs nothing. */
  lemma {:induction false} BatchKeepsPairing(cfg: Config, env: Env, before: Conv, reply: Reply, closing: bool, k: nat,
          conv: Conv)
    returns (m: nat)
    requires k <= |reply.calls| && MidBatch(cfg, before, reply, closing, k, conv)
    ensures var p := Batch(cfg, env, reply.calls, k, closing, conv);
            MidBatch(cfg, before, reply, closing, m, p.conv) && (p.ending.None? ==> m == |reply.calls|)
    decreases |reply.calls| - k
  {
    if k < |reply.calls| && AfterCall(cfg, env, reply.calls[k], closing, conv).Some? {
      AfterCallKeepsPairing(cfg, env, before, reply, closing, k, conv);
      var next := AfterCall(cfg, env, reply.calls[k], closing, conv).value;
      m := BatchKeepsPairing(cfg, env, before, reply, closing, k + 1, next);
    } else {
      m := k;
    }
  }

  /** A snapshot with every call executed is the last one of its batch, and the turn completes on it. */
  lemma {:induction false} BatchSnapshots(cfg: Config, env: Env, before: Conv, reply: Reply, closing: bool, k: nat,
          conv: Conv, s: seq<Step>)
    requires k <= |reply.calls| && MidBatch(cfg, before, reply, closing, k, conv)
    requires s in Batch(cfg, env, reply.calls, k, closing, conv).saved
    ensures SnapshotOf(before, reply, s)
    ensures var p := Batch(cfg, env, reply.calls, k, closing, conv);
            FullyExecuted(before, reply, s) ==> p.ending.None? && s == p.conv.trace
    decreases |reply.calls| - k
  {
    if k < |reply.calls| {
      var after := AfterCall(cfg, env, reply.calls[k], closing, conv);
      if after.Some? {
        var next := after.value;
        AfterCallKeepsPairing(cfg, env, before, reply, closing, k, conv);
        if s in Batch(cfg, env, reply.calls, k + 1, closing, next).saved {
          BatchSnapshots(cfg, env, before, reply, closing, k + 1, next, s);
        } else {
          assert s == next.trace;
        }
      }
    }
  }

  /** The state in which turn `t` of a fresh run begins, if the run gets that far. */
  function Boundary(cfg: Config, env: Env, t: nat): Option<Conv> {
    if t == 0 then Some(Fresh(cfg))
    else
      var before := Boundary(cfg, env, t - 1);
      if before.None? || t - 1 >= cfg.maxRounds then None
      else
        var p := Turn(cfg, env, before.value, t - 1);
        if p.ending.Some? then None else Some(p.conv)
  }

  lemma TurnStartsBatch(cfg: Config, env: Env, before: Conv, turn: nat)
    requires AtBoundary(cfg, before, turn)
    ensures var asked := Asked(cfg, env, before, turn);
            MidBatch(cfg, before, env.reply(turn), Closing(cfg, turn, before.calls), 0,
                     asked.(messages := asked.messages + [Assistant(env.reply(turn))]))
  {}

  lemma BoundaryAfterBatch(cfg: Config, before: Conv, turn: nat, reply: Reply, after: Conv)
    requires AtBoundary(cfg, before, turn) && reply.calls != []
    requires MidBatch(cfg, before, reply, Closing(cfg, turn, before.calls), |reply.calls|, after)
    ensures AtBoundary(cfg, after, turn + 1)
  {
    var step := after.trace[turn];
    var answers := Answers(step, BudgetEnded);
    assert answers[..|reply.calls|] == answers;
    assert after.trace[..|after.trace| - 1] == before.trace;
    assert after.messages == Rendered(cfg, after.trace);
    forall i | 0 <= i < |after.trace|
      ensures WellPaired(after.trace[i])
      ensures Closing(cfg, i, CallCount(after.trace[..i])) ==> after.trace[i].tools == []
    {
      assert after.trace[..i] == before.trace[..i];
      if i < turn { assert after.trace[i] == before.trace[i]; } else { assert before.trace[..turn] == before.trace; }
    }
  }

  lemma TurnKeepsBoundary(cfg: Config, env: Env, before: Conv, turn: nat)
    requires AtBoundary(cfg, before, turn)
    ensures var p := Turn(cfg, env, before, turn);
            p.ending.None? ==> AtBoundary(cfg, p.conv, turn + 1)
  {
    var reply := env.reply(turn);
    if !env.fails(turn) && reply.finish.Usual? && reply.calls != [] {
      var asked := Asked(cfg, env, before, turn);
      TurnStartsBatch(cfg, env, before, turn);
      var started := asked.(messages := asked.messages + [Assistant(reply)]);
      var m := BatchKeepsPairing(cfg, env, before, reply, Closing(cfg, turn, before.calls), 0, started);
      var p := Turn(cfg, env, before, turn);
      if p.ending.None? { BoundaryAfterBatch(cfg, before, turn, reply, p.conv); }
    }
  }

  lemma {:induction false} BoundaryHolds(cfg: Config, env: Env, t: nat)
    requires Boundary(cfg, env, t).Some?
    ensures t <= cfg.maxRounds && AtBoundary(cfg, Boundary(cfg, env, t).value, t)
  {
    if t > 0 {
      BoundaryHolds(cfg, env, t - 1);
      TurnKeepsBoundary(cfg, env, Boundary(cfg, env, t - 1).value, t - 1);
    }
  }

  /** From any turn that it reaches, a fresh run is the run continued from there. */
  lemma {:induction false} RunContinues(cfg: Config, env: Env, t: nat)
    requires Boundary(cfg, env, t).Some?
    ensures var whole := RunFrom(cfg, env, Fresh(cfg), 0);
            var rest := RunFrom(cfg, env, Boundary(cfg, env, t).value, t);
            whole.conv == rest.conv && whole.ending == rest.ending
  {
    if t > 0 {
      var before := Boundary(cfg, env, t - 1).value;
      RunContinues(cfg, env, t - 1);
      var p := Turn(cfg, env, before, t - 1);
      OneMoreTurn(cfg, env, before, t - 1);
    }
  }

  // -------------------------------------------------------------------- results

  /** Budgets hold and results pair up in any trace that a run leaves behind, finished or not. */
  ghost predicate WithinBudget(cfg: Config, conv: Conv) {
    && |conv.trace| <= cfg.maxRounds && conv.calls == CallCount(conv.trace) <= cfg.maxCalls
    && forall i :: 0 <= i < |conv.trace| ==> StepWithinBudget(cfg, conv.trace, i)
  }

  ghost predicate StepWithinBudget(cfg: Config, trace: seq<Step>, i: nat)
    requires i < |trace|
  {
    && |trace[i].tools| <= |trace[i].reply.calls|
    && (forall k :: 0 <= k < |trace[i].tools| ==> Ran(trace[i].reply.calls[k], trace[i].tools[k]))
    && (Closing(cfg, i, CallCount(trace[..i])) ==> trace[i].tools == [])
  }

  lemma EarlierStepWithinBudget(cfg: Config, before: Conv, turn: nat, trace: seq<Step>, i: nat)
    requires AtBoundary(cfg, before, turn) && i < turn <= |trace| && trace[..turn] == before.trace
    ensures StepWithinBudget(cfg, trace, i)
  {
    assert trace[..i] == before.trace[..i] && trace[i] == before.trace[i];
    assert WellPaired(before.trace[i]);
  }

  /** What a turn leaves of the trace: all of it, and one more step if its request was answered. */
  lemma TurnExtendsTrace(cfg: Config, env: Env, before: Conv, turn: nat)
    requires AtBoundary(cfg, before, turn) && turn < cfg.maxRounds
    ensures var p := Turn(cfg, env, before, turn);
            && p.requests == 1 && p.conv.calls == CallCount(p.conv.trace) <= cfg.maxCalls
            && (if env.fails(turn) then p.conv.trace == before.trace
                else
                  && |p.conv.trace| == turn + 1 && p.conv.trace[..turn] == before.trace
                  && StepWithinBudget(cfg, p.conv.trace, turn))
  {
    hide Closing;
    var reply := env.reply(turn);
    if !env.fails(turn) {
      var p := Turn(cfg, env, before, turn);
      if reply.finish.Usual? && reply.calls != [] {
        var asked := Asked(cfg, env, before, turn);
        TurnStartsBatch(cfg, env, before, turn);
        var m := BatchKeepsPairing(cfg, env, before, reply, Closing(cfg, turn, before.calls), 0,
          asked.(messages := asked.messages + [Assistant(reply)]));
      }
      assert p.conv.trace[..turn] == before.trace;
    }
  }

  lemma TurnWithinBudget(cfg: Config, env: Env, before: Conv, turn: nat)
    requires AtBoundary(cfg, before, turn) && turn < cfg.maxRounds
    ensures WithinBudget(cfg, Turn(cfg, env, before, turn).conv)
    ensures turn <= |Turn(cfg, env, before, turn).conv.trace| <= turn + 1
  {
    hide Turn;
    var trace := Turn(cfg, env, before, turn).conv.trace;
    TurnExtendsTrace(cfg, env, before, turn);
    assert before.trace[..turn] == before.trace;
    forall i | 0 <= i < |trace|
      ensures StepWithinBudget(cfg, trace, i)
    {
      if i < turn { EarlierStepWithinBudget(cfg, before, turn, trace, i); }
    }
  }

  /** A turn that does not end the run, then the rest of it. */
  lemma OneMoreTurn(cfg: Config, env: Env, conv: Conv, turn: nat)
    requires turn < cfg.maxRounds
    ensures var p := Turn(cfg, env, conv, turn);
            RunFrom(cfg, env, conv, turn)
            == if p.ending.Some? then p else Prefixed(p.saved, p.requests, RunFrom(cfg, env, p.conv, turn + 1))
  {}

  lemma {:induction false} RunWithinBudget(cfg: Config, env: Env, conv: Conv, turn: nat)
    requires AtBoundary(cfg, conv, turn) && turn <= cfg.maxRounds
    ensures var p := RunFrom(cfg, env, conv, turn);
            && WithinBudget(cfg, p.conv)
            && p.requests <= cfg.maxRounds - turn && p.requests - 1 <= |p.conv.trace| - turn <= p.requests
    decreases cfg.maxRounds - turn
  {
    if turn < cfg.maxRounds {
      TurnExtendsTrace(cfg, env, conv, turn);
      TurnWithinBudget(cfg, env, conv, turn);
      TurnKeepsBoundary(cfg, env, conv, turn);
      OneMoreTurn(cfg, env, conv, turn);
      var p := Turn(cfg, env, conv, turn);
      if p.ending.None? { RunWithinBudget(cfg, env, p.conv, turn + 1); }
    } else {
      BoundaryIsWithinBudget(cfg, conv, turn);
    }
  }

  lemma BoundaryIsWithinBudget(cfg: Config, conv: Conv, turn: nat)
    requires AtBoundary(cfg, conv, turn) && turn <= cfg.maxRounds
    ensures WithinBudget(cfg, conv)
  {
    assert conv.trace[..turn] == conv.trace;
    forall i | 0 <= i < turn ensures StepWithinBudget(cfg, conv.trace, i) {
      EarlierStepWithinBudget(cfg, conv, turn, conv.trace, i);
    }
  }

  /**
   However a fresh run ends: at most `maxRounds` requests, each but perhaps a last one that
   raises recorded as a step; at most `maxCalls` executed calls, none of them on a closing
   turn; and what was executed of each batch is a prefix of it, call by call.
   */
  lemma FreshRunWithinBudget(cfg: Config, env: Env)
    ensures var p := RunFrom(cfg, env, Fresh(cfg), 0);
            && WithinBudget(cfg, p.conv)
            && p.requests <= cfg.maxRounds && p.requests - 1 <= |p.conv.trace| <= p.requests
  {
    RunWithinBudget(cfg, env, Fresh(cfg), 0);
  }

  predicate Complete(step: Step) { step.reply.calls != [] && |step.tools| == |step.reply.calls| }

  /** Resuming accepts exactly the traces in which every step is a fully executed batch. */
  lemma {:induction false} AcceptsCompleteBatches(conv: Conv, steps: seq<Step>)
    ensures Rebuild(conv, steps).Ok? <==> forall i :: 0 <= i < |steps| ==> Complete(steps[i])
    decreases |steps|
  {
    if steps != [] {
      assert forall i :: 0 < i < |steps| ==> steps[i] == steps[1..][i - 1];
      if Complete(steps[0]) {
        var next := AfterStep(conv, steps[0]);
        AcceptsCompleteBatches(next, steps[1..]);
        assert forall i :: 0 <= i < |steps[1..]| ==> steps[1..][i] == steps[i + 1];
      }
    }
  }

  lemma {:induction false} RebuildConcat(conv: Conv, a: seq<Step>, b: seq<Step>)
    requires Rebuild(conv, a).Ok?
    ensures Rebuild(conv, a + b) == Rebuild(Rebuild(conv, a).value, b)
    decreases |a|
  {
    if a == [] {
      assert a + b == b;
    } else {
      assert (a + b)[1..] == a[1..] + b;
      RebuildConcat(AfterStep(conv, a[0]), a[1..], b);
    }
  }

  predicate CompleteAndOpen(cfg: Config, steps: seq<Step>, i: nat)
    requires i < |steps|
  {
    Complete(steps[i]) && !Closing(cfg, i, CallCount(steps[..i]))
  }

  /** For complete batches outside closing turns, rebuilding yields the messages the run had. */
  lemma {:induction false} RebuildIsRendered(cfg: Config, steps: seq<Step>)
    requires forall i :: 0 <= i < |steps| ==> CompleteAndOpen(cfg, steps, i)
    ensures Rebuild(Fresh(cfg), steps) == Ok(Conv(Rendered(cfg, steps), steps, CallCount(steps)))
    decreases |steps|
  {
    hide Answers;
    if steps != [] {
      var n := |steps| - 1;
      var past, step := steps[..n], steps[n];
      forall i | 0 <= i < n
        ensures CompleteAndOpen(cfg, past, i)
      {
        assert CompleteAndOpen(cfg, steps, i) && past[..i] == steps[..i];
      }
      assert CompleteAndOpen(cfg, steps, n);
      RebuildIsRendered(cfg, past);
      RebuildConcat(Fresh(cfg), past, [step]);
      RebuildOne(Conv(Rendered(cfg, past), past, CallCount(past)), step);
      RenderedSnoc(cfg, past, step);
      assert steps == past + [step];
    }
  }

  lemma RenderedSnoc(cfg: Config, past: seq<Step>, step: Step)
    requires Complete(step) && !Closing(cfg, |past|, CallCount(past))
    ensures Rendered(cfg, past + [step]) == Rendered(cfg, past) + [Assistant(step.reply)] + Replies(step)
    ensures CallCount(past + [step]) == CallCount(past) + |step.tools|
  {
    assert (past + [step])[..|past|] == past;
    assert Replies(step) == Answers(step, BudgetEnded);
    assert Rendered(cfg, past) + [] == Rendered(cfg, past);
  }

  lemma RebuildOne(conv: Conv, step: Step)
    requires Complete(step)
    ensures Rebuild(conv, [step]) == Ok(AfterStep(conv, step))
  {
    var next := AfterStep(conv, step);
    assert [step][0] == step && [step][1..] == [];
    assert Rebuild(next, []) == Ok(next);
    assert Rebuild(conv, [step]) == Rebuild(next, [step][1..]);
  }

  lemma CompleteMeansNotClosing(cfg: Config, conv: Conv, t: nat)
    requires AtBoundary(cfg, conv, t) && forall i :: 0 <= i < t ==> Complete(conv.trace[i])
    ensures Rebuild(Fresh(cfg), conv.trace) == Ok(conv)
  {
    forall i | 0 <= i < t
      ensures CompleteAndOpen(cfg, conv.trace, i)
    {}
    RebuildIsRendered(cfg, conv.trace);
  }

  lemma SnapshotCompletesTurn(cfg: Config, env: Env, before: Conv, t: nat, s: seq<Step>)
    requires AtBoundary(cfg, before, t) && s in Turn(cfg, env, before, t).saved
    ensures SnapshotOf(before, env.reply(t), s)
    ensures Complete(s[t]) ==> Turn(cfg, env, before, t).ending.None? && s == Turn(cfg, env, before, t).conv.trace
  {
    var reply := env.reply(t);
    var asked := Asked(cfg, env, before, t);
    if s != asked.trace {
      TurnStartsBatch(cfg, env, before, t);
      var started := asked.(messages := asked.messages + [Assistant(reply)]);
      BatchSnapshots(cfg, env, before, reply, Closing(cfg, t, before.calls), 0, started, s);
    }
  }

  /**
   Take any trace saved while a fresh run was under way. Resuming from it is accepted
   exactly when each of its batches was executed completely; then the rebuilt messages
   and call count are those of the uninterrupted run at the next turn, and the resumed
   run ends as the uninterrupted one does. A trace with a closing turn is refused.
   */
  lemma ResumeEquivalence(cfg: Config, env: Env, t: nat, s: seq<Step>)
    requires Boundary(cfg, env, t).Some? && t < cfg.maxRounds
    requires s in Turn(cfg, env, Boundary(cfg, env, t).value, t).saved
    ensures |s| == t + 1
    ensures Rebuild(Fresh(cfg), s).Ok? <==> forall i :: 0 <= i < |s| ==> Complete(s[i])
    ensures Rebuild(Fresh(cfg), s).Ok? ==>
              && Boundary(cfg, env, t + 1) == Some(Rebuild(Fresh(cfg), s).value)
              && var whole := RunFrom(cfg, env, Fresh(cfg), 0);
                 var resumed := RunFrom(cfg, env, Rebuild(Fresh(cfg), s).value, |s|);
                 resumed.conv == whole.conv && resumed.ending == whole.ending
    ensures (exists i :: 0 <= i <= t && Closing(cfg, i, CallCount(s[..i]))) ==> Rebuild(Fresh(cfg), s).Err?
  {
    var before := Boundary(cfg, env, t).value;
    BoundaryHolds(cfg, env, t);
    SnapshotCompletesTurn(cfg, env, before, t, s);
    AcceptsCompleteBatches(Fresh(cfg), s);
    if Rebuild(Fresh(cfg), s).Ok? {
      assert Complete(s[t]);
      TurnKeepsBoundary(cfg, env, before, t);
      CompleteMeansNotClosing(cfg, Turn(cfg, env, before, t).conv, t + 1);
      RunContinues(cfg, env, t + 1);
    }
  }

  predicate SavedDuring(cfg: Config, env: Env, u: nat, s: seq<Step>) {
    Boundary(cfg, env, u).Some? && s in Turn(cfg, env, Boundary(cfg, env, u).value, u).saved
  }

  /** Every trace that a fresh run saves is one of those: nothing else is ever checkpointed. */
  lemma {:induction false} SavedDuringSomeTurn(cfg: Config, env: Env, t: nat, s: seq<Step>)
    requires Boundary(cfg, env, t).Some? && s in RunFrom(cfg, env, Boundary(cfg, env, t).value, t).saved
    ensures exists u :: t <= u < cfg.maxRounds && SavedDuring(cfg, env, u, s)
    decreases cfg.maxRounds - t
  {
    hide Turn;
    var before := Boundary(cfg, env, t).value;
    if t < cfg.maxRounds { OneMoreTurn(cfg, env, before, t); }
    if s in Turn(cfg, env, before, t).saved {
      assert SavedDuring(cfg, env, t, s);
    } else {
      SavedDuringSomeTurn(cfg, env, t + 1, s);
    }
  }

  // ---------------------------------------------- synthesis from a recorded trace

  function FinalBody(opening: seq<Message>, trace: seq<Step>): seq<Message> {
    if trace == [] then opening
    else
      var last := trace[|trace| - 1];
      FinalBody(opening, trace[..|trace| - 1]) + [Assistant(last.reply)] + Answers(last, BudgetExhausted)
  }

  /** Replay a recorded conversation by index, then ask for the final answer. */
  method FinalizeRecorded(opening: seq<Message>, trace: seq<Step>) returns (messages: seq<Message>)
    ensures messages == FinalBody(opening, trace) + [FinalRequest]
  {
    messages := opening;
    for i := 0 to |trace|
      invariant messages == FinalBody(opening, trace[..i])
    {
      var step := trace[i];
      ghost var before := messages + [Assistant(step.reply)];
      messages := messages + [Assistant(step.reply)];
      for k := 0 to |step.reply.calls|
        invariant messages == before + Answers(step, BudgetExhausted)[..k]
      {
        var content := if k < |step.tools| then Evidence(step.tools[k].result) else BudgetExhausted;
        messages := messages + [ToolResult(step.reply.calls[k].id, content)];
      }
      assert trace[..i + 1][..i] == trace[..i];
      assert Answers(step, BudgetExhausted)[..|step.reply.calls|] == Answers(step, BudgetExhausted);
    }
    assert trace[..|trace|] == trace;
    messages := messages + [FinalRequest];
  }

  /** The notice of a closing turn disappears and refused calls get the final wording; nothing else changes. */
  function AsReplayed(message: Message): seq<Message> {
    match message
    case ClosingNotice => []
    case ToolResult(id, BudgetEnded) => [ToolResult(id, BudgetExhausted)]
    case other => [other]
  }

  function Replayed(messages: seq<Message>): seq<Message> {
    if messages == [] then [] else Replayed(messages[..|messages| - 1]) + AsReplayed(messages[|messages| - 1])
  }

  lemma {:induction false} ReplayedConcat(a: seq<Message>, b: seq<Message>)
    ensures Replayed(a + b) == Replayed(a) + Replayed(b)
    decreases |b|
  {
    hide AsReplayed;
    if b == [] {
      assert a + b == a;
    } else {
      assert (a + b)[..|a + b| - 1] == a + b[..|b| - 1];
      ReplayedConcat(a, b[..|b| - 1]);
    }
  }

  lemma {:induction false} ReplayedAnswers(step: Step, k: nat)
    requires k <= |step.reply.calls|
    ensures Replayed(Answers(step, BudgetEnded)[..k]) == Answers(step, BudgetExhausted)[..k]
  {
    if k > 0 {
      ReplayedAnswers(step, k - 1);
      assert Answers(step, BudgetEnded)[..k][..k - 1] == Answers(step, BudgetEnded)[..k - 1];
    }
  }

  lemma ReplayedOne(message: Message)
    ensures Replayed([message]) == AsReplayed(message)
  {
    assert [message][..0] == [];
  }

  lemma ReplayedStep(past: seq<Message>, notice: seq<Message>, step: Step)
    requires notice == [] || notice == [ClosingNotice]
    ensures Replayed(past + notice + [Assistant(step.reply)] + Answers(step, BudgetEnded))
         == Replayed(past) + [Assistant(step.reply)] + Answers(step, BudgetExhausted)
  {
    ReplayedReply(past, notice, step.reply);
    ReplayedAnswers(step, |step.reply.calls|);
    assert Answers(step, BudgetEnded)[..|step.reply.calls|] == Answers(step, BudgetEnded);
    assert Answers(step, BudgetExhausted)[..|step.reply.calls|] == Answers(step, BudgetExhausted);
    ReplayedConcat(past + notice + [Assistant(step.reply)], Answers(step, BudgetEnded));
  }

  lemma ReplayedReply(past: seq<Message>, notice: seq<Message>, reply: Reply)
    requires notice == [] || notice == [ClosingNotice]
    ensures Replayed(past + notice + [Assistant(reply)]) == Replayed(past) + [Assistant(reply)]
  {
    ReplayedConcat(past, notice);
    ReplayedConcat(past + notice, [Assistant(reply)]);
    ReplayedOne(Assistant(reply));
    ReplayedOne(ClosingNotice);
    assert Replayed(past) + [] == Replayed(past);
  }

  lemma {:induction false} ReplayOfRendered(cfg: Config, trace: seq<Step>)
    requires Replayed(cfg.opening) == cfg.opening
    ensures Replayed(Rendered(cfg, trace)) == FinalBody(cfg.opening, trace)
    decreases |trace|
  {
    if trace != [] {
      var past := trace[..|trace| - 1];
      ReplayOfRendered(cfg, past);
      var notice := if Closing(cfg, |past|, CallCount(past)) then [ClosingNotice] else [];
      ReplayedStep(Rendered(cfg, past), notice, trace[|trace| - 1]);
    }
  }

  /**
   Aligning results with calls by index is right: at every turn a run reaches, replaying
   its trace gives back the conversation the agent had, each result under the call that produced it.
   */
  lemma FinalizeReplaysConversation(cfg: Config, env: Env, t: nat)
    requires Boundary(cfg, env, t).Some? && Replayed(cfg.opening) == cfg.opening
    ensures var conv := Boundary(cfg, env, t).value;
            && FinalBody(cfg.opening, conv.trace) == Replayed(conv.messages)
            && |conv.trace| == t
            && forall i :: 0 <= i < t ==> WellPaired(conv.trace[i])
  {
    BoundaryHolds(cfg, env, t);
    ReplayOfRendered(cfg, Boundary(cfg, env, t).value.trace);
  }
}
