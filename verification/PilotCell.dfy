/**
 The turn and call budget of one evaluation cell (`scripts/benchmark_pilot/runner.py`,
 lines 73-152). What the model replies and how its calls end is arbitrary.
 */
module PilotCell {
  import opened Bounds

  datatype Protocol = Protocol(maxRounds: int, maxCalls: nat, clientV3: bool)

  /** `Unreadable` arguments are not JSON, which raises outside the handler of `submit_answer`. */
  datatype SubmitOutcome = Accepted | Rejected | Unreadable | SubmitRaises(http: bool)

  /** What raises past the handlers of a call is an HTTP error, or another error of the operating system. */
  datatype ToolOutcome = Value | ToolRaises(http: bool)

  datatype Call = Submit(verdict: SubmitOutcome) | Tool(outcome: ToolOutcome)

  /** What becomes of a final answer given as prose. */
  datatype ProseOutcome = Confirmed | Refused | CheckRaises(http: bool)

  datatype Reply =
    | RequestRaises(http: bool)
    | Unfinished
    | Prose(outcome: ProseOutcome)
    | Calls(first: Call, rest: seq<Call>)

  function CallsOf(reply: Reply): seq<Call>
    requires reply.Calls?
  {
    [reply.first] + reply.rest
  }

  /** `Open` is the status a cell starts with: its round budget will be what ends it. */
  datatype Status = Open | Completed | InvalidAnswer | CompletionFailed | TransportFailed | HarnessFailed

  /** One recorded execution: which call of which turn, whether that turn was closing, whether it was a submission. */
  datatype Execution = Execution(turn: nat, index: nat, closing: bool, submit: bool)

  /** A tool message: the call of the turn that it answers. */
  datatype Answer = Answer(turn: nat, index: nat)

  datatype State = State(status: Status, requests: nat, calls: nat, executed: seq<Execution>, answers: seq<Answer>)

  function Start(): State { State(Open, 0, 0, [], []) }

  /** The last round, or only the call kept for `submit_answer` is left. */
  predicate Closing(p: Protocol, turn: nat, calls: nat) {
    turn == p.maxRounds - 1 || calls >= p.maxCalls - if p.clientV3 then 1 else 0
  }

  function Answered(s: State, turn: nat, index: nat): State { s.(answers := s.answers + [Answer(turn, index)]) }

  function Recorded(s: State, turn: nat, index: nat, closing: bool, submit: bool): State {
    Answered(s, turn, index).(calls := s.calls + 1, executed := s.executed + [Execution(turn, index, closing, submit)])
  }

  /** The outer handlers: an HTTP error is the transport's failure, any other the harness's. */
  function Raised(http: bool): Status { if http then TransportFailed else HarnessFailed }

  function Submitted(s: State, turn: nat, index: nat, closing: bool, verdict: SubmitOutcome): State {
    match verdict
    case Unreadable => s.(calls := s.calls + 1, status := HarnessFailed)
    case SubmitRaises(http) => s.(calls := s.calls + 1, status := Raised(http))
    case Accepted => Recorded(s, turn, index, closing, true).(status := Completed)
    case Rejected => Recorded(s, turn, index, closing, true).(status := if closing then InvalidAnswer else s.status)
  }

  function One(p: Protocol, s: State, turn: nat, index: nat, closing: bool, call: Call): State {
    if call.Submit? && p.clientV3 && s.calls < p.maxCalls then Submitted(s, turn, index, closing, call.verdict)
    else if closing || s.calls >= p.maxCalls then Answered(s, turn, index)
    else if call.Tool? && call.outcome.ToolRaises? then s.(status := Raised(call.outcome.http))
    else Recorded(s, turn, index, closing, call.Submit?)
  }

  /** The calls of one batch from index `k` on. */
  function Batch(p: Protocol, s: State, turn: nat, closing: bool, calls: seq<Call>, k: nat): State
    requires k <= |calls|
    decreases |calls| - k
  {
    if k == |calls| || s.status != Open then s
    else Batch(p, One(p, s, turn, k, closing, calls[k]), turn, closing, calls, k + 1)
  }

  function ProseStatus(p: Protocol, outcome: ProseOutcome): Status {
    if p.clientV3 then InvalidAnswer
    else match outcome case Confirmed => Completed case Refused => InvalidAnswer case CheckRaises(http) => Raised(http)
  }

  function Turn(p: Protocol, s: State, turn: nat, reply: Reply): State {
    var asked := s.(requests := s.requests + 1);
    match reply
    case RequestRaises(http) => asked.(status := Raised(http))
    case Unfinished => asked.(status := CompletionFailed)
    case Prose(outcome) => asked.(status := ProseStatus(p, outcome))
    case Calls(_, _) => Batch(p, asked, turn, Closing(p, turn, s.calls), CallsOf(reply), 0)
  }

  function Rounds(p: Protocol, s: State, turn: nat, replies: nat -> Reply): State
    decreases p.maxRounds - turn
  {
    if turn >= p.maxRounds || s.status != Open then s
    else Rounds(p, Turn(p, s, turn, replies(turn)), turn + 1, replies)
  }

  // ----------------------------------------------------------------- budgets

  /** Calls are within their budget, every execution is one call, a closing turn executes
      nothing but a submission, and a client cell is completed by a submission only. */
  predicate Within(p: Protocol, s: State) {
    && s.calls <= p.maxCalls
    && |s.executed| <= s.calls <= |s.executed| + 1
    && (s.status == Open || s.status == Completed ==> s.calls == |s.executed|)
    && (p.clientV3 && s.status == Completed ==> s.executed != [] && s.executed[|s.executed| - 1].submit)
    && forall i :: 0 <= i < |s.executed| && s.executed[i].closing ==> s.executed[i].submit && p.clientV3
  }

  lemma {:induction false} BatchStaysWithin(p: Protocol, s: State, turn: nat, closing: bool, calls: seq<Call>, k: nat)
    requires Within(p, s) && k <= |calls|
    ensures var u := Batch(p, s, turn, closing, calls, k);
            Within(p, u) && u.requests == s.requests && s.calls <= u.calls && s.executed <= u.executed
    decreases |calls| - k
  {
    if k < |calls| && s.status == Open {
      BatchStaysWithin(p, One(p, s, turn, k, closing, calls[k]), turn, closing, calls, k + 1);
    }
  }

  /** One answer for each call from `k` up to `n`, in the order of the calls. */
  function AnswersTo(turn: nat, k: nat, n: nat): (r: seq<Answer>)
    requires k <= n
    ensures |r| == n - k && forall i :: 0 <= i < n - k ==> r[i] == Answer(turn, k + i)
  {
    seq(n - k, i requires 0 <= i < n - k => Answer(turn, k + i))
  }

  /** The tool messages answer a first part of the batch, call by call, and all of it if the cell goes on. */
  lemma {:induction false} BatchAnswersInOrder(p: Protocol, s: State, turn: nat, closing: bool, calls: seq<Call>,
          k: nat)
    returns (n: nat)
    requires k <= |calls|
    ensures var u := Batch(p, s, turn, closing, calls, k);
            && k <= n <= |calls| && u.answers == s.answers + AnswersTo(turn, k, n)
            && (u.status == Open ==> n == |calls|)
    decreases |calls| - k
  {
    n := k;
    if k < |calls| && s.status == Open {
      var next := One(p, s, turn, k, closing, calls[k]);
      n := BatchAnswersInOrder(p, next, turn, closing, calls, k + 1);
      if next.answers == s.answers {
        assert next.status != Open;
        n := k;
      } else {
        assert AnswersTo(turn, k, n) == [Answer(turn, k)] + AnswersTo(turn, k + 1, n);
      }
    }
    assert s.answers + [] == s.answers;
  }

  lemma {:induction false} RoundsStayWithin(p: Protocol, s: State, turn: nat, replies: nat -> Reply)
    requires Within(p, s) && s.requests == turn && (turn <= p.maxRounds || turn == 0)
    ensures var u := Rounds(p, s, turn, replies);
            Within(p, u) && (u.requests <= p.maxRounds || u.requests == 0)
    decreases p.maxRounds - turn
  {
    if turn < p.maxRounds && s.status == Open {
      var reply := replies(turn);
      if reply.Calls? {
        BatchStaysWithin(p, s.(requests := turn + 1), turn, Closing(p, turn, s.calls), CallsOf(reply), 0);
      }
      RoundsStayWithin(p, Turn(p, s, turn, reply), turn + 1, replies);
    }
  }

  /** A cell never exceeds its rounds or its tool calls, and runs no tool on a closing turn. */
  lemma CellWithinBudget(p: Protocol, replies: nat -> Reply)
    ensures var u := Rounds(p, Start(), 0, replies);
            Within(p, u) && (u.requests <= p.maxRounds || u.requests == 0)
  {
    RoundsStayWithin(p, Start(), 0, replies);
  }

  // ------------------------------------------ the call kept for submitting an answer

  /** Calls that cost one call each and let the cell go on: tools that return, and rejected submissions. */
  predicate Ordinary(calls: seq<Call>) {
    forall i :: 0 <= i < |calls| ==> calls[i] == Tool(Value) || calls[i] == Submit(Rejected)
  }

  /** A batch is not cut at the reserve: it runs on to the full budget. */
  lemma {:induction false} BatchSpends(p: Protocol, s: State, turn: nat, calls: seq<Call>, k: nat)
    requires s.status == Open && s.calls <= p.maxCalls && Ordinary(calls) && k <= |calls|
    ensures var u := Batch(p, s, turn, false, calls, k);
            u.status == Open && u.calls == Min(p.maxCalls, s.calls + |calls| - k)
    decreases |calls| - k
  {
    if k < |calls| { BatchSpends(p, One(p, s, turn, k, false, calls[k]), turn, calls, k + 1); }
  }

  /** Without a call left, no later round can complete the cell. */
  lemma {:induction false} SpentCellNeverCompletes(p: Protocol, s: State, turn: nat, replies: nat -> Reply)
    requires p.clientV3 && s.calls == p.maxCalls && s.status != Completed
    ensures Rounds(p, s, turn, replies).status != Completed
    decreases p.maxRounds - turn
  {
    if turn < p.maxRounds && s.status == Open {
      var reply := replies(turn);
      if reply.Calls? {
        SpentBatchDoesNothing(p, s.(requests := s.requests + 1), turn, Closing(p, turn, s.calls), CallsOf(reply), 0);
      }
      SpentCellNeverCompletes(p, Turn(p, s, turn, reply), turn + 1, replies);
    }
  }

  lemma {:induction false} SpentBatchDoesNothing(p: Protocol, s: State, turn: nat, closing: bool, calls: seq<Call>,
          k: nat)
    requires s.calls == p.maxCalls && s.status == Open && k <= |calls|
    ensures var u := Batch(p, s, turn, closing, calls, k);
            u.calls == s.calls && u.status == Open && u.executed == s.executed
    decreases |calls| - k
  {
    if k < |calls| { SpentBatchDoesNothing(p, One(p, s, turn, k, closing, calls[k]), turn, closing, calls, k + 1); }
  }

  predicate SubmitsOnly(p: Protocol, replies: nat -> Reply, from: nat) {
    forall t :: from <= t < p.maxRounds ==> replies(t) == Calls(Submit(Accepted), [])
  }

  /**
   The call kept for `submit_answer` is there for the next turn exactly when the batch
   before it is small enough; a batch that reaches the whole budget takes it, and the cell
   cannot complete whatever the model submits afterwards.
   */
  lemma ReserveSurvivesIff(p: Protocol, s: State, turn: nat, replies: nat -> Reply)
    requires p.clientV3 && s.status == Open && turn + 1 < p.maxRounds && !Closing(p, turn, s.calls)
    requires replies(turn).Calls? && Ordinary(CallsOf(replies(turn))) && SubmitsOnly(p, replies, turn + 1)
    ensures Rounds(p, s, turn, replies).status == Completed <==> s.calls + |CallsOf(replies(turn))| < p.maxCalls
  {
    var asked := s.(requests := s.requests + 1);
    BatchSpends(p, asked, turn, CallsOf(replies(turn)), 0);
    var u := Turn(p, s, turn, replies(turn));
    if u.calls < p.maxCalls {
      assert replies(turn + 1) == Calls(Submit(Accepted), []);
      SubmitCompletes(p, u, turn + 1);
      assert Rounds(p, u, turn + 1, replies) == Rounds(p, Turn(p, u, turn + 1, replies(turn + 1)), turn + 2, replies);
    } else {
      SpentCellNeverCompletes(p, u, turn + 1, replies);
    }
  }

  lemma SubmitCompletes(p: Protocol, s: State, turn: nat)
    requires p.clientV3 && s.status == Open && s.calls < p.maxCalls
    ensures Turn(p, s, turn, Calls(Submit(Accepted), [])).status == Completed
  {
    var asked := s.(requests := s.requests + 1);
    var closing := Closing(p, turn, s.calls);
    var calls := CallsOf(Calls(Submit(Accepted), []));
    assert calls == [Submit(Accepted)];
    var done := One(p, asked, turn, 0, closing, calls[0]);
    assert Batch(p, asked, turn, closing, calls, 0) == Batch(p, done, turn, closing, calls, 1);
  }

  // ------------------------------------------------------ a turn, in numbers

  /**
   Call `j` of a turn begun with `spent` calls used ends the cell: within the calls, a
   client's submission that is not merely rejected, or that is rejected on a closing turn; on
   any other turn also a tool that raises.
   */
  predicate Ends(p: Protocol, closing: bool, spent: nat, calls: seq<Call>, j: nat)
    requires j < |calls|
  {
    && (if closing then spent else spent + j) < p.maxCalls
    && (|| (p.clientV3 && calls[j].Submit? && (closing || calls[j].verdict != Rejected))
        || (!closing && calls[j].Tool? && calls[j].outcome.ToolRaises?))
  }

  /** Call `e` is the first that ends the cell; none does if `e` is their number. */
  ghost predicate EndsAt(p: Protocol, closing: bool, spent: nat, calls: seq<Call>, e: nat) {
    && e <= |calls|
    && (forall j :: 0 <= j < e ==> !Ends(p, closing, spent, calls, j))
    && (e < |calls| ==> Ends(p, closing, spent, calls, e))
  }

  /** Executions of the first `n` calls of a turn, in order. */
  function Executions(turn: nat, calls: seq<Call>, n: nat): seq<Execution>
    requires n <= |calls|
  {
    seq(n, j requires 0 <= j < n => Execution(turn, j, false, calls[j].Submit?))
  }

  /**
   A closing turn executes the submission that ends it and nothing else. Any other turn
   executes its calls in order, up to the budget or the call that ends it, and that call only
   if it is an accepted submission.
   */
  function ExecutedIn(p: Protocol, turn: nat, closing: bool, spent: nat, calls: seq<Call>, e: nat): seq<Execution>
    requires e <= |calls| && spent <= p.maxCalls
  {
    var judged := e < |calls| && calls[e].Submit? && (calls[e].verdict == Accepted || calls[e].verdict == Rejected);
    RanUpTo(p, turn, closing, spent, calls, e) + if judged then [Execution(turn, e, closing, true)] else []
  }

  function RanUpTo(p: Protocol, turn: nat, closing: bool, spent: nat, calls: seq<Call>, k: nat): seq<Execution>
    requires k <= |calls| && spent <= p.maxCalls
  {
    if closing then [] else Executions(turn, calls, if k < p.maxCalls - spent then k else p.maxCalls - spent)
  }

  /** The status a reply ends the cell with, `e` being the first of its calls that does. */
  ghost predicate StatusAfter(p: Protocol, reply: Reply, closing: bool, e: nat, status: Status) {
    match reply
    case RequestRaises(http) => status == if http then TransportFailed else HarnessFailed
    case Unfinished => status == CompletionFailed
    case Prose(outcome) =>
      && (p.clientV3 || outcome == Refused ==> status == InvalidAnswer)
      && (!p.clientV3 && outcome == Confirmed ==> status == Completed)
      && (!p.clientV3 && outcome.CheckRaises? ==> status == if outcome.http then TransportFailed else HarnessFailed)
    case Calls(_, _) =>
      if e >= |CallsOf(reply)| then status == Open
      else match CallsOf(reply)[e]
        case Submit(Accepted) => status == Completed
        case Submit(Rejected) => status == InvalidAnswer && closing
        case Submit(Unreadable) => status == HarnessFailed
        case Submit(SubmitRaises(http)) => status == if http then TransportFailed else HarnessFailed
        case Tool(Value) => false
        case Tool(ToolRaises(http)) => status == if http then TransportFailed else HarnessFailed
  }

  /** From call `k` on, the calls up to it having used what they could of the budget. */
  lemma {:induction false} BatchMeans(p: Protocol, s: State, turn: nat, closing: bool, spent: nat, reply: Reply, k: nat,
          past: seq<Execution>)
    returns (e: nat)
    requires reply.Calls? && k <= |CallsOf(reply)| && s.status == Open && spent <= p.maxCalls
    requires s.calls == if closing then spent else Min(spent + k, p.maxCalls)
    requires s.executed == past + RanUpTo(p, turn, closing, spent, CallsOf(reply), k)
    ensures k <= e <= |CallsOf(reply)|
    ensures forall j :: k <= j < e ==> !Ends(p, closing, spent, CallsOf(reply), j)
    ensures e < |CallsOf(reply)| ==> Ends(p, closing, spent, CallsOf(reply), e)
    ensures var u := Batch(p, s, turn, closing, CallsOf(reply), k);
            && StatusAfter(p, reply, closing, e, u.status)
            && u.executed == past + ExecutedIn(p, turn, closing, spent, CallsOf(reply), e)
    decreases |CallsOf(reply)| - k
  {
    e := k;
    if k < |CallsOf(reply)| {
      var calls := CallsOf(reply);
      var next := One(p, s, turn, k, closing, calls[k]);
      if !Ends(p, closing, spent, calls, k) {
        assert next.status == Open && next.executed == past + RanUpTo(p, turn, closing, spent, calls, k + 1);
        e := BatchMeans(p, next, turn, closing, spent, reply, k + 1, past);
      } else {
        assert next.status != Open && next.executed == past + ExecutedIn(p, turn, closing, spent, calls, k);
      }
    }
  }

  lemma TurnMeans(p: Protocol, s: State, turn: nat, reply: Reply) returns (e: nat)
    requires s.status == Open && s.calls <= p.maxCalls
    ensures var closing := turn == p.maxRounds - 1 || s.calls >= p.maxCalls - if p.clientV3 then 1 else 0;
            var u := Turn(p, s, turn, reply);
            && (reply.Calls? ==> EndsAt(p, closing, s.calls, CallsOf(reply), e))
            && StatusAfter(p, reply, closing, e, u.status)
            && u.executed == s.executed + RanIn(p, turn, closing, s.calls, reply, e)
            && u.requests == s.requests + 1
  {
    e := 0;
    if reply.Calls? {
      var asked := s.(requests := s.requests + 1);
      assert s.executed + RanUpTo(p, turn, Closing(p, turn, s.calls), s.calls, CallsOf(reply), 0) == s.executed;
      e := BatchMeans(p, asked, turn, Closing(p, turn, s.calls), s.calls, reply, 0, s.executed);
      BatchKeepsRequests(p, asked, turn, Closing(p, turn, s.calls), CallsOf(reply), 0);
    }
  }

  lemma {:induction false} BatchKeepsRequests(p: Protocol, s: State, turn: nat, closing: bool, calls: seq<Call>, k: nat)
    requires k <= |calls|
    ensures Batch(p, s, turn, closing, calls, k).requests == s.requests
    decreases |calls| - k
  {
    if k < |calls| && s.status == Open {
      BatchKeepsRequests(p, One(p, s, turn, k, closing, calls[k]), turn, closing, calls, k + 1);
    }
  }

  function RanIn(p: Protocol, turn: nat, closing: bool, spent: nat, reply: Reply, e: nat): seq<Execution>
    requires spent <= p.maxCalls && (reply.Calls? ==> e <= |CallsOf(reply)|)
  {
    if reply.Calls? then ExecutedIn(p, turn, closing, spent, CallsOf(reply), e) else []
  }

  // ------------------------------------------------------ a cell, turn by turn

  /**
   What turn `t` of a cell did, `spent` executions having been made before it and `e` being
   the first of its calls that ends the cell: its executions, and the cell's status if it is
   the last turn; after any other turn the cell is still open.
   */
  ghost predicate TurnOf(p: Protocol, replies: nat -> Reply, u: State, t: nat, spent: nat, e: nat) {
    && t < u.requests && spent <= p.maxCalls && spent <= |u.executed|
    && var closing := t == p.maxRounds - 1 || spent >= p.maxCalls - if p.clientV3 then 1 else 0;
    && (replies(t).Calls? ==> EndsAt(p, closing, spent, CallsOf(replies(t)), e))
    && StatusAfter(p, replies(t), closing, e, if t == u.requests - 1 then u.status else Open)
    && var ran := RanIn(p, t, closing, spent, replies(t), e);
    && ran <= u.executed[spent..]
    && (forall i :: 0 <= i < spent ==> u.executed[i].turn < t)
    && (forall i :: spent + |ran| <= i < |u.executed| ==> u.executed[i].turn > t)
  }

  /** The state in which turn `turn` of a cell begins. */
  ghost predicate Begins(p: Protocol, s: State, turn: nat) {
    && Within(p, s) && s.status == Open && s.requests == turn
    && forall i :: 0 <= i < |s.executed| ==> s.executed[i].turn < turn
  }

  lemma TurnBegins(p: Protocol, s: State, turn: nat, reply: Reply)
    requires Begins(p, s, turn)
    ensures var u := Turn(p, s, turn, reply);
            && Within(p, u) && u.requests == turn + 1 && s.executed <= u.executed
            && (forall i :: |s.executed| <= i < |u.executed| ==> u.executed[i].turn == turn)
            && (u.status == Open ==> Begins(p, u, turn + 1))
  {
    var e := TurnMeans(p, s, turn, reply);
    if reply.Calls? {
      BatchStaysWithin(p, s.(requests := s.requests + 1), turn, Closing(p, turn, s.calls), CallsOf(reply), 0);
    }
  }

  lemma {:induction false} RoundsExtend(p: Protocol, s: State, turn: nat, replies: nat -> Reply)
    requires Begins(p, s, turn)
    ensures var u := Rounds(p, s, turn, replies);
            && s.requests <= u.requests && s.executed <= u.executed
            && (forall i :: |s.executed| <= i < |u.executed| ==> u.executed[i].turn >= turn)
            && (u.status == Open ==> u.requests >= p.maxRounds)
            && (u.requests == turn ==> u.status == Open)
    decreases p.maxRounds - turn
  {
    if turn < p.maxRounds {
      TurnBegins(p, s, turn, replies(turn));
      var next := Turn(p, s, turn, replies(turn));
      if next.status == Open { RoundsExtend(p, next, turn + 1, replies); }
    }
  }

  lemma {:induction false} CellTurnFrom(p: Protocol, s: State, turn: nat, replies: nat -> Reply, t: nat)
    returns (spent: nat, e: nat)
    requires Begins(p, s, turn) && turn <= t < Rounds(p, s, turn, replies).requests
    ensures TurnOf(p, replies, Rounds(p, s, turn, replies), t, spent, e)
    decreases p.maxRounds - turn
  {
    hide StatusAfter;
    TurnBegins(p, s, turn, replies(turn));
    var next := Turn(p, s, turn, replies(turn));
    var u := Rounds(p, s, turn, replies);
    if turn == t {
      spent := s.calls;
      e := TurnMeans(p, s, turn, replies(turn));
      if next.status == Open {
        RoundsExtend(p, next, turn + 1, replies);
      }
      assert next.executed <= u.executed;
    } else {
      spent, e := CellTurnFrom(p, next, turn + 1, replies, t);
    }
  }

  /** Every turn of a cell does what its reply, the calls left and the rounds left say, and no more. */
  lemma CellTurn(p: Protocol, replies: nat -> Reply, t: nat) returns (spent: nat, e: nat)
    requires t < Rounds(p, Start(), 0, replies).requests
    ensures TurnOf(p, replies, Rounds(p, Start(), 0, replies), t, spent, e)
  {
    spent, e := CellTurnFrom(p, Start(), 0, replies, t);
  }

  /** How a cell ends: each final status has exactly one kind of cause, all in its last turn. */
  lemma EndsIff(p: Protocol, replies: nat -> Reply)
    ensures var u := Rounds(p, Start(), 0, replies);
            && (u.requests == 0 <==> p.maxRounds <= 0)
            && (u.status == Open ==> u.requests == Max(p.maxRounds, 0))
            && (u.requests == 0 ==> u.status == Open)
            && (u.requests > 0 ==>
                  && (u.status == Completed <==>
                        || (!p.clientV3 && replies(u.requests - 1) == Prose(Confirmed))
                        || (p.clientV3 && Judged(u, replies, u.requests - 1, Accepted, false)))
                  && (u.status == InvalidAnswer <==>
                        || (p.clientV3 && replies(u.requests - 1).Prose?)
                        || (!p.clientV3 && replies(u.requests - 1) == Prose(Refused))
                        || (p.clientV3 && Judged(u, replies, u.requests - 1, Rejected, true)))
                  && (u.status == CompletionFailed <==> replies(u.requests - 1).Unfinished?))
  {
    if p.maxRounds > 0 {
      FirstTurnIsTaken(p, replies);
      var u := Rounds(p, Start(), 0, replies);
      var t := u.requests - 1;
      var spent, e := CellTurn(p, replies, t);
      LastTurnEnds(p, replies, u, t, spent, e);
    }
    RoundsStayWithin(p, Start(), 0, replies);
    RoundsExtend(p, Start(), 0, replies);
  }

  /** A submission of turn `t` was executed with this verdict, on a closing turn if `closing`. */
  ghost predicate Judged(u: State, replies: nat -> Reply, t: nat, verdict: SubmitOutcome, closing: bool) {
    exists i :: 0 <= i < |u.executed| && u.executed[i].turn == t && Submits(u.executed[i], replies(t), verdict)
                && (closing ==> u.executed[i].closing)
  }

  predicate Submits(x: Execution, reply: Reply, verdict: SubmitOutcome) {
    reply.Calls? && x.index < |CallsOf(reply)| && CallsOf(reply)[x.index] == Submit(verdict)
  }

  lemma FirstTurnIsTaken(p: Protocol, replies: nat -> Reply)
    requires p.maxRounds > 0
    ensures Rounds(p, Start(), 0, replies).requests > 0
  {
    TurnBegins(p, Start(), 0, replies(0));
    var next := Turn(p, Start(), 0, replies(0));
    if next.status == Open { RoundsExtend(p, next, 1, replies); }
  }

  /** What is executed in a turn comes before the call that ends it, or is that call. */
  lemma ExecutedBefore(p: Protocol, replies: nat -> Reply, u: State, t: nat, spent: nat, e: nat, i: nat)
    requires TurnOf(p, replies, u, t, spent, e) && replies(t).Calls?
    requires i < |u.executed| && u.executed[i].turn == t
    ensures var closing := t == p.maxRounds - 1 || spent >= p.maxCalls - if p.clientV3 then 1 else 0;
            var x := u.executed[i];
            && e <= |CallsOf(replies(t))| && x.index <= e && x.closing == closing
            && (x.index == e ==> e < |CallsOf(replies(t))|)
            && (x.index < e ==>
                  && !closing && spent + x.index < p.maxCalls
                  && !Ends(p, closing, spent, CallsOf(replies(t)), x.index))
  {
    var closing := t == p.maxRounds - 1 || spent >= p.maxCalls - if p.clientV3 then 1 else 0;
    var ran := ExecutedIn(p, t, closing, spent, CallsOf(replies(t)), e);
    assert spent <= i < spent + |ran| && u.executed[i] == u.executed[spent..][i - spent] == ran[i - spent];
  }

  /** A submission that ends a turn with a verdict was executed. */
  lemma EndingIsExecuted(p: Protocol, replies: nat -> Reply, u: State, t: nat, spent: nat, e: nat,
          verdict: SubmitOutcome)
    requires TurnOf(p, replies, u, t, spent, e) && replies(t).Calls? && e < |CallsOf(replies(t))|
    requires CallsOf(replies(t))[e] == Submit(verdict) && (verdict == Accepted || verdict == Rejected)
    ensures var closing := t == p.maxRounds - 1 || spent >= p.maxCalls - if p.clientV3 then 1 else 0;
            Judged(u, replies, t, verdict, closing)
  {
    var closing := t == p.maxRounds - 1 || spent >= p.maxCalls - if p.clientV3 then 1 else 0;
    var ran := ExecutedIn(p, t, closing, spent, CallsOf(replies(t)), e);
    var i := spent + |ran| - 1;
    assert ran[|ran| - 1] == Execution(t, e, closing, true);
    assert u.executed[i] == u.executed[spent..][|ran| - 1] == ran[|ran| - 1];
    assert Submits(u.executed[i], replies(t), verdict);
  }

  /** What the last turn executed says which submission was judged. */
  lemma LastTurnEnds(p: Protocol, replies: nat -> Reply, u: State, t: nat, spent: nat, e: nat)
    requires TurnOf(p, replies, u, t, spent, e) && t == u.requests - 1
    ensures p.clientV3 ==> (Judged(u, replies, t, Accepted, false) <==> replies(t).Calls? && u.status == Completed)
    ensures p.clientV3 ==> (Judged(u, replies, t, Rejected, true) <==> replies(t).Calls? && u.status == InvalidAnswer)
    ensures !p.clientV3 && replies(t).Calls? ==> u.status != Completed && u.status != InvalidAnswer
  {
    hide RanIn;
    if replies(t).Calls? {
      forall i | 0 <= i < |u.executed| && u.executed[i].turn == t
        ensures u.executed[i].index <= e <= |CallsOf(replies(t))|
        ensures u.executed[i].closing || e == u.executed[i].index
                || CallsOf(replies(t))[u.executed[i].index] != Submit(Accepted) || !p.clientV3
        ensures u.executed[i].closing ==> e == u.executed[i].index
        ensures e == u.executed[i].index ==> e < |CallsOf(replies(t))|
      {
        ExecutedBefore(p, replies, u, t, spent, e, i);
      }
      if e < |CallsOf(replies(t))| && CallsOf(replies(t))[e] == Submit(Accepted) {
        EndingIsExecuted(p, replies, u, t, spent, e, Accepted);
      }
      if e < |CallsOf(replies(t))| && CallsOf(replies(t))[e] == Submit(Rejected) {
        EndingIsExecuted(p, replies, u, t, spent, e, Rejected);
      }
    }
  }

  // ---------------------------------------------------------------- the loops

  method AnswerCalls(p: Protocol, s: State, turn: nat, closing: bool, calls: seq<Call>) returns (u: State)
    requires s.status == Open
    ensures u == Batch(p, s, turn, closing, calls, 0)
  {
    u := s;
    for i := 0 to |calls|
      invariant u.status == Open
      invariant Batch(p, u, turn, closing, calls, i) == Batch(p, s, turn, closing, calls, 0)
    {
      var call := calls[i];
      if call.Submit? && p.clientV3 && u.calls < p.maxCalls {
        u := u.(calls := u.calls + 1);
        if call.verdict == Unreadable {
          return u.(status := HarnessFailed);
        }
        if call.verdict.SubmitRaises? {
          return u.(status := Raised(call.verdict.http));
        }
        u := u.(executed := u.executed + [Execution(turn, i, closing, true)], answers := u.answers + [Answer(turn, i)]);
        if call.verdict == Accepted {
          return u.(status := Completed);
        }
        if closing {
          return u.(status := InvalidAnswer);
        }
      } else {
        if !closing && u.calls < p.maxCalls {
          if call.Tool? && call.outcome.ToolRaises? {
            return u.(status := Raised(call.outcome.http));
          }
          u := u.(calls := u.calls + 1, executed := u.executed + [Execution(turn, i, closing, call.Submit?)]);
        }
        u := u.(answers := u.answers + [Answer(turn, i)]);
      }
    }
  }

  method RunCell(p: Protocol, replies: nat -> Reply) returns (s: State)
    ensures s == Rounds(p, Start(), 0, replies)
  {
    s := Start();
    var turn := 0;
    while turn < p.maxRounds
      invariant s.status == Open && Rounds(p, s, turn, replies) == Rounds(p, Start(), 0, replies)
      decreases p.maxRounds - turn
    {
      var closing := Closing(p, turn, s.calls);
      s := s.(requests := s.requests + 1);
      match replies(turn) {
        case RequestRaises(http) =>
          return s.(status := Raised(http));
        case Unfinished =>
          return s.(status := CompletionFailed);
        case Prose(outcome) =>
          return s.(status := ProseStatus(p, outcome));
        case Calls(_, _) =>
          s := AnswerCalls(p, s, turn, closing, CallsOf(replies(turn)));
          if s.status != Open {
            return;
          }
      }
      turn := turn + 1;
    }
  }
}
