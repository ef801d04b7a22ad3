/**
 The gateway as a step system: any number of request handlers share one ledger
 file through successive processes. Every durable write, every upstream send and
 every crash is a step of its own, so a run is any interleaving of them.
 */
module BudgetGateway {
  import opened Wrappers
  import opened BudgetLedger

  /** A request that passed the checks made before the attempt loop. */
  datatype Request = Request(body: Body, kind: Kind, profile: Profile, size: nat, retries: nat)

  predicate WellFormed(request: Request) {
    && request.profile.Valid()
    && PrepareRequest(request.body, request.kind, request.profile).Ok?
    && (request.kind == Chat ==> request.retries == 0)
  }

  function Prepare(request: Request): Prepared
    requires WellFormed(request)
  {
    PrepareRequest(request.body, request.kind, request.profile).value
  }

  /** The worst-case cost reserved before each attempt. */
  function Amount(request: Request): real
    requires WellFormed(request)
  {
    Reservation(request.size, request.kind, Prepare(request).output, request.profile)
  }

  /** What the provider answered. */
  datatype Outcome =
    | Answered(cost: UsageCost)
    | HttpFailed(code: nat, header: RetryAfter)
    | Lost

  /**
   Where a handler stands in its attempt loop. `Reserving` and `Settling` hold the
   mutex: memory has changed and the file has not been replaced yet.
   */
  datatype Stage =
    | Ready
    | Reserving(ordinal: nat)
    | Reserved(ordinal: nat)
    | Sent(ordinal: nat, bill: Bill)
    | Settling(again: bool)
    | Closed

  datatype Handler = Handler(request: Request, attempt: nat, mine: seq<nat>, stage: Stage)

  datatype Process = Process(
    book: Book, inherited: nat, opening: real, ceiling: real, tranche: real,
    handlers: map<nat, Handler>, lock: Option<nat>)

  /** One request on the wire, with what the provider will bill for it. */
  datatype Send = Send(ordinal: nat, request: Request, bill: Bill)

  /** `cap` and `granted` remember the highest ceiling and the sum of the tranches so far. */
  datatype World = World(disk: Book, process: Option<Process>, sends: seq<Send>, cap: real, granted: real)

  datatype Event =
    | Start(ceiling: real, tranche: real)
    | Crash
    | Accept(h: nat, request: Request)
    | Reserve(h: nat)
    | Persist(h: nat)
    | Transmit(h: nat, bill: Bill)
    | Settle(h: nat, outcome: Outcome)

  function NewStatus(outcome: Outcome): Status {
    match outcome
    case Answered(cost) => if ExplicitCost(cost).Some? then Completed else CompletedCostUnknown
    case HttpFailed(_, _) => ProviderFailed
    case Lost => Uncertain
  }

  function NewCost(outcome: Outcome): UsageCost {
    if outcome.Answered? then outcome.cost else Missing
  }

  /** Only an explicit embedding throttle within the retry limit leads to another attempt. */
  predicate Again(handler: Handler, outcome: Outcome) {
    && outcome.HttpFailed?
    && var request := handler.request;
    && EmbeddingRetryDelay(request.kind, outcome.code, handler.attempt, request.retries, outcome.header).Some?
  }

  predicate Enabled(w: World, e: Event) {
    match e
    case Start(ceiling, tranche) => w.process.None? && 0.0 < tranche <= ceiling
    case Crash => w.process.Some?
    case Accept(h, request) => w.process.Some? && h !in w.process.value.handlers && WellFormed(request)
    case Reserve(h) => AtStage(w, h) && w.process.value.handlers[h].stage.Ready? && w.process.value.lock.None?
    case Persist(h) => AtStage(w, h) && w.process.value.lock == Some(h)
    case Transmit(h, bill) => AtStage(w, h) && w.process.value.handlers[h].stage.Reserved?
    case Settle(h, outcome) =>
      && AtStage(w, h) && w.process.value.lock.None?
      && var stage := w.process.value.handlers[h].stage;
      && stage.Sent? && 1 <= stage.ordinal <= |w.process.value.book.rows|
      // The provider's own figure, when it is a usable one, is what it bills.
      && (outcome.Answered? && ExplicitCost(outcome.cost).Some? ==>
            ExplicitCost(outcome.cost).value == Charge(stage.bill))
  }

  predicate AtStage(w: World, h: nat) {
    && w.process.Some? && h in w.process.value.handlers
    && WellFormed(w.process.value.handlers[h].request)
  }

  function Next(w: World, e: Event): World
    requires Enabled(w, e)
  {
    match e
    case Start(ceiling, tranche) =>
      w.(process := Some(Process(w.disk, |w.disk.rows|, Exposure(w.disk), ceiling, tranche, map[], None)),
         cap := Max(w.cap, ceiling), granted := w.granted + tranche)
    case Crash => w.(process := None)
    case Accept(h, request) =>
      WithHandler(w, h, Handler(request, 0, [], Ready))
    case Reserve(h) =>
      var p := w.process.value;
      var handler := p.handlers[h];
      var amount := Amount(handler.request);
      if !Fits(p.book, p.opening, p.ceiling, p.tranche, amount) then
        WithHandler(w, h, handler.(stage := Closed))
      else
        var row := NewRow(p.book, amount, handler.request.kind);
        var next := handler.(mine := handler.mine + [row.ordinal], stage := Reserving(row.ordinal));
        WithProcess(WithHandler(w, h, next), p.book.(rows := p.book.rows + [row]), Some(h))
    case Persist(h) =>
      var p := w.process.value;
      var handler := p.handlers[h];
      var next := match handler.stage
        case Reserving(ordinal) => handler.(stage := Reserved(ordinal))
        case Settling(again) =>
          if again then handler.(stage := Ready, attempt := handler.attempt + 1) else handler.(stage := Closed)
        case _ => handler;
      WithProcess(WithHandler(w, h, next), p.book, None).(disk := p.book)
    case Transmit(h, bill) =>
      var handler := w.process.value.handlers[h];
      WithHandler(w, h, handler.(stage := Sent(handler.stage.ordinal, bill)))
        .(sends := w.sends + [Send(handler.stage.ordinal, handler.request, bill)])
    case Settle(h, outcome) =>
      var p := w.process.value;
      var handler := p.handlers[h];
      var i := handler.stage.ordinal - 1;
      var row := p.book.rows[i].(status := NewStatus(outcome), cost := NewCost(outcome));
      WithProcess(WithHandler(w, h, handler.(stage := Settling(Again(handler, outcome)))),
                  p.book.(rows := p.book.rows[i := row]), Some(h))
  }

  function WithHandler(w: World, h: nat, handler: Handler): World
    requires w.process.Some?
  {
    w.(process := Some(w.process.value.(handlers := w.process.value.handlers[h := handler])))
  }

  function WithProcess(w: World, book: Book, lock: Option<nat>): World
    requires w.process.Some?
  {
    w.(process := Some(w.process.value.(book := book, lock := lock)))
  }

  /** A run is a sequence of enabled steps. */
  predicate IsRun(w: World, es: seq<Event>)
    decreases |es|, 0
  {
    es == [] || (IsRun(w, es[..|es| - 1]) && Enabled(Run(w, es[..|es| - 1]), es[|es| - 1]))
  }

  function Run(w: World, es: seq<Event>): World
    requires IsRun(w, es)
    decreases |es|, 1
  {
    if es == [] then w else Next(Run(w, es[..|es| - 1]), es[|es| - 1])
  }

  /** A file that no gateway has written to yet, possibly with an opening payment. */
  predicate Fresh(w: World) {
    && w.disk.prior >= 0.0 && w.disk.rows == [] && w.process.None? && w.sends == []
    && w.cap == w.disk.prior && w.granted == 0.0
  }

  // -------------------------------------------------------------- invariants

  ghost predicate RowOk(row: Row, i: nat) {
    && row.ordinal == i + 1 && row.reserved >= 0.0
    && (ExplicitCost(row.cost).Some? ==> row.status == Completed)
    && (row.status == InFlight ==> row.cost == Missing)
  }

  ghost predicate RowsOk(rows: seq<Row>) {
    forall i :: 0 <= i < |rows| ==> RowOk(rows[i], i)
  }

  /** The row of a send still holds the whole reservation, or exactly what was billed. */
  ghost predicate SendCovered(rows: seq<Row>, s: Send) {
    && 1 <= s.ordinal <= |rows|
    && WellFormed(s.request)
    && rows[s.ordinal - 1].reserved == Amount(s.request)
    && var cost := ExplicitCost(rows[s.ordinal - 1].cost);
    (cost.Some? ==> cost.value == Charge(s.bill))
  }

  ghost predicate Covers(rows: seq<Row>, sends: seq<Send>) {
    forall k :: 0 <= k < |sends| ==> SendCovered(rows, sends[k])
  }

  ghost predicate IsSent(sends: seq<Send>, ordinal: nat) {
    exists k :: 0 <= k < |sends| && sends[k].ordinal == ordinal
  }

  ghost predicate BilledAs(sends: seq<Send>, ordinal: nat, bill: Bill) {
    forall k :: 0 <= k < |sends| && sends[k].ordinal == ordinal ==> sends[k].bill == bill
  }

  /** A cost is only ever recorded for a row that was sent. */
  ghost predicate Backed(rows: seq<Row>, sends: seq<Send>) {
    forall i :: 0 <= i < |rows| && ExplicitCost(rows[i].cost).Some? ==> IsSent(sends, i + 1)
  }

  ghost predicate DistinctSends(sends: seq<Send>) {
    forall j, k :: 0 <= j < k < |sends| ==> sends[j].ordinal != sends[k].ordinal
  }

  /** The row a handler is working on. */
  function Current(handler: Handler): Option<nat> {
    match handler.stage
    case Reserving(o) => Some(o)
    case Reserved(o) => Some(o)
    case Sent(o, _) => Some(o)
    case _ => None
  }

  ghost predicate Failed(rows: seq<Row>, ordinal: nat) {
    1 <= ordinal <= |rows| && rows[ordinal - 1].status == ProviderFailed
  }

  /** No row but the latest of a request may be anything other than an explicit failure. */
  ghost predicate OnlyFailuresRetried(rows: seq<Row>, handler: Handler) {
    && (forall i :: 0 <= i < |handler.mine| - 1 ==> Failed(rows, handler.mine[i]))
    && (handler.stage.Ready? || handler.stage == Settling(true) ==>
          forall i :: 0 <= i < |handler.mine| ==> Failed(rows, handler.mine[i]))
    && |handler.mine| <= handler.attempt + 1 <= handler.request.retries + 1
    && (handler.stage.Ready? ==> |handler.mine| == handler.attempt)
    && (!handler.stage.Ready? && !handler.stage.Closed? ==> |handler.mine| == handler.attempt + 1)
    && (handler.stage == Settling(true) ==> handler.attempt < handler.request.retries)
    && (Current(handler).Some? ==> handler.mine != [] && handler.mine[|handler.mine| - 1] == Current(handler).value)
  }

  ghost predicate CurrentOk(w: World, p: Process, h: nat, handler: Handler) {
    match Current(handler)
    case None => true
    case Some(o) =>
      && p.inherited < o <= |p.book.rows|
      && p.book.rows[o - 1].status == InFlight
      && WellFormed(handler.request) && p.book.rows[o - 1].reserved == Amount(handler.request)
      && (handler.stage.Reserving? ==> !IsSent(w.sends, o))
      && (handler.stage.Reserved? ==> o <= |w.disk.rows| && !IsSent(w.sends, o))
      && (handler.stage.Sent? ==> o <= |w.disk.rows| && IsSent(w.sends, o))
      && (handler.stage.Sent? ==> BilledAs(w.sends, o, handler.stage.bill))
  }

  ghost predicate HandlerOk(w: World, p: Process, h: nat, handler: Handler) {
    && WellFormed(handler.request)
    && CurrentOk(w, p, h, handler)
    && OnlyFailuresRetried(p.book.rows, handler)
    && (handler.stage.Reserving? || handler.stage.Settling? <==> p.lock == Some(h))
  }

  ghost predicate HandlersOk(w: World, p: Process) {
    && (forall h :: h in p.handlers ==> HandlerOk(w, p, h, p.handlers[h]))
    && (forall g, h :: g in p.handlers && h in p.handlers && g != h && Current(p.handlers[g]).Some?
          ==> Current(p.handlers[g]) != Current(p.handlers[h]))
    && (p.lock.Some? ==> p.lock.value in p.handlers)
  }

  /** The saved row is the reservation that the row in memory was settled from. */
  predicate Unsettled(saved: Row, row: Row) {
    saved.status == InFlight && saved.cost == Missing && saved.reserved == row.reserved
  }

  /** The file lags memory by at most one unsaved change. */
  ghost predicate Follows(saved: seq<Row>, rows: seq<Row>) {
    && |saved| <= |rows|
    && forall i :: 0 <= i < |saved| ==> saved[i] == rows[i] || Unsettled(saved[i], rows[i])
  }

  ghost predicate BooksOk(w: World, p: Process) {
    && RowsOk(p.book.rows) && Covers(p.book.rows, w.sends) && Backed(p.book.rows, w.sends)
    && p.book.prior == w.disk.prior
    && p.inherited <= |w.disk.rows| && Follows(w.disk.rows, p.book.rows)
    && (p.lock.None? ==> p.book == w.disk)
  }

  function NewExcess(p: Process): real
    requires p.inherited <= |p.book.rows|
  {
    ExcessOf(p.book.rows) - ExcessOf(p.book.rows[..p.inherited])
  }

  /** The two limits of one process, up to what its own rows were settled above their reservation. */
  ghost predicate WithinLimits(p: Process)
    requires p.inherited <= |p.book.rows|
  {
    && Exposure(p.book) <= Max(p.ceiling, p.opening) + NewExcess(p)
    && Exposure(p.book) - p.opening <= p.tranche + NewExcess(p)
  }

  ghost predicate WithinHistory(w: World, p: Process)
    requires p.inherited <= |p.book.rows|
  {
    && p.ceiling <= w.cap
    && p.opening <= w.cap + ExcessOf(p.book.rows[..p.inherited])
    && p.opening <= w.disk.prior + w.granted - p.tranche + ExcessOf(p.book.rows[..p.inherited])
  }

  ghost predicate DiskOk(w: World) {
    && w.disk.prior >= 0.0
    && RowsOk(w.disk.rows) && Covers(w.disk.rows, w.sends) && Backed(w.disk.rows, w.sends)
    && DistinctSends(w.sends)
    && Exposure(w.disk) <= w.cap + ExcessOf(w.disk.rows)
    && Exposure(w.disk) <= w.disk.prior + w.granted + ExcessOf(w.disk.rows)
  }

  ghost predicate MoneyOk(w: World) {
    && DiskOk(w)
    && (w.process.Some? ==>
          && BooksOk(w, w.process.value)
          && WithinLimits(w.process.value)
          && WithinHistory(w, w.process.value))
  }

  ghost predicate Inv(w: World) {
    MoneyOk(w) && (w.process.Some? ==> HandlersOk(w, w.process.value))
  }

  // ------------------------------------------------------- every step keeps it

  /** What a step of handler `h` may do to the rows and sends that the others rely on. */
  ghost predicate LeavesOthers(w: World, p: Process, w': World, p': Process, h: nat) {
    && |p.book.rows| <= |p'.book.rows| && |w.disk.rows| <= |w'.disk.rows| && p'.inherited == p.inherited
    && h in p.handlers && h in p'.handlers
    && var own := Current(p.handlers[h]);
    && (forall i :: 0 <= i < |p.book.rows| && own != Some(i + 1) ==> p'.book.rows[i] == p.book.rows[i])
    && (own.Some? ==> 1 <= own.value <= |p.book.rows| && p.book.rows[own.value - 1].status == InFlight)
    && (w'.sends == w.sends || (own.Some? && exists s: Send :: s.ordinal == own.value && w'.sends == w.sends + [s]))
    && (p'.lock == p.lock || ((p.lock.None? || p.lock == Some(h)) && (p'.lock.None? || p'.lock == Some(h))))
  }

  lemma OtherHandlerKept(w: World, p: Process, w': World, p': Process, h: nat, g: nat)
    requires HandlersOk(w, p) && LeavesOthers(w, p, w', p', h)
    requires g in p.handlers && g != h
    ensures HandlerOk(w', p', g, p.handlers[g])
  {
    var handler := p.handlers[g];
    assert HandlerOk(w, p, g, handler);
    if w'.sends != w.sends {
      var s: Send :| w'.sends == w.sends + [s] && s.ordinal == Current(p.handlers[h]).value;
      forall o | Current(handler) == Some(o)
        ensures IsSent(w'.sends, o) <==> IsSent(w.sends, o)
      {
        assert forall k :: 0 <= k < |w.sends| ==> w'.sends[k] == w.sends[k];
      }
    }
    forall o | Failed(p.book.rows, o)
      ensures Failed(p'.book.rows, o)
    {}
  }

  lemma HandlersKept(w: World, p: Process, w': World, p': Process, h: nat, next: Handler)
    requires HandlersOk(w, p) && LeavesOthers(w, p, w', p', h)
    requires p'.handlers == p.handlers[h := next] && HandlerOk(w', p', h, next)
    requires Current(next).Some? ==> Current(next) == Current(p.handlers[h]) || Current(next).value > |p.book.rows|
    ensures HandlersOk(w', p')
  {
    hide OnlyFailuresRetried;
    forall g | g in p'.handlers
      ensures HandlerOk(w', p', g, p'.handlers[g])
    {
      if g != h { OtherHandlerKept(w, p, w', p', h, g); }
    }
    forall g | g in p.handlers && Current(p.handlers[g]).Some?
      ensures Current(p.handlers[g]).value <= |p.book.rows|
    {
      assert HandlerOk(w, p, g, p.handlers[g]);
    }
  }

  lemma AmountPositive(request: Request)
    requires WellFormed(request)
    ensures Amount(request) > 0.0
  {
    PreparedOutputIsEnforced(request.body, request.kind, request.profile);
  }

  lemma StartKeepsInv(w: World, ceiling: real, tranche: real)
    requires Inv(w) && Enabled(w, Start(ceiling, tranche))
    ensures Inv(Next(w, Start(ceiling, tranche)))
  {
    assert w.disk.rows[..|w.disk.rows|] == w.disk.rows;
  }

  lemma AcceptKeepsInv(w: World, h: nat, request: Request)
    requires Inv(w) && Enabled(w, Accept(h, request))
    ensures Inv(Next(w, Accept(h, request)))
  {
    var w' := Next(w, Accept(h, request));
    var p, p' := w.process.value, w'.process.value;
    forall g | g in p'.handlers
      ensures HandlerOk(w', p', g, p'.handlers[g])
    {
      if g != h { assert HandlerOk(w, p, g, p.handlers[g]); }
    }
  }

  lemma BooksAfterReserve(w: World, book: Book, row: Row)
    requires RowsOk(book.rows) && Covers(book.rows, w.sends) && Backed(book.rows, w.sends)
    requires row.reserved >= 0.0 && row == NewRow(book, row.reserved, row.kind)
    ensures var rows' := book.rows + [row];
            && RowsOk(rows') && Covers(rows', w.sends) && Backed(rows', w.sends)
            && ExposureOf(rows') == ExposureOf(book.rows) + row.reserved
            && ExcessOf(rows') == ExcessOf(book.rows)
  {
    TotalsAfterAppend(book.rows, row);
    forall k | 0 <= k < |w.sends|
      ensures SendCovered(book.rows + [row], w.sends[k])
    {
      assert SendCovered(book.rows, w.sends[k]);
    }
  }

  /** The process has other rows, and perhaps another lock and other handlers. */
  predicate OnlyRows(p: Process, next: Process, rows: seq<Row>) {
    next == p.(book := p.book.(rows := rows), lock := next.lock, handlers := next.handlers)
  }

  /** Appending a row that fits: the refusal test is exactly what the two limits need. */
  lemma AppendKeepsMoney(w: World, p: Process, row: Row, next: World)
    requires MoneyOk(w) && w.process == Some(p) && p.lock.None?
    requires row.reserved >= 0.0 && row == NewRow(p.book, row.reserved, row.kind)
    requires Fits(p.book, p.opening, p.ceiling, p.tranche, row.reserved)
    requires next.process.Some? && next == w.(process := next.process)
    requires OnlyRows(p, next.process.value, p.book.rows + [row])
    requires next.process.value.lock.Some?
    ensures MoneyOk(next)
  {
    BooksAfterReserve(w, p.book, row);
    assert (p.book.rows + [row])[..p.inherited] == p.book.rows[..p.inherited];
    ExcessGrows(p.book.rows, p.inherited);
  }

  lemma ReserveKeepsMoney(w: World, h: nat)
    requires Inv(w) && Enabled(w, Reserve(h))
    ensures MoneyOk(Next(w, Reserve(h)))
  {
    var w' := Next(w, Reserve(h));
    var p, p' := w.process.value, w'.process.value;
    if p'.handlers[h].stage.Reserving? {
      AmountPositive(p.handlers[h].request);
      AppendKeepsMoney(w, p, p'.book.rows[|p.book.rows|], w');
    }
  }

  lemma ReserveKeepsHandlers(w: World, h: nat)
    requires Inv(w) && Enabled(w, Reserve(h))
    ensures HandlersOk(Next(w, Reserve(h)), Next(w, Reserve(h)).process.value)
  {
    hide WellFormed, BilledAs;
    var w' := Next(w, Reserve(h));
    var p, p' := w.process.value, w'.process.value;
    assert HandlerOk(w, p, h, p.handlers[h]);
    if p'.handlers[h].stage.Reserving? {
      forall k | 0 <= k < |w.sends|
        ensures w.sends[k].ordinal <= |p.book.rows|
      {
        assert SendCovered(p.book.rows, w.sends[k]);
      }
    }
    HandlersKept(w, p, w', p', h, p'.handlers[h]);
  }

  lemma PersistKeepsMoney(w: World, h: nat)
    requires Inv(w) && Enabled(w, Persist(h))
    ensures MoneyOk(Next(w, Persist(h)))
  {
    var p := w.process.value;
    ExcessNonNegative(p.book.rows[..p.inherited]);
    ExcessNonNegative(p.book.rows);
  }

  lemma PersistKeepsHandlers(w: World, h: nat)
    requires w.process.Some? && HandlersOk(w, w.process.value)
    requires Follows(w.disk.rows, w.process.value.book.rows) && Enabled(w, Persist(h))
    ensures HandlersOk(Next(w, Persist(h)), Next(w, Persist(h)).process.value)
  {
    hide WellFormed, IsSent;
    var w' := Next(w, Persist(h));
    var p, p' := w.process.value, w'.process.value;
    assert HandlerOk(w, p, h, p.handlers[h]);
    HandlersKept(w, p, w', p', h, p'.handlers[h]);
  }

  lemma SentAfterTransmit(w: World, s: Send, o: nat)
    ensures IsSent(w.sends + [s], o) <==> IsSent(w.sends, o) || s.ordinal == o
  {
    var sends := w.sends + [s];
    assert sends[|w.sends|] == s;
    assert forall k :: 0 <= k < |w.sends| ==> sends[k] == w.sends[k];
  }

  lemma BooksAfterSend(rows: seq<Row>, w: World, s: Send)
    requires Covers(rows, w.sends) && Backed(rows, w.sends) && SendCovered(rows, s)
    ensures Covers(rows, w.sends + [s]) && Backed(rows, w.sends + [s])
  {
    forall i | IsSent(w.sends, i)
      ensures IsSent(w.sends + [s], i)
    {
      SentAfterTransmit(w, s, i);
    }
  }

  lemma TransmitKeepsMoney(w: World, h: nat, bill: Bill)
    requires Inv(w) && Enabled(w, Transmit(h, bill))
    ensures MoneyOk(Next(w, Transmit(h, bill)))
  {
    var p := w.process.value;
    var s := Send(p.handlers[h].stage.ordinal, p.handlers[h].request, bill);
    assert HandlerOk(w, p, h, p.handlers[h]);
    assert SendCovered(p.book.rows, s) && SendCovered(w.disk.rows, s);
    BooksAfterSend(p.book.rows, w, s);
    BooksAfterSend(w.disk.rows, w, s);
    NewSendIsDistinct(w.sends, s);
  }

  lemma NewSendIsDistinct(sends: seq<Send>, s: Send)
    requires DistinctSends(sends) && !IsSent(sends, s.ordinal)
    ensures DistinctSends(sends + [s])
  {}

  lemma SenderAfterTransmit(w: World, p: Process, h: nat, bill: Bill)
    requires Enabled(w, Transmit(h, bill)) && w.process == Some(p) && HandlerOk(w, p, h, p.handlers[h])
    ensures var w' := Next(w, Transmit(h, bill));
            HandlerOk(w', w'.process.value, h, w'.process.value.handlers[h])
  {
    var s := Send(p.handlers[h].stage.ordinal, p.handlers[h].request, bill);
    SentAfterTransmit(w, s, s.ordinal);
    assert BilledAs(w.sends + [s], s.ordinal, bill);
  }

  lemma TransmitKeepsHandlers(w: World, h: nat, bill: Bill)
    requires Inv(w) && Enabled(w, Transmit(h, bill))
    ensures HandlersOk(Next(w, Transmit(h, bill)), Next(w, Transmit(h, bill)).process.value)
  {
    var w' := Next(w, Transmit(h, bill));
    var p, p' := w.process.value, w'.process.value;
    assert HandlerOk(w, p, h, p.handlers[h]);
    SenderAfterTransmit(w, p, h, bill);
    assert w'.sends == w.sends + [Send(p.handlers[h].stage.ordinal, p.handlers[h].request, bill)];
    HandlersKept(w, p, w', p', h, p'.handlers[h]);
  }

  /** Settling one in-flight row with what was billed keeps the books and moves exposure by at most the excess. */
  lemma BooksAfterSettle(rows: seq<Row>, sends: seq<Send>, i: nat, bill: Bill, outcome: Outcome)
    requires RowsOk(rows) && Covers(rows, sends) && Backed(rows, sends)
    requires i < |rows| && rows[i].status == InFlight && IsSent(sends, i + 1) && BilledAs(sends, i + 1, bill)
    requires outcome.Answered? && ExplicitCost(outcome.cost).Some? ==> ExplicitCost(outcome.cost).value == Charge(bill)
    ensures var rows' := rows[i := rows[i].(status := NewStatus(outcome), cost := NewCost(outcome))];
            && RowsOk(rows') && Covers(rows', sends) && Backed(rows', sends)
            && ExposureOf(rows') - ExposureOf(rows) <= ExcessOf(rows') - ExcessOf(rows)
  {
    var row := rows[i].(status := NewStatus(outcome), cost := NewCost(outcome));
    var rows' := rows[i := row];
    TotalsAfterUpdate(rows, i, row);
    forall k | 0 <= k < |sends|
      ensures SendCovered(rows', sends[k])
    {
      assert SendCovered(rows, sends[k]);
    }
  }

  lemma FollowsAfterSettle(saved: seq<Row>, rows: seq<Row>, i: nat, row: Row)
    requires saved == rows && i < |rows| && rows[i].status == InFlight && rows[i].cost == Missing
    requires row.reserved == rows[i].reserved
    ensures Follows(saved, rows[i := row])
  {}

  lemma UpdateKeepsMoney(w: World, p: Process, i: nat, bill: Bill, outcome: Outcome, next: World)
    requires MoneyOk(w) && w.process == Some(p) && p.lock.None?
    requires p.inherited <= i < |p.book.rows| && p.book.rows[i].status == InFlight
    requires IsSent(w.sends, i + 1) && BilledAs(w.sends, i + 1, bill)
    requires outcome.Answered? && ExplicitCost(outcome.cost).Some? ==> ExplicitCost(outcome.cost).value == Charge(bill)
    requires next.process.Some? && next == w.(process := next.process)
    requires var row := p.book.rows[i].(status := NewStatus(outcome), cost := NewCost(outcome));
             OnlyRows(p, next.process.value, p.book.rows[i := row])
    requires next.process.value.lock.Some?
    ensures MoneyOk(next)
  {
    BooksAfterSettle(p.book.rows, w.sends, i, bill, outcome);
    var row := p.book.rows[i].(status := NewStatus(outcome), cost := NewCost(outcome));
    FollowsAfterSettle(w.disk.rows, p.book.rows, i, row);
    assert p.book.rows[i := row][..p.inherited] == p.book.rows[..p.inherited];
  }

  lemma SettleKeepsMoney(w: World, h: nat, outcome: Outcome)
    requires Inv(w) && Enabled(w, Settle(h, outcome))
    ensures MoneyOk(Next(w, Settle(h, outcome)))
  {
    hide MoneyOk;
    var p := w.process.value;
    var stage := p.handlers[h].stage;
    assert HandlerOk(w, p, h, p.handlers[h]);
    UpdateKeepsMoney(w, p, stage.ordinal - 1, stage.bill, outcome, Next(w, Settle(h, outcome)));
  }

  lemma SettlerAfterSettle(w: World, p: Process, h: nat, outcome: Outcome)
    requires w.process == Some(p) && HandlersOk(w, p) && Enabled(w, Settle(h, outcome))
    ensures var w' := Next(w, Settle(h, outcome));
            HandlerOk(w', w'.process.value, h, w'.process.value.handlers[h])
  {
    var p' := Next(w, Settle(h, outcome)).process.value;
    var handler := p.handlers[h];
    assert HandlerOk(w, p, h, handler);
    forall o | Failed(p.book.rows, o)
      ensures Failed(p'.book.rows, o)
    {}
    assert Again(handler, outcome) ==>
        Failed(p'.book.rows, handler.stage.ordinal) && handler.attempt < handler.request.retries;
  }

  lemma SettleKeepsHandlers(w: World, h: nat, outcome: Outcome)
    requires w.process.Some? && HandlersOk(w, w.process.value)
    requires Follows(w.disk.rows, w.process.value.book.rows) && Enabled(w, Settle(h, outcome))
    ensures HandlersOk(Next(w, Settle(h, outcome)), Next(w, Settle(h, outcome)).process.value)
  {
    var w' := Next(w, Settle(h, outcome));
    var p, p' := w.process.value, w'.process.value;
    SettlerAfterSettle(w, p, h, outcome);
    assert HandlerOk(w, p, h, p.handlers[h]);
    HandlersKept(w, p, w', p', h, p'.handlers[h]);
  }

  lemma StepKeepsInv(w: World, e: Event)
    requires Inv(w) && Enabled(w, e)
    ensures Inv(Next(w, e))
  {
    match e
    case Start(ceiling, tranche) => StartKeepsInv(w, ceiling, tranche);
    case Crash =>
    case Accept(h, request) => AcceptKeepsInv(w, h, request);
    case Reserve(h) => ReserveKeepsMoney(w, h); ReserveKeepsHandlers(w, h);
    case Persist(h) => PersistKeepsMoney(w, h); PersistKeepsHandlers(w, h);
    case Transmit(h, bill) => TransmitKeepsMoney(w, h, bill); TransmitKeepsHandlers(w, h, bill);
    case Settle(h, outcome) => SettleKeepsMoney(w, h, outcome); SettleKeepsHandlers(w, h, outcome);
  }

  // ------------------------------------------------------------ whole histories

  lemma {:induction false} RunKeepsInv(w: World, es: seq<Event>)
    requires Fresh(w) && IsRun(w, es)
    ensures Inv(Run(w, es))
    decreases |es|
  {
    if es != [] {
      RunKeepsInv(w, es[..|es| - 1]);
      StepKeepsInv(Run(w, es[..|es| - 1]), es[|es| - 1]);
    }
  }

  /** The highest ceiling any process was started with, or the opening payment. */
  function HighestCeiling(prior: real, es: seq<Event>): real {
    if es == [] then prior
    else
      var rest := HighestCeiling(prior, es[..|es| - 1]);
      if es[|es| - 1].Start? then Max(rest, es[|es| - 1].ceiling) else rest
  }

  function TrancheSum(es: seq<Event>): real {
    if es == [] then 0.0
    else TrancheSum(es[..|es| - 1]) + (if es[|es| - 1].Start? then es[|es| - 1].tranche else 0.0)
  }

  lemma {:induction false} HistoryIsRecorded(w: World, es: seq<Event>)
    requires Fresh(w) && IsRun(w, es)
    ensures Run(w, es).cap == HighestCeiling(w.disk.prior, es)
    ensures Run(w, es).granted == TrancheSum(es)
    ensures Run(w, es).disk.prior == w.disk.prior
    decreases |es|
  {
    hide HandlersOk, DiskOk, WithinLimits, WithinHistory, RowsOk, Covers, Backed, Follows;
    if es != [] {
      var before := Run(w, es[..|es| - 1]);
      HistoryIsRecorded(w, es[..|es| - 1]);
      RunKeepsInv(w, es[..|es| - 1]);
      assert Inv(before);
    }
  }

  /** One step only adds rows to the file and settles rows that were not settled. */
  lemma StepSettles(w: World, e: Event)
    requires Inv(w) && Enabled(w, e)
    ensures SettledRises(w.disk.rows, Next(w, e).disk.rows) && Next(w, e).disk.prior == w.disk.prior
  {
    hide HandlersOk, DiskOk;
    if e.Persist? { assert Follows(w.disk.rows, w.process.value.book.rows); }
  }

  /** So from any moment of a run on, the rows on file are only added to, and their settled costs only rise. */
  lemma {:induction false} SavedRowsRise(w: World, es: seq<Event>, k: nat)
    requires Fresh(w) && IsRun(w, es) && k <= |es|
    ensures IsRun(w, es[..k])
    ensures SettledRises(Run(w, es[..k]).disk.rows, Run(w, es).disk.rows)
    ensures Run(w, es[..k]).disk.prior == Run(w, es).disk.prior
    decreases |es|
  {
    if k == |es| {
      assert es[..k] == es;
    } else {
      var front := es[..|es| - 1];
      assert front[..k] == es[..k];
      SavedRowsRise(w, front, k);
      RunKeepsInv(w, front);
      StepSettles(Run(w, front), es[|es| - 1]);
    }
  }

  /**
   Over every interleaving, crash and restart: the file never shows more exposure than
   the highest ceiling (or the opening payment), nor more than the opening payment
   plus all tranches, except for what rows were settled above their reservation;
   what is paid is within what is exposed; and rows are numbered 1..n.
   */
  lemma ExposureOverHistory(w: World, es: seq<Event>)
    requires Fresh(w) && IsRun(w, es)
    ensures var disk := Run(w, es).disk;
            && Exposure(disk) <= HighestCeiling(w.disk.prior, es) + ExcessOf(disk.rows)
            && Exposure(disk) <= w.disk.prior + TrancheSum(es) + ExcessOf(disk.rows)
            && Paid(disk) <= Exposure(disk)
            && Numbered(disk.rows)
  {
    RunKeepsInv(w, es);
    HistoryIsRecorded(w, es);
    PaidWithinExposure(Run(w, es).disk.rows);
  }

  /** Within one process both limits hold at every moment, in memory as well as on disk. */
  lemma ExposureWithinProcess(w: World, es: seq<Event>)
    requires Fresh(w) && IsRun(w, es) && Run(w, es).process.Some?
    ensures var p := Run(w, es).process.value;
            && p.inherited <= |p.book.rows|
            && Exposure(p.book) <= Max(p.ceiling, p.opening) + NewExcess(p)
            && Exposure(p.book) - p.opening <= p.tranche + NewExcess(p)
            && (p.lock.None? ==> p.book == Run(w, es).disk)
  {
    RunKeepsInv(w, es);
  }

  lemma {:induction false} NoExcess(rows: seq<Row>)
    requires forall i :: 0 <= i < |rows| ==> Settled(rows[i]) <= rows[i].reserved
    ensures ExcessOf(rows) == 0.0
  {
    if rows != [] {
      NoExcess(rows[..|rows| - 1]);
    }
  }

  /** Every request on the wire had its own row, already saved, when it was sent, and still has it. */
  lemma EverySendHasItsOwnSavedRow(w: World, es: seq<Event>)
    requires Fresh(w) && IsRun(w, es)
    ensures var v := Run(w, es);
            && DistinctSends(v.sends)
            && forall k :: 0 <= k < |v.sends| ==>
                 && 1 <= v.sends[k].ordinal <= |v.disk.rows|
                 && WellFormed(v.sends[k].request)
                 && v.disk.rows[v.sends[k].ordinal - 1].reserved == Amount(v.sends[k].request)
  {
    RunKeepsInv(w, es);
    var v := Run(w, es);
    forall k | 0 <= k < |v.sends|
      ensures SendCovered(v.disk.rows, v.sends[k])
    {}
  }

  lemma HandlerOfRun(w: World, es: seq<Event>, h: nat)
    requires Fresh(w) && IsRun(w, es) && Run(w, es).process.Some? && h in Run(w, es).process.value.handlers
    ensures var v := Run(w, es);
            BooksOk(v, v.process.value) && HandlerOk(v, v.process.value, h, v.process.value.handlers[h])
  {
    RunKeepsInv(w, es);
  }

  /** Nothing goes out while its row exists in memory only: a send finds its row saved and in flight. */
  lemma SendAfterSave(w: World, es: seq<Event>, h: nat, bill: Bill)
    requires Fresh(w) && IsRun(w, es) && Enabled(Run(w, es), Transmit(h, bill))
    ensures var v := Run(w, es);
            var o := v.process.value.handlers[h].stage.ordinal;
            && 1 <= o <= |v.disk.rows|
            && v.disk.rows[o - 1].reserved == Amount(v.process.value.handlers[h].request)
            && v.disk.rows[o - 1].status == InFlight
            && !IsSent(v.sends, o)
  {
    hide WellFormed;
    HandlerOfRun(w, es, h);
  }

  /**
   An answered or uncertain attempt is never replayed: before the latest attempt of a
   request there are only explicit provider failures, a chat request has one attempt
   and an embedding request at most one more than its retry limit.
   */
  lemma NeverReplayed(w: World, es: seq<Event>, h: nat)
    requires Fresh(w) && IsRun(w, es) && Run(w, es).process.Some? && h in Run(w, es).process.value.handlers
    ensures var p := Run(w, es).process.value;
            var handler := p.handlers[h];
            && (forall i :: 0 <= i < |handler.mine| - 1 ==> Failed(p.book.rows, handler.mine[i]))
            && |handler.mine| <= handler.request.retries + 1
            && (handler.request.kind == Chat ==> |handler.mine| <= 1)
            && (handler.stage.Ready? ==> forall i :: 0 <= i < |handler.mine| ==> Failed(p.book.rows, handler.mine[i]))
  {
    HandlerOfRun(w, es, h);
  }

  // ------------------------------------------------- what the provider really bills

  function TotalCharge(sends: seq<Send>): real {
    if sends == [] then 0.0 else TotalCharge(sends[..|sends| - 1]) + Charge(sends[|sends| - 1].bill)
  }

  /** How far a bill goes beyond what had been reserved for it. */
  function Overrun(s: Send): real {
    if WellFormed(s.request) then Max(0.0, Charge(s.bill) - Amount(s.request)) else Max(0.0, Charge(s.bill))
  }

  function TotalOverrun(sends: seq<Send>): real {
    if sends == [] then 0.0 else TotalOverrun(sends[..|sends| - 1]) + Overrun(sends[|sends| - 1])
  }

  lemma {:induction false} ExposureNonNegative(rows: seq<Row>)
    requires forall i :: 0 <= i < |rows| ==> Contribution(rows[i]) >= 0.0
    ensures ExposureOf(rows) >= 0.0
  {
    if rows != [] { ExposureNonNegative(rows[..|rows| - 1]); }
  }

  lemma {:induction false} ChargesWithinRows(rows: seq<Row>, sends: seq<Send>)
    requires DistinctSends(sends)
    requires forall i :: 0 <= i < |rows| ==> Contribution(rows[i]) >= 0.0
    requires forall k :: 0 <= k < |sends| ==>
               && 1 <= sends[k].ordinal <= |rows|
               && Charge(sends[k].bill) <= Contribution(rows[sends[k].ordinal - 1]) + Overrun(sends[k])
    ensures TotalCharge(sends) <= ExposureOf(rows) + TotalOverrun(sends)
    decreases |sends|
  {
    if sends == [] {
      ExposureNonNegative(rows);
    } else {
      // Strike out the row of the last send; no other send uses it.
      var last := sends[|sends| - 1];
      var spent := rows[last.ordinal - 1].(reserved := 0.0, status := InFlight, cost := Missing);
      TotalsAfterUpdate(rows, last.ordinal - 1, spent);
      ChargesWithinRows(rows[last.ordinal - 1 := spent], sends[..|sends| - 1]);
    }
  }

  lemma ChargesWithinBooks(rows: seq<Row>, sends: seq<Send>)
    requires RowsOk(rows) && Covers(rows, sends) && DistinctSends(sends)
    ensures TotalCharge(sends) <= ExposureOf(rows) + TotalOverrun(sends)
  {
    forall k | 0 <= k < |sends|
      ensures 1 <= sends[k].ordinal <= |rows|
      ensures Charge(sends[k].bill) <= Contribution(rows[sends[k].ordinal - 1]) + Overrun(sends[k])
    {
      assert SendCovered(rows, sends[k]);
    }
    ChargesWithinRows(rows, sends);
  }

  /** Actual spending, including attempts whose outcome a crash has erased, stays inside the saved exposure. */
  lemma SpendWithinSavedExposure(w: World, es: seq<Event>)
    requires Fresh(w) && IsRun(w, es)
    ensures w.disk.prior + TotalCharge(Run(w, es).sends) <= Exposure(Run(w, es).disk) + TotalOverrun(Run(w, es).sends)
  {
    RunKeepsInv(w, es);
    HistoryIsRecorded(w, es);
    ChargesWithinBooks(Run(w, es).disk.rows, Run(w, es).sends);
  }

  ghost predicate AllHonoured(sends: seq<Send>) {
    forall k :: 0 <= k < |sends| ==>
      WellFormed(sends[k].request) && Honours(sends[k].bill, sends[k].request.size, Prepare(sends[k].request).limits)
  }

  lemma HonouredHasNoOverrun(s: Send)
    requires WellFormed(s.request) && Honours(s.bill, s.request.size, Prepare(s.request).limits)
    ensures Overrun(s) == 0.0 && Charge(s.bill) <= Amount(s.request)
  {
    ReservationDominatesCharge(s.request.body, s.request.kind, s.request.profile, s.request.size, s.bill);
  }

  lemma {:induction false} NoOverrun(sends: seq<Send>)
    requires AllHonoured(sends)
    ensures TotalOverrun(sends) == 0.0
  {
    if sends != [] {
      NoOverrun(sends[..|sends| - 1]);
      HonouredHasNoOverrun(sends[|sends| - 1]);
    }
  }

  /**
   The gateway's purpose: while the provider honours the limits put in each request,
   neither the money actually billed nor the exposure on file ever exceeds the
   highest ceiling (or the opening payment), nor the opening payment plus all tranches.
   */
  lemma SpendNeverExceedsCeiling(w: World, es: seq<Event>)
    requires Fresh(w) && IsRun(w, es) && AllHonoured(Run(w, es).sends)
    ensures var v := Run(w, es);
            var billed := w.disk.prior + TotalCharge(v.sends);
            && billed <= Exposure(v.disk)
            && Exposure(v.disk) <= HighestCeiling(w.disk.prior, es)
            && Exposure(v.disk) <= w.disk.prior + TrancheSum(es)
  {
    RunKeepsInv(w, es);
    SpendWithinSavedExposure(w, es);
    ExposureOverHistory(w, es);
    NoOverrun(Run(w, es).sends);
    HonouredRowsHaveNoExcess(Run(w, es));
    NoExcess(Run(w, es).disk.rows);
  }

  lemma HonouredRowsHaveNoExcess(v: World)
    requires Inv(v) && AllHonoured(v.sends)
    ensures forall i :: 0 <= i < |v.disk.rows| ==> Settled(v.disk.rows[i]) <= v.disk.rows[i].reserved
  {
    forall i | 0 <= i < |v.disk.rows|
      ensures Settled(v.disk.rows[i]) <= v.disk.rows[i].reserved
    {
      assert RowOk(v.disk.rows[i], i);
      if ExplicitCost(v.disk.rows[i].cost).Some? {
        var k :| 0 <= k < |v.sends| && v.sends[k].ordinal == i + 1;
        assert SendCovered(v.disk.rows, v.sends[k]);
        HonouredHasNoOverrun(v.sends[k]);
      }
    }
  }

  // ------------------------------------------------------ which steps are taken

  /**
   A reservation is refused exactly if the ledger with its row would exceed the ceiling, or
   what the process found by more than the tranche. Otherwise the row is in the ledger.
   */
  lemma RefusedIff(w: World, h: nat)
    requires Enabled(w, Reserve(h))
    ensures var p, next := w.process.value, Next(w, Reserve(h));
            var request, stage := p.handlers[h].request, next.process.value.handlers[h].stage;
            var wanted := Wanted(p.book, Amount(request), request.kind);
            && next.disk == w.disk && next.sends == w.sends
            && (stage == Closed <==> Exposure(wanted) > p.ceiling || Exposure(wanted) - p.opening > p.tranche)
            && (stage == Closed ==> next.process.value.book == p.book && next.process.value.lock.None?)
            && (stage != Closed ==>
                  && stage == Reserving(|wanted.rows|)
                  && next.process.value.book == wanted && next.process.value.lock == Some(h))
  {
    var p := w.process.value;
    var request := p.handlers[h].request;
    PreparedOutputIsEnforced(request.body, request.kind, request.profile);
    WantedExposure(p.book, Amount(request), request.kind);
  }

  /** A process keeps the limits it was started with, and the exposure it found on file. */
  lemma {:induction false} LimitsOfProcess(w: World, es: seq<Event>, i: nat)
    requires IsRun(w, es) && i < |es| && es[i].Start?
    requires forall k :: i < k < |es| ==> !es[k].Start? && !es[k].Crash?
    ensures IsRun(w, es[..i]) && Run(w, es).process.Some?
    ensures var p := Run(w, es).process.value;
            p.ceiling == es[i].ceiling && p.tranche == es[i].tranche && p.opening == Exposure(Run(w, es[..i]).disk)
    decreases |es|
  {
    var front := es[..|es| - 1];
    if i == |front| {
      assert es[..i] == front;
    } else {
      assert front[..i] == es[..i];
      LimitsOfProcess(w, front, i);
    }
  }

  /** Over a run: refused exactly beyond the ceiling given at the start, or the tranche beyond the file found then. */
  lemma RefusedInRunIff(w: World, es: seq<Event>, i: nat, h: nat)
    requires IsRun(w, es) && i < |es| && es[i].Start? && Enabled(Run(w, es), Reserve(h))
    requires forall k :: i < k < |es| ==> !es[k].Start? && !es[k].Crash?
    ensures IsRun(w, es[..i])
    ensures var v := Run(w, es);
            var request := v.process.value.handlers[h].request;
            var wanted := Exposure(Wanted(v.process.value.book, Amount(request), request.kind));
            Next(v, Reserve(h)).process.value.handlers[h].stage == Closed <==>
            wanted > es[i].ceiling || wanted - Exposure(Run(w, es[..i]).disk) > es[i].tranche
  {
    LimitsOfProcess(w, es, i);
    RefusedIff(Run(w, es), h);
  }

  /** What is recorded of an answer: its cost if that is usable, a failure or an uncertainty without any. */
  lemma SettledAs(w: World, h: nat, outcome: Outcome)
    requires Enabled(w, Settle(h, outcome))
    ensures var i := w.process.value.handlers[h].stage.ordinal - 1;
            var rows, after := w.process.value.book.rows, Next(w, Settle(h, outcome)).process.value.book.rows;
            && |after| == |rows| && (forall k :: 0 <= k < |rows| && k != i ==> after[k] == rows[k])
            && after[i].reserved == rows[i].reserved && after[i].ordinal == rows[i].ordinal
            && (after[i].status == Completed <==>
                  exists c: real :: c >= 0.0 && outcome == Answered(Numeric(c)) && after[i].cost == Numeric(c))
            && (after[i].status == CompletedCostUnknown <==>
                  outcome.Answered? && !(outcome.cost.Numeric? && outcome.cost.amount >= 0.0))
            && (after[i].status == ProviderFailed <==> outcome.HttpFailed?)
            && (after[i].status == Uncertain <==> outcome == Lost)
            && (!outcome.Answered? ==> after[i].cost == Missing)
  {
    if outcome.Answered? && outcome.cost.Numeric? && outcome.cost.amount >= 0.0 {
      assert outcome == Answered(Numeric(outcome.cost.amount));
    }
  }

  /** Once that is saved, another attempt follows an embedding throttle within the retries, and nothing else. */
  lemma AttemptFollowsIff(w: World, h: nat, outcome: Outcome)
    requires Enabled(w, Settle(h, outcome))
    ensures Enabled(Next(w, Settle(h, outcome)), Persist(h))
    ensures var handler, saved := w.process.value.handlers[h], Next(Next(w, Settle(h, outcome)), Persist(h));
            var after := saved.process.value.handlers[h];
            && saved.disk == saved.process.value.book && saved.process.value.lock.None?
            && (after.stage == Ready || after.stage == Closed)
            && (after.stage == Ready <==>
                  && outcome.HttpFailed? && outcome.code == 429 && handler.request.kind == Embedding
                  && handler.attempt < handler.request.retries
                  && (outcome.header == NoHeader || exists n :: 1 <= n <= 30 && outcome.header == Digits(n)))
            && after.attempt == handler.attempt + if after.stage == Ready then 1 else 0
  {
    if outcome.HttpFailed? {
      var handler := w.process.value.handlers[h];
      RetriedIff(handler.request.kind, outcome.code, handler.attempt, handler.request.retries, outcome.header);
    }
  }
}
