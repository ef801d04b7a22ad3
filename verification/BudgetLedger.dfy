/**
 The cost ledger of the text-only gateway (`scripts/benchmark_budget.py`): what a
 row is worth, what a request may cost, and the mutex-protected `Ledger` object.

 Money is an exact `real`; a row is identified by its ordinal.
 */
module BudgetLedger {
  import opened Wrappers

  const PROMPT_SLACK_TOKENS: nat := 8192
  const EMBEDDING_PRICE: real := 0.1
  const PER_MILLION: real := 1000000.0

  datatype Kind = Chat | Embedding

  datatype Status = InFlight | Completed | CompletedCostUnknown | ProviderFailed | Uncertain

  /** `usage.cost` as decoded JSON. A JSON boolean is a number here, as it is an `int` there. */
  datatype UsageCost = Missing | NotNumeric | NotFinite | Numeric(amount: real)

  datatype Row = Row(ordinal: nat, kind: Kind, reserved: real, status: Status, cost: UsageCost)

  datatype Book = Book(prior: real, rows: seq<Row>)

  function Max(a: real, b: real): real { if a < b then b else a }

  function ExplicitCost(cost: UsageCost): Option<real> {
    if cost.Numeric? && cost.amount >= 0.0 then Some(cost.amount) else None
  }

  /** The part of a row that is known to have been paid. */
  function Settled(row: Row): real {
    match ExplicitCost(row.cost)
    case Some(c) => c
    case None => 0.0
  }

  /** The part of a row that counts against the ceiling. */
  function Contribution(row: Row): real {
    if row.status == Completed && ExplicitCost(row.cost).Some?
    then Settled(row)
    else Max(row.reserved, Settled(row))
  }

  /** How far a row was settled above what it had reserved. */
  function RowExcess(row: Row): real { Max(0.0, Settled(row) - row.reserved) }

  /** A usable figure: a number that is not negative. Everything else counts as no cost at all. */
  lemma UsableCost(cost: UsageCost, c: real)
    ensures ExplicitCost(cost) == Some(c) <==> c >= 0.0 && cost == Numeric(c)
  {}

  /**
   What a row is worth: it counts for no less than it is known to have cost, and for no less
   than it reserved unless it completed at a known cost; and for no more than that asks.
   */
  lemma ContributionIsLeast(row: Row, x: real)
    ensures x >= Contribution(row) <==>
            && x >= Settled(row)
            && ((row.status == Completed && row.cost.Numeric? && row.cost.amount >= 0.0) || x >= row.reserved)
    ensures x == Settled(row) && x != 0.0 ==> x > 0.0 && row.cost == Numeric(x)
    ensures row.cost == Numeric(x) && x >= 0.0 ==> Settled(row) == x
  {}

  function PaidOf(rows: seq<Row>): real {
    if rows == [] then 0.0 else PaidOf(rows[..|rows| - 1]) + Settled(rows[|rows| - 1])
  }

  function ExposureOf(rows: seq<Row>): real {
    if rows == [] then 0.0 else ExposureOf(rows[..|rows| - 1]) + Contribution(rows[|rows| - 1])
  }

  function ExcessOf(rows: seq<Row>): real {
    if rows == [] then 0.0 else ExcessOf(rows[..|rows| - 1]) + RowExcess(rows[|rows| - 1])
  }

  function Paid(book: Book): real { book.prior + PaidOf(book.rows) }

  function Exposure(book: Book): real { book.prior + ExposureOf(book.rows) }

  /** Rows are only added, and the settled cost of a row only rises. */
  predicate SettledRises(before: seq<Row>, after: seq<Row>) {
    |before| <= |after| && forall i :: 0 <= i < |before| ==> Settled(before[i]) <= Settled(after[i])
  }

  /** Rows are numbered 1..n in the order in which they were reserved. */
  predicate Numbered(rows: seq<Row>) {
    forall i :: 0 <= i < |rows| ==> rows[i].ordinal == i + 1
  }

  /** One pass over the rows accumulates both totals. */
  method Totals(book: Book) returns (paid: real, exposure: real)
    ensures paid == Paid(book)
    ensures exposure == Exposure(book)
  {
    paid, exposure := book.prior, book.prior;
    for i := 0 to |book.rows|
      invariant paid == book.prior + PaidOf(book.rows[..i])
      invariant exposure == book.prior + ExposureOf(book.rows[..i])
    {
      var row := book.rows[i];
      var cost := ExplicitCost(row.cost);
      var known := if cost.Some? then cost.value else 0.0;
      assert book.rows[..i + 1][..i] == book.rows[..i];
      paid := paid + known;
      exposure := exposure +
        (if row.status == Completed && cost.Some? then known else Max(row.reserved, known));
    }
    assert book.rows[..|book.rows|] == book.rows;
  }

  /** What is paid is always within what is exposed, whatever the rows say. */
  lemma {:induction false} PaidWithinExposure(rows: seq<Row>)
    ensures PaidOf(rows) <= ExposureOf(rows)
  {
    if rows != [] {
      PaidWithinExposure(rows[..|rows| - 1]);
    }
  }

  lemma {:induction false} ExcessNonNegative(rows: seq<Row>)
    ensures ExcessOf(rows) >= 0.0
  {
    if rows != [] {
      ExcessNonNegative(rows[..|rows| - 1]);
    }
  }

  lemma {:induction false} ExcessGrows(rows: seq<Row>, k: nat)
    requires k <= |rows|
    ensures 0.0 <= ExcessOf(rows[..k]) <= ExcessOf(rows)
  {
    if k < |rows| {
      ExcessGrows(rows[..|rows| - 1], k);
      assert rows[..|rows| - 1][..k] == rows[..k];
    } else {
      assert rows[..k] == rows;
      ExcessNonNegative(rows);
    }
  }

  /** Replacing one row moves each total by the difference of the two rows. */
  lemma {:induction false} TotalsAfterUpdate(rows: seq<Row>, i: nat, row: Row)
    requires i < |rows|
    ensures ExposureOf(rows[i := row]) == ExposureOf(rows) - Contribution(rows[i]) + Contribution(row)
    ensures ExcessOf(rows[i := row]) == ExcessOf(rows) - RowExcess(rows[i]) + RowExcess(row)
  {
    var n := |rows| - 1;
    var updated := rows[i := row];
    if i == n {
      assert updated[..n] == rows[..n];
    } else {
      assert updated[..n] == rows[..n][i := row];
      TotalsAfterUpdate(rows[..n], i, row);
    }
  }

  lemma TotalsAfterAppend(rows: seq<Row>, row: Row)
    ensures ExposureOf(rows + [row]) == ExposureOf(rows) + Contribution(row)
    ensures ExcessOf(rows + [row]) == ExcessOf(rows) + RowExcess(row)
  {
    assert (rows + [row])[..|rows|] == rows;
  }

  // ---------------------------------------------------------------- requests

  /** The fields of a client body that decide what a request may cost. */
  datatype Body = Body(textOnly: bool, choices: int, maxTokens: Option<int>, maxCompletionTokens: Option<int>)

  datatype Profile = Profile(chatMaxTokens: int, forceChatMaxTokens: bool, promptPrice: real, completionPrice: real)
  {
    /** What the command line accepts. */
    predicate Valid() { chatMaxTokens > 0 && promptPrice > 0.0 && completionPrice > 0.0 }
  }

  datatype Refusal = TextOnlyProfile | MultipleChoices | InvalidOutputLimit

  /** What reaches the provider: an output limit and price caps (none on embedding output). */
  datatype Limits = Limits(maxTokens: Option<int>, maxPromptPrice: real, maxCompletionPrice: Option<real>)

  datatype Prepared = Prepared(limits: Limits, output: int)

  /** Python's `a or b`: a missing limit and a zero limit both fall through. */
  function Or(first: Option<int>, second: int): int {
    if first.Some? && first.value != 0 then first.value else second
  }

  function PrepareRequest(body: Body, kind: Kind, profile: Profile): Result<Prepared, Refusal> {
    if kind == Embedding then
      Ok(Prepared(Limits(body.maxTokens, EMBEDDING_PRICE, None), 0))
    else if !body.textOnly then
      Err(TextOnlyProfile)
    else if body.choices != 1 then
      Err(MultipleChoices)
    else
      var asked := Or(body.maxTokens, Or(body.maxCompletionTokens, profile.chatMaxTokens));
      var clamped := if asked < profile.chatMaxTokens then asked else profile.chatMaxTokens;
      var output := if profile.forceChatMaxTokens then profile.chatMaxTokens else clamped;
      if output <= 0 then
        Err(InvalidOutputLimit)
      else
        Ok(Prepared(Limits(Some(output), profile.promptPrice, Some(profile.completionPrice)), output))
  }

  function Reservation(size: nat, kind: Kind, output: int, profile: Profile): real {
    var promptPrice := if kind == Chat then profile.promptPrice else EMBEDDING_PRICE;
    ((size + PROMPT_SLACK_TOKENS) as real * promptPrice + output as real * profile.completionPrice) / PER_MILLION
  }

  /** What a provider bills for one attempt. */
  datatype Bill = Bill(promptTokens: nat, completionTokens: nat, promptPrice: real, completionPrice: real)

  function Charge(bill: Bill): real {
    (bill.promptTokens as real * bill.promptPrice + bill.completionTokens as real * bill.completionPrice) / PER_MILLION
  }

  /** The provider stays inside the limits that it was sent. An embedding produces no output tokens. */
  predicate Honours(bill: Bill, size: nat, limits: Limits) {
    && bill.promptTokens <= size + PROMPT_SLACK_TOKENS
    && 0.0 <= bill.promptPrice <= limits.maxPromptPrice
    && 0.0 <= bill.completionPrice
    && (match limits.maxCompletionPrice
        case Some(price) =>
          bill.completionPrice <= price && limits.maxTokens.Some? && bill.completionTokens <= limits.maxTokens.value
        case None => bill.completionTokens == 0)
  }

  lemma ProductMonotone(a: real, b: real, x: real, y: real)
    requires 0.0 <= a <= b && 0.0 <= x <= y
    ensures 0.0 <= a * x <= b * y
  {
    assert a * x <= b * x;
    assert b * x <= b * y;
  }

  /** A bill that honours the prepared limits never exceeds the reservation for that request. */
  lemma ReservationDominatesCharge(body: Body, kind: Kind, profile: Profile, size: nat, bill: Bill)
    requires profile.Valid()
    requires PrepareRequest(body, kind, profile).Ok?
    requires Honours(bill, size, PrepareRequest(body, kind, profile).value.limits)
    ensures 0.0 <= Charge(bill) <= Reservation(size, kind, PrepareRequest(body, kind, profile).value.output, profile)
  {
    var prepared := PrepareRequest(body, kind, profile).value;
    var limit, bound := prepared.limits.maxPromptPrice, size + PROMPT_SLACK_TOKENS;
    ProductMonotone(bill.promptTokens as real, bound as real, bill.promptPrice, limit);
    if kind == Chat {
      var tokens := bill.completionTokens as real;
      ProductMonotone(tokens, prepared.output as real, bill.completionPrice, profile.completionPrice);
    }
  }

  /** A prepared chat request carries its own output limit, within the profile; forcing pins it. */
  lemma PreparedOutputIsEnforced(body: Body, kind: Kind, profile: Profile)
    requires profile.Valid()
    requires PrepareRequest(body, kind, profile).Ok?
    ensures var p := PrepareRequest(body, kind, profile).value;
            if kind == Chat
            then 0 < p.output <= profile.chatMaxTokens && p.limits.maxTokens == Some(p.output)
              && (profile.forceChatMaxTokens ==> p.output == profile.chatMaxTokens)
              && (!profile.forceChatMaxTokens && body.maxTokens.Some? && body.maxTokens.value != 0 ==>
                    p.output <= body.maxTokens.value)
            else p.output == 0
    ensures forall size: nat :: Reservation(size, kind, PrepareRequest(body, kind, profile).value.output, profile) > 0.0
  {
    var output := PrepareRequest(body, kind, profile).value.output;
    forall size: nat
      ensures Reservation(size, kind, output, profile) > 0.0
    {
      var promptPrice := if kind == Chat then profile.promptPrice else EMBEDDING_PRICE;
      ProductMonotone(1.0, (size + PROMPT_SLACK_TOKENS) as real, promptPrice, promptPrice);
      ProductMonotone(0.0, output as real, 0.0, profile.completionPrice);
    }
  }

  /**
   Nothing is reserved in vain: some bill within the limits that were sent, with 8192 tokens
   more prompt than bytes, costs the whole reservation.
   */
  lemma ReservationIsTight(body: Body, kind: Kind, profile: Profile, size: nat) returns (bill: Bill)
    requires profile.Valid() && PrepareRequest(body, kind, profile).Ok?
    ensures Honours(bill, size, PrepareRequest(body, kind, profile).value.limits)
    ensures bill.promptTokens == size + 8192 && bill.promptPrice == if kind == Chat then profile.promptPrice else 0.1
    ensures bill.completionPrice == profile.completionPrice
    ensures Charge(bill) == Reservation(size, kind, PrepareRequest(body, kind, profile).value.output, profile)
    ensures Charge(bill) * 1000000.0 ==
            bill.promptTokens as real * bill.promptPrice + bill.completionTokens as real * bill.completionPrice
  {
    var prepared := PrepareRequest(body, kind, profile).value;
    bill := Bill(size + 8192, prepared.output, prepared.limits.maxPromptPrice, profile.completionPrice);
  }

  /** Which requests are refused, and the exact output limit of the others. */
  lemma OutputLimitIff(body: Body, profile: Profile, n: int)
    ensures PrepareRequest(body, Chat, profile).Ok? && PrepareRequest(body, Chat, profile).value.output == n <==>
            && body.textOnly && body.choices == 1 && 0 < n <= profile.chatMaxTokens
            && (n == profile.chatMaxTokens || (!profile.forceChatMaxTokens && AskedFor(body, n)))
            && (profile.forceChatMaxTokens || forall asked :: AskedFor(body, asked) ==> n <= asked)
  {
    var first, second := body.maxTokens, body.maxCompletionTokens;
    if first.Some? && first.value != 0 {
      assert AskedFor(body, first.value);
    } else if second.Some? && second.value != 0 {
      assert AskedFor(body, second.value);
    }
  }

  /** The first of the two limits of a request that is neither missing nor zero. */
  ghost predicate AskedFor(body: Body, n: int) {
    && n != 0
    && (|| body.maxTokens == Some(n)
        || ((body.maxTokens == None || body.maxTokens == Some(0)) && body.maxCompletionTokens == Some(n)))
  }

  // ----------------------------------------------------------------- retries

  /** The `Retry-After` header: absent, digits only (with their value), or anything else. */
  datatype RetryAfter = NoHeader | Digits(seconds: nat) | Malformed

  function Pow2(n: nat): nat { if n == 0 then 1 else 2 * Pow2(n - 1) }

  /** How long to wait before the next attempt; `None` ends the request. */
  function EmbeddingRetryDelay(kind: Kind, code: nat, attempt: nat, retries: nat, header: RetryAfter): Option<nat> {
    if kind != Embedding || code != 429 || attempt >= retries then None
    else match header
      case Digits(seconds) => if 0 < seconds <= 30 then Some(seconds) else None
      case Malformed => None
      case NoHeader => Some(Pow2(attempt + 1))
  }

  /** Exactly when another attempt follows. */
  lemma RetriedIff(kind: Kind, code: nat, attempt: nat, retries: nat, header: RetryAfter)
    ensures EmbeddingRetryDelay(kind, code, attempt, retries, header).Some? <==>
            && kind == Embedding && code == 429 && attempt < retries
            && (header == NoHeader || exists n :: 1 <= n <= 30 && header == Digits(n))
  {
    if header.Digits? && 1 <= header.seconds <= 30 { assert header == Digits(header.seconds); }
  }

  /** The provider's own delay is kept; without one it is two seconds at first and doubles with each attempt. */
  lemma RetryDelays(attempt: nat, retries: nat, n: nat)
    requires attempt < retries
    ensures 1 <= n <= 30 ==> EmbeddingRetryDelay(Embedding, 429, attempt, retries, Digits(n)) == Some(n)
    ensures EmbeddingRetryDelay(Embedding, 429, 0, retries, NoHeader) == Some(2)
    ensures attempt + 1 < retries ==>
              EmbeddingRetryDelay(Embedding, 429, attempt + 1, retries, NoHeader).value ==
              2 * EmbeddingRetryDelay(Embedding, 429, attempt, retries, NoHeader).value
  {
    assert Pow2(1) == 2 * Pow2(0);
  }

  // ------------------------------------------------------------------ ledger

  /** The two tests that refuse a reservation. */
  predicate Fits(book: Book, opening: real, ceiling: real, tranche: real, amount: real) {
    && Exposure(book) + amount <= ceiling
    && Exposure(book) - opening + amount <= tranche
  }

  function NewRow(book: Book, amount: real, kind: Kind): Row {
    Row(|book.rows| + 1, kind, amount, InFlight, Missing)
  }

  /** The book once the reservation that is asked for is in it. */
  function Wanted(book: Book, amount: real, kind: Kind): Book {
    book.(rows := book.rows + [Row(|book.rows| + 1, kind, amount, InFlight, Missing)])
  }

  /** A reservation counts in full from the start. */
  lemma WantedExposure(book: Book, amount: real, kind: Kind)
    ensures amount >= 0.0 ==> Exposure(Wanted(book, amount, kind)) == Exposure(book) + amount
  {
    TotalsAfterAppend(book.rows, Row(|book.rows| + 1, kind, amount, InFlight, Missing));
  }

  /** The in-memory value, the file it is saved to, and the exposure found when the process began. */
  class Ledger {
    var value: Book
    var disk: Book
    var opening: real
    const ceiling: real
    const tranche: real

    /** Whatever the process holds has been saved. */
    ghost predicate Valid()
      reads this
    {
      disk == value && Numbered(value.rows)
    }

    constructor (file: Option<Book>, ceiling: real, tranche: real)
      requires file.Some? ==> Numbered(file.value.rows)
      ensures Valid()
      ensures value == (if file.Some? then file.value else Book(0.0, []))
      ensures opening == Exposure(value) && this.ceiling == ceiling && this.tranche == tranche
    {
      var loaded := if file.Some? then file.value else Book(0.0, []);
      this.ceiling := ceiling;
      this.tranche := tranche;
      value := loaded;
      disk := loaded;
      opening := Exposure(loaded);
    }

    /** Write a temporary file and rename it over the old one. */
    method Save()
      modifies this`disk
      ensures disk == value
    {
      disk := value;
    }

    method Reserve(amount: real, kind: Kind) returns (row: Option<Row>)
      requires Valid()
      modifies this`value, this`disk
      ensures Valid()
      ensures row.None? <==>
                || Exposure(old(value)) + amount > ceiling
                || Exposure(old(value)) - opening + amount > tranche
      ensures row.None? ==> value == old(value)
      ensures row.Some? ==> row.value == Row(|old(value).rows| + 1, kind, amount, InFlight, Missing)
      ensures row.Some? ==> value == old(value).(rows := old(value).rows + [row.value])
      ensures amount >= 0.0 ==>
                var wanted := Wanted(old(value), amount, kind);
                row.None? <==> Exposure(wanted) > ceiling || Exposure(wanted) - opening > tranche
    {
      WantedExposure(value, amount, kind);
      var _, exposure := Totals(value);
      if exposure + amount > ceiling || exposure - opening + amount > tranche {
        return None;
      }
      var added := NewRow(value, amount, kind);
      value := value.(rows := value.rows + [added]);
      Save();
      row := Some(added);
    }

    method Finish(ordinal: nat, status: Status, cost: UsageCost) returns (paid: real, exposure: real)
      requires Valid()
      requires 1 <= ordinal <= |value.rows|
      modifies this`value, this`disk
      ensures Valid()
      ensures var row := old(value).rows[ordinal - 1].(status := status, cost := cost);
              value == old(value).(rows := old(value).rows[ordinal - 1 := row])
      ensures paid == Paid(value) && exposure == Exposure(value) && paid <= exposure
      ensures exposure - Exposure(old(value)) ==
              Contribution(value.rows[ordinal - 1]) - Contribution(old(value).rows[ordinal - 1])
    {
      ghost var before := value.rows;
      value := value.(rows := value.rows[ordinal - 1 := value.rows[ordinal - 1].(status := status, cost := cost)]);
      Save();
      paid, exposure := Totals(value);
      PaidWithinExposure(value.rows);
      TotalsAfterUpdate(before, ordinal - 1, before[ordinal - 1].(status := status, cost := cost));
    }
  }
}
