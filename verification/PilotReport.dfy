/**
 The report of a pilot (`scripts/benchmark_pilot/report.py`) and its independent
 verifier (`scripts/benchmark_pilot/verify_export.py`): costs by request interval, and
 the cells that can be compared because every condition has one.
 */
module PilotReport {
  import opened FirstSeen
  import opened BudgetLedger
  import BudgetGateway

  // ------------------------------------------------------------ costs by interval

  lemma {:induction false} PaidConcat(a: seq<Row>, b: seq<Row>)
    ensures PaidOf(a + b) == PaidOf(a) + PaidOf(b)
    decreases |b|
  {
    if b == [] {
      assert a + b == a;
    } else {
      var front := b[..|b| - 1];
      assert (a + b)[..|a + b| - 1] == a + front;
      PaidConcat(a, front);
    }
  }

  /** The verifier's recount of the whole ledger, from its own reading of a row's cost. */
  method Recount(opening: real, rows: seq<Row>) returns (paid: real, exposure: real)
    ensures paid == Paid(Book(opening, rows)) && exposure == Exposure(Book(opening, rows))
    ensures paid <= exposure
  {
    paid := opening;
    for i := 0 to |rows|
      invariant paid == opening + PaidOf(rows[..i])
    {
      assert rows[..i + 1][..i] == rows[..i];
      var cost := ExplicitCost(rows[i].cost);
      paid := paid + if cost.Some? then cost.value else 0.0;
    }
    exposure := opening;
    for i := 0 to |rows|
      invariant exposure == opening + ExposureOf(rows[..i])
    {
      assert rows[..i + 1][..i] == rows[..i];
      var cost := ExplicitCost(rows[i].cost);
      exposure := exposure +
        if rows[i].status == Completed && cost.Some? then cost.value
        else Max(rows[i].reserved, if cost.Some? then cost.value else 0.0);
    }
    assert rows[..|rows|] == rows;
    PaidWithinExposure(rows);
  }

  predicate SameSettled(a: seq<Row>, b: seq<Row>) {
    |a| == |b| && forall i :: 0 <= i < |a| ==> Settled(a[i]) == Settled(b[i])
  }

  lemma {:induction false} RisingSums(a: seq<Row>, b: seq<Row>)
    requires |a| == |b| && SettledRises(a, b)
    ensures PaidOf(a) <= PaidOf(b) && (PaidOf(a) == PaidOf(b) <==> SameSettled(a, b))
    decreases |a|
  {
    if a != [] {
      var n := |a| - 1;
      RisingSums(a[..n], b[..n]);
      if SameSettled(a[..n], b[..n]) && Settled(a[n]) == Settled(b[n]) {
        assert forall i :: 0 <= i < n ==> a[..n][i] == a[i] && b[..n][i] == b[i];
      }
    }
  }

  /** The ledger when a cell began and ended, and when the report was made. */
  predicate Snapshots(before: Book, after: Book, final: Book) {
    before.prior == after.prior && |before.rows| <= |after.rows| <= |final.rows|
  }

  /** The rows of the report's ledger that were requested while the cell ran. */
  function Interval(before: Book, after: Book, final: Book): (r: seq<Row>)
    requires Snapshots(before, after, final)
    ensures |r| == |after.rows| - |before.rows|
    ensures forall i :: |before.rows| <= i < |after.rows| ==> r[i - |before.rows|] == final.rows[i]
  {
    final.rows[|before.rows|..|after.rows|]
  }

  /**
   A cell's paid delta differs from the sum over its request interval by exactly what
   earlier rows settled during the cell, less what its own rows settled after it.
   */
  lemma DeltaAndInterval(before: Book, after: Book, final: Book)
    requires Snapshots(before, after, final)
    ensures var n := |before.rows|;
            Paid(after) - Paid(before) - PaidOf(Interval(before, after, final))
            == (PaidOf(after.rows[..n]) - PaidOf(before.rows))
               - (PaidOf(Interval(before, after, final)) - PaidOf(after.rows[n..]))
  {
    var n := |before.rows|;
    assert after.rows == after.rows[..n] + after.rows[n..];
    PaidConcat(after.rows[..n], after.rows[n..]);
  }

  /**
   Once a cell's own requests are settled, its delta is its interval's sum exactly when no
   request from outside the interval settled while the cell ran.
   */
  lemma DeltaIsIntervalIff(before: Book, after: Book, final: Book)
    requires Snapshots(before, after, final)
    requires SameSettled(after.rows[|before.rows|..], Interval(before, after, final))
    requires SettledRises(before.rows, after.rows)
    ensures Paid(after) - Paid(before) == PaidOf(Interval(before, after, final))
            <==> SameSettled(before.rows, after.rows[..|before.rows|])
  {
    DeltaAndInterval(before, after, final);
    RisingSums(after.rows[|before.rows|..], Interval(before, after, final));
    RisingSums(before.rows, after.rows[..|before.rows|]);
  }

  /**
   For a cell that ran while the gateway went from its `i`-th to its `j`-th step: if its own
   requests were settled by then, its delta is its interval's sum in any later ledger exactly
   when no earlier request was settled while it ran.
   */
  lemma CellDeltaIff(w: BudgetGateway.World, es: seq<BudgetGateway.Event>, i: nat, j: nat)
    requires BudgetGateway.Fresh(w) && BudgetGateway.IsRun(w, es) && i <= j <= |es|
    requires BudgetGateway.IsRun(w, es[..i]) && BudgetGateway.IsRun(w, es[..j])
    ensures var before := BudgetGateway.Run(w, es[..i]).disk;
            var after := BudgetGateway.Run(w, es[..j]).disk;
            var final := BudgetGateway.Run(w, es).disk;
            && Snapshots(before, after, final)
            && (SameSettled(after.rows[|before.rows|..], Interval(before, after, final)) ==>
                  (Paid(after) - Paid(before) == PaidOf(Interval(before, after, final))
                   <==> SameSettled(before.rows, after.rows[..|before.rows|])))
  {
    BudgetGateway.SavedRowsRise(w, es, j);
    BudgetGateway.SavedRowsRise(w, es[..j], i);
    assert es[..j][..i] == es[..i];
    var before := BudgetGateway.Run(w, es[..i]).disk;
    var after := BudgetGateway.Run(w, es[..j]).disk;
    var final := BudgetGateway.Run(w, es).disk;
    if SameSettled(after.rows[|before.rows|..], Interval(before, after, final)) {
      DeltaIsIntervalIff(before, after, final);
    }
  }

  // ------------------------------------------------------------- intervals as a whole

  datatype Span = Span(first: nat, last: nat)

  predicate WithinRows(spans: seq<Span>, n: nat) {
    forall k :: 0 <= k < |spans| ==> spans[k].first <= spans[k].last <= n
  }

  function SpanTotal(rows: seq<Row>, spans: seq<Span>): real
    requires WithinRows(spans, |rows|)
  {
    if spans == [] then 0.0
    else
      var last := spans[|spans| - 1];
      SpanTotal(rows, spans[..|spans| - 1]) + PaidOf(rows[last.first..last.last])
  }

  /** How many spans hold row `i`. */
  function Cover(spans: seq<Span>, i: nat): nat {
    if spans == [] then 0
    else Cover(spans[..|spans| - 1], i) + if spans[|spans| - 1].first <= i < spans[|spans| - 1].last then 1 else 0
  }

  function Weighted(rows: seq<Row>, spans: seq<Span>, n: nat): real
    requires n <= |rows|
  {
    if n == 0 then 0.0 else Weighted(rows, spans, n - 1) + Times(Cover(spans, n - 1), Settled(rows[n - 1]))
  }

  function Times(count: nat, amount: real): real { if count == 0 then 0.0 else Times(count - 1, amount) + amount }

  lemma {:induction false} OneMoreSpan(rows: seq<Row>, spans: seq<Span>, n: nat)
    requires n <= |rows| && spans != [] && WithinRows(spans, |rows|)
    ensures var last := spans[|spans| - 1];
            Weighted(rows, spans, n) == Weighted(rows, spans[..|spans| - 1], n)
              + if n <= last.first then 0.0
                else if n <= last.last then PaidOf(rows[last.first..n])
                else PaidOf(rows[last.first..last.last])
    decreases n
  {
    var last := spans[|spans| - 1];
    if n > 0 {
      OneMoreSpan(rows, spans, n - 1);
      if last.first < n <= last.last {
        PartGrows(rows, last.first, n);
      } else if n - 1 == last.last && n - 1 == last.first {
        assert rows[last.first..last.last] == [];
      }
    }
  }

  lemma PartGrows(rows: seq<Row>, first: nat, n: nat)
    requires first < n <= |rows|
    ensures PaidOf(rows[first..n]) == PaidOf(rows[first..n - 1]) + Settled(rows[n - 1])
    ensures n - 1 == first ==> PaidOf(rows[first..n - 1]) == 0.0
  {
    var part := rows[first..n];
    assert part == rows[first..n - 1] + [rows[n - 1]];
    assert part[..|part| - 1] == rows[first..n - 1];
  }

  /** The spans together pay for every row as often as they hold it. */
  lemma {:induction false} SpansAreWeighted(rows: seq<Row>, spans: seq<Span>)
    requires WithinRows(spans, |rows|)
    ensures SpanTotal(rows, spans) == Weighted(rows, spans, |rows|)
    decreases |spans|
  {
    if spans == [] {
      NothingHeld(rows, |rows|);
    } else {
      SpansAreWeighted(rows, spans[..|spans| - 1]);
      OneMoreSpan(rows, spans, |rows|);
      var last := spans[|spans| - 1];
      if last.first == |rows| { assert rows[last.first..last.last] == []; }
    }
  }

  lemma {:induction false} NothingHeld(rows: seq<Row>, n: nat)
    requires n <= |rows|
    ensures Weighted(rows, [], n) == 0.0
  {
    if n > 0 { NothingHeld(rows, n - 1); }
  }

  predicate Partition(spans: seq<Span>, n: nat) {
    WithinRows(spans, n) && forall i :: 0 <= i < n ==> Cover(spans, i) == 1
  }

  lemma {:induction false} OnceEach(rows: seq<Row>, spans: seq<Span>, n: nat)
    requires Partition(spans, |rows|) && n <= |rows|
    ensures Weighted(rows, spans, n) == PaidOf(rows[..n])
    decreases n
  {
    if n > 0 {
      OnceEach(rows, spans, n - 1);
      assert Times(1, Settled(rows[n - 1])) == Times(0, Settled(rows[n - 1])) + Settled(rows[n - 1]);
      assert rows[..n][..n - 1] == rows[..n - 1];
    }
  }

  /** Intervals that hold every request once account for everything paid. */
  lemma PartitionAccounts(book: Book, spans: seq<Span>)
    requires Partition(spans, |book.rows|)
    ensures book.prior + SpanTotal(book.rows, spans) == Paid(book)
  {
    SpansAreWeighted(book.rows, spans);
    OnceEach(book.rows, spans, |book.rows|);
    assert book.rows[..|book.rows|] == book.rows;
  }

  // --------------------------------------------------------------- comparable cells

  datatype Key = Key(task: string, repetition: nat)

  datatype Cell = Cell(name: string, key: Key, condition: string, formal: bool, broken: bool)

  /** `broken` stands for a transport or harness failure. */
  function Group(cells: seq<Cell>, key: Key): seq<Cell> {
    if cells == [] then []
    else
      var last := cells[|cells| - 1];
      Group(cells[..|cells| - 1], key) + if last.formal && last.key == key then [last] else []
  }

  function Conditions(group: seq<Cell>): (r: seq<string>)
    ensures |r| == |group| && forall i :: 0 <= i < |group| ==> r[i] == group[i].condition
  {
    seq(|group|, i requires 0 <= i < |group| => group[i].condition)
  }

  /** One cell for every condition, none of them broken. */
  predicate Comparable(conditions: seq<string>, group: seq<Cell>) {
    && |group| == |conditions|
    && (forall c :: c in conditions ==> c in Conditions(group))
    && (forall c :: c in Conditions(group) ==> c in conditions)
    && forall i :: 0 <= i < |group| ==> !group[i].broken
  }

  predicate Matches(conditions: seq<string>, cells: seq<Cell>, condition: string, cell: Cell) {
    cell.formal && cell.condition == condition && Comparable(conditions, Group(cells, cell.key))
  }

  /** The matched cells of a condition among the first `n`, restricted to those reviewed. */
  function Matched(conditions: seq<string>, cells: seq<Cell>, condition: string, reviewed: set<string>,
          n: nat): seq<Cell>
    requires n <= |cells|
  {
    if n == 0 then []
    else
      Matched(conditions, cells, condition, reviewed, n - 1)
      + if Matches(conditions, cells, condition, cells[n - 1]) && cells[n - 1].name in reviewed then [cells[n - 1]]
        else []
  }

  function Names(cells: seq<Cell>): set<string> { set i | 0 <= i < |cells| :: cells[i].name }

  predicate AllReviewed(conditions: seq<string>, cells: seq<Cell>, condition: string, reviewed: set<string>, n: nat)
    requires n <= |cells|
  {
    forall i :: 0 <= i < n && Matches(conditions, cells, condition, cells[i]) ==> cells[i].name in reviewed
  }

  lemma {:induction false} UnreviewedAreMissed(conditions: seq<string>, cells: seq<Cell>, condition: string,
          reviewed: set<string>, n: nat)
    requires n <= |cells|
    ensures var a := |Matched(conditions, cells, condition, reviewed, n)|;
            var b := |Matched(conditions, cells, condition, Names(cells), n)|;
            a <= b && (a == b ==> AllReviewed(conditions, cells, condition, reviewed, n))
    decreases n
  {
    if n > 0 {
      UnreviewedAreMissed(conditions, cells, condition, reviewed, n - 1);
      assert cells[n - 1].name in Names(cells);
    }
  }

  lemma {:induction false} ReviewedAreFound(conditions: seq<string>, cells: seq<Cell>, condition: string,
          reviewed: set<string>, n: nat)
    requires n <= |cells| && AllReviewed(conditions, cells, condition, reviewed, n)
    ensures Matched(conditions, cells, condition, reviewed, n) == Matched(conditions, cells, condition, Names(cells), n)
    decreases n
  {
    if n > 0 {
      ReviewedAreFound(conditions, cells, condition, reviewed, n - 1);
      assert cells[n - 1].name in Names(cells);
    }
  }

  /**
   The report's grouped figures and the verifier's quadratic scan pick the same cells
   exactly when every comparable cell of the condition has been reviewed.
   */
  lemma ReportAgreesIff(conditions: seq<string>, cells: seq<Cell>, condition: string, reviewed: set<string>)
    ensures Matched(conditions, cells, condition, reviewed, |cells|)
            == Matched(conditions, cells, condition, Names(cells), |cells|)
            <==> AllReviewed(conditions, cells, condition, reviewed, |cells|)
  {
    UnreviewedAreMissed(conditions, cells, condition, reviewed, |cells|);
    if AllReviewed(conditions, cells, condition, reviewed, |cells|) {
      ReviewedAreFound(conditions, cells, condition, reviewed, |cells|);
    }
  }

  // --------------------------------------------------- the comparison is paired

  /** As many values as a list without duplicates has, and the same ones: each occurs once. */
  lemma OnePerCondition(conditions: seq<string>, given: seq<string>)
    requires NoDuplicates(conditions) && |given| == |conditions|
    requires (forall c :: c in conditions ==> c in given) && (forall c :: c in given ==> c in conditions)
    ensures NoDuplicates(given)
  {
    DistinctValues(conditions);
    DistinctValues(given);
    assert Elements(given) == Elements(conditions);
  }

  lemma {:induction false} GroupMember(cells: seq<Cell>, key: Key, p: nat) returns (i: nat)
    requires p < |Group(cells, key)|
    ensures i < |cells| && cells[i] == Group(cells, key)[p] && cells[i].formal && cells[i].key == key
    ensures p == |Group(cells[..i], key)|
  {
    var n := |cells| - 1;
    if p < |Group(cells[..n], key)| {
      i := GroupMember(cells[..n], key, p);
      assert cells[..n][..i] == cells[..i];
    } else {
      i := n;
    }
  }

  lemma {:induction false} PlaceInGroup(cells: seq<Cell>, i: nat) returns (p: nat)
    requires i < |cells| && cells[i].formal
    ensures p < |Group(cells, cells[i].key)| && Group(cells, cells[i].key)[p] == cells[i]
    ensures p == |Group(cells[..i], cells[i].key)|
  {
    var n := |cells| - 1;
    if i < n {
      p := PlaceInGroup(cells[..n], i);
      assert cells[..n][..i] == cells[..i];
    } else {
      p := |Group(cells[..n], cells[i].key)|;
    }
  }

  lemma {:induction false} GroupGrows(cells: seq<Cell>, key: Key, m: nat, n: nat)
    requires m <= n <= |cells|
    ensures |Group(cells[..m], key)| <= |Group(cells[..n], key)|
    decreases n
  {
    if m < n {
      assert cells[..n][..n - 1] == cells[..n - 1];
      GroupGrows(cells, key, m, n - 1);
    }
  }

  /** A comparable group has one cell of each condition, so no other cell matches with the same key. */
  lemma NoSecondMatch(conditions: seq<string>, cells: seq<Cell>, condition: string, i: nat, j: nat)
    requires NoDuplicates(conditions) && i < j < |cells|
    requires Matches(conditions, cells, condition, cells[i]) && Matches(conditions, cells, condition, cells[j])
    ensures cells[i].key != cells[j].key
  {
    if cells[i].key == cells[j].key {
      var key := cells[i].key;
      var group := Group(cells, key);
      var p := PlaceInGroup(cells, i);
      var q := PlaceInGroup(cells, j);
      assert cells[..i + 1][..i] == cells[..i];
      GroupGrows(cells, key, i + 1, j);
      OnePerCondition(conditions, Conditions(group));
      assert false;
    }
  }

  /** A formal cell of this task and repetition. */
  predicate RunOf(cell: Cell, key: Key) { cell.formal && cell.key == key }

  /** Among the formal cells of a key there is exactly one for every condition, no other, and none is broken. */
  ghost predicate Complete(conditions: seq<string>, cells: seq<Cell>, key: Key) {
    && (forall i :: 0 <= i < |cells| && RunOf(cells[i], key) ==> !cells[i].broken && cells[i].condition in conditions)
    && (forall c :: c in conditions ==> exists i :: 0 <= i < |cells| && RunOf(cells[i], key) && cells[i].condition == c)
    && (forall i, j :: 0 <= i < j < |cells| && RunOf(cells[i], key) && RunOf(cells[j], key) ==>
          cells[i].condition != cells[j].condition)
  }

  lemma CompleteIsComparable(conditions: seq<string>, cells: seq<Cell>, key: Key)
    requires NoDuplicates(conditions) && Complete(conditions, cells, key)
    ensures Comparable(conditions, Group(cells, key))
  {
    var group := Group(cells, key);
    var given := Conditions(group);
    forall p | 0 <= p < |group| ensures given[p] in conditions && !group[p].broken {
      var i := GroupMember(cells, key, p);
    }
    forall c | c in conditions ensures c in given {
      var i :| 0 <= i < |cells| && RunOf(cells[i], key) && cells[i].condition == c;
      var p := PlaceInGroup(cells, i);
      assert given[p] == c;
    }
    forall p, q | 0 <= p < q < |given| ensures given[p] != given[q] {
      var i := GroupMember(cells, key, p);
      var j := GroupMember(cells, key, q);
    }
    DistinctValues(given);
    DistinctValues(conditions);
    assert Elements(given) == Elements(conditions);
  }

  lemma ComparableIsComplete(conditions: seq<string>, cells: seq<Cell>, key: Key)
    requires NoDuplicates(conditions) && Comparable(conditions, Group(cells, key))
    ensures Complete(conditions, cells, key)
  {
    var group := Group(cells, key);
    var given := Conditions(group);
    OnePerCondition(conditions, given);
    forall i | 0 <= i < |cells| && RunOf(cells[i], key)
      ensures !cells[i].broken && cells[i].condition in conditions
    {
      var p := PlaceInGroup(cells, i);
      assert given[p] in given;
    }
    forall c | c in conditions
      ensures exists i :: 0 <= i < |cells| && RunOf(cells[i], key) && cells[i].condition == c
    {
      var p :| 0 <= p < |given| && given[p] == c;
      var i := GroupMember(cells, key, p);
    }
    forall i, j | 0 <= i < j < |cells| && RunOf(cells[i], key) && RunOf(cells[j], key)
      ensures cells[i].condition != cells[j].condition
    {
      var p := PlaceInGroup(cells, i);
      var q := PlaceInGroup(cells, j);
      assert cells[..i + 1][..i] == cells[..i];
      GroupGrows(cells, key, i + 1, j);
      assert given[p] != given[q];
    }
  }

  /** Matched are exactly the reviewed formal cells of the condition whose task and repetition are complete. */
  lemma {:induction false} MatchedMeans(conditions: seq<string>, cells: seq<Cell>, condition: string,
          reviewed: set<string>, n: nat, cell: Cell)
    requires NoDuplicates(conditions) && n <= |cells|
    ensures cell in Matched(conditions, cells, condition, reviewed, n) <==>
            && cell in cells[..n] && cell.formal && cell.condition == condition && cell.name in reviewed
            && Complete(conditions, cells, cell.key)
    decreases n
  {
    hide Complete, Comparable;
    if n > 0 {
      MatchedMeans(conditions, cells, condition, reviewed, n - 1, cell);
      assert cells[..n] == cells[..n - 1] + [cells[n - 1]];
      if Complete(conditions, cells, cell.key) { CompleteIsComparable(conditions, cells, cell.key); }
      if Comparable(conditions, Group(cells, cell.key)) { ComparableIsComplete(conditions, cells, cell.key); }
    }
  }

  function Keys(cells: seq<Cell>): (r: seq<Key>)
    ensures |r| == |cells| && forall i :: 0 <= i < |cells| ==> r[i] == cells[i].key
  {
    seq(|cells|, i requires 0 <= i < |cells| => cells[i].key)
  }

  ghost predicate HasMatch(conditions: seq<string>, cells: seq<Cell>, condition: string, key: Key, n: nat)
    requires n <= |cells|
  {
    exists i :: 0 <= i < n && Matches(conditions, cells, condition, cells[i]) && cells[i].key == key
  }

  lemma {:induction false} MatchedKeys(conditions: seq<string>, cells: seq<Cell>, condition: string, n: nat)
    requires NoDuplicates(conditions) && n <= |cells|
    ensures var keys := Keys(Matched(conditions, cells, condition, Names(cells), n));
            NoDuplicates(keys) && forall key :: key in keys <==> HasMatch(conditions, cells, condition, key, n)
    decreases n
  {
    if n > 0 {
      MatchedKeys(conditions, cells, condition, n - 1);
      var last := cells[n - 1];
      var front := Matched(conditions, cells, condition, Names(cells), n - 1);
      assert last.name in Names(cells);
      OneMoreMatch(conditions, cells, condition, n);
      if Matches(conditions, cells, condition, last) {
        assert Keys(front + [last]) == Keys(front) + [last.key];
      } else {
        assert front + [] == front;
      }
    }
  }

  lemma OneMoreMatch(conditions: seq<string>, cells: seq<Cell>, condition: string, n: nat)
    requires NoDuplicates(conditions) && 0 < n <= |cells|
    ensures forall key :: HasMatch(conditions, cells, condition, key, n) <==>
              || HasMatch(conditions, cells, condition, key, n - 1)
              || (Matches(conditions, cells, condition, cells[n - 1]) && cells[n - 1].key == key)
    ensures Matches(conditions, cells, condition, cells[n - 1]) ==>
              !HasMatch(conditions, cells, condition, cells[n - 1].key, n - 1)
  {
    if Matches(conditions, cells, condition, cells[n - 1]) {
      forall i | 0 <= i < n - 1 && Matches(conditions, cells, condition, cells[i])
        ensures cells[i].key != cells[n - 1].key
      {
        NoSecondMatch(conditions, cells, condition, i, n - 1);
      }
    }
  }

  /** If a key has a match in one condition it has one in every condition. */
  lemma MatchInEveryCondition(conditions: seq<string>, cells: seq<Cell>, c1: string, c2: string, key: Key)
    requires c2 in conditions && HasMatch(conditions, cells, c1, key, |cells|)
    ensures HasMatch(conditions, cells, c2, key, |cells|)
  {
    var group := Group(cells, key);
    assert c2 in Conditions(group);
    var p :| 0 <= p < |group| && Conditions(group)[p] == c2;
    var i := GroupMember(cells, key, p);
    assert Matches(conditions, cells, c2, cells[i]);
  }

  /** The matched comparison is paired: every condition has the same tasks and repetitions, each once. */
  lemma MatchedIsPaired(conditions: seq<string>, cells: seq<Cell>, c1: string, c2: string)
    requires NoDuplicates(conditions) && c1 in conditions && c2 in conditions
    ensures var m1 := Matched(conditions, cells, c1, Names(cells), |cells|);
            var m2 := Matched(conditions, cells, c2, Names(cells), |cells|);
            |m1| == |m2| && NoDuplicates(Keys(m1)) && forall key :: key in Keys(m1) <==> key in Keys(m2)
  {
    var k1 := Keys(Matched(conditions, cells, c1, Names(cells), |cells|));
    var k2 := Keys(Matched(conditions, cells, c2, Names(cells), |cells|));
    MatchedKeys(conditions, cells, c1, |cells|);
    MatchedKeys(conditions, cells, c2, |cells|);
    forall key ensures key in k1 <==> key in k2 {
      if key in k1 { MatchInEveryCondition(conditions, cells, c1, c2, key); }
      if key in k2 { MatchInEveryCondition(conditions, cells, c2, c1, key); }
    }
    DistinctValues(k1);
    DistinctValues(k2);
    assert Elements(k1) == Elements(k2);
  }

  // ---------------------------------------------------------------------- loops

  /** The report groups formal cells in one pass. */
  method GroupFormal(cells: seq<Cell>) returns (paired: map<Key, seq<Cell>>)
    ensures forall key :: key in paired <==> Group(cells, key) != []
    ensures forall key :: key in paired ==> paired[key] == Group(cells, key)
  {
    paired := map[];
    for n := 0 to |cells|
      invariant forall key :: key in paired <==> Group(cells[..n], key) != []
      invariant forall key :: key in paired ==> paired[key] == Group(cells[..n], key)
    {
      var cell := cells[n];
      assert cells[..n + 1][..n] == cells[..n];
      if cell.formal {
        var group := if cell.key in paired then paired[cell.key] else [];
        paired := paired[cell.key := group + [cell]];
      }
    }
    assert cells[..|cells|] == cells;
  }

  function ComparableKeys(conditions: seq<string>, paired: map<Key, seq<Cell>>): set<Key> {
    set key | key in paired && Comparable(conditions, paired[key])
  }

  lemma ComparableKeyIff(conditions: seq<string>, cells: seq<Cell>, paired: map<Key, seq<Cell>>, key: Key)
    requires forall k :: k in paired <==> Group(cells, k) != []
    requires forall k :: k in paired ==> paired[k] == Group(cells, k)
    requires Group(cells, key) != []
    ensures key in ComparableKeys(conditions, paired) <==> Comparable(conditions, Group(cells, key))
  {}

  method ReportMatched(conditions: seq<string>, cells: seq<Cell>, condition: string, reviewed: set<string>)
    returns (matched: seq<Cell>)
    ensures matched == Matched(conditions, cells, condition, reviewed, |cells|)
  {
    var paired := GroupFormal(cells);
    var comparable := ComparableKeys(conditions, paired);
    matched := [];
    for n := 0 to |cells|
      invariant matched == Matched(conditions, cells, condition, reviewed, n)
    {
      var cell := cells[n];
      if cell.formal {
        ghost var p := PlaceInGroup(cells, n);
        ComparableKeyIff(conditions, cells, paired, cell.key);
        if cell.condition == condition && cell.key in comparable && cell.name in reviewed {
          matched := matched + [cell];
        }
      }
    }
  }

  /** The verifier collects the group of every cell anew. */
  method VerifierMatched(conditions: seq<string>, cells: seq<Cell>, condition: string) returns (matched: seq<Cell>)
    ensures matched == Matched(conditions, cells, condition, Names(cells), |cells|)
  {
    matched := [];
    for n := 0 to |cells|
      invariant matched == Matched(conditions, cells, condition, Names(cells), n)
    {
      var cell := cells[n];
      assert cell.name in Names(cells);
      if cell.formal && cell.condition == condition {
        var pair := [];
        for k := 0 to |cells|
          invariant pair == Group(cells[..k], cell.key)
        {
          assert cells[..k + 1][..k] == cells[..k];
          if cells[k].formal && cells[k].key == cell.key {
            pair := pair + [cells[k]];
          }
        }
        assert cells[..|cells|] == cells;
        if Comparable(conditions, pair) {
          matched := matched + [cell];
        }
      }
    }
  }
}
