/**
 Reading one original window under the evidence cap (`scripts/benchmark_pilot/tools.py`,
 lines 134-162): if the first read serialises too large, a second one is asked for a
 sixth of the bytes that its metadata leaves.
 */
module ExcerptRead {
  import opened Bounds
  import opened Json
  import opened Truncation
  import opened PackRepair

  /** The value with its text blanked out, as the second read will be labelled. */
  function Blank(value: seq<Field>): seq<Field> {
    Put(Put(value, "excerpt", Str("")), "native_reads", Num("2"))
  }

  function Overhead(value: seq<Field>): int { Bytes(Obj(Blank(value))) + 32 }

  /** The native side returns at most the bytes it was asked for. */
  predicate Honours(value: seq<Field>, limit: int) {
    match Get(value, "excerpt")
    case Some(Str(text)) => |text| <= limit
    case Some(_) => false
    case None => true
  }

  lemma HonoursMore(value: seq<Field>, limit: int, more: int)
    requires Honours(value, limit) && limit <= more
    ensures Honours(value, more)
  {}

  lemma BlankSize(value: seq<Field>, limit: nat)
    requires Honours(value, limit)
    ensures Bytes(Obj(Put(value, "native_reads", Num("2")))) <= Bytes(Obj(Blank(value))) + 6 * limit
  {
    var blanked := Put(value, "excerpt", Str(""));
    GetAfterPut(value, "excerpt", Str(""), "native_reads");
    PutSize(value, "excerpt", Str(""));
    PutSize(blanked, "native_reads", Num("2"));
    PutSize(value, "native_reads", Num("2"));
    match Get(value, "excerpt")
    case Some(Str(text)) => EscapingBound(text);
    case None =>
  }

  /** The conservative second read fits, whatever its text is made of. */
  lemma SecondReadFits(first: seq<Field>, second: seq<Field>, cap: int)
    requires cap >= Overhead(first) + 6
    requires Honours(second, (cap - Overhead(first)) / 6)
    requires Bytes(Obj(Blank(second))) <= Bytes(Obj(Blank(first))) + 32
    ensures Fits(Put(second, "native_reads", Num("2")), cap)
  {
    BlankSize(second, (cap - Overhead(first)) / 6);
  }

  function Repeated(c: char, n: nat): string { if n == 0 then "" else [c] + Repeated(c, n - 1) }

  /** Nothing less than a sixth would do: a text of control characters needs all of it. */
  lemma {:induction false} SixBytesAreNeeded(n: nat)
    ensures |Repeated(1 as char, n)| == n && TextSize(Repeated(1 as char, n), Utf8) == 6 * n
  {
    if n > 0 {
      SixBytesAreNeeded(n - 1);
      assert Repeated(1 as char, n)[1..] == Repeated(1 as char, n - 1);
    }
  }

  datatype Excerpt = Value(fields: seq<Field>) | LimitNotPositive | MetadataDoesNotFit

  function FirstLimit(limit: int, cap: int): int { Min(limit, Max(1, cap - 512)) }

  function SecondLimit(value: seq<Field>, limit: int, cap: int): int { Min(limit, (cap - Overhead(value)) / 6) }

  /** A second read is made: the first was too large, and its metadata leaves room. */
  predicate ReadsAgain(value: seq<Field>, limit: int, cap: int) {
    limit >= 1 && !Fits(value, cap) && cap >= Overhead(value) + 6
  }

  /** `first` and `second` are the native side at the times of the two reads, by requested limit. */
  method ReadExcerpt(first: int -> seq<Field>, second: int -> seq<Field>, limit: int, cap: int) returns (r: Excerpt)
    requires var value := first(FirstLimit(limit, cap));
             var again := second(SecondLimit(value, limit, cap));
             ReadsAgain(value, limit, cap) ==>
               && Honours(again, SecondLimit(value, limit, cap))
               && Bytes(Obj(Blank(again))) <= Bytes(Obj(Blank(value))) + 32
    ensures r.LimitNotPositive? <==> limit < 1
    ensures var value := first(Min(limit, Max(1, cap - 512)));
            var labels := Bytes(Obj(Put(Put(value, "excerpt", Str("")), "native_reads", Num("2"))));
            && (r.MetadataDoesNotFit? <==> limit >= 1 && Bytes(Obj(value)) > cap && cap < labels + 38)
            && (r.Value? ==> Bytes(Obj(r.fields)) <= cap)
            && (r.Value? && Bytes(Obj(value)) <= cap ==> r.fields == value)
            && (r.Value? && Bytes(Obj(value)) > cap ==>
                  r.fields == Put(second(Min(limit, (cap - labels - 32) / 6)), "native_reads", Num("2")))
  {
    if limit < 1 {
      return LimitNotPositive;
    }
    var value := first(FirstLimit(limit, cap));
    if Fits(value, cap) {
      return Value(value);
    }
    if cap < Overhead(value) + 6 {
      return MetadataDoesNotFit;
    }
    var again := second(SecondLimit(value, limit, cap));
    HonoursMore(again, SecondLimit(value, limit, cap), (cap - Overhead(value)) / 6);
    SecondReadFits(value, again, cap);
    r := Value(Put(again, "native_reads", Num("2")));
  }
}
