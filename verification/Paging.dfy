/** Reading and searching originals (`scripts/benchmark_pilot/tools.py`, lines 100-132 and 164-184). */
module Paging {
  import opened Bounds
  import opened Wrappers
  import opened Corpus

  const READ_LIMIT := 6000
  const WINDOW_LIMIT := 2000
  const MATCH_LIMIT := 20

  // -------------------------------------------------------------------- reading

  /** `startLine` and `nextLine` count from one. */
  datatype Page = Page(start: nat, end: nat, text: string, startLine: nat, nextLine: nat, totalLines: nat)

  datatype ReadError = InvalidLineRange | LineDoesNotFit

  /** Whether one more line may join the `taken` bytes that start at `start`. */
  predicate Joins(start: nat, taken: string, line: string, fits: (nat, nat) -> bool) {
    (taken == "" || |taken| + |line| <= READ_LIMIT) && fits(start, start + |taken| + |line|)
  }

  /** A page holds whole consecutive lines, exactly the source's bytes at its offsets. */
  ghost predicate IsPage(raw: string, p: Page) {
    var lines := Lines(raw);
    && 1 <= p.startLine < p.nextLine <= |lines| + 1 && p.totalLines == |lines|
    && p.text == Join(lines[p.startLine - 1..p.nextLine - 1])
    && p.start == |Join(lines[..p.startLine - 1])| && p.end == p.start + |p.text| <= |raw|
    && p.text == raw[p.start..p.end]
  }

  /**
   A page ends because enough lines were taken, the source ended, or the next line would
   make it more than 6000 bytes or not fit the reply.
   */
  ghost predicate EndsWhere(raw: string, p: Page, count: int, fits: (nat, nat) -> bool)
    requires IsPage(raw, p)
  {
    var lines := Lines(raw);
    || p.nextLine - p.startLine == count || p.nextLine == |lines| + 1
    || |p.text| + |lines[p.nextLine - 1]| > 6000 || !fits(p.start, p.end + |lines[p.nextLine - 1]|)
  }

  /** The lines of a run are counted by splitting it again. */
  lemma LinesOfRun(raw: string, first: nat, last: nat)
    requires first <= last <= |Lines(raw)|
    ensures |Lines(Join(Lines(raw)[first..last]))| == last - first
  {
    LinesOfSlice(raw, first, last);
  }

  lemma RunIsInPlace(raw: string, first: nat, last: nat)
    requires first <= last <= |Lines(raw)|
    ensures var start, text := |Join(Lines(raw)[..first])|, Join(Lines(raw)[first..last]);
            start + |text| <= |raw| && raw[start..start + |text|] == text
  {
    JoinOfLines(raw);
    SliceIsInPlace(Lines(raw), first, last);
  }

  /** The page of a run of lines. */
  method PageOf(raw: string, first: nat, last: nat, selected: string) returns (p: Page)
    requires first < last <= |Lines(raw)| && selected == Join(Lines(raw)[first..last])
    ensures IsPage(raw, p) && p.startLine == first + 1 && p.nextLine == last + 1 && p.text == selected
    ensures p.start == |Join(Lines(raw)[..first])|
  {
    LinesOfRun(raw, first, last);
    RunIsInPlace(raw, first, last);
    var start := |Join(Lines(raw)[..first])|;
    var end := start + |selected|;
    p := Page(start, end, raw[start..end], first + 1, first + 1 + |Lines(selected)|, |Lines(raw)|);
  }

  lemma RunGrows(lines: seq<string>, first: nat, last: nat)
    requires first <= last < |lines|
    ensures Join(lines[first..last + 1]) == Join(lines[first..last]) + lines[last]
  {
    assert lines[first..last + 1] == lines[first..last] + [lines[last]];
    JoinConcat(lines[first..last], [lines[last]]);
    JoinOne(lines[last]);
  }

  /** Take lines from `first` on, up to `count`, while they join. */
  method TakeLines(lines: seq<string>, first: nat, count: int, start: nat, fits: (nat, nat) -> bool)
    returns (i: nat, selected: string)
    requires first < |lines| && count >= 1 && WellSplit(lines)
    ensures first <= i <= |lines| && i <= first + count && selected == Join(lines[first..i])
    ensures i == first <==> selected == ""
    ensures i == first <==> !Joins(start, "", lines[first], fits)
    ensures i > first ==> fits(start, start + |selected|) && (|selected| <= READ_LIMIT || i == first + 1)
    ensures i == first + count || i == |lines| || !Joins(start, selected, lines[i], fits)
  {
    i, selected := first, "";
    while i < |lines| && i < first + count && Joins(start, selected, lines[i], fits)
      invariant first <= i <= |lines| && i <= first + count
      invariant selected == Join(lines[first..i])
      invariant i == first <==> selected == ""
      invariant i > first ==> fits(start, start + |selected|) && Joins(start, "", lines[first], fits)
      invariant |selected| <= READ_LIMIT || i == first + 1
    {
      RunGrows(lines, first, i);
      selected := selected + lines[i];
      i := i + 1;
    }
  }

  method ReadLines(raw: string, startLine: int, count: int, fits: (nat, nat) -> bool)
    returns (r: Result<Page, ReadError>)
    ensures r == Err(InvalidLineRange) <==> startLine < 1 || !(1 <= count <= 100) || startLine > |Lines(raw)|
    ensures r == Err(LineDoesNotFit) <==>
              && 1 <= startLine <= |Lines(raw)| && 1 <= count <= 100
              && var start := |Join(Lines(raw)[..startLine - 1])|;
              !fits(start, start + |Lines(raw)[startLine - 1]|)
    ensures r.Ok? ==>
              && r.value.startLine == startLine && IsPage(raw, r.value)
              && r.value.nextLine - startLine <= count && fits(r.value.start, r.value.end)
              && (|r.value.text| <= 6000 || r.value.nextLine == startLine + 1)
              && EndsWhere(raw, r.value, count, fits)
  {
    var lines := Lines(raw);
    var first := startLine - 1;
    if first < 0 || !(1 <= count <= 100) || first >= |lines| {
      return Err(InvalidLineRange);
    }
    LinesAreWellSplit(raw);
    var start := |Join(lines[..first])|;
    var last, selected := TakeLines(lines, first, count, start, fits);
    if selected == "" {
      return Err(LineDoesNotFit);
    }
    var page := PageOf(raw, first, last, selected);
    r := Ok(page);
  }

  /** Pages read by following `nextLine` from the first line. */
  ghost predicate Chain(raw: string, pages: seq<Page>) {
    && (forall i :: 0 <= i < |pages| ==> IsPage(raw, pages[i]))
    && (pages != [] ==> pages[0].startLine == 1)
    && (forall i :: 0 < i < |pages| ==> pages[i].startLine == pages[i - 1].nextLine)
  }

  /** A chain that has come to the end of the source. */
  ghost predicate Followed(raw: string, pages: seq<Page>) {
    Chain(raw, pages) && pages != [] && pages[|pages| - 1].nextLine == |Lines(raw)| + 1
  }

  function Texts(pages: seq<Page>): (r: seq<string>)
    ensures |r| == |pages| && forall i :: 0 <= i < |pages| ==> r[i] == pages[i].text
  {
    seq(|pages|, i requires 0 <= i < |pages| => pages[i].text)
  }

  lemma PageExtends(raw: string, p: Page)
    requires IsPage(raw, p)
    ensures Join(Lines(raw)[..p.nextLine - 1]) == Join(Lines(raw)[..p.startLine - 1]) + p.text
    ensures p.end == |Join(Lines(raw)[..p.nextLine - 1])|
  {
    var lines := Lines(raw);
    var before, own := lines[..p.startLine - 1], lines[p.startLine - 1..p.nextLine - 1];
    assert before + own == lines[..p.nextLine - 1];
    JoinConcat(before, own);
  }

  /** Every page moves on, so a reader is done after at most as many pages as there are lines. */
  lemma {:induction false} PagesAdvance(raw: string, pages: seq<Page>, n: nat)
    requires Chain(raw, pages) && 1 <= n <= |pages|
    ensures n < pages[n - 1].nextLine <= |Lines(raw)| + 1
    decreases n
  {
    assert IsPage(raw, pages[n - 1]);
    if n > 1 { PagesAdvance(raw, pages, n - 1); }
  }

  predicate TextInPlace(raw: string, p: Page) { p.start <= p.end <= |raw| && p.text == raw[p.start..p.end] }

  /** Each page begins where the one before it ended, from the first byte to the last. */
  predicate Contiguous(raw: string, pages: seq<Page>) {
    && pages != [] && pages[0].start == 0 && pages[|pages| - 1].end == |raw|
    && (forall i :: 0 < i < |pages| ==> pages[i].start == pages[i - 1].end)
    && (forall i :: 0 <= i < |pages| ==> TextInPlace(raw, pages[i]))
  }

  /** Adjacent pages join to what they span. */
  lemma {:induction false} FirstPagesJoin(raw: string, pages: seq<Page>, n: nat)
    requires Contiguous(raw, pages) && 1 <= n <= |pages|
    ensures TextInPlace(raw, pages[n - 1]) && Join(Texts(pages[..n])) == raw[..pages[n - 1].end]
    decreases n
  {
    var last := pages[n - 1];
    assert TextInPlace(raw, last);
    assert Texts(pages[..n]) == Texts(pages[..n - 1]) + [last.text];
    JoinConcat(Texts(pages[..n - 1]), [last.text]);
    JoinOne(last.text);
    if n == 1 {
      assert Texts(pages[..0]) == [] && Join([]) == "";
    } else {
      FirstPagesJoin(raw, pages, n - 1);
      assert raw[..last.end] == raw[..last.start] + raw[last.start..last.end];
    }
  }

  lemma FollowedIsContiguous(raw: string, pages: seq<Page>)
    requires Followed(raw, pages)
    ensures Contiguous(raw, pages)
  {
    hide Lines;
    var lines := Lines(raw);
    JoinOfLines(raw);
    assert lines[..|lines|] == lines && lines[..0] == [] && Join([]) == "";
    PageExtends(raw, pages[|pages| - 1]);
    assert IsPage(raw, pages[0]);
    forall i | 0 < i < |pages| ensures pages[i].start == pages[i - 1].end {
      assert IsPage(raw, pages[i]);
      PageExtends(raw, pages[i - 1]);
    }
    forall i | 0 <= i < |pages| ensures TextInPlace(raw, pages[i]) { assert IsPage(raw, pages[i]); }
  }

  /** Following the pages loses and repeats nothing: they are the source, without gap or overlap. */
  lemma PagesCoverSource(raw: string, pages: seq<Page>)
    requires Followed(raw, pages)
    ensures Join(Texts(pages)) == raw
    ensures Contiguous(raw, pages) && |pages| <= |Lines(raw)|
  {
    hide Lines, IsPage, Chain, Texts, TextInPlace;
    PagesAdvance(raw, pages, |pages|);
    FollowedIsContiguous(raw, pages);
    FirstPagesJoin(raw, pages, |pages|);
    assert pages[..|pages|] == pages && raw[..|raw|] == raw;
  }

  // ------------------------------------------------------------------ searching

  /** A source as the search sees it: its lines, however text lines are told apart. */
  datatype Source = Source(id: string, lines: seq<string>)

  datatype Item = Item(id: string, start: nat, end: nat, text: string)

  datatype Found = Found(items: seq<Item>, hasMore: bool)

  function Raw(s: Source): string { Join(s.lines) }

  /** The narrow context of a line: one line before it, two after. */
  function ContextOf(s: Source, k: nat): (r: (nat, nat))
    requires k < |s.lines|
    ensures r.0 <= k < r.1 <= |s.lines|
  {
    (if k == 0 then 0 else k - 1, Min(k + 3, |s.lines|))
  }

  function Original(s: Source, start: nat, end: nat): Item
    requires start <= end <= |Raw(s)|
  {
    Item(s.id, start, end, Raw(s)[start..end])
  }

  /** The item for a matched line: its context if that is small, else the line alone. */
  function ItemFor(s: Source, k: nat): Item
    requires k < |s.lines|
  {
    var (from, to) := ContextOf(s, k);
    var before, window := |Join(s.lines[..from])|, |Join(s.lines[from..to])|;
    SliceIsInPlace(s.lines, from, to);
    SliceIsInPlace(s.lines, k, k + 1);
    if window <= WINDOW_LIMIT then Original(s, before, before + window)
    else Original(s, |Join(s.lines[..k])|, |Join(s.lines[..k])| + |Join(s.lines[k..k + 1])|)
  }

  /** Every item is the source's bytes at its offsets and contains its matched line. */
  lemma ItemContainsItsLine(s: Source, k: nat)
    requires k < |s.lines|
    ensures var item := ItemFor(s, k);
            var at := |Join(s.lines[..k])|;
            && item.id == s.id && item.end <= |Raw(s)| && item.text == Raw(s)[item.start..item.end]
            && item.start <= at && at + |s.lines[k]| <= item.end
            && item.text[at - item.start..at + |s.lines[k]| - item.start] == s.lines[k]
            && (|item.text| <= 2000 || item.text == s.lines[k])
  {
    LineIsInPlace(s, k);
    ContextHoldsLine(s, k);
    var item, at := ItemFor(s, k), |Join(s.lines[..k])|;
    SliceOfSlice(Raw(s), item.start, item.end, at, at + |s.lines[k]|);
  }

  /** The item of a line has one line before and two after if they are at most 2000 bytes, else the line alone. */
  lemma ItemIsContextIff(s: Source, k: nat)
    requires k < |s.lines|
    ensures var item := ItemFor(s, k);
            var from, to := if k == 0 then 0 else k - 1, if k + 3 <= |s.lines| then k + 3 else |s.lines|;
            var context := Join(s.lines[from..to]);
            && item.text == (if |context| <= 2000 then context else s.lines[k])
            && item.start == (if |context| <= 2000 then |Join(s.lines[..from])| else |Join(s.lines[..k])|)
            && item.end == item.start + |item.text|
  {
    LineIsInPlace(s, k);
    var (from, to) := ContextOf(s, k);
    SliceIsInPlace(s.lines, from, to);
  }

  lemma SliceOfSlice(raw: string, from: nat, to: nat, first: nat, last: nat)
    requires from <= first <= last <= to <= |raw|
    ensures raw[from..to][first - from..last - from] == raw[first..last]
  {
    var outer := raw[from..to];
    var inner := outer[first - from..last - from];
    forall i | 0 <= i < last - first ensures inner[i] == raw[first..last][i] {
      assert inner[i] == outer[first - from + i] == raw[first + i];
    }
    assert |inner| == |raw[first..last]|;
    assert inner == raw[first..last];
  }

  lemma LineIsInPlace(s: Source, k: nat)
    requires k < |s.lines|
    ensures var at := |Join(s.lines[..k])|;
            at + |s.lines[k]| <= |Raw(s)| && Raw(s)[at..at + |s.lines[k]|] == s.lines[k]
    ensures Join(s.lines[k..k + 1]) == s.lines[k]
  {
    SliceIsInPlace(s.lines, k, k + 1);
    assert s.lines[k..k + 1] == [s.lines[k]];
    JoinOne(s.lines[k]);
  }

  lemma ContextHoldsLine(s: Source, k: nat)
    requires k < |s.lines|
    ensures var (from, to) := ContextOf(s, k);
            var before, window := |Join(s.lines[..from])|, |Join(s.lines[from..to])|;
            && before <= |Join(s.lines[..k])| && |Join(s.lines[..k])| + |s.lines[k]| <= before + window <= |Raw(s)|
  {
    var (from, to) := ContextOf(s, k);
    SliceIsInPlace(s.lines, from, to);
    SliceIsInPlace(s.lines, k, k + 1);
    LineIsInPlace(s, k);
    PrefixGrows(s.lines, from, k);
    PrefixGrows(s.lines, k + 1, to);
  }

  lemma PrefixGrows(lines: seq<string>, a: nat, b: nat)
    requires a <= b <= |lines|
    ensures |Join(lines[..a])| <= |Join(lines[..b])|
  {
    SliceIsInPlace(lines, a, b);
  }

  /** The items of the matching lines among the first `n`. */
  function MatchesIn(s: Source, n: nat, matches: string -> bool): seq<Item>
    requires n <= |s.lines|
  {
    if n == 0 then []
    else MatchesIn(s, n - 1, matches) + if matches(s.lines[n - 1]) then [ItemFor(s, n - 1)] else []
  }

  /** The items are those of the matching lines, and of no others. */
  lemma {:induction false} MatchesInMeans(s: Source, n: nat, matches: string -> bool, item: Item)
    requires n <= |s.lines|
    ensures item in MatchesIn(s, n, matches) <==> exists k :: 0 <= k < n && matches(s.lines[k]) && item == ItemFor(s, k)
  {
    hide ItemFor;
    if n > 0 { MatchesInMeans(s, n - 1, matches, item); }
  }

  function AllMatches(sources: seq<Source>, matches: string -> bool): seq<Item> {
    if sources == [] then []
    else
      var last := sources[|sources| - 1];
      AllMatches(sources[..|sources| - 1], matches) + MatchesIn(last, |last.lines|, matches)
  }

  lemma {:induction false} MatchesOnlyGrow(s: Source, m: nat, n: nat, matches: string -> bool)
    requires m <= n <= |s.lines|
    ensures MatchesIn(s, m, matches) <= MatchesIn(s, n, matches)
    decreases n
  {
    if m < n { MatchesOnlyGrow(s, m, n - 1, matches); }
  }

  lemma {:induction false} AllMatchesOnlyGrow(sources: seq<Source>, m: nat, matches: string -> bool)
    requires m <= |sources|
    ensures AllMatches(sources[..m], matches) <= AllMatches(sources, matches)
    decreases |sources|
  {
    if m < |sources| {
      var front := sources[..|sources| - 1];
      assert front[..m] == sources[..m];
      AllMatchesOnlyGrow(front, m, matches);
    } else {
      assert sources[..m] == sources;
    }
  }

  /** What the search has collected by the `n`-th line of a source are the first of all the matches. */
  lemma FoundSoFar(sources: seq<Source>, i: nat, n: nat, matches: string -> bool)
    requires i < |sources| && n <= |sources[i].lines|
    ensures AllMatches(sources[..i], matches) + MatchesIn(sources[i], n, matches) <= AllMatches(sources, matches)
  {
    hide ItemFor, MatchesIn;
    assert sources[..i + 1][..i] == sources[..i];
    MatchesOnlyGrow(sources[i], n, |sources[i].lines|, matches);
    AllMatchesOnlyGrow(sources, i + 1, matches);
  }

  /** The first twenty matches in source order; it says there may be more once it holds twenty. */
  method SearchFiles(sources: seq<Source>, matches: string -> bool) returns (found: Found)
    ensures var all := AllMatches(sources, matches);
            && found.items == (if |all| <= 20 then all else all[..20])
            && (found.hasMore <==> |all| >= 20)
  {
    hide ItemFor;
    var result: seq<Item> := [];
    for i := 0 to |sources|
      invariant result == AllMatches(sources[..i], matches) && |result| < MATCH_LIMIT
    {
      var source := sources[i];
      ghost var earlier := result;
      assert sources[..i + 1][..i] == sources[..i];
      for k := 0 to |source.lines|
        invariant result == earlier + MatchesIn(source, k, matches) && |result| < MATCH_LIMIT
      {
        if matches(source.lines[k]) {
          result := result + [ItemFor(source, k)];
          if |result| >= MATCH_LIMIT {
            FoundSoFar(sources, i, k + 1, matches);
            return Found(result, true);
          }
        }
      }
    }
    assert sources[..|sources|] == sources;
    found := Found(result, false);
  }
}
