/**
 Lines and extraction windows of a source (`scripts/benchmark_pilot/corpus.py`, lines 83-94).
 A source is its UTF-8 encoding, one `char` per byte.
 */
module Corpus {

  // ---------------------------------------------------------------------- lines

  /** The length of the first line, with its end: LF, CR or CR LF. */
  function FirstLine(raw: string): (n: nat)
    requires raw != ""
    ensures 1 <= n <= |raw|
  {
    if raw[0] == '\n' then 1
    else if raw[0] == '\r' then (if |raw| > 1 && raw[1] == '\n' then 2 else 1)
    else if |raw| == 1 then 1
    else 1 + FirstLine(raw[1..])
  }

  /** All lines with their ends. */
  function Lines(raw: string): seq<string> {
    if raw == "" then [] else [raw[..FirstLine(raw)]] + Lines(raw[FirstLine(raw)..])
  }

  function Join(lines: seq<string>): string {
    if lines == [] then "" else lines[0] + Join(lines[1..])
  }

  lemma {:induction false} JoinOfLines(raw: string)
    ensures Join(Lines(raw)) == raw
    decreases |raw|
  {
    if raw != "" {
      JoinOfLines(raw[FirstLine(raw)..]);
      assert Lines(raw)[1..] == Lines(raw[FirstLine(raw)..]);
    }
  }

  lemma {:induction false} JoinConcat(a: seq<string>, b: seq<string>)
    ensures Join(a + b) == Join(a) + Join(b)
  {
    if a == [] {
      assert a + b == b;
    } else {
      assert (a + b)[1..] == a[1..] + b;
      JoinConcat(a[1..], b);
    }
  }

  lemma JoinOne(line: string)
    ensures Join([line]) == line
  {
    assert [line][1..] == [];
  }

  /** A line whose end is not the first half of the end that `next` would complete. */
  predicate EndsBefore(line: string, next: string) {
    line != "" && next != "" && (line[|line| - 1] == '\n' || (line[|line| - 1] == '\r' && next[0] != '\n'))
  }

  predicate IsLine(line: string) { line != "" && FirstLine(line) == |line| }

  /** Consecutive lines of some source. */
  predicate WellSplit(lines: seq<string>) {
    && (forall i :: 0 <= i < |lines| ==> IsLine(lines[i]))
    && (forall i :: 0 <= i < |lines| - 1 ==> EndsBefore(lines[i], lines[i + 1]))
  }

  lemma {:induction false} FirstLineIsLine(raw: string)
    requires raw != ""
    ensures IsLine(raw[..FirstLine(raw)])
    ensures FirstLine(raw) < |raw| ==> EndsBefore(raw[..FirstLine(raw)], raw[FirstLine(raw)..])
    decreases |raw|
  {
    if raw[0] != '\n' && raw[0] != '\r' && |raw| > 1 {
      FirstLineIsLine(raw[1..]);
      assert raw[..FirstLine(raw)][1..] == raw[1..][..FirstLine(raw[1..])];
    }
  }

  lemma {:induction false} LinesAreWellSplit(raw: string)
    ensures WellSplit(Lines(raw))
    decreases |raw|
  {
    if raw != "" {
      var rest := raw[FirstLine(raw)..];
      FirstLineIsLine(raw);
      LinesAreWellSplit(rest);
      var lines := Lines(raw);
      if rest != "" { assert Lines(rest)[0][0] == rest[0]; }
      forall i | 0 <= i < |lines| - 1 ensures EndsBefore(lines[i], lines[i + 1]) {
        if i > 0 { assert lines[i] == Lines(rest)[i - 1] && lines[i + 1] == Lines(rest)[i]; }
      }
    }
  }

  lemma {:induction false} FirstOfJoined(line: string, rest: string)
    requires IsLine(line) && (rest != "" ==> EndsBefore(line, rest))
    ensures FirstLine(line + rest) == |line|
    decreases |line|
  {
    if line[0] != '\n' && line[0] != '\r' && |line| > 1 {
      assert (line + rest)[1..] == line[1..] + rest;
      FirstOfJoined(line[1..], rest);
    } else if rest == "" {
      assert line + rest == line;
    }
  }

  lemma {:induction false} LinesOfJoin(lines: seq<string>)
    requires WellSplit(lines)
    ensures Lines(Join(lines)) == lines
  {
    if lines != [] {
      var rest := Join(lines[1..]);
      if |lines| > 1 { assert EndsBefore(lines[0], lines[1]) && rest[0] == lines[1][0]; }
      LinesOfJoin(lines[1..]);
      FirstOfJoined(lines[0], rest);
      assert (lines[0] + rest)[|lines[0]|..] == rest;
    }
  }

  lemma {:induction false} LineEndsOnce(raw: string, j: nat)
    requires raw != "" && j + 1 < FirstLine(raw)
    ensures raw[j] != '\n' && (raw[j] == '\r' ==> raw[j + 1] == '\n' && j + 2 == FirstLine(raw))
    decreases |raw|
  {
    if raw[0] != '\n' && raw[0] != '\r' && j > 0 { LineEndsOnce(raw[1..], j - 1); }
  }

  /**
   The lines of a source are what lies between its line ends: no line holds an end before
   its own, every line but the last has one, and CR LF is never split.
   */
  lemma LinesMean(raw: string)
    ensures Join(Lines(raw)) == raw
    ensures forall line :: line in Lines(raw) ==>
              line != ""
              && forall j :: 0 <= j < |line| - 1 ==>
                   line[j] != '\n' && (line[j] == '\r' ==> line[j..] == "\r\n")
    ensures forall k :: 0 <= k < |Lines(raw)| - 1 ==> EndsBefore(Lines(raw)[k], Lines(raw)[k + 1])
  {
    JoinOfLines(raw);
    LinesAreWellSplit(raw);
    forall line, j | line in Lines(raw) && 0 <= j < |line| - 1
      ensures line[j] != '\n' && (line[j] == '\r' ==> line[j..] == "\r\n")
    {
      assert IsLine(line);
      LineEndsOnce(line, j);
    }
  }

  /** Any run of consecutive lines reads back as those lines. */
  lemma LinesOfSlice(raw: string, first: nat, last: nat)
    requires first <= last <= |Lines(raw)|
    ensures Lines(Join(Lines(raw)[first..last])) == Lines(raw)[first..last]
  {
    LinesAreWellSplit(raw);
    LinesOfJoin(Lines(raw)[first..last]);
  }

  /** A run of consecutive lines is the bytes of the source from its offset on. */
  lemma SliceIsInPlace(lines: seq<string>, first: nat, last: nat)
    requires first <= last <= |lines|
    ensures var start, text := |Join(lines[..first])|, Join(lines[first..last]);
            start + |text| <= |Join(lines)| && Join(lines)[start..start + |text|] == text
    ensures |Join(lines[..last])| == |Join(lines[..first])| + |Join(lines[first..last])|
  {
    JoinConcat(lines[..first], lines[first..]);
    JoinConcat(lines[first..last], lines[last..]);
    JoinConcat(lines[..first], lines[first..last]);
    assert lines[..first] + lines[first..] == lines;
    assert lines[first..last] + lines[last..] == lines[first..];
    assert lines[..first] + lines[first..last] == lines[..last];
  }

  // -------------------------------------------------------------------- windows

  datatype Window = Window(start: nat, text: string)

  function End(w: Window): nat { w.start + |w.text| }

  /** The windows of the remaining lines, given what is pending and where it starts. */
  function Windows(lines: seq<string>, start: nat, pending: string, maximum: int): seq<Window> {
    if lines == [] then (if pending == "" then [] else [Window(start, pending)])
    else if pending != "" && |pending| + |lines[0]| > maximum then
      [Window(start, pending)] + Windows(lines[1..], start + |pending|, lines[0], maximum)
    else Windows(lines[1..], start, pending + lines[0], maximum)
  }

  function Spans(raw: string, maximum: int): seq<Window> { Windows(Lines(raw), 0, "", maximum) }

  /** The windows follow one another from `start` on, each with the bytes of its place, up to the end. */
  predicate Tile(ws: seq<Window>, start: nat, raw: string) {
    && (ws != [] ==> ws[0].start == start)
    && (forall i :: 0 < i < |ws| ==> ws[i].start == End(ws[i - 1]))
    && (forall i :: 0 <= i < |ws| ==> InPlace(ws[i], start, raw))
    && (if ws == [] then raw == "" else End(ws[|ws| - 1]) == start + |raw|)
  }

  predicate InPlace(w: Window, start: nat, raw: string) {
    && w.text != "" && start <= w.start && End(w) <= start + |raw|
    && w.text == raw[w.start - start..End(w) - start]
  }

  lemma InPlaceLater(w: Window, start: nat, text: string, rest: string)
    requires InPlace(w, start + |text|, rest)
    ensures InPlace(w, start, text + rest)
  {
    assert (text + rest)[w.start - start..End(w) - start] == rest[w.start - start - |text|..End(w) - start - |text|];
  }

  lemma InPlaceFirst(w: Window, rest: string)
    requires w.text != ""
    ensures InPlace(w, w.start, w.text + rest)
  {
    assert (w.text + rest)[..|w.text|] == w.text;
  }

  lemma TilePrepend(w: Window, ws: seq<Window>, rest: string)
    requires w.text != "" && Tile(ws, End(w), rest)
    ensures Tile([w] + ws, w.start, w.text + rest)
  {
    hide InPlace;
    var all := [w] + ws;
    forall i | 0 <= i < |all| ensures InPlace(all[i], w.start, w.text + rest) {
      if i == 0 {
        InPlaceFirst(w, rest);
      } else {
        assert all[i] == ws[i - 1];
        InPlaceLater(ws[i - 1], w.start, w.text, rest);
      }
    }
    forall i | 0 < i < |all| ensures all[i].start == End(all[i - 1]) {
      assert all[i] == ws[i - 1];
      if i > 1 { assert all[i - 1] == ws[i - 2]; }
    }
  }

  lemma {:induction false} WindowsTile(lines: seq<string>, start: nat, pending: string, maximum: int)
    requires forall i :: 0 <= i < |lines| ==> lines[i] != ""
    ensures Tile(Windows(lines, start, pending, maximum), start, pending + Join(lines))
    decreases |lines|
  {
    if lines == [] {
      assert pending + Join(lines) == pending;
    } else if pending != "" && |pending| + |lines[0]| > maximum {
      WindowsTile(lines[1..], start + |pending|, lines[0], maximum);
      TilePrepend(Window(start, pending), Windows(lines[1..], start + |pending|, lines[0], maximum), Join(lines));
    } else {
      WindowsTile(lines[1..], start, pending + lines[0], maximum);
      assert pending + lines[0] + Join(lines[1..]) == pending + Join(lines);
    }
  }

  function LinesOf(ws: seq<Window>): seq<string> {
    if ws == [] then [] else Lines(ws[0].text) + LinesOf(ws[1..])
  }

  /** No line is cut: the windows' own lines are the source's lines. */
  lemma {:induction false} WindowsKeepLines(lines: seq<string>, start: nat, held: seq<string>, maximum: int)
    requires WellSplit(held + lines)
    ensures LinesOf(Windows(lines, start, Join(held), maximum)) == held + lines
    decreases |lines|
  {
    hide WellSplit, Lines, Join;
    HeldLines(held, lines);
    if lines == [] {
      LinesOfOne(Window(start, Join(held)));
      assert held + lines == held;
    } else {
      var head := [lines[0]];
      JoinOne(lines[0]);
      if Join(held) != "" && |Join(held)| + |lines[0]| > maximum {
        LaterLines(held, lines);
        WindowsKeepLines(lines[1..], start + |Join(held)|, head, maximum);
        assert held + lines == held + (head + lines[1..]);
        LinesOfCons(Window(start, Join(held)), Windows(lines[1..], start + |Join(held)|, lines[0], maximum));
      } else {
        HeldGrows(held, lines);
        WindowsKeepLines(lines[1..], start, held + head, maximum);
      }
    }
  }

  lemma LaterLines(held: seq<string>, lines: seq<string>)
    requires WellSplit(held + lines) && lines != []
    ensures WellSplit([lines[0]] + lines[1..])
  {
    assert [lines[0]] + lines[1..] == (held + lines)[|held|..];
  }

  lemma HeldLines(held: seq<string>, lines: seq<string>)
    requires WellSplit(held + lines)
    ensures WellSplit(held) && Lines(Join(held)) == held && (Join(held) == "" <==> held == [])
  {
    assert held == (held + lines)[..|held|];
    LinesOfJoin(held);
  }

  lemma LinesOfOne(w: Window)
    ensures LinesOf([w]) == Lines(w.text)
  {
    assert [w][1..] == [];
  }

  lemma LinesOfCons(w: Window, ws: seq<Window>)
    ensures LinesOf([w] + ws) == Lines(w.text) + LinesOf(ws)
  {
    assert ([w] + ws)[1..] == ws;
  }

  /** A window is within the maximum or is a single line, and the next line would not have fitted. */
  predicate Bounded(ws: seq<Window>, maximum: int) {
    && (forall i :: 0 <= i < |ws| ==> |ws[i].text| <= maximum || IsLine(ws[i].text))
    && (forall i :: 0 <= i < |ws| - 1 ==> |ws[i].text| + |ws[i + 1].text[..FirstOf(ws[i + 1])]| > maximum)
  }

  function FirstOf(w: Window): (n: nat)
    ensures n <= |w.text|
  {
    if w.text == "" then 0 else FirstLine(w.text)
  }

  lemma {:induction false} WindowsAreBounded(lines: seq<string>, start: nat, held: seq<string>, maximum: int)
    requires WellSplit(held + lines) && (|Join(held)| <= maximum || |held| <= 1)
    ensures var ws := Windows(lines, start, Join(held), maximum);
            && Bounded(ws, maximum)
            && (held != [] ==> ws != [] && FirstOf(ws[0]) == |held[0]|)
    decreases |lines|
  {
    hide Lines, IsLine, Join;
    HeldFits(held, lines, maximum);
    if lines != [] {
      var head := [lines[0]];
      JoinOne(lines[0]);
      if Join(held) != "" && |Join(held)| + |lines[0]| > maximum {
        LaterLines(held, lines);
        WindowsAreBounded(lines[1..], start + |Join(held)|, head, maximum);
        var later := Windows(lines[1..], start + |Join(held)|, lines[0], maximum);
        PrependBounded(Window(start, Join(held)), later, maximum);
      } else {
        HeldGrows(held, lines);
        WindowsAreBounded(lines[1..], start, held + head, maximum);
      }
    }
  }

  lemma HeldGrows(held: seq<string>, lines: seq<string>)
    requires lines != []
    ensures var more := held + [lines[0]];
            && more + lines[1..] == held + lines && Join(more) == Join(held) + lines[0]
            && (held != [] ==> more[0] == held[0])
  {
    JoinOne(lines[0]);
    JoinConcat(held, [lines[0]]);
  }

  lemma HeldFits(held: seq<string>, lines: seq<string>, maximum: int)
    requires WellSplit(held + lines) && (|Join(held)| <= maximum || |held| <= 1)
    ensures held == [] <==> Join(held) == ""
    ensures held != [] ==> (|Join(held)| <= maximum || IsLine(Join(held))) && FirstLine(Join(held)) == |held[0]|
  {
    HeldLines(held, lines);
    if held != [] {
      FirstOfHeld(held);
      if |held| == 1 { JoinOne(held[0]); assert held == [held[0]] && held[0] == (held + lines)[0]; }
    }
  }

  lemma PrependBounded(w: Window, ws: seq<Window>, maximum: int)
    requires Bounded(ws, maximum) && (|w.text| <= maximum || IsLine(w.text))
    requires ws != [] && |w.text| + FirstOf(ws[0]) > maximum
    ensures Bounded([w] + ws, maximum)
  {
    var all := [w] + ws;
    forall i | 0 <= i < |all| - 1 ensures |all[i].text| + |all[i + 1].text[..FirstOf(all[i + 1])]| > maximum {
      assert all[i + 1] == ws[i];
      if i > 0 { assert all[i] == ws[i - 1]; }
    }
  }

  lemma FirstOfHeld(held: seq<string>)
    requires WellSplit(held) && held != []
    ensures Join(held) != "" && FirstLine(Join(held)) == |held[0]|
  {
    LinesOfJoin(held);
    assert Lines(Join(held))[0] == held[0];
  }

  /**
   Extraction windows tile the source: contiguous, whole lines in order, none above the
   maximum but single lines, and none smaller than it had to be.
   */
  lemma SpansTile(raw: string, maximum: int)
    ensures Tile(Spans(raw, maximum), 0, raw)
    ensures LinesOf(Spans(raw, maximum)) == Lines(raw)
    ensures Bounded(Spans(raw, maximum), maximum)
  {
    var lines := Lines(raw);
    LinesAreWellSplit(raw);
    JoinOfLines(raw);
    assert [] + lines == lines && "" + raw == raw;
    WindowsTile(lines, 0, "", maximum);
    WindowsKeepLines(lines, 0, [], maximum);
    WindowsAreBounded(lines, 0, [], maximum);
  }

  method CutSpans(raw: string, maximum: int) returns (windows: seq<Window>)
    ensures windows == Spans(raw, maximum)
  {
    windows := [];
    var start: nat := 0;
    var pending := "";
    var lines := Lines(raw);
    for i := 0 to |lines|
      invariant windows + Windows(lines[i..], start, pending, maximum) == Spans(raw, maximum)
    {
      var line := lines[i];
      assert lines[i..][1..] == lines[i + 1..] && "" + line == line;
      if pending != "" && |pending| + |line| > maximum {
        assert windows + ([Window(start, pending)] + Windows(lines[i + 1..], start + |pending|, line, maximum))
            == (windows + [Window(start, pending)]) + Windows(lines[i + 1..], start + |pending|, line, maximum);
        windows := windows + [Window(start, pending)];
        start := start + |pending|;
        pending := "";
      }
      pending := pending + line;
    }
    if pending != "" {
      windows := windows + [Window(start, pending)];
    }
  }
}
