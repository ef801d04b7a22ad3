/**
 Tracing an OpenKB tool call back to evidence (`scripts/benchmark_targets/openkb.py`):
 a depth-first search over a page graph that may be cyclic, with one visited set
 shared by every recursive call.
 */
module SourceTrace {
  import opened Wrappers
  import opened FirstSeen

  /** The `sources` frontmatter of each page; a path that is no page lists nothing. */
  type Wiki = map<string, seq<string>>

  /** Pages that belong to one document, with the evidence they stand for. */
  type DirectMap = map<string, string>

  datatype Found = Found(output: seq<string>, visited: set<string>)

  function Frontmatter(wiki: Wiki, path: string): seq<string> {
    if path in wiki then wiki[path] else []
  }

  function Resolve(wiki: Wiki, direct: DirectMap, path: string, visited: set<string>): (r: Found)
    ensures visited <= r.visited
    decreases wiki.Keys - visited, 0
  {
    if path in direct then Found([direct[path]], visited)
    else if path in visited then Found([], visited)
    else if path !in wiki then Found([], visited + {path})
    else ResolveAll(wiki, direct, wiki[path], visited + {path}, [])
  }

  function ResolveAll(wiki: Wiki, direct: DirectMap, sources: seq<string>, visited: set<string>,
          output: seq<string>): (r: Found)
    ensures visited <= r.visited
    decreases wiki.Keys - visited, 1 + |sources|
  {
    if sources == [] then Found(output, visited)
    else
      var first := Resolve(wiki, direct, sources[0], visited);
      ResolveAll(wiki, direct, sources[1..], first.visited, AppendNew(output, first.output))
  }

  /** The set object that all recursive calls of one trace update in place. */
  class VisitedSet {
    var seen: set<string>

    constructor ()
      ensures seen == {}
    {
      seen := {};
    }
  }

  method AppendUnseen(output: seq<string>, more: seq<string>) returns (extended: seq<string>)
    ensures extended == AppendNew(output, more)
  {
    extended := output;
    for i := 0 to |more|
      invariant AppendNew(output, more) == AppendNew(extended, more[i..])
    {
      if more[i] !in extended {
        extended := extended + [more[i]];
      }
    }
  }

  method ResolveSourcePath(wiki: Wiki, direct: DirectMap, path: string, visited: VisitedSet)
    returns (output: seq<string>)
    modifies visited
    ensures Found(output, visited.seen) == Resolve(wiki, direct, path, old(visited.seen))
    decreases wiki.Keys - visited.seen
  {
    if path in direct {
      return [direct[path]];
    }
    if path in visited.seen {
      return [];
    }
    visited.seen := visited.seen + {path};
    output := [];
    var sources := Frontmatter(wiki, path);
    ghost var entry := visited.seen;
    for i := 0 to |sources|
      invariant entry <= visited.seen
      invariant ResolveAll(wiki, direct, sources, entry, []) ==
                ResolveAll(wiki, direct, sources[i..], visited.seen, output)
    {
      var more := ResolveSourcePath(wiki, direct, sources[i], visited);
      output := AppendUnseen(output, more);
    }
  }

  // ------------------------------------------------------------- reachability

  /** Each step leaves a page that is not direct for one of the sources that it lists. */
  ghost predicate IsWalk(wiki: Wiki, direct: DirectMap, walk: seq<string>) {
    && walk != []
    && forall i :: 0 <= i < |walk| - 1 ==> walk[i] !in direct && walk[i + 1] in Frontmatter(wiki, walk[i])
  }

  ghost predicate Reaches(wiki: Wiki, direct: DirectMap, start: string, target: string) {
    exists walk :: IsWalk(wiki, direct, walk) && walk[0] == start && walk[|walk| - 1] == target
  }

  /** The evidence that a path stands for: that of the direct pages it reaches. */
  ghost predicate Evidences(wiki: Wiki, direct: DirectMap, path: string, evidence: string) {
    exists page :: page in direct && direct[page] == evidence && Reaches(wiki, direct, path, page)
  }

  lemma ReachesItself(wiki: Wiki, direct: DirectMap, path: string)
    ensures Reaches(wiki, direct, path, path)
  {
    assert IsWalk(wiki, direct, [path]);
  }

  lemma ReachesBefore(wiki: Wiki, direct: DirectMap, start: string, next: string, target: string)
    requires start !in direct && next in Frontmatter(wiki, start) && Reaches(wiki, direct, next, target)
    ensures Reaches(wiki, direct, start, target)
  {
    var walk :| IsWalk(wiki, direct, walk) && walk[0] == next && walk[|walk| - 1] == target;
    assert IsWalk(wiki, direct, [start] + walk);
  }

  lemma ReachesAfter(wiki: Wiki, direct: DirectMap, start: string, last: string, target: string)
    requires Reaches(wiki, direct, start, last) && last !in direct && target in Frontmatter(wiki, last)
    ensures Reaches(wiki, direct, start, target)
  {
    var walk :| IsWalk(wiki, direct, walk) && walk[0] == start && walk[|walk| - 1] == last;
    var longer := walk + [target];
    assert forall i :: 0 <= i < |walk| ==> longer[i] == walk[i];
    assert IsWalk(wiki, direct, longer);
  }

  // ------------------------------------------------- what one call contributes

  /** The evidence listed directly by a page of `pages`. */
  ghost predicate ListedBy(wiki: Wiki, direct: DirectMap, pages: set<string>, evidence: string) {
    exists page, source ::
        page in pages && source in Frontmatter(wiki, page) && source in direct && direct[source] == evidence
  }

  /** Every page entered is finished: what it lists is direct or has been entered as well. */
  ghost predicate Closed(wiki: Wiki, direct: DirectMap, pages: set<string>, visited: set<string>) {
    forall page, source :: page in pages && source in Frontmatter(wiki, page) ==> source in direct || source in visited
  }

  ghost predicate AllReached(wiki: Wiki, direct: DirectMap, sources: seq<string>, pages: set<string>) {
    forall page :: page in pages ==> page !in direct && exists s :: s in sources && Reaches(wiki, direct, s, page)
  }

  ghost predicate ListedAmong(direct: DirectMap, sources: seq<string>, evidence: string) {
    exists s :: s in sources && s in direct && direct[s] == evidence
  }

  /** What visiting `sources` in turn adds: finished pages reached from them, and their listed evidence. */
  ghost predicate Explored(wiki: Wiki, direct: DirectMap, sources: seq<string>, visited: set<string>,
          output: seq<string>, r: Found)
  {
    var entered := r.visited - visited;
    && (forall s :: s in sources ==> s in direct || s in r.visited)
    && AllReached(wiki, direct, sources, entered)
    && Closed(wiki, direct, entered, r.visited)
    && (forall e :: e in r.output <==>
          e in output || ListedAmong(direct, sources, e) || ListedBy(wiki, direct, entered, e))
    && NoDuplicates(r.output)
  }

  lemma ListedByUnion(wiki: Wiki, direct: DirectMap, a: set<string>, b: set<string>, e: string)
    ensures ListedBy(wiki, direct, a + b, e) <==> ListedBy(wiki, direct, a, e) || ListedBy(wiki, direct, b, e)
  {}

  lemma {:induction false} ResolveExplores(wiki: Wiki, direct: DirectMap, path: string, visited: set<string>)
    ensures Explored(wiki, direct, [path], visited, [], Resolve(wiki, direct, path, visited))
    decreases wiki.Keys - visited, 0
  {
    var r := Resolve(wiki, direct, path, visited);
    ReachesItself(wiki, direct, path);
    if path !in direct && path !in visited && path in wiki {
      EnterExplores(wiki, direct, path, visited, r);
    } else {
      forall e
        ensures !ListedBy(wiki, direct, r.visited - visited, e)
      {}
    }
  }

  lemma EnterExplores(wiki: Wiki, direct: DirectMap, path: string, visited: set<string>, r: Found)
    requires path !in direct && path !in visited && path in wiki
    requires r == ResolveAll(wiki, direct, wiki[path], visited + {path}, [])
    ensures Explored(wiki, direct, [path], visited, [], r)
    decreases wiki.Keys - visited, 0, 0
  {
    var sources := wiki[path];
    ResolveAllExplores(wiki, direct, sources, visited + {path}, []);
    var inner := r.visited - (visited + {path});
    var entered := r.visited - visited;
    assert entered == inner + {path};
    forall page | page in entered
      ensures page !in direct && Reaches(wiki, direct, path, page)
    {
      ReachesItself(wiki, direct, path);
      if page != path {
        var s :| s in sources && Reaches(wiki, direct, s, page);
        ReachesBefore(wiki, direct, path, s, page);
      }
    }
    assert path in [path];
    forall e
      ensures e in r.output <==> ListedAmong(direct, [path], e) || ListedBy(wiki, direct, entered, e)
    {
      ListedByUnion(wiki, direct, inner, {path}, e);
      assert ListedBy(wiki, direct, {path}, e) <==> ListedAmong(direct, sources, e) by {
        assert Frontmatter(wiki, path) == sources && path in {path};
      }
    }
  }

  lemma {:induction false} ResolveAllExplores(wiki: Wiki, direct: DirectMap, sources: seq<string>,
          visited: set<string>, output: seq<string>)
    requires NoDuplicates(output)
    ensures Explored(wiki, direct, sources, visited, output, ResolveAll(wiki, direct, sources, visited, output))
    decreases wiki.Keys - visited, 1 + |sources|
  {
    if sources != [] {
      var first := Resolve(wiki, direct, sources[0], visited);
      var extended := AppendNew(output, first.output);
      var r := ResolveAll(wiki, direct, sources[1..], first.visited, extended);
      ResolveExplores(wiki, direct, sources[0], visited);
      AppendNewMeaning(output, first.output);
      ResolveAllExplores(wiki, direct, sources[1..], first.visited, extended);
      ExploredInTurn(wiki, direct, sources, visited, output, first, extended, r);
    }
  }

  lemma ExploredInTurn(wiki: Wiki, direct: DirectMap, sources: seq<string>, visited: set<string>, output: seq<string>,
          first: Found, extended: seq<string>, r: Found)
    requires sources != [] && visited <= first.visited <= r.visited
    requires Explored(wiki, direct, [sources[0]], visited, [], first)
    requires Explored(wiki, direct, sources[1..], first.visited, extended, r)
    requires forall e :: e in extended <==> e in output || e in first.output
    ensures Explored(wiki, direct, sources, visited, output, r)
  {
    assert sources == [sources[0]] + sources[1..];
    var early, late := first.visited - visited, r.visited - first.visited;
    assert r.visited - visited == early + late;
    forall e
      ensures e in r.output <==>
                e in output || ListedAmong(direct, sources, e) || ListedBy(wiki, direct, early + late, e)
    {
      ListedByUnion(wiki, direct, early, late, e);
      assert ListedAmong(direct, sources, e) <==>
          ListedAmong(direct, [sources[0]], e) || ListedAmong(direct, sources[1..], e);
    }
    forall page | page in early + late
      ensures page !in direct && exists s :: s in sources && Reaches(wiki, direct, s, page)
    {
      if page in early {
        var s :| s in [sources[0]] && Reaches(wiki, direct, s, page);
        assert s in sources;
      } else {
        var s :| s in sources[1..] && Reaches(wiki, direct, s, page);
        assert s in sources;
      }
    }
  }

  // ------------------------------------------------------------- exactness

  lemma {:induction false} WalkIsVisited(wiki: Wiki, direct: DirectMap, walk: seq<string>, visited: set<string>, k: nat)
    requires IsWalk(wiki, direct, walk) && Closed(wiki, direct, visited, visited)
    requires k < |walk| && walk[k] !in direct && walk[0] in visited
    ensures walk[k] in visited
  {
    if k > 0 { WalkIsVisited(wiki, direct, walk, visited, k - 1); }
  }

  /**
   A top-level trace terminates on every graph and returns, without duplicates, exactly
   the evidence of the direct pages reachable through pages that are not direct.
   */
  lemma TraceIsExact(wiki: Wiki, direct: DirectMap, path: string)
    ensures var output := Resolve(wiki, direct, path, {}).output;
            NoDuplicates(output) && forall e :: e in output <==> Evidences(wiki, direct, path, e)
  {
    var r := Resolve(wiki, direct, path, {});
    ResolveExplores(wiki, direct, path, {});
    assert r.visited - {} == r.visited;
    forall e | e in r.output
      ensures Evidences(wiki, direct, path, e)
    {
      ReachesItself(wiki, direct, path);
      assert ListedAmong(direct, [path], e) || ListedBy(wiki, direct, r.visited, e);
      if ListedBy(wiki, direct, r.visited, e) {
        var page, source :|
          page in r.visited && source in Frontmatter(wiki, page) && source in direct && direct[source] == e;
        ReachesAfter(wiki, direct, path, page, source);
      }
    }
    forall e | Evidences(wiki, direct, path, e)
      ensures e in r.output
    {
      var target :| target in direct && direct[target] == e && Reaches(wiki, direct, path, target);
      var walk :| IsWalk(wiki, direct, walk) && walk[0] == path && walk[|walk| - 1] == target;
      if |walk| > 1 {
        WalkIsVisited(wiki, direct, walk, r.visited, |walk| - 2);
        assert ListedBy(wiki, direct, r.visited, e);
      }
    }
  }

  /** Inside a trace a page that was already entered yields nothing, though it may stand for evidence. */
  lemma InnerCallMayForget()
    ensures exists wiki: Wiki, direct: DirectMap, path: string, visited: set<string>, e: string ::
              Evidences(wiki, direct, path, e) && e !in Resolve(wiki, direct, path, visited).output
  {
    var wiki: Wiki := map["hub" := ["doc"]];
    var direct: DirectMap := map["doc" := "e1"];
    ReachesItself(wiki, direct, "hub");
    ReachesAfter(wiki, direct, "hub", "hub", "doc");
    assert Evidences(wiki, direct, "hub", "e1") && "e1" !in Resolve(wiki, direct, "hub", {"hub"}).output;
  }

  // ------------------------------------------------------------- tool calls

  /** A native tool call with the two string arguments that can name a page. */
  datatype ToolCall = ToolCall(name: string, path: Option<string>, docName: Option<string>)

  datatype TraceRow = TraceRow(tool: string, wikiPath: string, evidenceIds: seq<string>)

  function PathOf(call: ToolCall): Option<string> {
    if call.name == "read_file" && call.path.Some? then call.path
    else if call.name == "get_page_content" && call.docName.Some? then Some("sources/" + call.docName.value + ".json")
    else None
  }

  function RowsOf(wiki: Wiki, direct: DirectMap, calls: seq<ToolCall>): seq<TraceRow> {
    if calls == [] then []
    else
      var path := PathOf(calls[0]);
      (if path.Some? then [TraceRow(calls[0].name, path.value, Resolve(wiki, direct, path.value, {}).output)] else [])
      + RowsOf(wiki, direct, calls[1..])
  }

  function Joined(rows: seq<TraceRow>): seq<string> {
    if rows == [] then [] else rows[0].evidenceIds + Joined(rows[1..])
  }

  lemma {:induction false} JoinedSnoc(rows: seq<TraceRow>, row: TraceRow)
    ensures Joined(rows + [row]) == Joined(rows) + row.evidenceIds
  {
    if rows != [] {
      assert (rows + [row])[1..] == rows[1..] + [row];
      JoinedSnoc(rows[1..], row);
    }
  }

  lemma RowsSnoc(wiki: Wiki, direct: DirectMap, calls: seq<ToolCall>, i: nat)
    requires i < |calls|
    ensures RowsOf(wiki, direct, calls[..i + 1]) == RowsOf(wiki, direct, calls[..i]) + RowsOf(wiki, direct, [calls[i]])
    decreases i
  {
    hide Resolve, PathOf;
    if i == 0 {
      assert calls[..1] == [calls[0]];
    } else {
      assert calls[..i + 1][1..] == calls[1..][..i] && calls[..i][1..] == calls[1..][..i - 1];
      RowsSnoc(wiki, direct, calls[1..], i - 1);
    }
  }

  /** One row per call that names a page; the ids are the rows' evidence in first-seen order. */
  method NativeSourceTrace(calls: seq<ToolCall>, wiki: Wiki, direct: DirectMap)
    returns (evidenceIds: seq<string>, trace: seq<TraceRow>)
    ensures trace == RowsOf(wiki, direct, calls)
    ensures evidenceIds == Dedupe(Joined(trace))
  {
    evidenceIds, trace := [], [];
    for i := 0 to |calls|
      invariant trace == RowsOf(wiki, direct, calls[..i])
      invariant evidenceIds == Dedupe(Joined(trace))
    {
      RowsSnoc(wiki, direct, calls, i);
      var path := PathOf(calls[i]);
      if path.Some? {
        var visited := new VisitedSet();
        var mapped := ResolveSourcePath(wiki, direct, path.value, visited);
        var row := TraceRow(calls[i].name, path.value, mapped);
        assert RowsOf(wiki, direct, [calls[i]]) == [row];
        JoinedSnoc(trace, row);
        AppendNewConcat([], Joined(trace), mapped);
        trace := trace + [row];
        evidenceIds := AppendUnseen(evidenceIds, mapped);
      }
    }
    assert calls[..|calls|] == calls;
  }

  lemma {:induction false} JoinedEvidence(wiki: Wiki, direct: DirectMap, calls: seq<ToolCall>, e: string)
    ensures e in Joined(RowsOf(wiki, direct, calls)) <==>
            exists call :: call in calls && PathOf(call).Some? && Evidences(wiki, direct, PathOf(call).value, e)
  {
    if calls != [] {
      JoinedEvidence(wiki, direct, calls[1..], e);
      var path := PathOf(calls[0]);
      var rows := RowsOf(wiki, direct, calls);
      if path.Some? {
        TraceIsExact(wiki, direct, path.value);
        assert rows[1..] == RowsOf(wiki, direct, calls[1..]);
        assert Joined(rows) == rows[0].evidenceIds + Joined(rows[1..]);
      } else {
        assert rows == RowsOf(wiki, direct, calls[1..]);
      }
      assert forall call :: call in calls <==> call == calls[0] || call in calls[1..];
    }
  }

  /** `read_file` names its path, `get_page_content` the source page of its document, no other call a page. */
  ghost predicate NamesPage(call: ToolCall, page: string) {
    || (call.name == "read_file" && call.path == Some(page))
    || (call.name == "get_page_content" && call.docName.Some? && page == "sources/" + call.docName.value + ".json")
  }

  lemma PageNamed(call: ToolCall, page: string)
    ensures PathOf(call) == Some(page) <==> NamesPage(call, page)
  {
    assert "read_file"[0] != "get_page_content"[0];
  }

  /** The rows of a conversation are one for each call that names a page, with that page and its evidence. */
  lemma {:induction false} RowsMean(wiki: Wiki, direct: DirectMap, calls: seq<ToolCall>, row: TraceRow)
    ensures row in RowsOf(wiki, direct, calls) <==>
            exists call :: call in calls && NamesPage(call, row.wikiPath) && row.tool == call.name
                           && row.evidenceIds == Resolve(wiki, direct, row.wikiPath, {}).output
  {
    hide PathOf, NamesPage, Resolve;
    if calls != [] {
      RowsMean(wiki, direct, calls[1..], row);
      PageNamed(calls[0], row.wikiPath);
      assert forall call :: call in calls <==> call == calls[0] || call in calls[1..];
    }
  }

  /** The ids reported for a conversation are the union, over its calls, of what each call's page stands for. */
  lemma TraceUnionIsExact(wiki: Wiki, direct: DirectMap, calls: seq<ToolCall>)
    ensures var ids := Dedupe(Joined(RowsOf(wiki, direct, calls)));
            && NoDuplicates(ids)
            && forall e :: e in ids <==>
                 exists call, page :: call in calls && NamesPage(call, page) && Evidences(wiki, direct, page, e)
  {
    hide PathOf, NamesPage, Evidences, Resolve, RowsOf;
    AppendNewMeaning([], Joined(RowsOf(wiki, direct, calls)));
    forall e
      ensures e in Joined(RowsOf(wiki, direct, calls)) <==>
              exists call, page :: call in calls && NamesPage(call, page) && Evidences(wiki, direct, page, e)
    {
      JoinedEvidence(wiki, direct, calls, e);
      forall call, page
        ensures PathOf(call) == Some(page) <==> NamesPage(call, page)
      {
        PageNamed(call, page);
      }
      if call :| call in calls && PathOf(call).Some? && Evidences(wiki, direct, PathOf(call).value, e) {
        assert NamesPage(call, PathOf(call).value);
      }
    }
  }
}
