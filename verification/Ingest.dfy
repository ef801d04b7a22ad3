/**
 Sending extraction windows at most once (`scripts/benchmark_pilot/runner.py`, lines
 204-232). Before a window is sent its attempt is saved; after the answer its result
 is. A process may die between any two of these steps, and any number of processes
 may follow on the same files.
 */
module Ingest {
  import opened Corpus

  datatype Key = Key(id: string, index: nat)

  datatype Post = Post(key: Key, window: Window)

  /** The marker files, and what the service was ever sent. */
  datatype Store = Store(attempts: set<Key>, results: set<Key>, sent: seq<Post>)

  /** How far one window gets: the process may die before its attempt is saved, before
      it is sent, or after (or sending or draining raises); or the window is answered. */
  datatype Fate = DiesFirst | DiesUnsent | Unanswered | Answered

  /** One process: the sources it selects, and what befalls their windows. */
  datatype Run = Run(ids: seq<string>, fates: Key -> Fate)

  /** The frozen corpus: the text of every source, and the window size. */
  datatype Frozen = Frozen(text: string -> string, maximum: int)

  function WindowsOf(c: Frozen, id: string): seq<Window> { Spans(c.text(id), c.maximum) }

  function Blank(): Store { Store({}, {}, []) }

  function Attempted(s: Store, key: Key): Store { s.(attempts := s.attempts + {key}) }

  function Sent(s: Store, key: Key, window: Window): Store { Attempted(s, key).(sent := s.sent + [Post(key, window)]) }

  function Resolved(s: Store, key: Key, window: Window): Store { Sent(s, key, window).(results := s.results + {key}) }

  /** The windows of one source from the `i`-th on; whether the process got through them. */
  function FromWindow(c: Frozen, s: Store, id: string, i: nat, fates: Key -> Fate): (Store, bool)
    requires i <= |WindowsOf(c, id)|
    decreases |WindowsOf(c, id)| - i
  {
    var key := Key(id, i);
    if i == |WindowsOf(c, id)| then (s, true)
    else if key in s.results then FromWindow(c, s, id, i + 1, fates)
    else if key in s.attempts then (s, false)
    else
      var window := WindowsOf(c, id)[i];
      match fates(key)
      case DiesFirst => (s, false)
      case DiesUnsent => (Attempted(s, key), false)
      case Unanswered => (Sent(s, key, window), false)
      case Answered => FromWindow(c, Resolved(s, key, window), id, i + 1, fates)
  }

  function FromSource(c: Frozen, s: Store, ids: seq<string>, fates: Key -> Fate): (Store, bool)
    decreases |ids|
  {
    if ids == [] then (s, true)
    else
      var (u, through) := FromWindow(c, s, ids[0], 0, fates);
      if through then FromSource(c, u, ids[1..], fates) else (u, false)
  }

  function After(c: Frozen, runs: seq<Run>): Store {
    if runs == [] then Blank()
    else
      var last := runs[|runs| - 1];
      FromSource(c, After(c, runs[..|runs| - 1]), last.ids, last.fates).0
  }

  /** Whether the `i`-th process returned normally. */
  predicate Completes(c: Frozen, runs: seq<Run>, i: nat)
    requires i < |runs|
  {
    FromSource(c, After(c, runs[..i]), runs[i].ids, runs[i].fates).1
  }

  // ------------------------------------------------------------------ invariant

  /** What was sent of one source, in the order it was sent. */
  function PostsOf(sent: seq<Post>, id: string): seq<Post> {
    if sent == [] then []
    else
      var last := sent[|sent| - 1];
      PostsOf(sent[..|sent| - 1], id) + if last.key.id == id then [last] else []
  }

  function Posts(c: Frozen, id: string): (r: seq<Post>)
    ensures |r| == |WindowsOf(c, id)| && forall i :: 0 <= i < |r| ==> r[i] == Post(Key(id, i), WindowsOf(c, id)[i])
  {
    seq(|WindowsOf(c, id)|, i requires 0 <= i < |WindowsOf(c, id)| => Post(Key(id, i), WindowsOf(c, id)[i]))
  }

  /** A source's windows are sent in order and once; all but the last sent have a result. */
  ghost predicate SourceInOrder(c: Frozen, s: Store, id: string) {
    var n := |PostsOf(s.sent, id)|;
    && PostsOf(s.sent, id) <= Posts(c, id)
    && (forall i: nat :: Key(id, i) in s.results ==> i < n)
    && (forall i :: 0 <= i < n - 1 ==> Key(id, i) in s.results)
    && (forall i :: 0 <= i < n ==> Key(id, i) in s.attempts)
    && (Key(id, n) in s.attempts && n > 0 ==> Key(id, n - 1) in s.results)
    && (forall i: nat :: Key(id, i) in s.attempts ==> i <= n)
  }

  /** No window was sent twice, and none without its attempt on file. */
  predicate SentOnce(s: Store) {
    && (forall a, b :: 0 <= a < b < |s.sent| ==> s.sent[a].key != s.sent[b].key)
    && (forall a :: 0 <= a < |s.sent| ==> s.sent[a].key in s.attempts)
  }

  ghost predicate Inv(c: Frozen, s: Store) {
    SentOnce(s) && forall id :: SourceInOrder(c, s, id)
  }

  lemma PostsOfSnoc(sent: seq<Post>, post: Post, id: string)
    ensures PostsOf(sent + [post], id) == PostsOf(sent, id) + if post.key.id == id then [post] else []
  {
    assert (sent + [post])[..|sent|] == sent;
  }

  lemma AttemptKeepsInv(c: Frozen, s: Store, id: string, i: nat)
    requires Inv(c, s) && i == |PostsOf(s.sent, id)| && (forall k :: 0 <= k < i ==> Key(id, k) in s.results)
    ensures Inv(c, Attempted(s, Key(id, i)))
  {
    forall other ensures SourceInOrder(c, Attempted(s, Key(id, i)), other) {
      assert SourceInOrder(c, s, other);
    }
  }

  lemma SendKeepsInv(c: Frozen, s: Store, id: string, i: nat)
    requires Inv(c, s) && i == |PostsOf(s.sent, id)| < |WindowsOf(c, id)|
    requires Key(id, i) !in s.attempts && (forall k :: 0 <= k < i ==> Key(id, k) in s.results)
    ensures Inv(c, Sent(s, Key(id, i), WindowsOf(c, id)[i])) && Inv(c, Resolved(s, Key(id, i), WindowsOf(c, id)[i]))
  {
    var window := WindowsOf(c, id)[i];
    forall other
      ensures SourceInOrder(c, Sent(s, Key(id, i), window), other)
      ensures SourceInOrder(c, Resolved(s, Key(id, i), window), other)
    {
      assert SourceInOrder(c, s, other);
      if other == id {
        SendKeepsOrder(c, s, id, i);
        NextPost(c, s, id, i);
        ResolveKeepsOrder(c, Sent(s, Key(id, i), window), id, i);
      } else {
        SendKeepsOthers(c, s, Post(Key(id, i), window), other);
      }
    }
    SendKeepsOnce(s, Post(Key(id, i), window));
  }

  lemma SendKeepsOnce(s: Store, post: Post)
    requires SentOnce(s) && post.key !in s.attempts
    ensures SentOnce(Sent(s, post.key, post.window))
  {}

  lemma SendKeepsOthers(c: Frozen, s: Store, post: Post, other: string)
    requires SourceInOrder(c, s, other) && post.key.id != other
    ensures SourceInOrder(c, Sent(s, post.key, post.window), other)
    ensures SourceInOrder(c, Resolved(s, post.key, post.window), other)
  {
    PostsOfSnoc(s.sent, post, other);
  }

  lemma SendKeepsOrder(c: Frozen, s: Store, id: string, i: nat)
    requires SourceInOrder(c, s, id) && i == |PostsOf(s.sent, id)| < |WindowsOf(c, id)|
    requires forall k :: 0 <= k < i ==> Key(id, k) in s.results
    ensures SourceInOrder(c, Sent(s, Key(id, i), WindowsOf(c, id)[i]), id)
  {
    hide WindowsOf, Posts, PostsOf;
    NextPost(c, s, id, i);
  }

  lemma ResolveKeepsOrder(c: Frozen, s: Store, id: string, n: nat)
    requires SourceInOrder(c, s, id) && n + 1 == |PostsOf(s.sent, id)|
    ensures SourceInOrder(c, s.(results := s.results + {Key(id, n)}), id)
  {}

  lemma NextPost(c: Frozen, s: Store, id: string, i: nat)
    requires PostsOf(s.sent, id) <= Posts(c, id) && i == |PostsOf(s.sent, id)| < |WindowsOf(c, id)|
    ensures var sent := s.sent + [Post(Key(id, i), WindowsOf(c, id)[i])];
            PostsOf(sent, id) <= Posts(c, id) && |PostsOf(sent, id)| == i + 1
  {
    PostsOfSnoc(s.sent, Post(Key(id, i), WindowsOf(c, id)[i]), id);
    assert Posts(c, id)[..i + 1] == Posts(c, id)[..i] + [Posts(c, id)[i]];
  }

  /** A window that is reached with all earlier ones resolved, and is not resolved itself, is the next to send. */
  lemma NextToSend(c: Frozen, s: Store, id: string, i: nat)
    requires Inv(c, s) && i < |WindowsOf(c, id)| && (forall k :: 0 <= k < i ==> Key(id, k) in s.results)
    requires Key(id, i) !in s.attempts
    ensures i == |PostsOf(s.sent, id)|
  {
    assert SourceInOrder(c, s, id);
    if i > 0 { assert Key(id, i - 1) in s.results; }
  }

  predicate ResolvedUpTo(s: Store, id: string, n: nat) { forall k :: 0 <= k < n ==> Key(id, k) in s.results }

  predicate Extends(s: Store, u: Store) { s.attempts <= u.attempts && s.results <= u.results && s.sent <= u.sent }

  /** An attempt without a result stays one. */
  predicate Stuck(s: Store, key: Key) { key in s.attempts && key !in s.results }

  lemma {:induction false} WindowsKeepInv(c: Frozen, s: Store, id: string, i: nat, fates: Key -> Fate)
    requires Inv(c, s) && i <= |WindowsOf(c, id)| && ResolvedUpTo(s, id, i)
    ensures var (u, through) := FromWindow(c, s, id, i, fates);
            && Inv(c, u) && Extends(s, u)
            && (through ==> ResolvedUpTo(u, id, |WindowsOf(c, id)|))
    decreases |WindowsOf(c, id)| - i
  {
    if i < |WindowsOf(c, id)| {
      var key := Key(id, i);
      if key in s.results {
        WindowsKeepInv(c, s, id, i + 1, fates);
      } else if key !in s.attempts {
        NextToSend(c, s, id, i);
        AttemptKeepsInv(c, s, id, i);
        SendKeepsInv(c, s, id, i);
        if fates(key) == Answered {
          WindowsKeepInv(c, Resolved(s, key, WindowsOf(c, id)[i]), id, i + 1, fates);
        }
      }
    }
  }

  lemma {:induction false} WindowsStayStuck(c: Frozen, s: Store, id: string, i: nat, fates: Key -> Fate, key: Key)
    requires i <= |WindowsOf(c, id)| && Stuck(s, key)
    ensures Stuck(FromWindow(c, s, id, i, fates).0, key)
    ensures key.id == id && i <= key.index < |WindowsOf(c, id)| ==> !FromWindow(c, s, id, i, fates).1
    decreases |WindowsOf(c, id)| - i
  {
    if i < |WindowsOf(c, id)| {
      var own := Key(id, i);
      if own in s.results {
        WindowsStayStuck(c, s, id, i + 1, fates, key);
      } else if own !in s.attempts && fates(own) == Answered {
        WindowsStayStuck(c, Resolved(s, own, WindowsOf(c, id)[i]), id, i + 1, fates, key);
      }
    }
  }

  lemma {:induction false} SourcesKeepInv(c: Frozen, s: Store, ids: seq<string>, fates: Key -> Fate)
    requires Inv(c, s)
    ensures var (u, through) := FromSource(c, s, ids, fates);
            && Inv(c, u) && Extends(s, u)
            && (through ==> forall id :: id in ids ==> ResolvedUpTo(u, id, |WindowsOf(c, id)|))
    decreases |ids|
  {
    if ids != [] {
      var (u, through) := FromWindow(c, s, ids[0], 0, fates);
      WindowsKeepInv(c, s, ids[0], 0, fates);
      if through { SourcesKeepInv(c, u, ids[1..], fates); }
    }
  }

  lemma {:induction false} SourcesStayStuck(c: Frozen, s: Store, ids: seq<string>, fates: Key -> Fate, key: Key)
    requires Stuck(s, key)
    ensures Stuck(FromSource(c, s, ids, fates).0, key)
    ensures key.id in ids && key.index < |WindowsOf(c, key.id)| ==> !FromSource(c, s, ids, fates).1
    decreases |ids|
  {
    if ids != [] {
      var (u, through) := FromWindow(c, s, ids[0], 0, fates);
      WindowsStayStuck(c, s, ids[0], 0, fates, key);
      if through { SourcesStayStuck(c, u, ids[1..], fates, key); }
    }
  }

  // ------------------------------------------------------- what one process does

  /** A process gets past a window that has its result, or that was never attempted and is answered now. */
  predicate Passes(s: Store, key: Key, fate: Fate) { key in s.results || (key !in s.attempts && fate == Answered) }

  /**
   What a process does to one source from window `i` on: it gets past every window before
   `stop`, sending those without a result, and stops there. The window it stops at was
   attempted before, or its attempt is saved unless the process dies first, and it is sent
   only if its answer is what gets lost. No other window is touched.
   */
  ghost predicate Leaves(c: Frozen, s: Store, id: string, i: nat, stop: nat, fates: Key -> Fate, u: Store) {
    && (forall key :: key in u.results <==> key in s.results || (key.id == id && i <= key.index < stop))
    && (forall key :: key in u.attempts <==>
          || key in s.attempts
          || (key.id == id && i <= key.index < stop && key !in s.results)
          || (key == Key(id, stop) && stop < |WindowsOf(c, id)| && fates(key) != DiesFirst && key !in s.results))
    && (forall post :: post in u.sent <==>
          || post in s.sent
          || (&& post.key.id == id && i <= post.key.index < |WindowsOf(c, id)|
              && post.window == WindowsOf(c, id)[post.key.index]
              && post.key !in s.results
              && (|| post.key.index < stop
                  || (post.key.index == stop && post.key !in s.attempts && fates(post.key) == Unanswered))))
  }

  lemma StopsHere(c: Frozen, s: Store, id: string, i: nat, fates: Key -> Fate)
    requires i <= |WindowsOf(c, id)|
    requires i < |WindowsOf(c, id)| ==> !Passes(s, Key(id, i), fates(Key(id, i)))
    ensures Leaves(c, s, id, i, i, fates, FromWindow(c, s, id, i, fates).0)
  {}

  lemma LeavesPast(c: Frozen, s: Store, id: string, i: nat, stop: nat, fates: Key -> Fate, u: Store)
    requires Key(id, i) in s.results && i < stop && Leaves(c, s, id, i + 1, stop, fates, u)
    ensures Leaves(c, s, id, i, stop, fates, u)
  {}

  lemma LeavesFromNext(c: Frozen, s: Store, id: string, i: nat, stop: nat, fates: Key -> Fate, u: Store)
    requires i < |WindowsOf(c, id)| && i < stop
    requires Key(id, i) !in s.results && Key(id, i) !in s.attempts
    requires Leaves(c, Resolved(s, Key(id, i), WindowsOf(c, id)[i]), id, i + 1, stop, fates, u)
    ensures Leaves(c, s, id, i, stop, fates, u)
  {}

  lemma {:induction false} WindowsLeave(c: Frozen, s: Store, id: string, i: nat, fates: Key -> Fate) returns (stop: nat)
    requires i <= |WindowsOf(c, id)|
    ensures i <= stop <= |WindowsOf(c, id)|
    ensures forall k :: i <= k < stop ==> Passes(s, Key(id, k), fates(Key(id, k)))
    ensures stop < |WindowsOf(c, id)| ==> !Passes(s, Key(id, stop), fates(Key(id, stop)))
    ensures FromWindow(c, s, id, i, fates).1 <==> stop == |WindowsOf(c, id)|
    ensures Leaves(c, s, id, i, stop, fates, FromWindow(c, s, id, i, fates).0)
    decreases |WindowsOf(c, id)| - i
  {
    hide Leaves;
    stop := i;
    var key := Key(id, i);
    if i == |WindowsOf(c, id)| || !Passes(s, key, fates(key)) {
      StopsHere(c, s, id, i, fates);
    } else if key in s.results {
      stop := WindowsLeave(c, s, id, i + 1, fates);
      LeavesPast(c, s, id, i, stop, fates, FromWindow(c, s, id, i + 1, fates).0);
    } else {
      var next := Resolved(s, key, WindowsOf(c, id)[i]);
      stop := WindowsLeave(c, next, id, i + 1, fates);
      LeavesFromNext(c, s, id, i, stop, fates, FromWindow(c, next, id, i + 1, fates).0);
    }
  }

  /** A process returns normally exactly if it gets past every window of every source it selects. */
  lemma {:induction false} ReturnsIff(c: Frozen, s: Store, ids: seq<string>, fates: Key -> Fate)
    ensures FromSource(c, s, ids, fates).1 <==>
            forall id, k :: id in ids && 0 <= k < |WindowsOf(c, id)| ==> Passes(s, Key(id, k), fates(Key(id, k)))
    decreases |ids|
  {
    if ids != [] {
      var (u, through) := FromWindow(c, s, ids[0], 0, fates);
      var stop := WindowsLeave(c, s, ids[0], 0, fates);
      assert forall id :: id in ids <==> id == ids[0] || id in ids[1..];
      if through {
        ReturnsIff(c, u, ids[1..], fates);
        forall id, k | 0 <= k < |WindowsOf(c, id)|
          ensures Passes(u, Key(id, k), fates(Key(id, k))) <==> id == ids[0] || Passes(s, Key(id, k), fates(Key(id, k)))
        {}
      }
    }
  }

  // ------------------------------------------------------------- over all histories

  lemma {:induction false} HistoryKeepsInv(c: Frozen, runs: seq<Run>)
    ensures Inv(c, After(c, runs))
    decreases |runs|
  {
    if runs == [] {
      forall id ensures SourceInOrder(c, Blank(), id) { assert PostsOf([], id) == []; }
    } else {
      var last := runs[|runs| - 1];
      HistoryKeepsInv(c, runs[..|runs| - 1]);
      SourcesKeepInv(c, After(c, runs[..|runs| - 1]), last.ids, last.fates);
    }
  }

  /**
   However often processes die and are restarted, no window is ever sent twice, and what
   was sent of a source is a first part of its windows, in order.
   */
  lemma AtMostOnce(c: Frozen, runs: seq<Run>, id: string)
    ensures var sent := After(c, runs).sent;
            && (forall a, b :: 0 <= a < b < |sent| ==> sent[a].key != sent[b].key)
            && PostsOf(sent, id) <= Posts(c, id)
  {
    HistoryKeepsInv(c, runs);
    assert SourceInOrder(c, After(c, runs), id);
  }

  /** Whatever happened before, a process completes if and only if no window of its sources has lost its
      answer, and it answers every window that was never attempted. */
  lemma CompletesIff(c: Frozen, runs: seq<Run>, i: nat)
    requires i < |runs|
    ensures var before := After(c, runs[..i]);
            Completes(c, runs, i) <==>
            forall id, k :: id in runs[i].ids && 0 <= k < |WindowsOf(c, id)| ==>
              || Key(id, k) in before.results
              || (Key(id, k) !in before.attempts && runs[i].fates(Key(id, k)) == Answered)
  {
    ReturnsIff(c, After(c, runs[..i]), runs[i].ids, runs[i].fates);
    var before := After(c, runs[..i]);
    if Completes(c, runs, i) {
      forall id, k | id in runs[i].ids && 0 <= k < |WindowsOf(c, id)|
        ensures Key(id, k) in before.results
                || (Key(id, k) !in before.attempts && runs[i].fates(Key(id, k)) == Answered)
      {
        assert Passes(before, Key(id, k), runs[i].fates(Key(id, k)));
      }
    }
  }

  function SentWindows(posts: seq<Post>): (r: seq<Window>)
    ensures |r| == |posts| && forall i :: 0 <= i < |posts| ==> r[i] == posts[i].window
  {
    seq(|posts|, i requires 0 <= i < |posts| => posts[i].window)
  }

  /**
   Once a process has returned normally, everything sent of each of its sources, over the
   whole history, is every window once and in order: the sent ranges tile the original.
   */
  lemma CompletionTiles(c: Frozen, runs: seq<Run>, i: nat, id: string)
    requires i < |runs| && Completes(c, runs, i) && id in runs[i].ids
    ensures var sent := SentWindows(PostsOf(After(c, runs[..i + 1]).sent, id));
            && sent == WindowsOf(c, id)
            && Tile(sent, 0, c.text(id)) && LinesOf(sent) == Lines(c.text(id)) && Bounded(sent, c.maximum)
  {
    var before := After(c, runs[..i]);
    assert runs[..i + 1][..i] == runs[..i];
    var u := After(c, runs[..i + 1]);
    HistoryKeepsInv(c, runs[..i]);
    SourcesKeepInv(c, before, runs[i].ids, runs[i].fates);
    assert SourceInOrder(c, u, id);
    var all := WindowsOf(c, id);
    if all != [] { assert Key(id, |all| - 1) in u.results; }
    assert PostsOf(u.sent, id) == Posts(c, id);
    assert SentWindows(Posts(c, id)) == all;
    SpansTile(c.text(id), c.maximum);
  }

  /** A window whose answer was lost is never resent and holds up its source for good. */
  lemma {:induction false} LostAnswerBlocks(c: Frozen, runs: seq<Run>, from: nat, i: nat, key: Key)
    requires from <= i < |runs| && Stuck(After(c, runs[..from]), key)
    requires key.id in runs[i].ids && key.index < |WindowsOf(c, key.id)|
    ensures !Completes(c, runs, i)
  {
    StaysStuck(c, runs, from, i, key);
    SourcesStayStuck(c, After(c, runs[..i]), runs[i].ids, runs[i].fates, key);
  }

  lemma {:induction false} StaysStuck(c: Frozen, runs: seq<Run>, from: nat, i: nat, key: Key)
    requires from <= i <= |runs| && Stuck(After(c, runs[..from]), key)
    ensures Stuck(After(c, runs[..i]), key)
    decreases i
  {
    if from < i {
      StaysStuck(c, runs, from, i - 1, key);
      assert runs[..i][..i - 1] == runs[..i - 1];
      SourcesStayStuck(c, After(c, runs[..i - 1]), runs[i - 1].ids, runs[i - 1].fates, key);
    }
  }

  // ------------------------------------------------------------------- the loops

  class MarkerFiles {
    var attempts: set<Key>
    var results: set<Key>
    var sent: seq<Post>

    ghost function Now(): Store
      reads this
    {
      Store(attempts, results, sent)
    }

    constructor ()
      ensures Now() == Blank()
    {
      attempts, results, sent := {}, {}, [];
    }

    method IngestSource(c: Frozen, id: string, fates: Key -> Fate) returns (through: bool)
      modifies this
      ensures (Now(), through) == FromWindow(c, old(Now()), id, 0, fates)
    {
      var windows := CutSpans(c.text(id), c.maximum);
      for i := 0 to |windows|
        invariant FromWindow(c, Now(), id, i, fates) == FromWindow(c, old(Now()), id, 0, fates)
      {
        var key := Key(id, i);
        if key in results {
          continue;
        }
        if key in attempts {
          return false;
        }
        var fate := fates(key);
        if fate == DiesFirst {
          return false;
        }
        attempts := attempts + {key};
        if fate == DiesUnsent {
          return false;
        }
        sent := sent + [Post(key, windows[i])];
        if fate == Unanswered {
          return false;
        }
        results := results + {key};
      }
      through := true;
    }

    method IngestStage(c: Frozen, ids: seq<string>, fates: Key -> Fate) returns (through: bool)
      modifies this
      ensures (Now(), through) == FromSource(c, old(Now()), ids, fates)
    {
      for i := 0 to |ids|
        invariant FromSource(c, Now(), ids[i..], fates) == FromSource(c, old(Now()), ids, fates)
      {
        assert ids[i..][1..] == ids[i + 1..];
        var ok := IngestSource(c, ids[i], fates);
        if !ok {
          return false;
        }
      }
      through := true;
    }
  }
}
