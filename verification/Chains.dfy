/**
 * The shortest chain of links from any of some starts to a file: a breadth-first search
 * that remembers the link each file was first reached by.
 */
module Chains {
  import opened Wrappers
  import opened Graph

  /** A link to a file, and the reference behind it: which file holds it, and its place there. */
  datatype Link = Link(to: nat, holder: nat, at: nat)

  /** The link a file was first reached by, and from where. */
  datatype Trace = Trace(from: nat, link: Link)

  type Links = seq<seq<Link>>

  predicate IsLinked(links: Links) {
    forall a, i :: 0 <= a < |links| && 0 <= i < |links[a]| ==> links[a][i].to < |links|
  }

  function Ends(row: seq<Link>): (ends: seq<nat>)
    ensures |ends| == |row| && forall i :: 0 <= i < |row| ==> ends[i] == row[i].to
  {
    seq(|row|, i requires 0 <= i < |row| => row[i].to)
  }

  /** The graph the links make. */
  function Targets(links: Links): (next: seq<seq<nat>>)
    requires IsLinked(links)
    ensures |next| == |links| && IsGraph(next)
  {
    seq(|links|, a requires 0 <= a < |links| => Ends(links[a]))
  }

  /** One file of a chain, and the link that led to it. */
  datatype Hop = Hop(file: nat, link: Option<Link>)

  /** `chain` goes from a start to `file`, each hop along a link of the one before. */
  ghost predicate IsChain(links: Links, starts: seq<nat>, chain: seq<Hop>, file: nat) {
    && chain != [] && (forall i :: 0 <= i < |chain| ==> chain[i].file < |links|)
    && chain[0].file in starts && chain[0].link.None? && chain[|chain| - 1].file == file
    && forall i :: 0 < i < |chain| ==> Follows(links, chain[i - 1], chain[i])
  }

  predicate Follows(links: Links, before: Hop, hop: Hop) {
    && before.file < |links| && hop.link.Some? && hop.link.value.to == hop.file
    && hop.link.value in links[before.file]
  }

  ghost predicate Traced(links: Links, starts: seq<nat>, reached: seq<bool>, parent: seq<Option<Trace>>, dist: seq<nat>, a: nat)
    requires |reached| == |parent| == |dist| == |links| && a < |links|
  {
    match parent[a]
    case None => a in starts && dist[a] == 0
    case Some(Trace(from, link)) =>
      from < |links| && reached[from] && dist[a] == dist[from] + 1 && link in links[from] && link.to == a
  }

  ghost predicate AllTraced(links: Links, starts: seq<nat>, reached: seq<bool>, parent: seq<Option<Trace>>, dist: seq<nat>) {
    && |reached| == |parent| == |dist| == |links|
    && forall a :: 0 <= a < |links| && reached[a] ==> Traced(links, starts, reached, parent, dist, a)
  }

  /** A link from `a` leads no farther than one past it. */
  predicate Relaxed(reached: seq<bool>, dist: seq<nat>, a: nat, b: nat)
    requires |reached| == |dist| && a < |dist|
  {
    b < |reached| && reached[b] && dist[b] <= dist[a] + 1
  }

  /** The first `done` links from `a` have been followed. */
  ghost predicate Done(links: Links, reached: seq<bool>, dist: seq<nat>, a: nat, done: nat)
    requires |reached| == |dist| == |links| && a < |links| && done <= |links[a]|
  {
    forall i :: 0 <= i < done ==> Relaxed(reached, dist, a, links[a][i].to)
  }

  /**
   * The search, part of the way through the links of `node`: the files reached are at most
   * one farther than it, those waiting no nearer, in order, and the links of every other
   * one reached have been followed.
   */
  ghost predicate Searching(links: Links, starts: seq<nat>, reached: seq<bool>, parent: seq<Option<Trace>>, dist: seq<nat>,
                            waiting: seq<nat>, node: nat, done: nat) {
    && |reached| == |parent| == |dist| == |links| && Within(waiting, |links|)
    && (forall i :: 0 <= i < |waiting| ==> reached[waiting[i]])
    && (forall a :: a in starts ==> a < |links| && reached[a] && dist[a] == 0)
    && AllTraced(links, starts, reached, parent, dist)
    && (forall i, j :: 0 <= i < j < |waiting| ==> dist[waiting[i]] <= dist[waiting[j]])
    && node < |links| && reached[node] && done <= |links[node]|
    && (forall a :: 0 <= a < |links| && reached[a] ==> dist[a] <= dist[node] + 1)
    && (forall i :: 0 <= i < |waiting| ==> dist[waiting[i]] >= dist[node])
    && Done(links, reached, dist, node, done)
    && (forall a :: 0 <= a < |links| && a != node && reached[a] && a !in waiting ==>
          Done(links, reached, dist, a, |links[a]|))
  }

  /** Between two nodes: the links of every file reached and not waiting have been followed. */
  ghost predicate Waiting(links: Links, starts: seq<nat>, reached: seq<bool>, parent: seq<Option<Trace>>, dist: seq<nat>,
                          waiting: seq<nat>) {
    && |reached| == |parent| == |dist| == |links| && Within(waiting, |links|)
    && (forall i :: 0 <= i < |waiting| ==> reached[waiting[i]])
    && (forall a :: a in starts ==> a < |links| && reached[a] && dist[a] == 0)
    && AllTraced(links, starts, reached, parent, dist)
    && (forall i, j :: 0 <= i < j < |waiting| ==> dist[waiting[i]] <= dist[waiting[j]])
    && (waiting != [] ==> forall a :: 0 <= a < |links| && reached[a] ==> dist[a] <= dist[waiting[0]] + 1)
    && (forall a :: 0 <= a < |links| && reached[a] && a !in waiting ==> Done(links, reached, dist, a, |links[a]|))
  }

  lemma {:induction false} Pop(links: Links, starts: seq<nat>, reached: seq<bool>, parent: seq<Option<Trace>>, dist: seq<nat>,
                               waiting: seq<nat>)
    requires Waiting(links, starts, reached, parent, dist, waiting) && waiting != []
    ensures Searching(links, starts, reached, parent, dist, waiting[1..], waiting[0], 0)
  {
    hide Traced;
    assert forall a :: a in waiting ==> a == waiting[0] || a in waiting[1..];
  }

  lemma {:induction false} Followed(links: Links, starts: seq<nat>, reached: seq<bool>, parent: seq<Option<Trace>>, dist: seq<nat>,
                                    waiting: seq<nat>, node: nat)
    requires node < |links| && Searching(links, starts, reached, parent, dist, waiting, node, |links[node]|)
    ensures Waiting(links, starts, reached, parent, dist, waiting)
  {
    hide Traced;
  }

  lemma {:induction false} Skip(links: Links, starts: seq<nat>, reached: seq<bool>, parent: seq<Option<Trace>>, dist: seq<nat>,
                                waiting: seq<nat>, node: nat, done: nat)
    requires Searching(links, starts, reached, parent, dist, waiting, node, done) && done < |links[node]| && IsLinked(links)
    requires reached[links[node][done].to]
    ensures Searching(links, starts, reached, parent, dist, waiting, node, done + 1)
  {
    hide Traced;
  }

  lemma {:induction false} Found(links: Links, starts: seq<nat>, reached: seq<bool>, parent: seq<Option<Trace>>, dist: seq<nat>,
                                 waiting: seq<nat>, node: nat, done: nat)
    requires Searching(links, starts, reached, parent, dist, waiting, node, done) && done < |links[node]| && IsLinked(links)
    requires !reached[links[node][done].to]
    ensures var link := links[node][done];
      var b := link.to;
      Searching(links, starts, reached[b := true], parent[b := Some(Trace(node, link))], dist[b := dist[node] + 1],
        waiting + [b], node, done + 1)
  {
    var link := links[node][done];
    var b := link.to;
    var reached', parent', dist' := reached[b := true], parent[b := Some(Trace(node, link))], dist[b := dist[node] + 1];
    FoundTraced(links, starts, reached, parent, dist, node, link);
    hide AllTraced, Done;
    forall a, n | 0 <= a < |links| && reached[a] && 0 <= n <= |links[a]| && Done(links, reached, dist, a, n)
      ensures Done(links, reached', dist', a, n)
    {
      FoundDone(links, reached, dist, node, b, a, n);
    }
    FoundDone(links, reached, dist, node, b, node, done);
    OneMoreDone(links, reached', dist', node, done);
    assert forall a :: a in waiting ==> a in waiting + [b];
  }

  lemma FoundDone(links: Links, reached: seq<bool>, dist: seq<nat>, node: nat, b: nat, a: nat, done: nat)
    requires |reached| == |dist| == |links| && node < |links| && a < |links| && done <= |links[a]| && b < |links|
    requires reached[a] && !reached[b] && Done(links, reached, dist, a, done)
    ensures Done(links, reached[b := true], dist[b := dist[node] + 1], a, done)
  {
  }

  lemma OneMoreDone(links: Links, reached: seq<bool>, dist: seq<nat>, a: nat, done: nat)
    requires |reached| == |dist| == |links| && a < |links| && done < |links[a]| && Done(links, reached, dist, a, done)
    requires Relaxed(reached, dist, a, links[a][done].to)
    ensures Done(links, reached, dist, a, done + 1)
  {
  }

  lemma FoundTraced(links: Links, starts: seq<nat>, reached: seq<bool>, parent: seq<Option<Trace>>, dist: seq<nat>, node: nat, link: Link)
    requires AllTraced(links, starts, reached, parent, dist) && node < |links| && link in links[node] && link.to < |links|
    requires reached[node] && !reached[link.to]
    ensures var b := link.to;
      AllTraced(links, starts, reached[b := true], parent[b := Some(Trace(node, link))], dist[b := dist[node] + 1])
  {
    var b := link.to;
    var more := reached[b := true];
    forall a | 0 <= a < |links| && more[a]
      ensures Traced(links, starts, more, parent[b := Some(Trace(node, link))], dist[b := dist[node] + 1], a)
    {
      if a != b {
        assert Traced(links, starts, reached, parent, dist, a);
      }
    }
  }

  /** No walk from a start to a file is shorter than the search found it. */
  lemma {:induction false} NoShorter(links: Links, starts: seq<nat>, reached: seq<bool>, parent: seq<Option<Trace>>, dist: seq<nat>,
                                     walk: seq<nat>)
    requires IsLinked(links) && Waiting(links, starts, reached, parent, dist, [])
    requires IsWalk(Targets(links), walk) && walk[0] in starts
    ensures reached[walk[|walk| - 1]] && dist[walk[|walk| - 1]] <= |walk| - 1
    decreases |walk|
  {
    if |walk| > 1 {
      var n := |walk| - 1;
      NoShorter(links, starts, reached, parent, dist, walk[..n]);
      assert Leads(Targets(links), walk[n - 1], walk[n]);
      var i :| 0 <= i < |links[walk[n - 1]]| && links[walk[n - 1]][i].to == walk[n];
      assert Relaxed(reached, dist, walk[n - 1], links[walk[n - 1]][i].to);
    }
  }

  /** Marks the starts, each waiting once. */
  method Begin(links: Links, starts: seq<nat>) returns (reached: seq<bool>, parent: seq<Option<Trace>>, ghost dist: seq<nat>, waiting: seq<nat>)
    requires Within(starts, |links|)
    ensures Waiting(links, starts, reached, parent, dist, waiting)
  {
    reached, parent, dist := seq(|links|, _ => false), seq(|links|, _ => None), seq(|links|, _ => 0);
    waiting := [];
    for i := 0 to |starts|
      invariant |reached| == |links| && Within(waiting, |links|)
      invariant forall a :: 0 <= a < |links| ==> (reached[a] <==> a in starts[..i]) && (reached[a] <==> a in waiting)
    {
      var start := starts[i];
      assert starts[..i + 1] == starts[..i] + [start];
      if !reached[start] {
        reached, waiting := reached[start := true], waiting + [start];
      }
    }
    assert starts[..|starts|] == starts;
    forall a | a in starts ensures a < |links| && reached[a] {
      assert a in starts[..|starts|];
    }
  }

  /** Searches from the nearest on, until nothing waits. */
  method Search(links: Links, starts: seq<nat>) returns (reached: seq<bool>, parent: seq<Option<Trace>>, ghost dist: seq<nat>)
    requires IsLinked(links) && Within(starts, |links|)
    ensures Waiting(links, starts, reached, parent, dist, [])
  {
    hide Waiting, Searching, Unmarked, IsLinked, Relaxed, Traced;
    var waiting;
    reached, parent, dist, waiting := Begin(links, starts);
    while waiting != []
      invariant Waiting(links, starts, reached, parent, dist, waiting)
      decreases Unmarked(reached) + |waiting|
    {
      var node := waiting[0];
      Pop(links, starts, reached, parent, dist, waiting);
      waiting := waiting[1..];
      ghost var todo := Unmarked(reached) + |waiting|;
      SearchingShape(links, starts, reached, parent, dist, waiting, node, 0);
      for i := 0 to |links[node]|
        invariant |reached| == |parent| == |dist| == |links|
        invariant Searching(links, starts, reached, parent, dist, waiting, node, i)
        invariant Unmarked(reached) + |waiting| == todo
      {
        var link := links[node][i];
        LinkEnds(links, node, i);
        if reached[link.to] {
          Skip(links, starts, reached, parent, dist, waiting, node, i);
        } else {
          Found(links, starts, reached, parent, dist, waiting, node, i);
          MarkOne(reached, link.to);
          reached, parent := reached[link.to := true], parent[link.to := Some(Trace(node, link))];
          dist := dist[link.to := dist[node] + 1];
          waiting := waiting + [link.to];
        }
      }
      Followed(links, starts, reached, parent, dist, waiting, node);
    }
  }

  lemma LinkEnds(links: Links, node: nat, i: nat)
    requires IsLinked(links) && node < |links| && i < |links[node]|
    ensures links[node][i].to < |links|
  {
  }

  /** The chain that reached `file`, from its end. */
  method Backward(links: Links, starts: seq<nat>, reached: seq<bool>, parent: seq<Option<Trace>>, ghost dist: seq<nat>, file: nat)
    returns (chain: seq<Hop>)
    requires Waiting(links, starts, reached, parent, dist, []) && file < |links| && reached[file]
    ensures IsChain(links, starts, chain, file) && |chain| == dist[file] + 1
  {
    WaitingShape(links, starts, reached, parent, dist);
    hide Waiting;
    var at: nat := file;
    chain := [];
    assert Tail(links, chain, at, file);
    while parent[at].Some?
      invariant at < |links| && reached[at]
      invariant Tail(links, chain, at, file) && |chain| + dist[at] == dist[file]
      decreases dist[at]
    {
      hide Tail;
      assert Traced(links, starts, reached, parent, dist, at);
      var trace := parent[at].value;
      TailMore(links, chain, trace, at, file);
      chain := [Hop(at, Some(trace.link))] + chain;
      at := trace.from;
    }
    assert Traced(links, starts, reached, parent, dist, at);
    chain := [Hop(at, None)] + chain;
  }

  lemma WaitingShape(links: Links, starts: seq<nat>, reached: seq<bool>, parent: seq<Option<Trace>>, dist: seq<nat>)
    requires Waiting(links, starts, reached, parent, dist, [])
    ensures |reached| == |parent| == |dist| == |links|
    ensures forall a :: 0 <= a < |links| && reached[a] ==> Traced(links, starts, reached, parent, dist, a)
  {
  }

  lemma {:induction false} TailMore(links: Links, chain: seq<Hop>, trace: Trace, at: nat, file: nat)
    requires Tail(links, chain, at, file) && at < |links|
    requires Follows(links, Hop(trace.from, None), Hop(at, Some(trace.link)))
    ensures Tail(links, [Hop(at, Some(trace.link))] + chain, trace.from, file)
  {
    var more := [Hop(at, Some(trace.link))] + chain;
    forall i | 0 < i < |more| ensures Follows(links, more[i - 1], more[i]) {
      if i > 1 {
        assert Follows(links, chain[i - 2], chain[i - 1]);
      }
    }
  }

  /** The shortest chain from a start to `file`, if there is one. */
  method Shortest(links: Links, starts: seq<nat>, file: nat) returns (found: Option<seq<Hop>>)
    requires IsLinked(links) && Within(starts, |links|) && file < |links|
    ensures found.Some? <==> ReachesFrom(Targets(links), starts, file)
    ensures found.Some? ==> IsChain(links, starts, found.value, file)
    ensures found.Some? ==> forall walk :: IsWalk(Targets(links), walk) && walk[0] in starts && walk[|walk| - 1] == file ==>
      |walk| >= |found.value|
  {
    hide Relaxed, Targets, ReachesFrom, Reaches, IsChain;
    ghost var dist: seq<nat>;
    var reached, parent;
    reached, parent, dist := Search(links, starts);
    WaitingShape(links, starts, reached, parent, dist);
    FoundAll(links, starts, reached, parent, dist, file);
    if !reached[file] {
      return None;
    }
    var chain := Backward(links, starts, reached, parent, dist, file);
    found := Some(chain);
  }

  lemma SearchingShape(links: Links, starts: seq<nat>, reached: seq<bool>, parent: seq<Option<Trace>>, dist: seq<nat>,
                       waiting: seq<nat>, node: nat, done: nat)
    requires Searching(links, starts, reached, parent, dist, waiting, node, done)
    ensures |reached| == |parent| == |dist| == |links| && node < |links|
  {
  }

  /** `chain` goes on from `at` to `file`. */
  ghost predicate Tail(links: Links, chain: seq<Hop>, at: nat, file: nat) {
    && (forall i :: 0 <= i < |chain| ==> chain[i].file < |links|)
    && (if chain == [] then at == file
        else Follows(links, Hop(at, None), chain[0]) && chain[|chain| - 1].file == file)
    && forall i :: 0 < i < |chain| ==> Follows(links, chain[i - 1], chain[i])
  }

  /** At the end of a search what is reached is what a start reaches, by no fewer links. */
  lemma {:induction false} FoundAll(links: Links, starts: seq<nat>, reached: seq<bool>, parent: seq<Option<Trace>>, dist: seq<nat>,
                                    file: nat)
    requires IsLinked(links) && Waiting(links, starts, reached, parent, dist, []) && file < |links|
    ensures reached[file] <==> ReachesFrom(Targets(links), starts, file)
    ensures forall walk :: IsWalk(Targets(links), walk) && walk[0] in starts && walk[|walk| - 1] == file ==>
      reached[file] && |walk| >= dist[file] + 1
  {
    forall walk | IsWalk(Targets(links), walk) && walk[0] in starts && walk[|walk| - 1] == file
      ensures reached[file] && |walk| >= dist[file] + 1
    {
      NoShorter(links, starts, reached, parent, dist, walk);
    }
    if ReachesFrom(Targets(links), starts, file) {
      var i :| 0 <= i < |starts| && Reaches(Targets(links), starts[i], file);
      var walk :| Joins(Targets(links), walk, starts[i], file);
    }
    if reached[file] {
      TraceReaches(links, starts, reached, parent, dist, file);
    }
  }

  lemma {:induction false} TraceReaches(links: Links, starts: seq<nat>, reached: seq<bool>, parent: seq<Option<Trace>>, dist: seq<nat>,
                                        file: nat)
    requires IsLinked(links) && Waiting(links, starts, reached, parent, dist, []) && file < |links| && reached[file]
    ensures ReachesFrom(Targets(links), starts, file)
    decreases dist[file]
  {
    hide ReachesFrom;
    assert Traced(links, starts, reached, parent, dist, file);
    match parent[file]
    case None =>
      assert forall i :: 0 <= i < |starts| ==> starts[i] in starts;
      StartsReached(Targets(links), starts);
    case Some(Trace(from, link)) =>
      TraceReaches(links, starts, reached, parent, dist, from);
      var i :| 0 <= i < |links[from]| && links[from][i] == link;
      assert Targets(links)[from][i] == file;
      FromOn(Targets(links), starts, from, file);
  }
}
