/**
 * A package's dependencies in the order they search each other's headers: the farthest
 * from the root first, each settled once every package that requires it is.
 */
module PackageOrder {
  import opened Wrappers
  import opened Graph

  function Count(nodes: seq<nat>, node: nat): nat {
    if nodes == [] then 0 else (if nodes[0] == node then 1 else 0) + Count(nodes[1..], node)
  }

  lemma {:induction false} CountIn(nodes: seq<nat>, node: nat)
    ensures Count(nodes, node) > 0 <==> node in nodes
  {
    if nodes != [] {
      CountIn(nodes[1..], node);
      assert nodes == [nodes[0]] + nodes[1..];
    }
  }

  /** What every package requires, and last what the root does. */
  function Lists(root: seq<nat>, required: seq<seq<nat>>): seq<seq<nat>> {
    required + [root]
  }

  /** How often `node` is listed by the first `count` that are not marked. */
  function Pending(lists: seq<seq<nat>>, marks: seq<bool>, node: nat, count: nat): nat
    requires count <= |lists| == |marks|
  {
    if count == 0 then 0
    else Pending(lists, marks, node, count - 1) + (if marks[count - 1] then 0 else Count(lists[count - 1], node))
  }

  lemma {:induction false} PendingMarked(lists: seq<seq<nat>>, marks: seq<bool>, node: nat, count: nat, i: nat)
    requires count <= |lists| == |marks| && i < |marks| && !marks[i]
    ensures Pending(lists, marks[i := true], node, count)
      == Pending(lists, marks, node, count) - (if i < count then Count(lists[i], node) else 0)
  {
    if count > 0 {
      PendingMarked(lists, marks, node, count - 1, i);
    }
  }

  /** Something still pending is on the list of one not marked. */
  lemma {:induction false} PendingFrom(lists: seq<seq<nat>>, marks: seq<bool>, node: nat, count: nat) returns (i: nat)
    requires count <= |lists| == |marks| && Pending(lists, marks, node, count) > 0
    ensures i < count && !marks[i] && node in lists[i]
  {
    if !marks[count - 1] && Count(lists[count - 1], node) > 0 {
      i := count - 1;
      CountIn(lists[i], node);
    } else {
      i := PendingFrom(lists, marks, node, count - 1);
    }
  }

  lemma {:induction false} PendingSome(lists: seq<seq<nat>>, marks: seq<bool>, node: nat, count: nat, i: nat)
    requires i < count <= |lists| == |marks| && !marks[i] && node in lists[i]
    ensures Pending(lists, marks, node, count) > 0
  {
    CountIn(lists[i], node);
    if i < count - 1 {
      PendingSome(lists, marks, node, count - 1, i);
    }
  }

  // ----- chains of requirements

  /** A chain of requirements from the root to `package`. */
  ghost predicate IsChain(root: seq<nat>, required: seq<seq<nat>>, chain: seq<nat>, package: nat) {
    IsWalk(required, chain) && chain[0] in root && chain[|chain| - 1] == package
  }

  ghost predicate HasChain(root: seq<nat>, required: seq<seq<nat>>, package: nat, length: nat) {
    exists chain :: IsChain(root, required, chain, package) && |chain| == length
  }

  /** No chain is longer, and one is that long. */
  ghost predicate IsDepth(root: seq<nat>, required: seq<seq<nat>>, package: nat, depth: nat) {
    HasChain(root, required, package, depth) && forall chain :: IsChain(root, required, chain, package) ==> |chain| <= depth
  }

  // ----- settling depths

  /** How far a requirer is: the root not at all. */
  function Far(depth: seq<nat>, source: nat): nat {
    if source < |depth| then depth[source] else 0
  }

  /** Each package waits for the requirements of it not followed yet. */
  ghost predicate Counted(lists: seq<seq<nat>>, waiting: seq<nat>, expanded: seq<bool>, rest: seq<nat>) {
    && |lists| == |expanded| == |waiting| + 1
    && forall p :: 0 <= p < |waiting| ==> waiting[p] == Pending(lists, expanded, p, |lists|) + Count(rest, p)
  }

  /** A package is settled when it waits for nothing more, which it once did. */
  ghost predicate Settled(lists: seq<seq<nat>>, waiting: seq<nat>, pushed: seq<bool>) {
    && |lists| == |waiting| + 1 && |pushed| == |waiting|
    && forall p :: 0 <= p < |waiting| ==>
        (pushed[p] <==> waiting[p] == 0 && Pending(lists, Unfollowed(|lists|), p, |lists|) > 0)
  }

  function Unfollowed(count: nat): seq<bool> {
    seq(count, _ => false)
  }

  /** What waits to be followed is the root or settled packages, each once. */
  ghost predicate Stacked(sources: seq<nat>, pushed: seq<bool>, expanded: seq<bool>) {
    && |expanded| == |pushed| + 1
    && (forall i, j :: 0 <= i < j < |sources| ==> sources[i] != sources[j])
    && (forall s :: s in sources ==> s < |expanded| && !expanded[s] && (s < |pushed| ==> pushed[s]))
    && (forall p :: 0 <= p < |pushed| ==> (pushed[p] <==> expanded[p] || p in sources))
    && (expanded[|pushed|] || |pushed| in sources)
  }

  /** Each list followed puts what it holds farther than its source. */
  ghost predicate Farther(lists: seq<seq<nat>>, depth: seq<nat>, expanded: seq<bool>, current: nat, rest: seq<nat>) {
    && |lists| == |expanded| == |depth| + 1
    && forall s, p: nat :: 0 <= s < |lists| && expanded[s] && p in lists[s] && p < |depth| && (s == current ==> p !in rest) ==>
        depth[p] > Far(depth, s)
  }

  /** Each depth is that of a chain. */
  ghost predicate Chained(root: seq<nat>, required: seq<seq<nat>>, depth: seq<nat>, pushed: seq<bool>) {
    && |depth| == |required| == |pushed|
    && (forall p :: 0 <= p < |depth| && depth[p] > 0 ==> HasChain(root, required, p, depth[p]))
    && (forall p :: 0 <= p < |depth| && pushed[p] ==> depth[p] > 0)
  }

  /** The state of the loop: `rest` is what is left of the list of `current`. */
  ghost predicate Settling(root: seq<nat>, required: seq<seq<nat>>, waiting: seq<nat>, depth: seq<nat>, pushed: seq<bool>,
                           expanded: seq<bool>, sources: seq<nat>, current: nat, rest: seq<nat>) {
    var lists := Lists(root, required);
    && Counted(lists, waiting, expanded, rest) && Settled(lists, waiting, pushed)
    && Stacked(sources, pushed, expanded) && Farther(lists, depth, expanded, current, rest)
    && Chained(root, required, depth, pushed)
    && current < |lists| && expanded[current] && (forall p :: p in rest ==> p in lists[current])
  }

  lemma {:induction false} Took(root: seq<nat>, required: seq<seq<nat>>, waiting: seq<nat>, depth: seq<nat>, pushed: seq<bool>,
                                expanded: seq<bool>, sources: seq<nat>, source: nat)
    requires Between(root, required, waiting, depth, pushed, expanded, sources + [source])
    ensures source < |expanded|
      && Settling(root, required, waiting, depth, pushed, expanded[source := true], sources, source, Lists(root, required)[source])
  {
    hide Chained;
    var lists := Lists(root, required);
    var before := sources + [source];
    assert before[|sources|] == source && source in before;
    assert forall s :: s in sources ==> s in before;
    forall p | 0 <= p < |waiting|
      ensures waiting[p] == Pending(lists, expanded[source := true], p, |lists|) + Count(lists[source], p)
    {
      PendingMarked(lists, expanded, p, |lists|, source);
    }
    forall i | 0 <= i < |sources| ensures sources[i] != source {
      assert before[i] != before[|sources|];
    }
    assert forall i :: 0 <= i < |sources| ==> sources[i] == before[i];
  }

  /** Between two lists. */
  ghost predicate Between(root: seq<nat>, required: seq<seq<nat>>, waiting: seq<nat>, depth: seq<nat>, pushed: seq<bool>,
                          expanded: seq<bool>, sources: seq<nat>) {
    var lists := Lists(root, required);
    && Counted(lists, waiting, expanded, []) && Settled(lists, waiting, pushed)
    && Stacked(sources, pushed, expanded) && Farther(lists, depth, expanded, 0, [])
    && Chained(root, required, depth, pushed)
  }

  lemma Followed(root: seq<nat>, required: seq<seq<nat>>, waiting: seq<nat>, depth: seq<nat>, pushed: seq<bool>,
                 expanded: seq<bool>, sources: seq<nat>, current: nat)
    requires Settling(root, required, waiting, depth, pushed, expanded, sources, current, [])
    ensures Between(root, required, waiting, depth, pushed, expanded, sources)
  {
  }

  function Max(a: nat, b: nat): nat {
    if a > b then a else b
  }

  /** A requirement followed was still waited for: what waits never goes below nothing. */
  lemma {:induction false} StillWaits(root: seq<nat>, required: seq<seq<nat>>, waiting: seq<nat>, depth: seq<nat>, pushed: seq<bool>,
                                      expanded: seq<bool>, sources: seq<nat>, current: nat, rest: seq<nat>)
    requires Settling(root, required, waiting, depth, pushed, expanded, sources, current, rest)
    requires rest != [] && rest[0] < |waiting|
    ensures waiting[rest[0]] > 0 && !pushed[rest[0]]
  {
    hide Chained, Farther, Stacked;
    assert Count(rest, rest[0]) > 0;
  }

  lemma {:induction false} FollowOne(root: seq<nat>, required: seq<seq<nat>>, waiting: seq<nat>, depth: seq<nat>, pushed: seq<bool>,
                                     expanded: seq<bool>, sources: seq<nat>, current: nat, rest: seq<nat>)
    requires Settling(root, required, waiting, depth, pushed, expanded, sources, current, rest)
    requires IsGraph(required) && Within(root, |required|)
    requires rest != []
    ensures rest[0] < |waiting| == |depth| == |pushed| && waiting[rest[0]] > 0 && !pushed[rest[0]]
    ensures
      var to := rest[0];
      var less, deeper := waiting[to := waiting[to] - 1], depth[to := Max(depth[to], Far(depth, current) + 1)];
      if less[to] == 0 then
        Settling(root, required, less, deeper, pushed[to := true], expanded, sources + [to], current, rest[1..])
      else Settling(root, required, less, deeper, pushed, expanded, sources, current, rest[1..])
  {
    var lists, to := Lists(root, required), rest[0];
    assert to in lists[current];
    assert to < |required| by {
      assert forall i :: 0 <= i < |required| ==> Within(required[i], |required|);
    }
    StillWaits(root, required, waiting, depth, pushed, expanded, sources, current, rest);
    var less, deeper := waiting[to := waiting[to] - 1], depth[to := Max(depth[to], Far(depth, current) + 1)];
    assert rest == [to] + rest[1..];
    CountedOne(lists, waiting, expanded, rest);
    FartherOne(lists, depth, expanded, pushed, sources, current, rest);
    ChainedOne(root, required, depth, pushed, expanded, sources, current, to);
    PendingWas(lists, waiting, expanded, rest);
    hide Counted, Farther, Chained;
    if less[to] == 0 {
      StackedOne(sources, pushed, expanded, to);
    }
  }

  lemma {:induction false} CountedOne(lists: seq<seq<nat>>, waiting: seq<nat>, expanded: seq<bool>, rest: seq<nat>)
    requires Counted(lists, waiting, expanded, rest) && rest != [] && rest[0] < |waiting| && waiting[rest[0]] > 0
    ensures Counted(lists, waiting[rest[0] := waiting[rest[0]] - 1], expanded, rest[1..])
  {
  }

  /** What waits now waited at first. */
  lemma {:induction false} PendingWas(lists: seq<seq<nat>>, waiting: seq<nat>, expanded: seq<bool>, rest: seq<nat>)
    requires Counted(lists, waiting, expanded, rest) && rest != [] && rest[0] < |waiting|
    requires exists s :: 0 <= s < |lists| && rest[0] in lists[s]
    ensures Pending(lists, Unfollowed(|lists|), rest[0], |lists|) > 0
  {
    var s :| 0 <= s < |lists| && rest[0] in lists[s];
    PendingSome(lists, Unfollowed(|lists|), rest[0], |lists|, s);
  }

  lemma {:induction false} FartherOne(lists: seq<seq<nat>>, depth: seq<nat>, expanded: seq<bool>, pushed: seq<bool>,
                                      sources: seq<nat>, current: nat, rest: seq<nat>)
    requires Farther(lists, depth, expanded, current, rest) && Stacked(sources, pushed, expanded)
    requires rest != [] && rest[0] < |depth| && !pushed[rest[0]] && current < |lists| && |pushed| == |depth|
    ensures Farther(lists, depth[rest[0] := Max(depth[rest[0]], Far(depth, current) + 1)], expanded, current, rest[1..])
  {
    var to := rest[0];
    var deeper := depth[to := Max(depth[to], Far(depth, current) + 1)];
    assert rest == [to] + rest[1..];
    assert !expanded[to];
    forall s, p: nat | 0 <= s < |lists| && expanded[s] && p in lists[s] && p < |depth| && (s == current ==> p !in rest[1..])
      ensures deeper[p] > Far(deeper, s)
    {
      assert Far(deeper, s) == Far(depth, s);
      if p != to {
        assert s == current ==> p !in rest;
      } else if s != current {
        assert depth[p] > Far(depth, s);
      }
    }
  }

  lemma {:induction false} ChainedOne(root: seq<nat>, required: seq<seq<nat>>, depth: seq<nat>, pushed: seq<bool>,
                                      expanded: seq<bool>, sources: seq<nat>, current: nat, to: nat)
    requires Chained(root, required, depth, pushed) && Stacked(sources, pushed, expanded)
    requires current < |expanded| && expanded[current] && to in Lists(root, required)[current] && to < |required|
    ensures var deeper := depth[to := Max(depth[to], Far(depth, current) + 1)];
      Chained(root, required, deeper, pushed) && Chained(root, required, deeper, pushed[to := true])
  {
    hide HasChain;
    if current == |required| {
      ChainStarts(root, required, to);
    } else {
      assert pushed[current] && depth[current] > 0;
      ChainGoesOn(root, required, current, to, depth[current]);
    }
  }

  lemma ChainStarts(root: seq<nat>, required: seq<seq<nat>>, to: nat)
    requires to in root && to < |required|
    ensures HasChain(root, required, to, 1)
  {
    assert IsChain(root, required, [to], to);
  }

  lemma ChainGoesOn(root: seq<nat>, required: seq<seq<nat>>, from: nat, to: nat, length: nat)
    requires HasChain(root, required, from, length) && Leads(required, from, to)
    ensures HasChain(root, required, to, length + 1)
  {
    var chain :| IsChain(root, required, chain, from) && |chain| == length;
    var longer := chain + [to];
    assert forall i :: 0 <= i < |longer| - 1 ==> Leads(required, longer[i], longer[i + 1]);
    assert IsChain(root, required, longer, to);
  }

  lemma {:induction false} StackedOne(sources: seq<nat>, pushed: seq<bool>, expanded: seq<bool>, to: nat)
    requires Stacked(sources, pushed, expanded) && to < |pushed| && !pushed[to]
    ensures Stacked(sources + [to], pushed[to := true], expanded)
  {
    assert to !in sources && !expanded[to];
    assert forall s :: s in sources + [to] <==> s in sources || s == to;
  }

  // ----- when all are settled, and when not

  predicate All(marks: seq<bool>) {
    forall i :: 0 <= i < |marks| ==> marks[i]
  }

  ghost predicate AllReached(root: seq<nat>, required: seq<seq<nat>>) {
    forall p :: 0 <= p < |required| ==> ReachesFrom(required, root, p)
  }

  lemma {:induction false} ChainReaches(root: seq<nat>, required: seq<seq<nat>>, package: nat, length: nat)
    requires HasChain(root, required, package, length)
    ensures ReachesFrom(required, root, package)
  {
    var chain :| IsChain(root, required, chain, package) && |chain| == length;
    var i :| 0 <= i < |root| && root[i] == chain[0];
    assert Joins(required, chain, root[i], package);
  }

  /** Once all are settled each requirement is farther than what requires it. */
  ghost predicate Deepens(root: seq<nat>, required: seq<seq<nat>>, depth: seq<nat>) {
    && |depth| == |required|
    && (forall p :: p in root ==> p < |depth| && depth[p] > 0)
    && forall a: nat, b: nat :: Leads(required, a, b) ==> depth[b] > depth[a]
  }

  lemma {:induction false} WalkDeepens(root: seq<nat>, required: seq<seq<nat>>, depth: seq<nat>, walk: seq<nat>)
    requires Deepens(root, required, depth) && IsWalk(required, walk)
    ensures depth[walk[|walk| - 1]] >= depth[walk[0]] + |walk| - 1
    decreases |walk|
  {
    if |walk| > 1 {
      var less := walk[..|walk| - 1];
      WalkDeepens(root, required, depth, less);
      assert Leads(required, walk[|walk| - 2], walk[|walk| - 1]);
    }
  }

  lemma {:induction false} NoCycles(root: seq<nat>, required: seq<seq<nat>>, depth: seq<nat>)
    requires IsGraph(required) && Deepens(root, required, depth)
    ensures Acyclic(required)
  {
    forall p | 0 <= p < |required| ensures !OnCycle(required, p) {
      if OnCycle(required, p) {
        var i :| 0 <= i < |required[p]| && Reaches(required, required[p][i], p);
        var walk :| Joins(required, walk, required[p][i], p);
        assert Within(required[p], |required|);
        assert Leads(required, p, required[p][i]);
        WalkDeepens(root, required, depth, walk);
        assert false;
      }
    }
  }

  /** All settled: no package requires itself, and each depth is the longest chain's. */
  lemma {:induction false} AllSettled(root: seq<nat>, required: seq<seq<nat>>, waiting: seq<nat>, depth: seq<nat>, pushed: seq<bool>,
                                      expanded: seq<bool>)
    requires IsGraph(required) && Within(root, |required|)
    requires Between(root, required, waiting, depth, pushed, expanded, []) && All(pushed)
    ensures Acyclic(required) && AllReached(root, required) && Deepens(root, required, depth)
    ensures forall p :: 0 <= p < |required| ==> IsDepth(root, required, p, depth[p])
  {
    hide HasChain, ReachesFrom, Counted, Settled;
    var lists := Lists(root, required);
    assert Deepens(root, required, depth) by {
      forall a: nat, b: nat | Leads(required, a, b) ensures depth[b] > depth[a] {
        assert b in lists[a] && expanded[a];
      }
      forall p | p in root ensures p < |depth| && depth[p] > 0 {
        assert p in lists[|required|];
      }
    }
    NoCycles(root, required, depth);
    forall p | 0 <= p < |required| ensures IsDepth(root, required, p, depth[p]) && ReachesFrom(required, root, p) {
      assert pushed[p];
      ChainReaches(root, required, p, depth[p]);
      forall chain | IsChain(root, required, chain, p) ensures |chain| <= depth[p] {
        WalkDeepens(root, required, depth, chain);
      }
    }
  }

  /** A package not settled waits for one that is not either. */
  lemma {:induction false} WaitsFor(root: seq<nat>, required: seq<seq<nat>>, waiting: seq<nat>, depth: seq<nat>, pushed: seq<bool>,
                                    expanded: seq<bool>, package: nat) returns (before: nat)
    requires Between(root, required, waiting, depth, pushed, expanded, [])
    requires package < |required| && !pushed[package] && ReachesFrom(required, root, package)
    ensures before < |required| && !pushed[before] && package in required[before]
  {
    hide HasChain;
    var lists := Lists(root, required);
    var i :| 0 <= i < |root| && Reaches(required, root[i], package);
    var walk :| Joins(required, walk, root[i], package);
    var source := if |walk| == 1 then |required| else walk[|walk| - 2];
    assert |walk| > 1 ==> Leads(required, walk[|walk| - 2], walk[|walk| - 1]);
    assert package in lists[source];
    PendingSome(lists, Unfollowed(|lists|), package, |lists|, source);
    before := PendingFrom(lists, expanded, package, |lists|);
  }

  /** Packages not settled, each waiting for the one before it, as many as wanted. */
  lemma {:induction false} WaitingWalk(root: seq<nat>, required: seq<seq<nat>>, waiting: seq<nat>, depth: seq<nat>, pushed: seq<bool>,
                                       expanded: seq<bool>, package: nat, steps: nat) returns (walk: seq<nat>)
    requires Between(root, required, waiting, depth, pushed, expanded, []) && AllReached(root, required)
    requires package < |required| && !pushed[package]
    ensures IsWalk(required, walk) && |walk| == steps + 1 && !pushed[walk[0]]
    decreases steps
  {
    hide Between, Lists, ReachesFrom;
    BetweenShape(root, required, waiting, depth, pushed, expanded);
    if steps == 0 {
      walk := [package];
    } else {
      var rest := WaitingWalk(root, required, waiting, depth, pushed, expanded, package, steps - 1);
      var before := WaitsFor(root, required, waiting, depth, pushed, expanded, rest[0]);
      walk := [before] + rest;
      forall i | 0 <= i < |walk| - 1 ensures Leads(required, walk[i], walk[i + 1]) {
        if i > 0 {
          assert Leads(required, rest[i - 1], rest[i]);
        }
      }
    }
  }

  lemma BetweenShape(root: seq<nat>, required: seq<seq<nat>>, waiting: seq<nat>, depth: seq<nat>, pushed: seq<bool>, expanded: seq<bool>)
    requires Between(root, required, waiting, depth, pushed, expanded, [])
    ensures |pushed| == |required| == |depth| == |waiting|
  {
  }

  /** Not all settled: some package is not reached, or requires itself. */
  lemma {:induction false} NotSettled(root: seq<nat>, required: seq<seq<nat>>, waiting: seq<nat>, depth: seq<nat>, pushed: seq<bool>,
                                      expanded: seq<bool>)
    requires IsGraph(required) && Between(root, required, waiting, depth, pushed, expanded, []) && !All(pushed)
    ensures !(Acyclic(required) && AllReached(root, required))
  {
    hide Between, ReachesFrom;
    BetweenShape(root, required, waiting, depth, pushed, expanded);
    if AllReached(root, required) {
      var package :| 0 <= package < |pushed| && !pushed[package];
      var walk := WaitingWalk(root, required, waiting, depth, pushed, expanded, package, |required|);
      var i, j := Repeats(walk, |required|);
      WalkCycles(required, walk, i, j);
      assert OnCycle(required, walk[i]);
    }
  }

  // ----- the order

  /** How often each package is required. */
  method Requirements(root: seq<nat>, required: seq<seq<nat>>) returns (waiting: seq<nat>)
    requires IsGraph(required) && Within(root, |required|)
    ensures var lists := Lists(root, required);
      |waiting| == |required| && forall p :: 0 <= p < |waiting| ==> waiting[p] == Pending(lists, Unfollowed(|lists|), p, |lists|)
  {
    ghost var none := Unfollowed(|required| + 1);
    ghost var lists := Lists(root, required);
    waiting := seq(|required|, _ => 0);
    for i := 0 to |root|
      invariant |waiting| == |required|
      invariant forall p :: 0 <= p < |waiting| ==> waiting[p] + Count(root[i..], p) == Count(root, p)
    {
      waiting := waiting[root[i] := waiting[root[i]] + 1];
    }
    for s := 0 to |required|
      invariant |waiting| == |required|
      invariant forall p :: 0 <= p < |waiting| ==> waiting[p] == Count(root, p) + Pending(lists, none, p, s)
    {
      ghost var before := waiting;
      for i := 0 to |required[s]|
        invariant |waiting| == |required|
        invariant forall p :: 0 <= p < |waiting| ==>
          waiting[p] + Count(required[s][i..], p) == before[p] + Count(required[s], p)
      {
        assert Within(required[s], |required|);
        var to := required[s][i];
        waiting := waiting[to := waiting[to] + 1];
      }
    }
  }

  lemma {:induction false} NoneMarked(count: nat)
    ensures Unmarked(Unfollowed(count)) == count
  {
    if count > 0 {
      NoneMarked(count - 1);
      assert Unfollowed(count)[..count - 1] == Unfollowed(count - 1);
    }
  }

  lemma {:induction false} NonePending(root: seq<nat>, required: seq<seq<nat>>, waiting: seq<nat>)
    requires |waiting| == |required|
    requires var lists := Lists(root, required);
      forall p :: 0 <= p < |waiting| ==> waiting[p] == Pending(lists, Unfollowed(|lists|), p, |lists|)
    ensures Between(root, required, waiting, seq(|required|, _ => 0), Unfollowed(|required|), Unfollowed(|required| + 1), [|required|])
  {
  }

  /** A requirer still to follow: how far it is, and what it requires. */
  datatype Requirer = Requirer(from: nat, requirements: seq<nat>)

  /** What waits to be followed, as the loop holds it. */
  ghost predicate Held(root: seq<nat>, required: seq<seq<nat>>, depth: seq<nat>, sources: seq<nat>, held: seq<Requirer>) {
    && |held| == |sources|
    && (forall k :: 0 <= k < |held| ==> sources[k] <= |required|)
    && (forall k :: 0 <= k < |held| ==> held[k] == Requirer(Far(depth, sources[k]), Lists(root, required)[sources[k]]))
  }

  lemma HeldTop(root: seq<nat>, required: seq<seq<nat>>, depth: seq<nat>, sources: seq<nat>, held: seq<Requirer>)
    requires Held(root, required, depth, sources, held) && held != []
    ensures |held| == |sources| && sources[|held| - 1] <= |required|
    ensures held[|held| - 1]
      == Requirer(Far(depth, sources[|held| - 1]), Lists(root, required)[sources[|held| - 1]])
    ensures Held(root, required, depth, sources[..|held| - 1], held[..|held| - 1])
  {
  }

  lemma {:induction false} HeldOne(root: seq<nat>, required: seq<seq<nat>>, depth: seq<nat>, pushed: seq<bool>, expanded: seq<bool>,
                                   sources: seq<nat>, held: seq<Requirer>, to: nat, deeper: nat)
    requires Held(root, required, depth, sources, held) && Stacked(sources, pushed, expanded)
    requires |depth| == |required| == |pushed| && to < |depth| && !pushed[to]
    ensures Held(root, required, depth[to := deeper], sources, held)
    ensures Held(root, required, depth[to := deeper], sources + [to], held + [Requirer(deeper, required[to])])
  {
    forall k | 0 <= k < |held| ensures sources[k] != to {
      assert sources[k] in sources;
    }
  }

  /** Follows one requirement: what it requires is settled if it waited for nothing else. */
  method Follow(root: seq<nat>, required: seq<seq<nat>>, waiting: seq<nat>, depth: seq<nat>, settled: nat, held: seq<Requirer>,
                ghost pushed: seq<bool>, ghost expanded: seq<bool>, ghost sources: seq<nat>, ghost current: nat, from: nat,
                to: nat, ghost rest: seq<nat>)
    returns (waits: seq<nat>, deeper: seq<nat>, count: nat, more: seq<Requirer>, ghost marks: seq<bool>, ghost stack: seq<nat>)
    requires IsGraph(required) && Within(root, |required|) && rest != [] && rest[0] == to
    requires Settling(root, required, waiting, depth, pushed, expanded, sources, current, rest)
    requires Held(root, required, depth, sources, held) && from == Far(depth, current)
    requires settled + Unmarked(pushed) == |required| == |pushed|
    ensures Settling(root, required, waits, deeper, marks, expanded, stack, current, rest[1..])
    ensures Held(root, required, deeper, stack, more) && from == Far(deeper, current)
    ensures count + Unmarked(marks) == |required| == |marks|
  {
    FollowOne(root, required, waiting, depth, pushed, expanded, sources, current, rest);
    SettlingShape(root, required, waiting, depth, pushed, expanded, sources, current, rest);
    hide Settling, Unmarked;
    ghost var far := Max(depth[to], from + 1);
    HeldOne(root, required, depth, pushed, expanded, sources, held, to, far);
    hide Held;
    waits, deeper := waiting[to := waiting[to] - 1], depth[to := Max(depth[to], from + 1)];
    count, more, marks, stack := settled, held, pushed, sources;
    if waits[to] == 0 {
      MarkOne(pushed, to);
      count, more := settled + 1, held + [Requirer(deeper[to], required[to])];
      marks, stack := pushed[to := true], sources + [to];
    }
  }

  /** Settles the depth of each package once every package that requires it is settled. */
  method Settle(root: seq<nat>, required: seq<seq<nat>>)
    returns (depth: seq<nat>, settled: nat, ghost waiting: seq<nat>, ghost pushed: seq<bool>, ghost expanded: seq<bool>)
    requires IsGraph(required) && Within(root, |required|)
    ensures Between(root, required, waiting, depth, pushed, expanded, [])
    ensures settled + Unmarked(pushed) == |required| == |pushed|
  {
    var waits := Requirements(root, required);
    depth, settled := seq(|required|, _ => 0), 0;
    pushed, expanded := Unfollowed(|required|), Unfollowed(|required| + 1);
    var held := [Requirer(0, root)];
    ghost var sources: seq<nat> := [|required|];
    NoneMarked(|required|);
    NonePending(root, required, waits);
    assert Held(root, required, depth, sources, held);
    while held != []
      invariant Between(root, required, waits, depth, pushed, expanded, sources)
      invariant Held(root, required, depth, sources, held)
      invariant settled + Unmarked(pushed) == |required| == |pushed|
      decreases Unmarked(expanded)
    {
      hide Between, Settling, Unmarked, Lists, Stacked, Held, Far, Pending, Count;
      HeldTop(root, required, depth, sources, held);
      var next := held[|held| - 1];
      ghost var current: nat := sources[|sources| - 1];
      assert sources == sources[..|sources| - 1] + [current];
      held, sources := held[..|held| - 1], sources[..|sources| - 1];
      Took(root, required, waits, depth, pushed, expanded, sources, current);
      TookShape(root, required, waits, depth, pushed, expanded, sources, current);
      MarkOne(expanded, current);
      expanded := expanded[current := true];
      assert next.requirements[0..] == next.requirements;
      for i := 0 to |next.requirements|
        invariant Settling(root, required, waits, depth, pushed, expanded, sources, current, next.requirements[i..])
        invariant Held(root, required, depth, sources, held) && next.from == Far(depth, current)
        invariant settled + Unmarked(pushed) == |required| == |pushed|
      {
        assert next.requirements[i..][1..] == next.requirements[i + 1..];
        waits, depth, settled, held, pushed, sources := Follow(root, required, waits, depth, settled, held, pushed, expanded,
          sources, current, next.from, next.requirements[i], next.requirements[i..]);
      }
      Followed(root, required, waits, depth, pushed, expanded, sources, current);
    }
    waiting := waits;
  }

  lemma TookShape(root: seq<nat>, required: seq<seq<nat>>, waiting: seq<nat>, depth: seq<nat>, pushed: seq<bool>,
                  expanded: seq<bool>, sources: seq<nat>, current: nat)
    requires Between(root, required, waiting, depth, pushed, expanded, sources + [current])
    ensures current < |expanded| && !expanded[current]
  {
    assert current in sources + [current];
  }

  lemma SettlingShape(root: seq<nat>, required: seq<seq<nat>>, waiting: seq<nat>, depth: seq<nat>, pushed: seq<bool>,
                      expanded: seq<bool>, sources: seq<nat>, current: nat, rest: seq<nat>)
    requires Settling(root, required, waiting, depth, pushed, expanded, sources, current, rest)
    ensures Stacked(sources, pushed, expanded) && |pushed| == |required| == |depth| == |waiting| && current < |expanded| && expanded[current]
  {
  }

  predicate Less(a: string, b: string) {
    if b == "" then false
    else if a == "" then true
    else a[0] < b[0] || (a[0] == b[0] && Less(a[1..], b[1..]))
  }

  /** The first is a shorter start of the second, or at the first place they differ its character comes first. */
  predicate LessAt(a: string, b: string, k: nat) {
    k <= |a| && k < |b| && a[..k] == b[..k] && (k < |a| ==> a[k] < b[k])
  }

  lemma {:induction false} LessExactly(a: string, b: string)
    ensures Less(a, b) <==> exists k: nat :: LessAt(a, b, k)
    decreases |a|
  {
    if a == "" || b == "" {
      assert b != "" ==> LessAt(a, b, 0);
    } else if a[0] == b[0] {
      LessExactly(a[1..], b[1..]);
      if k: nat :| LessAt(a[1..], b[1..], k) {
        assert a[..k + 1] == [a[0]] + a[1..][..k] && b[..k + 1] == [b[0]] + b[1..][..k];
        assert LessAt(a, b, k + 1);
      }
      if k: nat :| LessAt(a, b, k) {
        assert k > 0;
        assert a[1..][..k - 1] == a[..k][1..] && b[1..][..k - 1] == b[..k][1..];
        assert LessAt(a[1..], b[1..], k - 1);
      }
    } else {
      assert a[0] < b[0] ==> LessAt(a, b, 0);
      forall k: nat ensures LessAt(a, b, k) ==> k == 0 {
        assert k > 0 && k <= |a| && k <= |b| ==> a[..k][0] == a[0] && b[..k][0] == b[0];
      }
    }
  }

  lemma {:induction false} LessTransitive(a: string, b: string, c: string)
    requires Less(a, b) && Less(b, c)
    ensures Less(a, c)
    decreases |a|
  {
    if a != "" && a[0] == b[0] && b[0] == c[0] {
      LessTransitive(a[1..], b[1..], c[1..]);
    }
  }

  lemma {:induction false} LessTotal(a: string, b: string)
    ensures (if Less(a, b) then 1 else 0) + (if Less(b, a) then 1 else 0) + (if a == b then 1 else 0) == 1
    decreases |a|
  {
    if a != "" && b != "" {
      LessTotal(a[1..], b[1..]);
      assert a == b <==> a[0] == b[0] && a[1..] == b[1..] by {
        assert a == [a[0]] + a[1..] && b == [b[0]] + b[1..];
      }
    }
  }

  /** Farther first, then by name, and otherwise as given. */
  predicate Ahead(names: seq<string>, depth: seq<nat>, a: nat, b: nat)
    requires a < |names| == |depth| && b < |names|
  {
    depth[a] > depth[b] || (depth[a] == depth[b] && (Less(names[a], names[b]) || (names[a] == names[b] && a < b)))
  }

  lemma AheadTransitive(names: seq<string>, depth: seq<nat>, a: nat, b: nat, c: nat)
    requires a < |names| == |depth| && b < |names| && c < |names|
    requires Ahead(names, depth, a, b) && Ahead(names, depth, b, c)
    ensures Ahead(names, depth, a, c)
  {
    if depth[a] == depth[c] && Less(names[a], names[b]) && Less(names[b], names[c]) {
      LessTransitive(names[a], names[b], names[c]);
    }
  }

  predicate InOrder(names: seq<string>, depth: seq<nat>, order: seq<nat>)
    requires |names| == |depth|
  {
    Within(order, |names|) && forall i, j :: 0 <= i < j < |order| ==> Ahead(names, depth, order[i], order[j])
  }

  function Insert(names: seq<string>, depth: seq<nat>, order: seq<nat>, p: nat): (r: seq<nat>)
    requires |names| == |depth| && p < |names| && InOrder(names, depth, order) && p !in order
    ensures InOrder(names, depth, r) && forall q :: q in r <==> q in order || q == p
  {
    if order == [] then [p]
    else if Ahead(names, depth, p, order[0]) then
      assert forall j :: 0 < j < |order| ==> Ahead(names, depth, p, order[j]) by {
        forall j | 0 < j < |order| ensures Ahead(names, depth, p, order[j]) {
          AheadTransitive(names, depth, p, order[0], order[j]);
        }
      }
      [p] + order
    else
      assert order == [order[0]] + order[1..];
      var rest := Insert(names, depth, order[1..], p);
      assert Ahead(names, depth, order[0], p) by {
        LessTotal(names[order[0]], names[p]);
      }
      var r := [order[0]] + rest;
      assert forall j :: 0 < j < |r| ==> Ahead(names, depth, r[0], r[j]) by {
        forall j | 0 < j < |r| ensures Ahead(names, depth, r[0], r[j]) {
          assert r[j] in rest;
        }
      }
      r
  }

  /** Those of the first `count` packages that are marked, in order. */
  function Sorted(names: seq<string>, depth: seq<nat>, marks: seq<bool>, count: nat): (r: seq<nat>)
    requires |names| == |depth| == |marks| && count <= |names|
    ensures InOrder(names, depth, r) && forall q :: q in r <==> 0 <= q < count && marks[q]
  {
    if count == 0 then []
    else
      var before := Sorted(names, depth, marks, count - 1);
      if marks[count - 1] then Insert(names, depth, before, count - 1) else before
  }

  predicate Precedes(order: seq<nat>, a: nat, b: nat) {
    exists i, j :: 0 <= i < j < |order| && order[i] == a && order[j] == b
  }

  /** Every package once, the farthest from the root first, ties by name. */
  ghost predicate IsOrder(names: seq<string>, root: seq<nat>, required: seq<seq<nat>>, order: seq<nat>) {
    && |names| == |required| && (forall q :: q in order <==> 0 <= q < |names|)
    && exists depth :: Depths(root, required, depth) && InOrder(names, depth, order)
  }

  ghost predicate Depths(root: seq<nat>, required: seq<seq<nat>>, depth: seq<nat>) {
    |depth| == |required| && forall p :: 0 <= p < |required| ==> IsDepth(root, required, p, depth[p])
  }

  /** The packages on a cycle, by name. */
  ghost predicate IsCycle(names: seq<string>, required: seq<seq<nat>>, cycle: seq<nat>) {
    && |names| == |required| && (forall q :: q in cycle <==> OnCycle(required, q))
    && InOrder(names, seq(|names|, _ => 0), cycle)
  }

  /**
   * The packages in the order they search each other's headers, or those that depend on
   * each other: an order exactly when every package is reached and none requires itself.
   */
  method Ordered(names: seq<string>, root: seq<nat>, required: seq<seq<nat>>) returns (r: Result<seq<nat>, seq<nat>>)
    requires IsGraph(required) && Within(root, |required|) && |names| == |required|
    ensures r.Ok? <==> Acyclic(required) && AllReached(root, required)
    ensures r.Ok? ==> IsOrder(names, root, required, r.value)
    ensures r.Err? ==> IsCycle(names, required, r.error)
  {
    hide Between, ReachesFrom, HasChain;
    ghost var waiting, pushed, expanded;
    var depth, settled;
    depth, settled, waiting, pushed, expanded := Settle(root, required);
    BetweenShape(root, required, waiting, depth, pushed, expanded);
    AllMarked(pushed);
    if settled < |names| {
      NotSettled(root, required, waiting, depth, pushed, expanded);
      var itself: seq<bool> := [];
      for p := 0 to |names|
        invariant |itself| == p && forall q :: 0 <= q < p ==> (itself[q] <==> OnCycle(required, q))
      {
        assert Within(required[p], |required|);
        var seen := Closure(required, required[p]);
        itself := itself + [seen[p]];
      }
      return Err(Sorted(names, seq(|names|, _ => 0), itself, |names|));
    }
    AllSettled(root, required, waiting, depth, pushed, expanded);
    assert Depths(root, required, depth);
    return Ok(Sorted(names, depth, seq(|names|, _ => true), |names|));
  }

  lemma {:induction false} AllMarked(marks: seq<bool>)
    ensures Unmarked(marks) == 0 <==> All(marks)
    decreases |marks|
  {
    if marks != [] {
      AllMarked(marks[..|marks| - 1]);
    }
  }

  /** In the order each package comes after those it requires. */
  lemma {:induction false} RequiredFirst(names: seq<string>, root: seq<nat>, required: seq<seq<nat>>, order: seq<nat>, a: nat, b: nat)
    requires IsGraph(required) && Within(root, |required|) && IsOrder(names, root, required, order) && Leads(required, a, b)
    ensures Precedes(order, b, a)
  {
    hide HasChain, IsDepth;
    var depth :| Depths(root, required, depth) && InOrder(names, depth, order);
    assert IsDepth(root, required, a, depth[a]) && IsDepth(root, required, b, depth[b]);
    DeeperOn(root, required, a, b, depth[a], depth[b]);
    assert a in order && b in order;
    assert forall k, l :: 0 <= k < l < |order| ==> depth[order[k]] >= depth[order[l]] by {
      assert forall k, l :: 0 <= k < l < |order| ==> Ahead(names, depth, order[k], order[l]);
    }
    var i :| 0 <= i < |order| && order[i] == b;
    var j :| 0 <= j < |order| && order[j] == a;
  }

  lemma DeeperOn(root: seq<nat>, required: seq<seq<nat>>, a: nat, b: nat, depth: nat, deeper: nat)
    requires IsDepth(root, required, a, depth) && IsDepth(root, required, b, deeper) && Leads(required, a, b)
    ensures deeper > depth
  {
    ChainGoesOn(root, required, a, b, depth);
  }

  /** What `package` needs, directly or not, in the order located. */
  method Needs(required: seq<seq<nat>>, order: seq<nat>, package: nat) returns (needs: seq<nat>)
    requires IsGraph(required) && package < |required| && Within(order, |required|)
    requires forall i, j :: 0 <= i < j < |order| ==> order[i] != order[j]
    ensures forall q :: q in needs <==> q in order && ReachesFrom(required, required[package], q)
    ensures forall a, b :: Precedes(needs, a, b) ==> Precedes(order, a, b)
  {
    hide ReachesFrom;
    assert Within(required[package], |required|);
    var seen := Closure(required, required[package]);
    needs := [];
    for i := 0 to |order|
      invariant forall q :: q in needs <==> q in order[..i] && ReachesFrom(required, required[package], q)
      invariant forall a, b :: Precedes(needs, a, b) ==> Precedes(order[..i], a, b)
    {
      ghost var was := needs;
      assert order[..i + 1] == order[..i] + [order[i]];
      if seen[order[i]] {
        needs := needs + [order[i]];
      }
      forall a, b | Precedes(needs, a, b) ensures Precedes(order[..i + 1], a, b) {
        OneMore(was, needs, order, i, a, b);
      }
    }
    assert order[..|order|] == order;
  }

  lemma {:induction false} OneMore(was: seq<nat>, needs: seq<nat>, order: seq<nat>, i: nat, a: nat, b: nat)
    requires i < |order| && (needs == was || needs == was + [order[i]])
    requires forall q :: q in was ==> q in order[..i]
    requires forall a, b :: Precedes(was, a, b) ==> Precedes(order[..i], a, b)
    requires Precedes(needs, a, b)
    ensures Precedes(order[..i + 1], a, b)
  {
    var x, y :| 0 <= x < y < |needs| && needs[x] == a && needs[y] == b;
    assert x < |was| && needs[x] == was[x];
    if y < |was| {
      assert Precedes(was, a, b);
      var k, l :| 0 <= k < l < i && order[..i][k] == a && order[..i][l] == b;
      assert order[..i + 1][k] == a && order[..i + 1][l] == b;
    } else {
      assert a in was;
      var k :| 0 <= k < i && order[..i][k] == a;
      assert order[..i + 1][k] == a && order[..i + 1][i] == b;
    }
  }
}
