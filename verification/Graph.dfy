/**
 * Graphs on the numbers below a count: for each, those it leads to, in order.
 */
module Graph {
  predicate IsGraph(next: seq<seq<nat>>) {
    forall a :: 0 <= a < |next| ==> Within(next[a], |next|)
  }

  predicate Within(nodes: seq<nat>, count: nat) {
    forall i :: 0 <= i < |nodes| ==> nodes[i] < count
  }

  /** A step from `a` to `b`. */
  predicate Leads(next: seq<seq<nat>>, a: nat, b: nat) {
    a < |next| && b < |next| && b in next[a]
  }

  /** `walk` goes along the graph's steps; one node is a walk of no steps. */
  predicate IsWalk(next: seq<seq<nat>>, walk: seq<nat>) {
    && walk != [] && Within(walk, |next|)
    && forall i :: 0 <= i < |walk| - 1 ==> Leads(next, walk[i], walk[i + 1])
  }

  predicate Joins(next: seq<seq<nat>>, walk: seq<nat>, a: nat, b: nat) {
    IsWalk(next, walk) && walk[0] == a && walk[|walk| - 1] == b
  }

  /** Some walk goes from `a` to `b`. */
  ghost predicate Reaches(next: seq<seq<nat>>, a: nat, b: nat) {
    exists walk :: Joins(next, walk, a, b)
  }

  ghost predicate ReachesFrom(next: seq<seq<nat>>, starts: seq<nat>, b: nat) {
    exists i :: 0 <= i < |starts| && Reaches(next, starts[i], b)
  }

  lemma ReachesItself(next: seq<seq<nat>>, a: nat)
    requires a < |next|
    ensures Reaches(next, a, a)
  {
    assert Joins(next, [a], a, a);
  }

  lemma ReachesOn(next: seq<seq<nat>>, a: nat, b: nat, c: nat)
    requires Reaches(next, a, b) && Leads(next, b, c)
    ensures Reaches(next, a, c)
  {
    var walk :| Joins(next, walk, a, b);
    var longer := walk + [c];
    assert forall i :: 0 <= i < |longer| - 1 ==> Leads(next, longer[i], longer[i + 1]);
    assert Joins(next, longer, a, c);
  }

  lemma ReachesFirst(next: seq<seq<nat>>, a: nat, b: nat, c: nat)
    requires Leads(next, a, b) && Reaches(next, b, c)
    ensures Reaches(next, a, c)
  {
    var walk :| Joins(next, walk, b, c);
    var longer := [a] + walk;
    assert forall i :: 0 <= i < |longer| - 1 ==> Leads(next, longer[i], longer[i + 1]) by {
      forall i | 0 <= i < |longer| - 1 ensures Leads(next, longer[i], longer[i + 1]) {
        if i > 0 {
          assert Leads(next, walk[i - 1], walk[i]);
        }
      }
    }
    assert Joins(next, longer, a, c);
  }

  // ----- closing under steps

  /** Those marked are closed under the graph's steps. */
  ghost predicate Closed(next: seq<seq<nat>>, reached: seq<bool>) {
    |reached| == |next| && forall a: nat, b: nat :: Leads(next, a, b) && reached[a] ==> reached[b]
  }

  lemma {:induction false} ClosedWalk(next: seq<seq<nat>>, reached: seq<bool>, walk: seq<nat>)
    requires IsWalk(next, walk) && Closed(next, reached) && reached[walk[0]]
    ensures reached[walk[|walk| - 1]]
    decreases |walk|
  {
    if |walk| > 1 {
      var less := walk[..|walk| - 1];
      ClosedWalk(next, reached, less);
      assert Leads(next, walk[|walk| - 2], walk[|walk| - 1]);
    }
  }

  lemma ClosedReaches(next: seq<seq<nat>>, reached: seq<bool>, a: nat, b: nat)
    requires Closed(next, reached) && Reaches(next, a, b) && a < |next| && reached[a]
    ensures b < |next| && reached[b]
  {
    var walk :| Joins(next, walk, a, b);
    ClosedWalk(next, reached, walk);
  }

  /** How many are not marked. */
  function Unmarked(marks: seq<bool>): nat {
    if marks == [] then 0 else Unmarked(marks[..|marks| - 1]) + (if marks[|marks| - 1] then 0 else 1)
  }

  lemma {:induction false} MarkOne(marks: seq<bool>, i: nat)
    requires i < |marks| && !marks[i]
    ensures Unmarked(marks[i := true]) == Unmarked(marks) - 1
    decreases |marks|
  {
    var n := |marks| - 1;
    var after := marks[i := true];
    if i == n {
      assert after[..n] == marks[..n];
    } else {
      MarkOne(marks[..n], i);
      assert after[..n] == marks[..n][i := true];
    }
  }

  /** What is marked or waiting is reached, and what a marked one leads to is marked or waiting. */
  ghost predicate Exploring(next: seq<seq<nat>>, starts: seq<nat>, reached: seq<bool>, waiting: seq<nat>) {
    && |reached| == |next| && Within(waiting, |next|)
    && (forall a :: 0 <= a < |next| && reached[a] ==> ReachesFrom(next, starts, a))
    && (forall a :: a in waiting ==> ReachesFrom(next, starts, a))
    && (forall i :: 0 <= i < |starts| ==> starts[i] < |next| && (reached[starts[i]] || starts[i] in waiting))
    && (forall a: nat, b: nat :: Leads(next, a, b) && reached[a] ==> reached[b] || b in waiting)
  }

  lemma {:induction false} ExploredAll(next: seq<seq<nat>>, starts: seq<nat>, reached: seq<bool>)
    requires Exploring(next, starts, reached, [])
    ensures forall a :: 0 <= a < |next| ==> (reached[a] <==> ReachesFrom(next, starts, a))
  {
    forall a | 0 <= a < |next| && ReachesFrom(next, starts, a) ensures reached[a] {
      var i :| 0 <= i < |starts| && Reaches(next, starts[i], a);
      ClosedReaches(next, reached, starts[i], a);
    }
  }

  /** What `starts` lead to in any number of steps: a worklist, each node marked when it is taken. */
  method Closure(next: seq<seq<nat>>, starts: seq<nat>) returns (reached: seq<bool>)
    requires IsGraph(next) && Within(starts, |next|)
    ensures |reached| == |next|
    ensures forall a :: 0 <= a < |next| ==> (reached[a] <==> ReachesFrom(next, starts, a))
  {
    reached := seq(|next|, _ => false);
    var waiting := starts;
    StartsReached(next, starts);
    while waiting != []
      invariant Exploring(next, starts, reached, waiting)
      decreases Unmarked(reached), |waiting|
    {
      var node := waiting[|waiting| - 1];
      ghost var was := waiting;
      waiting := waiting[..|waiting| - 1];
      if !reached[node] {
        MarkOne(reached, node);
        Explored(next, starts, reached, was, node);
        reached := reached[node := true];
        waiting := waiting + next[node];
      } else {
        assert forall a :: a in was ==> a in waiting || a == node;
      }
    }
    ExploredAll(next, starts, reached);
  }

  lemma StartsReached(next: seq<seq<nat>>, starts: seq<nat>)
    requires Within(starts, |next|)
    ensures forall a :: a in starts ==> ReachesFrom(next, starts, a)
  {
    forall a | a in starts ensures ReachesFrom(next, starts, a) {
      ReachesItself(next, a);
    }
  }

  lemma {:induction false} Explored(next: seq<seq<nat>>, starts: seq<nat>, reached: seq<bool>, waiting: seq<nat>, node: nat)
    requires IsGraph(next) && Exploring(next, starts, reached, waiting)
    requires waiting != [] && node == waiting[|waiting| - 1]
    ensures Exploring(next, starts, reached[node := true], waiting[..|waiting| - 1] + next[node])
  {
    hide ReachesFrom;
    var rest := waiting[..|waiting| - 1];
    assert forall a :: a in waiting ==> a in rest || a == node;
    forall a | a in rest + next[node] ensures ReachesFrom(next, starts, a) {
      if a in next[node] {
        FromOn(next, starts, node, a);
      }
    }
    assert Within(next[node], |next|);
  }

  lemma FromOn(next: seq<seq<nat>>, starts: seq<nat>, a: nat, b: nat)
    requires ReachesFrom(next, starts, a) && Leads(next, a, b)
    ensures ReachesFrom(next, starts, b)
  {
    var i :| 0 <= i < |starts| && Reaches(next, starts[i], a);
    ReachesOn(next, starts[i], a, b);
  }

  // ----- cycles

  /** A node leads back to itself in one step or more. */
  ghost predicate OnCycle(next: seq<seq<nat>>, node: nat) {
    node < |next| && ReachesFrom(next, next[node], node)
  }

  ghost predicate Acyclic(next: seq<seq<nat>>) {
    forall p :: 0 <= p < |next| ==> !OnCycle(next, p)
  }

  /** A walk longer than there are nodes comes back to one. */
  lemma {:induction false} Repeats(walk: seq<nat>, count: nat) returns (i: nat, j: nat)
    requires Within(walk, count) && |walk| > count
    ensures i < j < |walk| && walk[i] == walk[j]
  {
    if at, to :| 0 <= at < to < |walk| && walk[at] == walk[to] {
      i, j := at, to;
    } else {
      DistinctFit(walk, count);
      assert false;
    }
  }

  lemma {:induction false} DistinctFit(nodes: seq<nat>, count: nat)
    requires Within(nodes, count) && forall i, j :: 0 <= i < j < |nodes| ==> nodes[i] != nodes[j]
    ensures |nodes| <= count
    decreases count
  {
    if nodes != [] {
      assert nodes[0] < count;
      if i :| 0 <= i < |nodes| && nodes[i] == count - 1 {
        var rest := nodes[..i] + nodes[i + 1..];
        assert forall k :: 0 <= k < |rest| ==> rest[k] == nodes[if k < i then k else k + 1];
        DistinctFit(rest, count - 1);
      } else {
        DistinctFit(nodes, count - 1);
      }
    }
  }

  lemma {:induction false} WalkCycles(next: seq<seq<nat>>, walk: seq<nat>, i: nat, j: nat)
    requires IsWalk(next, walk) && i < j < |walk| && walk[i] == walk[j]
    ensures OnCycle(next, walk[i])
  {
    var back := walk[i + 1..j + 1];
    assert Leads(next, walk[i], walk[i + 1]);
    var k :| 0 <= k < |next[walk[i]]| && next[walk[i]][k] == walk[i + 1];
    forall n | 0 <= n < |back| - 1 ensures Leads(next, back[n], back[n + 1]) {
      assert Leads(next, walk[i + 1 + n], walk[i + 1 + n + 1]);
    }
    assert Joins(next, back, next[walk[i]][k], walk[i]);
  }
}
