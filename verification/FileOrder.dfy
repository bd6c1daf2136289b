/**
 * Files after the files they depend on: a depth-first visit that writes each once its
 * dependencies are, also where files depend on each other.
 */
module FileOrder {
  import opened Graph

  /** Those of `nodes` that are wanted. */
  function Kept(nodes: seq<nat>, wanted: set<nat>): (kept: seq<nat>)
    ensures forall b :: b in kept <==> b in nodes && b in wanted
  {
    if nodes == [] then []
    else
      var rest := Kept(nodes[1..], wanted);
      assert nodes == [nodes[0]] + nodes[1..];
      if nodes[0] in wanted then [nodes[0]] + rest else rest
  }

  /** The dependencies among the wanted files. */
  function Among(next: seq<seq<nat>>, wanted: set<nat>): (among: seq<seq<nat>>)
    requires IsGraph(next)
    ensures |among| == |next| && IsGraph(among)
    ensures forall a: nat, b: nat :: Leads(among, a, b) <==> a in wanted && b in wanted && Leads(next, a, b)
  {
    var among := seq(|next|, a requires 0 <= a < |next| => if a in wanted then Kept(next[a], wanted) else []);
    assert forall a :: 0 <= a < |next| ==> Within(among[a], |next|) by {
      forall a | 0 <= a < |next| ensures Within(among[a], |next|) {
        assert forall i :: 0 <= i < |among[a]| ==> among[a][i] in next[a];
        assert Within(next[a], |next|);
      }
    }
    among
  }

  /** Visits `file`: what it depends on is written first, unless its visit has begun. */
  function Visit(next: seq<seq<nat>>, wanted: set<nat>, file: nat, seen: set<nat>, out: seq<nat>): (r: (set<nat>, seq<nat>))
    requires IsGraph(next) && file in wanted && file < |next|
    ensures seen <= r.0
    decreases |wanted - seen|, 0
  {
    if file in seen then (seen, out)
    else
      Fewer(wanted, seen, seen + {file}, file);
      var (s, o) := VisitAll(next, wanted, next[file], seen + {file}, out);
      (s, o + [file])
  }

  function VisitAll(next: seq<seq<nat>>, wanted: set<nat>, files: seq<nat>, seen: set<nat>, out: seq<nat>):
      (r: (set<nat>, seq<nat>))
    requires IsGraph(next) && Within(files, |next|)
    ensures seen <= r.0
    decreases |wanted - seen|, |files|
  {
    if files == [] then (seen, out)
    else if files[0] !in wanted then VisitAll(next, wanted, files[1..], seen, out)
    else
      var (s, o) := Visit(next, wanted, files[0], seen, out);
      NoMore(wanted, seen, s);
      VisitAll(next, wanted, files[1..], s, o)
  }

  lemma NoMore(wanted: set<nat>, seen: set<nat>, more: set<nat>)
    requires seen <= more
    ensures |wanted - more| <= |wanted - seen|
  {
    Subset(wanted - more, wanted - seen);
  }

  lemma Fewer(wanted: set<nat>, seen: set<nat>, more: set<nat>, file: nat)
    requires seen <= more && file in wanted && file !in seen && file in more
    ensures |wanted - more| < |wanted - seen|
  {
    Subset(wanted - more, wanted - seen - {file});
  }

  lemma {:induction false} Subset(a: set<nat>, b: set<nat>)
    requires a <= b
    ensures |a| <= |b|
  {
    assert b == a + (b - a);
  }

  function Set(files: seq<nat>): set<nat> {
    set f | f in files
  }

  /** `files` with each after those it depends on, as far as that can be. */
  function Order(next: seq<seq<nat>>, files: seq<nat>): seq<nat>
    requires IsGraph(next) && Within(files, |next|)
  {
    VisitAll(next, Set(files), files, {}, []).1
  }

  // ----- what a visit keeps

  predicate Distinct(nodes: seq<nat>) {
    forall i, j :: 0 <= i < j < |nodes| ==> nodes[i] != nodes[j]
  }

  predicate Precedes(nodes: seq<nat>, a: nat, b: nat) {
    exists i, j :: 0 <= i < j < |nodes| && nodes[i] == a && nodes[j] == b
  }

  /** What the file written at `i` depends on is written before it, or needs it in turn. */
  ghost predicate After(among: seq<seq<nat>>, out: seq<nat>, i: nat)
    requires i < |out|
  {
    forall b: nat :: Leads(among, out[i], b) ==> b in out[..i] || Reaches(among, b, out[i])
  }

  /**
   * Where a visit is: `path` holds the files whose visits have begun, each depending on
   * the next, and the others seen are written, with what they depend on seen.
   */
  ghost predicate Visiting(among: seq<seq<nat>>, wanted: set<nat>, path: seq<nat>, seen: set<nat>, out: seq<nat>) {
    && (forall f :: f in seen <==> f in out || f in path)
    && (forall f :: f in out ==> f !in path) && Distinct(out)
    && (forall f :: f in seen ==> f in wanted)
    && (forall i :: 0 <= i < |path| - 1 ==> Leads(among, path[i], path[i + 1])) && Within(path, |among|)
    && (forall a: nat, b: nat :: a in out && Leads(among, a, b) ==> b in seen)
    && (forall i :: 0 <= i < |out| ==> After(among, out, i))
  }

  ghost predicate From(among: seq<seq<nat>>, path: seq<nat>, file: nat) {
    path == [] || Leads(among, path[|path| - 1], file)
  }

  lemma {:induction false} VisitKeeps(next: seq<seq<nat>>, wanted: set<nat>, file: nat, seen: set<nat>, out: seq<nat>, path: seq<nat>)
    requires IsGraph(next) && file in wanted && file < |next|
    requires Visiting(Among(next, wanted), wanted, path, seen, out) && From(Among(next, wanted), path, file)
    ensures var (s, o) := Visit(next, wanted, file, seen, out);
      Visiting(Among(next, wanted), wanted, path, s, o) && file in s && out <= o && (file !in seen ==> o[|o| - 1..] == [file])
    decreases |wanted - seen|, 0
  {
    if file !in seen {
      var among := Among(next, wanted);
      var longer := path + [file];
      Fewer(wanted, seen, seen + {file}, file);
      Begun(among, wanted, file, seen, out, path);
      forall f | f in next[file] && f in wanted ensures From(among, longer, f) {
        assert Within(next[file], |next|) && Leads(next, file, f);
      }
      VisitAllKeeps(next, wanted, next[file], seen + {file}, out, longer);
      var (s, o) := VisitAll(next, wanted, next[file], seen + {file}, out);
      Written(among, wanted, file, s, o, path);
    }
  }

  lemma Begun(among: seq<seq<nat>>, wanted: set<nat>, file: nat, seen: set<nat>, out: seq<nat>, path: seq<nat>)
    requires Visiting(among, wanted, path, seen, out) && From(among, path, file)
    requires file in wanted && file !in seen && file < |among|
    ensures Visiting(among, wanted, path + [file], seen + {file}, out)
  {
    hide After;
    var longer := path + [file];
    assert forall f :: f in longer <==> f in path || f == file;
    forall i | 0 <= i < |longer| - 1 ensures Leads(among, longer[i], longer[i + 1]) {
      if i < |path| - 1 {
        assert Leads(among, path[i], path[i + 1]);
      }
    }
  }

  /** A file on the path reaches the last one. */
  lemma {:induction false} PathReaches(among: seq<seq<nat>>, path: seq<nat>, i: nat)
    requires i < |path| && Within(path, |among|)
    requires forall i :: 0 <= i < |path| - 1 ==> Leads(among, path[i], path[i + 1])
    ensures Reaches(among, path[i], path[|path| - 1])
  {
    var walk := path[i..];
    forall j | 0 <= j < |walk| - 1 ensures Leads(among, walk[j], walk[j + 1]) {
      assert Leads(among, path[i + j], path[i + j + 1]);
    }
    assert Joins(among, walk, path[i], path[|path| - 1]);
  }

  /** The last file of the path is written once what it depends on is seen. */
  lemma {:induction false} Written(among: seq<seq<nat>>, wanted: set<nat>, file: nat, seen: set<nat>, out: seq<nat>, path: seq<nat>)
    requires Visiting(among, wanted, path + [file], seen, out) && file !in path
    requires forall b: nat :: Leads(among, file, b) ==> b in seen
    ensures Visiting(among, wanted, path, seen, out + [file])
  {
    hide Reaches;
    var longer, more := path + [file], out + [file];
    assert forall f :: f in longer <==> f in path || f == file;
    assert file in longer;
    forall i | 0 <= i < |more| ensures After(among, more, i) {
      if i < |out| {
        assert After(among, out, i) && more[..i] == out[..i];
      } else {
        assert more[..i] == out;
        forall b: nat | Leads(among, file, b) && b !in out ensures Reaches(among, b, file) {
          var j :| 0 <= j < |longer| && longer[j] == b;
          PathReaches(among, longer, j);
        }
      }
    }
    forall i | 0 <= i < |path| - 1 ensures Leads(among, path[i], path[i + 1]) {
      assert Leads(among, longer[i], longer[i + 1]);
    }
    assert forall i :: 0 <= i < |path| ==> path[i] == longer[i];
    assert forall f :: f in more <==> f in out || f == file;
  }

  lemma {:induction false} VisitAllKeeps(next: seq<seq<nat>>, wanted: set<nat>, files: seq<nat>, seen: set<nat>, out: seq<nat>, path: seq<nat>)
    requires IsGraph(next) && Within(files, |next|)
    requires Visiting(Among(next, wanted), wanted, path, seen, out)
    requires forall f :: f in files && f in wanted ==> From(Among(next, wanted), path, f)
    ensures var (s, o) := VisitAll(next, wanted, files, seen, out);
      Visiting(Among(next, wanted), wanted, path, s, o) && out <= o && forall f :: f in files && f in wanted ==> f in s
    decreases |wanted - seen|, |files|
  {
    hide Visiting, From;
    if files != [] {
      assert files == [files[0]] + files[1..];
      if files[0] !in wanted {
        VisitAllKeeps(next, wanted, files[1..], seen, out, path);
      } else {
        VisitKeeps(next, wanted, files[0], seen, out, path);
        var (s, o) := Visit(next, wanted, files[0], seen, out);
        NoMore(wanted, seen, s);
        VisitAllKeeps(next, wanted, files[1..], s, o, path);
        var (s2, o2) := VisitAll(next, wanted, files[1..], s, o);
        assert VisitAll(next, wanted, files, seen, out) == (s2, o2);
        assert out <= o <= o2;
      }
    }
  }

  // ----- what the order is

  /** The files given, each once, and what each was seen after. */
  lemma {:induction false} OrderKeeps(next: seq<seq<nat>>, files: seq<nat>)
    requires IsGraph(next) && Within(files, |next|)
    ensures var out := Order(next, files);
      && Distinct(out) && (forall f :: f in out <==> f in files)
      && (forall i :: 0 <= i < |out| ==> After(Among(next, Set(files)), out, i))
  {
    VisitAllKeeps(next, Set(files), files, {}, [], []);
  }

  /**
   * Each given file is written once, and a file after each it depends on, unless that one
   * depends on it in turn, directly or not.
   */
  lemma {:induction false} DependenciesFirst(next: seq<seq<nat>>, files: seq<nat>, a: nat, b: nat)
    requires IsGraph(next) && Within(files, |next|)
    requires a in files && b in files && Leads(next, a, b) && !Reaches(Among(next, Set(files)), b, a)
    ensures Precedes(Order(next, files), b, a)
  {
    var out := Order(next, files);
    OrderKeeps(next, files);
    var i :| 0 <= i < |out| && out[i] == a;
    assert After(Among(next, Set(files)), out, i);
    var j :| 0 <= j < i && out[..i][j] == b;
    assert out[j] == b;
  }

  /** No file is given before one it depends on. */
  ghost predicate InOrder(next: seq<seq<nat>>, files: seq<nat>) {
    && Distinct(files)
    && forall i, b: nat :: 0 <= i < |files| && b in files && Leads(next, files[i], b) ==> b in files[..i + 1]
  }

  lemma {:induction false} SeenAlready(next: seq<seq<nat>>, wanted: set<nat>, files: seq<nat>, seen: set<nat>, out: seq<nat>)
    requires IsGraph(next) && Within(files, |next|)
    requires forall f :: f in files && f in wanted ==> f in seen
    ensures VisitAll(next, wanted, files, seen, out) == (seen, out)
    decreases |files|
  {
    if files != [] {
      assert files == [files[0]] + files[1..];
      SeenAlready(next, wanted, files[1..], seen, out);
    }
  }

  /** Files already in the order of their dependencies are left as they are. */
  lemma {:induction false} OrderUnchanged(next: seq<seq<nat>>, files: seq<nat>)
    requires IsGraph(next) && Within(files, |next|) && InOrder(next, files)
    ensures Order(next, files) == files
  {
    UnchangedFrom(next, files, 0);
    assert files[0..] == files && files[..0] == [] && Set([]) == {};
  }

  lemma {:induction false} UnchangedFrom(next: seq<seq<nat>>, files: seq<nat>, from: nat)
    requires IsGraph(next) && Within(files, |next|) && InOrder(next, files) && from <= |files|
    ensures Within(files[from..], |next|)
    ensures VisitAll(next, Set(files), files[from..], Set(files[..from]), files[..from]).1 == files
    decreases |files| - from
  {
    if from == |files| {
      assert files[from..] == [] && files[..from] == files;
    } else {
      var wanted, file, seen := Set(files), files[from], Set(files[..from]);
      assert files[from..][1..] == files[from + 1..];
      assert files[..from + 1] == files[..from] + [file];
      assert file !in seen && Set(files[..from + 1]) == seen + {file};
      forall b | b in next[file] && b in wanted ensures b in seen + {file} {
        assert Within(next[file], |next|) && Leads(next, file, b);
      }
      SeenAlready(next, wanted, next[file], seen + {file}, files[..from]);
      UnchangedFrom(next, files, from + 1);
    }
  }

  // ----- files that depend on each other

  /** Two files depend on each other, directly or through others of the files. */
  ghost predicate Mutual(next: seq<seq<nat>>, files: seq<nat>, a: nat, b: nat)
    requires IsGraph(next)
  {
    var among := Among(next, Set(files));
    a != b && a in files && b in files && Reaches(among, a, b) && Reaches(among, b, a)
  }

  /** Files that depend on each other stay in the order given. */
  ghost predicate KeepsGiven(next: seq<seq<nat>>, files: seq<nat>)
    requires IsGraph(next) && Within(files, |next|)
  {
    forall i, j :: 0 <= i < j < |files| && Mutual(next, files, files[i], files[j]) ==>
      Precedes(Order(next, files), files[i], files[j])
  }

  /** The first file given is written after every other it needs, whatever needs it. */
  lemma {:induction false} FirstGivenLast(next: seq<seq<nat>>, files: seq<nat>, b: nat)
    requires IsGraph(next) && Within(files, |next|) && files != []
    requires b != files[0] && Reaches(Among(next, Set(files)), files[0], b)
    ensures Precedes(Order(next, files), b, files[0])
  {
    var wanted, among, first := Set(files), Among(next, Set(files)), files[0];
    VisitKeeps(next, wanted, first, {}, [], []);
    var (s, o) := Visit(next, wanted, first, {}, []);
    var reached := seq(|next|, a => a in o);
    assert Closed(among, reached);
    assert o[|o| - 1] == o[|o| - 1..][0] == first;
    ClosedReaches(among, reached, first, b);
    var i :| 0 <= i < |o| && o[i] == b;
    VisitAllKeeps(next, wanted, files[1..], s, o, []);
    var out := Order(next, files);
    assert o <= out && out[i] == b && out[|o| - 1] == first;
  }

  /** The same files, in whatever order. */
  predicate Reordered(given: seq<nat>, files: seq<nat>) {
    Distinct(given) && Set(given) == Set(files)
  }

  /**
   * Files are kept in the order given, in whatever order they are given, exactly when no
   * two of them depend on each other: of two that do, either may be written last.
   */
  lemma {:induction false} KeepsEveryOrder(next: seq<seq<nat>>, files: seq<nat>)
    requires IsGraph(next) && Within(files, |next|) && Distinct(files)
    ensures (forall given :: Reordered(given, files) ==> Within(given, |next|) && KeepsGiven(next, given))
      <==> (forall a, b :: !Mutual(next, files, a, b))
  {
    hide Mutual;
    forall given | Reordered(given, files)
      ensures Within(given, |next|)
      ensures (forall a, b :: !Mutual(next, files, a, b)) ==> KeepsGiven(next, given)
    {
      SameFiles(next, given, files);
    }
    forall a, b | Mutual(next, files, a, b)
      ensures exists given :: Reordered(given, files) && Within(given, |next|) && !KeepsGiven(next, given)
    {
      var given := Broken(next, files, a, b);
    }
  }

  lemma SameFiles(next: seq<seq<nat>>, given: seq<nat>, files: seq<nat>)
    requires IsGraph(next) && Within(files, |next|) && Reordered(given, files)
    ensures Within(given, |next|)
    ensures forall a, b :: Mutual(next, given, a, b) == Mutual(next, files, a, b)
  {
    hide Reaches, Among;
    forall f ensures f in given <==> f in files {
      assert f in given <==> f in Set(given);
      assert f in files <==> f in Set(files);
    }
    forall i | 0 <= i < |given| ensures given[i] < |next| {
      assert given[i] in files;
    }
  }

  /** `files` with the one at `at` first. */
  lemma {:induction false} Fronted(files: seq<nat>, at: nat)
    requires Distinct(files) && at < |files|
    ensures Reordered([files[at]] + files[..at] + files[at + 1..], files)
  {
    var given := [files[at]] + files[..at] + files[at + 1..];
    assert forall i :: 0 <= i < |given| ==>
      given[i] == files[if i == 0 then at else if i <= at then i - 1 else i];
    forall f ensures f in Set(given) <==> f in Set(files) {
      if f in files {
        var i :| 0 <= i < |files| && files[i] == f;
        assert given[if i == at then 0 else if i < at then i + 1 else i] == f;
      }
    }
  }

  /** Given first, a file that depends on another, and that one on it, is written after it. */
  lemma {:induction false} Broken(next: seq<seq<nat>>, files: seq<nat>, a: nat, b: nat) returns (given: seq<nat>)
    requires IsGraph(next) && Within(files, |next|) && Distinct(files) && Mutual(next, files, a, b)
    ensures Reordered(given, files) && Within(given, |next|) && !KeepsGiven(next, given)
  {
    hide Reaches, Order, Reordered;
    var at :| 0 <= at < |files| && files[at] == a;
    given := [a] + files[..at] + files[at + 1..];
    Fronted(files, at);
    SameFiles(next, given, files);
    assert Mutual(next, given, a, b);
    FirstGivenLast(next, given, b);
    OrderKeeps(next, given);
    var j :| 0 <= j < |given| && given[j] == b;
    assert Mutual(next, given, given[0], given[j]);
    assert !Precedes(Order(next, given), a, b);
  }

  /** Two files that depend on each other change places. */
  lemma {:induction false} PairSwapped()
    ensures var next := [[1], [0]];
      IsGraph(next) && Within([0, 1], 2) && Mutual(next, [0, 1], 0, 1) && Order(next, [0, 1]) == [1, 0]
  {
    var next: seq<seq<nat>> := [[1], [0]];
    var files: seq<nat> := [0, 1];
    hide Order;
    Steps(next, files);
    assert Joins(Among(next, Set(files)), [0, 1], 0, 1) && Joins(Among(next, Set(files)), [1, 0], 1, 0);
    FirstGivenLast(next, files, 1);
    OrderKeeps(next, files);
    TwoInOrder(Order(next, files));
  }

  lemma Steps(next: seq<seq<nat>>, files: seq<nat>)
    requires next == [[1], [0]] && files == [0, 1]
    ensures IsGraph(next) && Within(files, 2) && 0 in Set(files) && 1 in Set(files)
    ensures Leads(Among(next, Set(files)), 0, 1) && Leads(Among(next, Set(files)), 1, 0)
  {
  }

  lemma TwoInOrder(out: seq<nat>)
    requires Distinct(out) && (forall f :: f in out <==> f in [0, 1]) && Precedes(out, 1, 0)
    ensures out == [1, 0]
  {
    var i, j :| 0 <= i < j < |out| && out[i] == 1 && out[j] == 0;
    forall k | 0 <= k < |out| ensures out[k] in out && (k == i || k == j) {
      assert out[k] in [0, 1];
    }
    assert out[0] == out[i] && out[1] == out[j] && out[|out| - 1] == out[j];
  }

  // ----- one list

  /** Which files are among those written. */
  function Marks(count: nat, out: seq<nat>): (marks: seq<bool>)
    ensures |marks| == count && forall f :: 0 <= f < count ==> (marks[f] <==> f in out)
  {
    seq(count, f => f in out)
  }

  /** What is written once the first `count` files given are visited. */
  function Start(next: seq<seq<nat>>, files: seq<nat>, count: nat): seq<nat>
    requires IsGraph(next) && Within(files, |next|) && count <= |files|
  {
    VisitAll(next, Set(files), files[..count], {}, []).1
  }

  lemma {:induction false} VisitAllTwice(next: seq<seq<nat>>, wanted: set<nat>, files: seq<nat>, count: nat, seen: set<nat>, out: seq<nat>)
    requires IsGraph(next) && Within(files, |next|) && count <= |files|
    ensures var (s, o) := VisitAll(next, wanted, files[..count], seen, out);
      VisitAll(next, wanted, files, seen, out) == VisitAll(next, wanted, files[count..], s, o)
    decreases count
  {
    if count > 0 {
      assert files[..count][0] == files[0] && files[..count][1..] == files[1..][..count - 1] && files[1..][count - 1..] == files[count..];
      if files[0] !in wanted {
        VisitAllTwice(next, wanted, files[1..], count - 1, seen, out);
      } else {
        var (s, o) := Visit(next, wanted, files[0], seen, out);
        VisitAllTwice(next, wanted, files[1..], count - 1, s, o);
      }
    } else {
      assert files[..0] == [] && files[0..] == files;
    }
  }

  /** Only what a file needs is written by visiting it. */
  lemma {:induction false} VisitReaches(next: seq<seq<nat>>, wanted: set<nat>, file: nat, seen: set<nat>, out: seq<nat>, f: nat)
    requires IsGraph(next) && file in wanted && file < |next| && f in Visit(next, wanted, file, seen, out).1 && f !in out
    ensures Reaches(Among(next, wanted), file, f)
    decreases |wanted - seen|, 0
  {
    hide Reaches;
    var among := Among(next, wanted);
    if f == file {
      ReachesItself(among, file);
    } else {
      Fewer(wanted, seen, seen + {file}, file);
      var g := VisitAllReaches(next, wanted, next[file], seen + {file}, out, f);
      assert Leads(among, file, g) by {
        assert Within(next[file], |next|);
      }
      ReachesFirst(among, file, g, f);
    }
  }

  lemma {:induction false} VisitAllReaches(next: seq<seq<nat>>, wanted: set<nat>, files: seq<nat>, seen: set<nat>, out: seq<nat>, f: nat)
    returns (g: nat)
    requires IsGraph(next) && Within(files, |next|) && f in VisitAll(next, wanted, files, seen, out).1 && f !in out
    ensures g in files && g in wanted && Reaches(Among(next, wanted), g, f)
    decreases |wanted - seen|, |files|
  {
    hide Reaches;
    if files[0] !in wanted {
      g := VisitAllReaches(next, wanted, files[1..], seen, out, f);
    } else {
      var (s, o) := Visit(next, wanted, files[0], seen, out);
      if f in o {
        VisitReaches(next, wanted, files[0], seen, out, f);
        g := files[0];
      } else {
        NoMore(wanted, seen, s);
        g := VisitAllReaches(next, wanted, files[1..], s, o, f);
      }
    }
  }

  /** Some file given before the `count`th needs `f`. */
  ghost predicate NeededBefore(next: seq<seq<nat>>, files: seq<nat>, count: nat, f: nat)
    requires IsGraph(next) && count <= |files|
  {
    exists h :: 0 <= h < count && Reaches(Among(next, Set(files)), files[h], f)
  }

  /** The files first given write what they need, and nothing else. */
  lemma {:induction false} StartIs(next: seq<seq<nat>>, files: seq<nat>, count: nat, f: nat)
    requires IsGraph(next) && Within(files, |next|) && count <= |files|
    ensures f in Start(next, files, count) <==> NeededBefore(next, files, count, f)
  {
    hide Reaches, Among, Closed;
    var wanted, among, given := Set(files), Among(next, Set(files)), files[..count];
    StartKeeps(next, files, count);
    var o := Start(next, files, count);
    if f in o {
      var g := VisitAllReaches(next, wanted, given, {}, [], f);
      var h :| 0 <= h < count && given[h] == g;
    }
    if h :| 0 <= h < count && Reaches(among, files[h], f) {
      assert given[h] == files[h] && files[h] in files;
      ClosedReaches(among, Marks(|next|, o), files[h], f);
    }
  }

  lemma {:induction false} StartKeeps(next: seq<seq<nat>>, files: seq<nat>, count: nat)
    requires IsGraph(next) && Within(files, |next|) && count <= |files|
    ensures var o, among := Start(next, files, count), Among(next, Set(files));
      && Closed(among, Marks(|next|, o)) && Distinct(o) && Within(o, |next|)
      && (forall h :: 0 <= h < count ==> files[h] in o)
      && VisitAll(next, Set(files), files[..count], {}, []).0 == Set(o)
      && Visiting(among, Set(files), [], Set(o), o)
  {
    hide *;
    var wanted, given := Set(files), files[..count];
    GivenWithin(files, count, |next|);
    NothingVisited(Among(next, wanted), wanted);
    VisitAllKeeps(next, wanted, given, {}, [], []);
    var (s, o) := VisitAll(next, wanted, given, {}, []);
    StartMeans(next, files, count);
    DoneVisiting(Among(next, wanted), wanted, s, o);
    OnlyWanted(files, o, |next|);
    forall h | 0 <= h < count ensures files[h] in o {
      assert given[h] == files[h] && given[h] in given;
    }
  }

  lemma StartMeans(next: seq<seq<nat>>, files: seq<nat>, count: nat)
    requires IsGraph(next) && Within(files, |next|) && count <= |files| && Within(files[..count], |next|)
    ensures Start(next, files, count) == VisitAll(next, Set(files), files[..count], {}, []).1
  {
  }

  lemma GivenWithin(files: seq<nat>, count: nat, bound: nat)
    requires Within(files, bound) && count <= |files|
    ensures Within(files[..count], bound) && forall f :: f in files[..count] ==> f in files && f in Set(files)
  {
  }

  lemma OnlyWanted(files: seq<nat>, out: seq<nat>, bound: nat)
    requires Within(files, bound) && forall f :: f in out ==> f in Set(files)
    ensures Within(out, bound)
  {
    forall i | 0 <= i < |out| ensures out[i] < bound {
      assert out[i] in out && out[i] in files;
    }
  }

  lemma NothingVisited(among: seq<seq<nat>>, wanted: set<nat>)
    ensures Visiting(among, wanted, [], {}, []) && forall f :: From(among, [], f)
  {
  }

  lemma DoneVisiting(among: seq<seq<nat>>, wanted: set<nat>, seen: set<nat>, out: seq<nat>)
    requires Visiting(among, wanted, [], seen, out)
    ensures seen == Set(out) && Distinct(out) && (forall f :: f in seen <==> f in out) && (forall f :: f in out ==> f in wanted)
    ensures Closed(among, Marks(|among|, out))
  {
  }

  /**
   * Of two files that depend on each other the one given first is written first exactly
   * when a file given before it needs it, and writing what those need writes it first.
   */
  lemma {:induction false} PairKept(next: seq<seq<nat>>, files: seq<nat>, i: nat, b: nat)
    requires IsGraph(next) && Within(files, |next|) && i < |files| && Mutual(next, files, files[i], b)
    ensures Precedes(Order(next, files), files[i], b) <==>
      NeededBefore(next, files, i, files[i]) && Precedes(Start(next, files, i), files[i], b)
  {
    hide Mutual, NeededBefore, Visiting, Closed;
    var o, out := Start(next, files, i), Order(next, files);
    StartKeeps(next, files, i);
    StartIs(next, files, i, files[i]);
    OrderKeeps(next, files);
    BothOrNeither(next, files, i, b);
    WalkedOn(next, files, i);
    if files[i] in o {
      SameOrder(o, out, files[i], b);
    } else {
      WrittenLast(next, files, i, b);
      NotBoth(out, files[i], b);
      assert !Precedes(o, files[i], b);
    }
  }

  lemma BothOrNeither(next: seq<seq<nat>>, files: seq<nat>, i: nat, b: nat)
    requires IsGraph(next) && Within(files, |next|) && i < |files| && Mutual(next, files, files[i], b)
    ensures files[i] in Start(next, files, i) <==> b in Start(next, files, i)
    ensures files[i] != b
  {
    hide Reaches, Among, Closed, Start;
    StartKeeps(next, files, i);
    var marks := Marks(|next|, Start(next, files, i));
    if files[i] in Start(next, files, i) {
      ClosedReaches(Among(next, Set(files)), marks, files[i], b);
    }
    if b in Start(next, files, i) {
      ClosedReaches(Among(next, Set(files)), marks, b, files[i]);
    }
  }

  lemma {:induction false} WalkedOn(next: seq<seq<nat>>, files: seq<nat>, i: nat)
    requires IsGraph(next) && Within(files, |next|) && i <= |files|
    ensures Start(next, files, i) <= Order(next, files)
  {
    hide Visiting;
    StartKeeps(next, files, i);
    VisitAllTwice(next, Set(files), files, i, {}, []);
    var (s, o) := VisitAll(next, Set(files), files[..i], {}, []);
    VisitAllKeeps(next, Set(files), files[i..], s, o, []);
  }

  /** A file nothing given before needs is written after all it needs that is not written yet. */
  lemma {:induction false} WrittenLast(next: seq<seq<nat>>, files: seq<nat>, i: nat, b: nat)
    requires IsGraph(next) && Within(files, |next|) && i < |files| && Mutual(next, files, files[i], b)
    requires files[i] !in Start(next, files, i)
    ensures Precedes(Order(next, files), b, files[i])
  {
    var wanted, among, a := Set(files), Among(next, Set(files)), files[i];
    StartKeeps(next, files, i);
    var (s, o) := VisitAll(next, wanted, files[..i], {}, []);
    assert a in files;
    VisitKeeps(next, wanted, a, s, o, []);
    var (s2, o2) := Visit(next, wanted, a, s, o);
    ClosedReaches(among, Marks(|next|, o2), a, b);
    VisitAllTwice(next, wanted, files, i, {}, []);
    assert files[i..][0] == a && files[i..][1..] == files[i + 1..];
    NoMore(wanted, s, s2);
    VisitAllKeeps(next, wanted, files[i + 1..], s2, o2, []);
    assert o2[|o2| - 1] == o2[|o2| - 1..][0] == a;
    var j :| 0 <= j < |o2| && o2[j] == b;
    assert o2 <= Order(next, files) && Order(next, files)[j] == b && Order(next, files)[|o2| - 1] == a;
  }

  lemma SameOrder(o: seq<nat>, out: seq<nat>, a: nat, b: nat)
    requires o <= out && Distinct(out) && a in o && b in o
    ensures Precedes(out, a, b) <==> Precedes(o, a, b)
  {
    var x :| 0 <= x < |o| && o[x] == a;
    var y :| 0 <= y < |o| && o[y] == b;
    assert out[x] == a && out[y] == b;
  }

  lemma NotBoth(out: seq<nat>, a: nat, b: nat)
    requires Distinct(out) && Precedes(out, b, a)
    ensures !Precedes(out, a, b)
  {
  }

  /** A list keeps the order given exactly when each such pair of it does so. */
  lemma {:induction false} ListKept(next: seq<seq<nat>>, files: seq<nat>)
    requires IsGraph(next) && Within(files, |next|)
    ensures KeepsGiven(next, files) <==>
      forall i, j :: 0 <= i < j < |files| && Mutual(next, files, files[i], files[j]) ==>
        NeededBefore(next, files, i, files[i]) && Precedes(Start(next, files, i), files[i], files[j])
  {
    hide Mutual, NeededBefore, Precedes, Start, Order;
    forall i, j | 0 <= i < j < |files| && Mutual(next, files, files[i], files[j])
      ensures Precedes(Order(next, files), files[i], files[j]) <==>
        NeededBefore(next, files, i, files[i]) && Precedes(Start(next, files, i), files[i], files[j])
    {
      PairKept(next, files, i, files[j]);
    }
  }
}
