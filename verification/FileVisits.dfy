/**
 * Which files a visit writes, and in which order: exactly those its list reaches past what
 * is seen, first what the files listed first reach. So files with no dependency between
 * them keep the order of the list they are needed by.
 */
module FileVisits {
  import opened Graph
  import opened FileOrder

  // ----- what is written

  lemma {:induction false} ReachesMore(next: seq<seq<nat>>, fewer: set<nat>, more: set<nat>, a: nat, b: nat)
    requires IsGraph(next) && fewer <= more && Reaches(Among(next, fewer), a, b)
    ensures Reaches(Among(next, more), a, b)
  {
    hide Among;
    var walk :| Joins(Among(next, fewer), walk, a, b);
    LeadsMore(next, fewer, more);
    assert Joins(Among(next, more), walk, a, b);
  }

  lemma LeadsMore(next: seq<seq<nat>>, fewer: set<nat>, more: set<nat>)
    requires IsGraph(next) && fewer <= more
    ensures |Among(next, fewer)| == |Among(next, more)| == |next|
    ensures forall a: nat, b: nat :: Leads(Among(next, fewer), a, b) ==> Leads(Among(next, more), a, b)
  {
  }

  /** What one visit writes its file reaches past what is seen. */
  lemma {:induction false} VisitWrites(next: seq<seq<nat>>, wanted: set<nat>, file: nat, seen: set<nat>, out: seq<nat>, f: nat)
    requires IsGraph(next) && file in wanted && file < |next| && f in Visit(next, wanted, file, seen, out).1 && f !in out
    ensures file !in seen && Reaches(Among(next, wanted - seen), file, f)
    decreases |wanted - seen|, 0
  {
    hide Reaches, Among;
    var left := Among(next, wanted - seen);
    if f == file {
      AmongSize(next, wanted - seen);
      ReachesItself(left, file);
    } else {
      Fewer(wanted, seen, seen + {file}, file);
      var g := AllWrites(next, wanted, next[file], seen + {file}, out, f);
      ReachesMore(next, wanted - (seen + {file}), wanted - seen, g, f);
      Listed(next, file, g);
      StepLeft(next, wanted - seen, file, g);
      ReachesFirst(left, file, g, f);
    }
  }

  lemma AmongSize(next: seq<seq<nat>>, wanted: set<nat>)
    requires IsGraph(next)
    ensures |Among(next, wanted)| == |next|
  {
  }

  lemma Listed(next: seq<seq<nat>>, file: nat, g: nat)
    requires IsGraph(next) && file < |next| && g in next[file]
    ensures g < |next| && Leads(next, file, g)
  {
    assert Within(next[file], |next|);
  }

  lemma StepLeft(next: seq<seq<nat>>, wanted: set<nat>, a: nat, b: nat)
    requires IsGraph(next) && a in wanted && b in wanted && Leads(next, a, b)
    ensures Leads(Among(next, wanted), a, b)
  {
  }

  lemma {:induction false} AllWrites(next: seq<seq<nat>>, wanted: set<nat>, files: seq<nat>, seen: set<nat>, out: seq<nat>, f: nat)
    returns (g: nat)
    requires IsGraph(next) && Within(files, |next|) && f in VisitAll(next, wanted, files, seen, out).1 && f !in out
    ensures g in files && g in wanted - seen && Reaches(Among(next, wanted - seen), g, f)
    decreases |wanted - seen|, |files|
  {
    hide Reaches, Among;
    if files[0] !in wanted {
      g := AllWrites(next, wanted, files[1..], seen, out, f);
    } else {
      var (s, o) := Visit(next, wanted, files[0], seen, out);
      if f in o {
        VisitWrites(next, wanted, files[0], seen, out, f);
        g := files[0];
      } else {
        NoMore(wanted, seen, s);
        g := AllWrites(next, wanted, files[1..], s, o, f);
        ReachesMore(next, wanted - s, wanted - seen, g, f);
      }
    }
  }

  /** Where a visit is, and what it may go on with. */
  ghost predicate GoesOn(next: seq<seq<nat>>, wanted: set<nat>, files: seq<nat>, seen: set<nat>, out: seq<nat>, path: seq<nat>)
    requires IsGraph(next)
  {
    && Within(files, |next|) && Visiting(Among(next, wanted), wanted, path, seen, out)
    && forall f :: f in files && f in wanted ==> From(Among(next, wanted), path, f)
  }

  /** What is written is exactly what some file of the list that is not seen reaches past what is. */
  lemma {:induction false} WritesExactly(next: seq<seq<nat>>, wanted: set<nat>, files: seq<nat>, seen: set<nat>, out: seq<nat>, path: seq<nat>, f: nat)
    requires IsGraph(next) && GoesOn(next, wanted, files, seen, out, path) && f !in out
    ensures f in VisitAll(next, wanted, files, seen, out).1
      <==> exists g :: g in files && g in wanted - seen && Reaches(Among(next, wanted - seen), g, f)
  {
    hide Reaches, Among, Visiting, From;
    if f in VisitAll(next, wanted, files, seen, out).1 {
      var g := AllWrites(next, wanted, files, seen, out, f);
    }
    if g :| g in files && g in wanted - seen && Reaches(Among(next, wanted - seen), g, f) {
      VisitAllKeeps(next, wanted, files, seen, out, path);
      var (s, o) := VisitAll(next, wanted, files, seen, out);
      var marks := NewClosed(next, wanted, path, seen, out, s, o);
      NewIsWritten(next, wanted, path, seen, out, s, o, g);
      Bounded(files, g, |next|);
      ClosedReaches(Among(next, wanted - seen), marks, g, f);
    }
  }

  lemma Bounded(files: seq<nat>, g: nat, bound: nat)
    requires Within(files, bound) && g in files
    ensures g < bound
  {
  }

  lemma NewIsWritten(next: seq<seq<nat>>, wanted: set<nat>, path: seq<nat>, seen: set<nat>, out: seq<nat>, s: set<nat>, o: seq<nat>, g: nat)
    requires IsGraph(next) && Visiting(Among(next, wanted), wanted, path, seen, out) && Visiting(Among(next, wanted), wanted, path, s, o)
    requires g in s && g !in seen
    ensures g in o && g !in out
  {
    hide After;
  }

  /** What has been written since is closed under what leads on past what was seen. */
  lemma {:induction false} NewClosed(next: seq<seq<nat>>, wanted: set<nat>, path: seq<nat>, seen: set<nat>, out: seq<nat>, s: set<nat>, o: seq<nat>)
    returns (marks: seq<bool>)
    requires IsGraph(next) && Visiting(Among(next, wanted), wanted, path, seen, out) && Visiting(Among(next, wanted), wanted, path, s, o)
    ensures Closed(Among(next, wanted - seen), marks) && |marks| == |next|
    ensures forall f :: 0 <= f < |next| ==> (marks[f] <==> f in o && f !in out)
  {
    hide After;
    LeadsMore(next, wanted - seen, wanted);
    marks := seq(|next|, f => f in o && f !in out);
    forall a: nat, b: nat | Leads(Among(next, wanted - seen), a, b) && marks[a] ensures marks[b] {
      assert Leads(Among(next, wanted), a, b) && b in wanted - seen;
      NewIsWritten(next, wanted, path, seen, out, s, o, b);
    }
  }

  // ----- in which order

  /**
   * In every visit, of the list given or of what a file refers to, what the first `count`
   * files reach is written before what only later ones do.
   */
  lemma {:induction false} EarlierFirst(next: seq<seq<nat>>, wanted: set<nat>, files: seq<nat>, seen: set<nat>, out: seq<nat>, path: seq<nat>,
                                        count: nat, x: nat, y: nat)
    requires IsGraph(next) && GoesOn(next, wanted, files, seen, out, path) && count <= |files| && x !in out && y !in out
    requires exists g :: g in files[..count] && g in wanted - seen && Reaches(Among(next, wanted - seen), g, x)
    requires !exists g :: g in files[..count] && g in wanted - seen && Reaches(Among(next, wanted - seen), g, y)
    requires exists g :: g in files && g in wanted - seen && Reaches(Among(next, wanted - seen), g, y)
    ensures Precedes(VisitAll(next, wanted, files, seen, out).1, x, y)
  {
    hide Reaches, Among, Visiting, From;
    var first := files[..count];
    FirstGoesOn(next, wanted, files, seen, out, path, count);
    WritesExactly(next, wanted, first, seen, out, path, x);
    WritesExactly(next, wanted, first, seen, out, path, y);
    WritesExactly(next, wanted, files, seen, out, path, y);
    VisitAllTwice(next, wanted, files, count, seen, out);
    VisitAllKeeps(next, wanted, first, seen, out, path);
    var (s, o) := VisitAll(next, wanted, first, seen, out);
    VisitAllKeeps(next, wanted, files[count..], s, o, path);
    InFirst(o, VisitAll(next, wanted, files, seen, out).1, x, y);
  }

  lemma NotAmong(o: seq<nat>, y: nat)
    requires y !in o
    ensures forall j :: 0 <= j < |o| ==> o[j] != y
  {
  }

  lemma InFirst(o: seq<nat>, out: seq<nat>, x: nat, y: nat)
    requires o <= out && x in o && y in out && y !in o
    ensures Precedes(out, x, y)
  {
    var i :| 0 <= i < |o| && o[i] == x;
    var j :| 0 <= j < |out| && out[j] == y;
    NotAmong(o, y);
    assert out[i] == x && out[..|o|] == o;
  }

  lemma FirstGoesOn(next: seq<seq<nat>>, wanted: set<nat>, files: seq<nat>, seen: set<nat>, out: seq<nat>, path: seq<nat>, count: nat)
    requires IsGraph(next) && GoesOn(next, wanted, files, seen, out, path) && count <= |files|
    ensures GoesOn(next, wanted, files[..count], seen, out, path) && Within(files[count..], |next|)
    ensures Visiting(Among(next, wanted), wanted, path, seen, out)
    ensures forall f :: f in files[count..] && f in wanted ==> From(Among(next, wanted), path, f)
    ensures forall f :: f in files[..count] && f in wanted ==> From(Among(next, wanted), path, f)
  {
    hide Visiting, From, Among;
  }

  /** Of two files the first is written first if some file given needs it before any that needs the second is given. */
  lemma {:induction false} NeededFirst(next: seq<seq<nat>>, files: seq<nat>, count: nat, x: nat, y: nat)
    requires IsGraph(next) && Within(files, |next|) && count <= |files| && y in files
    requires NeededBefore(next, files, count, x) && !NeededBefore(next, files, count, y)
    ensures Precedes(Order(next, files), x, y)
  {
    hide NeededBefore, Start;
    StartIs(next, files, count, x);
    StartIs(next, files, count, y);
    WalkedOn(next, files, count);
    OrderKeeps(next, files);
    InFirst(Start(next, files, count), Order(next, files), x, y);
  }

  /** A file is written right after what visiting its references writes. */
  lemma {:induction false} ReferencesThenFile(next: seq<seq<nat>>, wanted: set<nat>, file: nat, seen: set<nat>, out: seq<nat>, path: seq<nat>)
    requires IsGraph(next) && file in wanted - seen && file < |next|
    requires Visiting(Among(next, wanted), wanted, path, seen, out) && From(Among(next, wanted), path, file)
    ensures GoesOn(next, wanted, next[file], seen + {file}, out, path + [file])
    ensures Visit(next, wanted, file, seen, out).1 == VisitAll(next, wanted, next[file], seen + {file}, out).1 + [file]
  {
    var among := Among(next, wanted);
    Fewer(wanted, seen, seen + {file}, file);
    Begun(among, wanted, file, seen, out, path);
    forall f | f in next[file] && f in wanted ensures From(among, path + [file], f) {
      Listed(next, file, f);
    }
    assert Within(next[file], |next|);
  }
}
