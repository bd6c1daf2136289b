/**
 * Which of a dependency's files a package's own replace: each is kept or dropped whole.
 */
module Overrides {
  import opened Wrappers
  import opened Graph

  /** What a package may replace of a dependency: the names its patterns match. */
  datatype Override = Override(dependency: string, matches: string -> bool)

  /** What the package `by` may replace of the one at `of`. */
  datatype Grant = Grant(holder: nat, of: nat, matches: string -> bool)

  /** A file, the package that holds it, and the top-level names it declares. */
  datatype Source = Source(package: nat, names: seq<string>)

  /** A name of a package. */
  datatype Key = Key(of: nat, name: string)

  datatype Error =
    | NotAnother(holder: nat, dependency: string)
    | Twice(key: Key, first: nat, second: nat)
    | Split(file: nat, replaced: string, kept: string)

  /** The overrides of each package, the root first, and where each dependency is. */
  datatype Packages = Packages(overrides: seq<seq<Override>>, at: map<string, nat>)

  predicate ArePackages(p: Packages) {
    forall name :: name in p.at ==> p.at[name] < |p.overrides|
  }

  /** The override is of another package in the design. */
  predicate OfAnother(p: Packages, holder: nat, o: Override) {
    o.dependency in p.at && p.at[o.dependency] != holder
  }

  ghost predicate AllOfOthers(p: Packages) {
    forall b, k :: 0 <= b < |p.overrides| && 0 <= k < |p.overrides[b]| ==> OfAnother(p, b, p.overrides[b][k])
  }

  /** An override of the package `holder` matches the name of the package it is of. */
  ghost predicate May(p: Packages, holder: nat, key: Key) {
    && holder < |p.overrides|
    && exists k :: 0 <= k < |p.overrides[holder]| && MayBy(p, holder, k, key)
  }

  predicate MayBy(p: Packages, holder: nat, k: nat, key: Key)
    requires holder < |p.overrides| && k < |p.overrides[holder]|
  {
    var o := p.overrides[holder][k];
    o.dependency in p.at && p.at[o.dependency] == key.of && o.matches(key.name)
  }

  /** The file replaces a name of another package: it declares it, and its package may. */
  ghost predicate Replaces(p: Packages, files: seq<Source>, f: nat, key: Key) {
    f < |files| && key.name in files[f].names && May(p, files[f].package, key)
  }

  ghost predicate IsReplaced(p: Packages, files: seq<Source>, key: Key) {
    exists f :: 0 <= f < |files| && Replaces(p, files, f, key)
  }

  /** No two packages replace one name. */
  ghost predicate NoneTwice(p: Packages, files: seq<Source>) {
    forall f, g, key :: 0 <= f < |files| && 0 <= g < |files| && Replaces(p, files, f, key) && Replaces(p, files, g, key) ==>
      files[f].package == files[g].package
  }

  /** The file declares a name replaced in its own package. */
  ghost predicate Outdone(p: Packages, files: seq<Source>, f: nat)
    requires f < |files|
  {
    exists name :: name in files[f].names && IsReplaced(p, files, Key(files[f].package, name))
  }

  /** Each file with a name replaced has every name replaced. */
  ghost predicate NoneSplit(p: Packages, files: seq<Source>) {
    forall f, name :: 0 <= f < |files| && Outdone(p, files, f) && name in files[f].names ==>
      IsReplaced(p, files, Key(files[f].package, name))
  }

  /** What is wrong where replacing fails. */
  ghost predicate Wrong(p: Packages, files: seq<Source>, error: Error) {
    match error
    case NotAnother(b, dependency) =>
      b < |p.overrides| && exists o :: o in p.overrides[b] && o.dependency == dependency && !OfAnother(p, b, o)
    case Twice(key, f, g) =>
      f < |files| && g < |files| && Replaces(p, files, f, key) && Replaces(p, files, g, key)
        && files[f].package != files[g].package
    case Split(f, replaced, kept) =>
      f < |files| && replaced in files[f].names && kept in files[f].names
        && IsReplaced(p, files, Key(files[f].package, replaced)) && !IsReplaced(p, files, Key(files[f].package, kept))
  }

  // ----- grants

  /** The grants are those of the overrides before the `k`th of `b`. */
  ghost predicate AreGrants(p: Packages, grants: seq<Grant>, b: nat, k: nat) {
    && (forall i :: 0 <= i < |grants| ==> IsGrant(p, grants[i]))
    && (forall c, j :: 0 <= c < |p.overrides| && 0 <= j < |p.overrides[c]| && (c < b || (c == b && j < k)) ==>
          OfAnother(p, c, p.overrides[c][j]) && Granted(p, grants, c, j))
  }

  ghost predicate IsGrant(p: Packages, grant: Grant) {
    && grant.holder < |p.overrides|
    && exists k :: 0 <= k < |p.overrides[grant.holder]| && GrantOf(p, grant, grant.holder, k)
  }

  ghost predicate GrantOf(p: Packages, grant: Grant, b: nat, k: nat)
    requires b < |p.overrides| && k < |p.overrides[b]|
  {
    var o := p.overrides[b][k];
    grant.holder == b && o.dependency in p.at && grant.of == p.at[o.dependency] && grant.matches == o.matches
  }

  ghost predicate Granted(p: Packages, grants: seq<Grant>, b: nat, k: nat)
    requires b < |p.overrides| && k < |p.overrides[b]|
  {
    exists i :: 0 <= i < |grants| && GrantOf(p, grants[i], b, k)
  }

  /** What each package may replace, and where. */
  method Grants(p: Packages) returns (r: Result<seq<Grant>, Error>)
    requires ArePackages(p)
    ensures r.Ok? ==> AreGrants(p, r.value, |p.overrides|, 0) && AllOfOthers(p)
    ensures r.Err? ==> r.error.NotAnother? && Wrong(p, [], r.error)
  {
    var grants: seq<Grant> := [];
    for b := 0 to |p.overrides|
      invariant AreGrants(p, grants, b, 0)
    {
      for k := 0 to |p.overrides[b]|
        invariant AreGrants(p, grants, b, k)
      {
        var o := p.overrides[b][k];
        if !OfAnother(p, b, o) {
          return Err(NotAnother(b, o.dependency));
        }
        GrantAdded(p, grants, b, k);
        grants := grants + [Grant(b, p.at[o.dependency], o.matches)];
      }
    }
    return Ok(grants);
  }

  lemma {:induction false} GrantAdded(p: Packages, grants: seq<Grant>, b: nat, k: nat)
    requires AreGrants(p, grants, b, k) && b < |p.overrides| && k < |p.overrides[b]| && OfAnother(p, b, p.overrides[b][k])
    ensures AreGrants(p, grants + [Grant(b, p.at[p.overrides[b][k].dependency], p.overrides[b][k].matches)], b, k + 1)
  {
    var o := p.overrides[b][k];
    var grant := Grant(b, p.at[o.dependency], o.matches);
    var more := grants + [grant];
    assert GrantOf(p, grant, b, k) && more[|grants|] == grant;
    forall c, j | 0 <= c < |p.overrides| && 0 <= j < |p.overrides[c]| && (c < b || (c == b && j < k + 1)) ensures Granted(p, more, c, j) {
      if c < b || j < k {
        assert Granted(p, grants, c, j);
        var i :| 0 <= i < |grants| && GrantOf(p, grants[i], c, j);
        assert GrantOf(p, more[i], c, j);
      }
    }
  }

  // ----- what replaces what

  /** The file's `n`th name is replaced under the grant. */
  predicate Hits(grants: seq<Grant>, files: seq<Source>, f: nat, i: nat, n: nat, key: Key) {
    && f < |files| && i < |grants| && n < |files[f].names|
    && grants[i].holder == files[f].package && grants[i].of == key.of && files[f].names[n] == key.name
    && grants[i].matches(key.name)
  }

  /** What the grants say is what the overrides do. */
  lemma {:induction false} HitsAre(p: Packages, grants: seq<Grant>, files: seq<Source>, f: nat, key: Key)
    requires AreGrants(p, grants, |p.overrides|, 0) && f < |files|
    ensures Replaces(p, files, f, key) <==> exists i: nat, n: nat :: Hits(grants, files, f, i, n, key)
  {
    if Replaces(p, files, f, key) {
      var b := files[f].package;
      var k :| 0 <= k < |p.overrides[b]| && MayBy(p, b, k, key);
      assert Granted(p, grants, b, k);
      var i :| 0 <= i < |grants| && GrantOf(p, grants[i], b, k);
      var n :| 0 <= n < |files[f].names| && files[f].names[n] == key.name;
      assert Hits(grants, files, f, i, n, key);
    }
    if i: nat, n: nat :| Hits(grants, files, f, i, n, key) {
      assert IsGrant(p, grants[i]);
      var k :| 0 <= k < |p.overrides[grants[i].holder]| && GrantOf(p, grants[i], grants[i].holder, k);
      assert MayBy(p, files[f].package, k, key);
    }
  }

  /** The names replaced so far: up to the `n`th of the file `f` under its `i`th grant, the grants before it done. */
  ghost predicate Replacing(grants: seq<Grant>, files: seq<Source>, replacing: map<Key, nat>, f: nat, i: nat, n: nat) {
    && (forall key :: key in replacing ==> HitBy(grants, files, replacing[key], key))
    && (forall g: nat, j: nat, m: nat, key :: Hits(grants, files, g, j, m, key) && Seen(g, j, m, f, i, n) ==>
          key in replacing && replacing[key] < |files| && files[replacing[key]].package == files[g].package)
  }

  predicate Seen(g: nat, j: nat, m: nat, f: nat, i: nat, n: nat) {
    g < f || (g == f && (j < i || (j == i && m < n)))
  }

  ghost predicate HitBy(grants: seq<Grant>, files: seq<Source>, f: nat, key: Key) {
    exists i: nat, n: nat :: Hits(grants, files, f, i, n, key)
  }

  /** Two files of different packages that replace one name. */
  ghost predicate Clashes(grants: seq<Grant>, files: seq<Source>, error: Error) {
    && error.Twice? && HitBy(grants, files, error.first, error.key) && HitBy(grants, files, error.second, error.key)
    && files[error.first].package != files[error.second].package
  }

  /** Each name replaced, in the package it is replaced in, and the file that replaces it. */
  method Replacements(grants: seq<Grant>, files: seq<Source>) returns (r: Result<map<Key, nat>, Error>)
    ensures r.Ok? ==> Replacing(grants, files, r.value, |files|, 0, 0)
    ensures r.Err? ==> r.error.Twice? && r.error.first < |files| && r.error.second < |files| && Clashes(grants, files, r.error)
  {
    hide Hits;
    var replacing: map<Key, nat> := map[];
    for f := 0 to |files|
      invariant Replacing(grants, files, replacing, f, 0, 0)
    {
      for i := 0 to |grants|
        invariant Replacing(grants, files, replacing, f, i, 0)
      {
        if grants[i].holder == files[f].package {
          for n := 0 to |files[f].names|
            invariant Replacing(grants, files, replacing, f, i, n)
          {
            hide Replacing, HitBy;
            var key := Key(grants[i].of, files[f].names[n]);
            if grants[i].matches(key.name) {
              HitHere(grants, files, f, i, n);
              if key !in replacing {
                FirstHit(grants, files, replacing, f, i, n, key);
                replacing := replacing[key := f];
              } else {
                Known(grants, files, replacing, f, i, n, key);
                var other := files[replacing[key]];
                if other.package != files[f].package {
                  return Err(Twice(key, replacing[key], f));
                }
                AgainHit(grants, files, replacing, f, i, n, key);
              }
            } else {
              NoHit(grants, files, replacing, f, i, n);
            }
          }
          NamesDone(grants, files, replacing, f, i, |files[f].names|);
        } else {
          NotIts(grants, files, replacing, f, i);
        }
      }
      GrantsDone(grants, files, replacing, f);
    }
    return Ok(replacing);
  }

  lemma HitHere(grants: seq<Grant>, files: seq<Source>, f: nat, i: nat, n: nat)
    requires f < |files| && i < |grants| && n < |files[f].names| && grants[i].holder == files[f].package
    requires grants[i].matches(files[f].names[n])
    ensures Hits(grants, files, f, i, n, Key(grants[i].of, files[f].names[n]))
    ensures HitBy(grants, files, f, Key(grants[i].of, files[f].names[n]))
  {
    assert Hits(grants, files, f, i, n, Key(grants[i].of, files[f].names[n]));
  }

  lemma {:induction false} FirstHit(grants: seq<Grant>, files: seq<Source>, replacing: map<Key, nat>, f: nat, i: nat, n: nat, key: Key)
    requires Replacing(grants, files, replacing, f, i, n) && Hits(grants, files, f, i, n, key) && key !in replacing
    ensures Replacing(grants, files, replacing[key := f], f, i, n + 1)
  {
    OnlyKey(grants, files, f, i, n, key);
    hide Hits;
    assert HitBy(grants, files, f, key);
  }

  lemma {:induction false} AgainHit(grants: seq<Grant>, files: seq<Source>, replacing: map<Key, nat>, f: nat, i: nat, n: nat, key: Key)
    requires Replacing(grants, files, replacing, f, i, n) && Hits(grants, files, f, i, n, key) && key in replacing
    requires replacing[key] < |files| && files[replacing[key]].package == files[f].package
    ensures Replacing(grants, files, replacing, f, i, n + 1)
  {
    OnlyKey(grants, files, f, i, n, key);
    hide Hits;
  }

  /** One name under one grant is replaced in one package. */
  lemma OnlyKey(grants: seq<Grant>, files: seq<Source>, f: nat, i: nat, n: nat, key: Key)
    requires Hits(grants, files, f, i, n, key)
    ensures f < |files| && forall other :: Hits(grants, files, f, i, n, other) ==> other == key
  {
  }

  lemma NoHit(grants: seq<Grant>, files: seq<Source>, replacing: map<Key, nat>, f: nat, i: nat, n: nat)
    requires Replacing(grants, files, replacing, f, i, n) && f < |files| && i < |grants| && n < |files[f].names|
    requires !grants[i].matches(files[f].names[n])
    ensures Replacing(grants, files, replacing, f, i, n + 1)
  {
    assert forall key :: !Hits(grants, files, f, i, n, key);
    hide Hits;
  }

  lemma Known(grants: seq<Grant>, files: seq<Source>, replacing: map<Key, nat>, f: nat, i: nat, n: nat, key: Key)
    requires Replacing(grants, files, replacing, f, i, n) && key in replacing
    ensures replacing[key] < |files| && HitBy(grants, files, replacing[key], key)
  {
    assert HitBy(grants, files, replacing[key], key);
  }

  lemma NamesDone(grants: seq<Grant>, files: seq<Source>, replacing: map<Key, nat>, f: nat, i: nat, n: nat)
    requires Replacing(grants, files, replacing, f, i, n) && f < |files| && n == |files[f].names|
    ensures Replacing(grants, files, replacing, f, i + 1, 0)
  {
    assert forall m: nat, key :: Hits(grants, files, f, i, m, key) ==> m < n;
    hide Hits;
  }

  lemma NotIts(grants: seq<Grant>, files: seq<Source>, replacing: map<Key, nat>, f: nat, i: nat)
    requires Replacing(grants, files, replacing, f, i, 0) && f < |files| && i < |grants| && grants[i].holder != files[f].package
    ensures Replacing(grants, files, replacing, f, i + 1, 0)
  {
    assert forall m: nat, key :: !Hits(grants, files, f, i, m, key);
    hide Hits;
  }

  lemma GrantsDone(grants: seq<Grant>, files: seq<Source>, replacing: map<Key, nat>, f: nat)
    requires Replacing(grants, files, replacing, f, |grants|, 0)
    ensures Replacing(grants, files, replacing, f + 1, 0, 0)
  {
    assert forall i: nat, m: nat, key :: Hits(grants, files, f, i, m, key) ==> i < |grants|;
    hide Hits;
  }

  // ----- which files are dropped

  /** What the map says is replaced is what is, and no name is replaced by two packages. */
  lemma {:induction false} AllReplacing(p: Packages, grants: seq<Grant>, files: seq<Source>, replacing: map<Key, nat>)
    requires AreGrants(p, grants, |p.overrides|, 0) && Replacing(grants, files, replacing, |files|, 0, 0)
    ensures forall key :: key in replacing <==> IsReplaced(p, files, key)
    ensures NoneTwice(p, files)
  {
    hide AreGrants, May;
    forall f, key | 0 <= f < |files| ensures Replaces(p, files, f, key) <==> HitBy(grants, files, f, key) {
      HitsAre(p, grants, files, f, key);
    }
    hide Replaces;
    forall f, key | 0 <= f < |files| && HitBy(grants, files, f, key)
      ensures key in replacing && replacing[key] < |files| && files[replacing[key]].package == files[f].package
    {
      var i: nat, n: nat :| Hits(grants, files, f, i, n, key);
      assert Seen(f, i, n, |files|, 0, 0);
    }
    forall key | key in replacing ensures IsReplaced(p, files, key) {
      assert HitBy(grants, files, replacing[key], key);
      HitWithin(grants, files, replacing[key], key);
      assert Replaces(p, files, replacing[key], key);
    }
  }

  lemma HitWithin(grants: seq<Grant>, files: seq<Source>, f: nat, key: Key)
    requires HitBy(grants, files, f, key)
    ensures f < |files|
  {
  }

  /** The first of `names` that is or is not replaced in `package`. */
  method FirstName(replacing: map<Key, nat>, package: nat, names: seq<string>, wanted: bool) returns (found: Option<string>)
    ensures found.Some? ==> found.value in names && (Key(package, found.value) in replacing <==> wanted)
    ensures found.None? ==> forall name :: name in names ==> (Key(package, name) in replacing <==> !wanted)
  {
    for n := 0 to |names|
      invariant forall m :: 0 <= m < n ==> (Key(package, names[m]) in replacing <==> !wanted)
    {
      if (Key(package, names[n]) in replacing) == wanted {
        return Some(names[n]);
      }
    }
    return None;
  }

  /** The files that are dropped: those that declare a name replaced in their own package. */
  ghost predicate Dropped(p: Packages, files: seq<Source>, dropped: seq<bool>) {
    |dropped| == |files| && forall f :: 0 <= f < |files| ==> (dropped[f] <==> Outdone(p, files, f))
  }

  /** Which of `files` an override replaces, unless one is of no other package, two clash, or a file is split. */
  method Replaced(p: Packages, files: seq<Source>) returns (r: Result<seq<bool>, Error>)
    requires ArePackages(p)
    ensures r.Ok? <==> AllOfOthers(p) && NoneTwice(p, files) && NoneSplit(p, files)
    ensures r.Ok? ==> Dropped(p, files, r.value)
    ensures r.Err? ==> Wrong(p, files, r.error)
  {
    hide AreGrants, Replacing, Clashes, IsReplaced, NoneTwice, Replaces;
    var grants := Grants(p);
    if grants.Err? {
      NotOfOthers(p, files, grants.error);
      return Err(grants.error);
    }
    var replacing := Replacements(grants.value, files);
    if replacing.Err? {
      Clash(p, grants.value, files, replacing.error);
      return Err(replacing.error);
    }
    AllReplacing(p, grants.value, files, replacing.value);
    var dropped: seq<bool> := [];
    for f := 0 to |files|
      invariant |dropped| == f && forall g :: 0 <= g < f ==> (dropped[g] <==> Outdone(p, files, g))
      invariant forall g, name :: 0 <= g < f && Outdone(p, files, g) && name in files[g].names ==>
        IsReplaced(p, files, Key(files[g].package, name))
    {
      var replaced := FirstName(replacing.value, files[f].package, files[f].names, true);
      if replaced.Some? {
        var kept := FirstName(replacing.value, files[f].package, files[f].names, false);
        assert Outdone(p, files, f);
        if kept.Some? {
          return Err(Split(f, replaced.value, kept.value));
        }
      }
      dropped := dropped + [replaced.Some?];
    }
    return Ok(dropped);
  }

  lemma NotOfOthers(p: Packages, files: seq<Source>, error: Error)
    requires error.NotAnother? && Wrong(p, [], error)
    ensures Wrong(p, files, error) && !AllOfOthers(p)
  {
    var o :| o in p.overrides[error.holder] && o.dependency == error.dependency && !OfAnother(p, error.holder, o);
    var k :| 0 <= k < |p.overrides[error.holder]| && p.overrides[error.holder][k] == o;
  }

  lemma Clash(p: Packages, grants: seq<Grant>, files: seq<Source>, error: Error)
    requires AreGrants(p, grants, |p.overrides|, 0)
    requires error.Twice? && error.first < |files| && error.second < |files| && Clashes(grants, files, error)
    ensures Wrong(p, files, error) && !NoneTwice(p, files)
  {
    hide AreGrants, Replaces;
    HitsAre(p, grants, files, error.first, error.key);
    HitsAre(p, grants, files, error.second, error.key);
  }

  // ----- what is still declared

  /** Which packages each may replace names of. */
  function GrantGraph(p: Packages): (next: seq<seq<nat>>)
    requires ArePackages(p)
    ensures |next| == |p.overrides| && IsGraph(next)
    ensures forall b, k :: 0 <= b < |next| && 0 <= k < |p.overrides[b]| && p.overrides[b][k].dependency in p.at ==>
      p.at[p.overrides[b][k].dependency] in next[b]
  {
    seq(|p.overrides|, b requires 0 <= b < |p.overrides| => Targets(p, p.overrides[b]))
  }

  function Targets(p: Packages, overrides: seq<Override>): (targets: seq<nat>)
    requires ArePackages(p)
    ensures Within(targets, |p.overrides|)
    ensures forall k :: 0 <= k < |overrides| && overrides[k].dependency in p.at ==> p.at[overrides[k].dependency] in targets
  {
    if overrides == [] then []
    else
      var rest := Targets(p, overrides[1..]);
      assert forall k :: 0 < k < |overrides| ==> overrides[k] == overrides[1..][k - 1];
      if overrides[0].dependency in p.at then [p.at[overrides[0].dependency]] + rest else rest
  }

  /**
   * Where no package may replace names of one that may replace its own, directly or not,
   * every name a dropped file declares is declared by a file that is kept.
   */
  lemma {:induction false} StillDeclared(p: Packages, files: seq<Source>, dropped: seq<bool>, f: nat, name: string) returns (g: nat)
    requires ArePackages(p) && Acyclic(GrantGraph(p)) && (forall h :: 0 <= h < |files| ==> files[h].package < |p.overrides|)
    requires NoneSplit(p, files) && Dropped(p, files, dropped) && f < |files| && dropped[f] && name in files[f].names
    ensures g < |files| && !dropped[g] && name in files[g].names
  {
    g := DeclaredOn(p, files, dropped, f, name, [files[f].package]);
  }

  lemma {:induction false} DeclaredOn(p: Packages, files: seq<Source>, dropped: seq<bool>, f: nat, name: string, walk: seq<nat>)
      returns (g: nat)
    requires ArePackages(p) && Acyclic(GrantGraph(p)) && (forall h :: 0 <= h < |files| ==> files[h].package < |p.overrides|)
    requires NoneSplit(p, files) && Dropped(p, files, dropped) && f < |files| && dropped[f] && name in files[f].names
    requires IsWalk(GrantGraph(p), walk) && walk[0] == files[f].package
    ensures g < |files| && !dropped[g] && name in files[g].names
    decreases |p.overrides| + 1 - |walk|
  {
    hide Reaches, OnCycle;
    var next := GrantGraph(p);
    NoLonger(next, walk);
    assert IsReplaced(p, files, Key(files[f].package, name));
    var h :| 0 <= h < |files| && Replaces(p, files, h, Key(files[f].package, name));
    if !dropped[h] {
      g := h;
    } else {
      MayLeads(p, files[h].package, Key(files[f].package, name));
      LongerWalk(next, files[h].package, walk);
      g := DeclaredOn(p, files, dropped, h, name, [files[h].package] + walk);
    }
  }

  lemma MayLeads(p: Packages, b: nat, key: Key)
    requires ArePackages(p) && May(p, b, key)
    ensures Leads(GrantGraph(p), b, key.of)
  {
    var k :| 0 <= k < |p.overrides[b]| && MayBy(p, b, k, key);
    assert p.at[p.overrides[b][k].dependency] in GrantGraph(p)[b];
  }

  lemma LongerWalk(next: seq<seq<nat>>, node: nat, walk: seq<nat>)
    requires IsWalk(next, walk) && Leads(next, node, walk[0])
    ensures IsWalk(next, [node] + walk)
  {
    var longer := [node] + walk;
    forall i | 0 <= i < |longer| - 1 ensures Leads(next, longer[i], longer[i + 1]) {
      if i > 0 {
        assert Leads(next, walk[i - 1], walk[i]);
      }
    }
  }

  lemma NoLonger(next: seq<seq<nat>>, walk: seq<nat>)
    requires Acyclic(next) && IsWalk(next, walk)
    ensures |walk| <= |next|
  {
    hide OnCycle;
    if |walk| > |next| {
      var i, j := Repeats(walk, |next|);
      WalkCycles(next, walk, i, j);
    }
  }

  /** A kept file declares no name replaced in its own package. */
  lemma {:induction false} KeptDeclareNone(p: Packages, files: seq<Source>, dropped: seq<bool>, f: nat, name: string)
    requires Dropped(p, files, dropped) && f < |files| && !dropped[f] && name in files[f].names
    ensures !IsReplaced(p, files, Key(files[f].package, name))
  {
    assert !Outdone(p, files, f);
  }
}
