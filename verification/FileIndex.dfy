/**
 * Names across files: which file declares each, which files a design needs, and why.
 */
module FileIndex {
  import opened Wrappers
  import opened Graph
  import Chains
  import FileOrder

  /** A use of a name: a `bind` says whether a design element holds it. */
  datatype Uses = Bind(held: bool) | Mention

  datatype Reference = Reference(name: string, uses: Uses)

  /** A name declared; a prototype has no body. */
  datatype Declaration = Declaration(name: string, prototype: bool)

  datatype Summary = Summary(declarations: seq<Declaration>, references: seq<Reference>, encrypted: bool)

  /** A declaration or a reference: its file, and its place in that file's. */
  datatype Place = Place(file: nat, at: nat)

  datatype Index = Index(
    summaries: seq<Summary>, declared: map<string, Place>,
    dependencies: seq<seq<Place>>, bound: seq<seq<Place>>, redeclared: seq<seq<Place>>)

  function Last<T>(s: seq<T>): T
    requires s != []
  {
    s[|s| - 1]
  }

  // ----- what a name means

  /** Where the first `count` of a file's declarations declare `name`, or only those with a body. */
  function NamedIn(declarations: seq<Declaration>, file: nat, name: string, bodies: bool, count: nat): (places: seq<Place>)
    requires count <= |declarations|
    ensures forall i :: 0 <= i < |places| ==>
      && places[i].file == file && places[i].at < count && declarations[places[i].at].name == name
      && (bodies ==> !declarations[places[i].at].prototype)
    ensures forall i, j :: 0 <= i < j < |places| ==> places[i].at < places[j].at
  {
    if count == 0 then []
    else
      var before, d := NamedIn(declarations, file, name, bodies, count - 1), declarations[count - 1];
      if d.name == name && !(bodies && d.prototype) then before + [Place(file, count - 1)] else before
  }

  /** The same across the first `files` files. */
  function Named(summaries: seq<Summary>, name: string, bodies: bool, files: nat): (places: seq<Place>)
    requires files <= |summaries|
    ensures forall i :: 0 <= i < |places| ==> IsPlace(summaries, places[i]) && places[i].file < files
    ensures bodies ==> forall i :: 0 <= i < |places| ==> !At(summaries, places[i]).prototype
  {
    if files == 0 then []
    else
      var declarations := summaries[files - 1].declarations;
      Named(summaries, name, bodies, files - 1) + NamedIn(declarations, files - 1, name, bodies, |declarations|)
  }

  predicate IsPlace(summaries: seq<Summary>, place: Place) {
    place.file < |summaries| && place.at < |summaries[place.file].declarations|
  }

  function At(summaries: seq<Summary>, place: Place): Declaration
    requires IsPlace(summaries, place)
  {
    summaries[place.file].declarations[place.at]
  }

  /** Those before the declaration at `at` of `file`. */
  function Before(summaries: seq<Summary>, name: string, bodies: bool, file: nat, at: nat): (places: seq<Place>)
    requires file < |summaries| && at <= |summaries[file].declarations|
    ensures forall i :: 0 <= i < |places| ==> IsPlace(summaries, places[i]) && Earlier(places[i], Place(file, at))
    ensures bodies ==> forall i :: 0 <= i < |places| ==> !At(summaries, places[i]).prototype
  {
    Named(summaries, name, bodies, file) + NamedIn(summaries[file].declarations, file, name, bodies, at)
  }

  predicate Earlier(a: Place, b: Place) {
    a.file < b.file || (a.file == b.file && a.at < b.at)
  }

  /** A name means its last declaration with a body, or its last if none has one. */
  function Meaning(bodies: seq<Place>, all: seq<Place>): Option<Place> {
    if bodies != [] then Some(Last(bodies)) else if all != [] then Some(Last(all)) else None
  }

  function Found(declared: map<string, Place>, name: string): Option<Place> {
    if name in declared then Some(declared[name]) else None
  }

  /** What is known of `name` once `bodies` and `all` of its declarations are indexed. */
  ghost predicate Knows(declared: map<string, Place>, again: map<string, nat>, redeclared: seq<seq<Place>>,
                        name: string, bodies: seq<Place>, all: seq<Place>) {
    && Found(declared, name) == Meaning(bodies, all)
    && (name in again <==> |bodies| > 1)
    && (name in again ==> again[name] < |redeclared| && redeclared[again[name]] == bodies)
  }

  /** Each group is of one name, and they are in the order of each name's second declaration with a body. */
  ghost predicate Groups(again: map<string, nat>, names: seq<string>, redeclared: seq<seq<Place>>, before: Place) {
    && |names| == |redeclared|
    && (forall g :: 0 <= g < |names| ==> names[g] in again && again[names[g]] == g)
    && (forall name :: name in again ==> again[name] < |names| && names[again[name]] == name)
    && (forall g :: 0 <= g < |names| ==> |redeclared[g]| > 1 && Earlier(redeclared[g][1], before))
    && (forall g, h :: 0 <= g < h < |names| ==> Earlier(redeclared[g][1], redeclared[h][1]))
  }

  /** Every name means what the declarations before the one at `at` of `file` make it mean. */
  ghost predicate Indexed(summaries: seq<Summary>, declared: map<string, Place>, again: map<string, nat>,
                          names: seq<string>, redeclared: seq<seq<Place>>, file: nat, at: nat)
    requires file < |summaries| && at <= |summaries[file].declarations|
  {
    && Groups(again, names, redeclared, Place(file, at))
    && forall name: string :: KnowsAt(summaries, declared, again, redeclared, name, file, at)
  }

  ghost predicate KnowsAt(summaries: seq<Summary>, declared: map<string, Place>, again: map<string, nat>,
                          redeclared: seq<seq<Place>>, name: string, file: nat, at: nat)
    requires file < |summaries| && at <= |summaries[file].declarations|
  {
    Knows(declared, again, redeclared, name, Before(summaries, name, true, file, at), Before(summaries, name, false, file, at))
  }

  lemma BeforeNext(summaries: seq<Summary>, name: string, bodies: bool, file: nat, at: nat)
    requires file < |summaries| && at < |summaries[file].declarations|
    ensures var d := summaries[file].declarations[at];
      Before(summaries, name, bodies, file, at + 1)
      == Before(summaries, name, bodies, file, at) + (if d.name == name && !(bodies && d.prototype) then [Place(file, at)] else [])
  {
  }

  lemma {:induction false} BodiesNamedIn(declarations: seq<Declaration>, file: nat, name: string, count: nat)
    requires count <= |declarations|
    ensures forall p :: p in NamedIn(declarations, file, name, false, count) && !declarations[p.at].prototype ==>
      p in NamedIn(declarations, file, name, true, count)
  {
    if count > 0 {
      BodiesNamedIn(declarations, file, name, count - 1);
    }
  }

  /** A declaration with its body is among those with one. */
  lemma {:induction false} BodiesNamed(summaries: seq<Summary>, name: string, files: nat)
    requires files <= |summaries|
    ensures forall p :: p in Named(summaries, name, false, files) && !At(summaries, p).prototype ==>
      p in Named(summaries, name, true, files)
  {
    if files > 0 {
      BodiesNamed(summaries, name, files - 1);
      BodiesNamedIn(summaries[files - 1].declarations, files - 1, name, |summaries[files - 1].declarations|);
    }
  }

  /** What a name means has a body exactly when one of its declarations does. */
  lemma MeaningBody(summaries: seq<Summary>, name: string, file: nat, at: nat)
    requires file < |summaries| && at <= |summaries[file].declarations|
    ensures var bodies, all := Before(summaries, name, true, file, at), Before(summaries, name, false, file, at);
      var meaning := Meaning(bodies, all);
      meaning.Some? ==> (IsPlace(summaries, meaning.value) && (At(summaries, meaning.value).prototype <==> bodies == []))
  {
    BodiesNamed(summaries, name, file);
    BodiesNamedIn(summaries[file].declarations, file, name, at);
    var all := Before(summaries, name, false, file, at);
    assert forall p :: p in all && !At(summaries, p).prototype ==> p in Before(summaries, name, true, file, at);
  }

  /** A group starts with the second declaration of its name. */
  lemma GroupStarted(again: map<string, nat>, names: seq<string>, redeclared: seq<seq<Place>>, before: Place, after: Place,
                     name: string, group: seq<Place>)
    requires Groups(again, names, redeclared, before) && name !in again && Earlier(before, after)
    requires |group| == 2 && group[1] == before
    ensures Groups(again[name := |redeclared|], names + [name], redeclared + [group], after)
  {
  }

  lemma GroupGrew(again: map<string, nat>, names: seq<string>, redeclared: seq<seq<Place>>, before: Place, after: Place,
                  g: nat, group: seq<Place>)
    requires Groups(again, names, redeclared, before) && g < |redeclared| && Earlier(before, after)
    requires redeclared[g] <= group
    ensures Groups(again, names, redeclared[g := group], after)
  {
    assert group[1] == redeclared[g][1];
  }

  /** One declaration more. */
  method Declare(summaries: seq<Summary>, file: nat, at: nat, declared: map<string, Place>, again: map<string, nat>,
                 redeclared: seq<seq<Place>>, ghost names: seq<string>)
    returns (d: map<string, Place>, a: map<string, nat>, r: seq<seq<Place>>, ghost n: seq<string>)
    requires file < |summaries| && at < |summaries[file].declarations|
    requires Indexed(summaries, declared, again, names, redeclared, file, at)
    ensures Indexed(summaries, d, a, n, r, file, at + 1)
  {
    hide *;
    var here := Place(file, at);
    PlaceIs(summaries, here);
    var declaration := At(summaries, here);
    var name := declaration.name;
    ghost var after := Place(file, at + 1);
    ghost var bodies := Before(summaries, name, true, file, at);
    KnownSoFar(summaries, declared, again, names, redeclared, name, file, at);
    var earlier: Option<Place> := if name in declared then Some(declared[name]) else None;
    if earlier.Some? && At(summaries, earlier.value).prototype {
      earlier := None;
    }
    d, a, r, n := declared, again, redeclared, names;
    if !(earlier.Some? && declaration.prototype) {
      d := d[name := here];
      if earlier.Some? {
        if name !in a {
          assert bodies == [earlier.value];
          GroupStarted(again, names, redeclared, here, after, name, [earlier.value, here]);
          a, r, n := a[name := |r|], r + [[earlier.value]], n + [name];
          assert [earlier.value] + [here] == [earlier.value, here];
          assert r[|redeclared| := [earlier.value, here]] == redeclared + [[earlier.value, here]];
        } else {
          GroupGrew(again, names, redeclared, here, after, again[name], bodies + [here]);
        }
        r := r[a[name] := r[a[name]] + [here]];
      }
    }
    StillGroups(again, names, redeclared, here, after);
    NameKnown(summaries, declared, again, redeclared, d, a, r, file, at);
    OwnGroups(again, names, redeclared, here);
    OthersKnown(summaries, declared, again, names, redeclared, d, a, n, r, file, at);
  }

  lemma PlaceIs(summaries: seq<Summary>, here: Place)
    requires here.file < |summaries| && here.at < |summaries[here.file].declarations|
    ensures IsPlace(summaries, here) && At(summaries, here) == summaries[here.file].declarations[here.at]
    ensures Earlier(here, Place(here.file, here.at + 1))
  {
  }

  lemma KnownSoFar(summaries: seq<Summary>, declared: map<string, Place>, again: map<string, nat>, names: seq<string>,
                   redeclared: seq<seq<Place>>, name: string, file: nat, at: nat)
    requires file < |summaries| && at <= |summaries[file].declarations|
    requires Indexed(summaries, declared, again, names, redeclared, file, at)
    ensures var bodies := Before(summaries, name, true, file, at);
      && Groups(again, names, redeclared, Place(file, at)) && KnowsAt(summaries, declared, again, redeclared, name, file, at)
      && (name in declared ==>
            IsPlace(summaries, declared[name]) && (At(summaries, declared[name]).prototype <==> bodies == []))
      && (bodies != [] ==> name in declared && declared[name] == bodies[|bodies| - 1])
      && (name in again <==> |bodies| > 1)
      && (name in again ==> again[name] < |redeclared| && redeclared[again[name]] == bodies)
  {
    hide Before, Groups;
    MeaningBody(summaries, name, file, at);
    assert KnowsAt(summaries, declared, again, redeclared, name, file, at);
  }

  /** What the declaration just indexed leaves known of its own name. */
  lemma NameKnown(summaries: seq<Summary>, declared: map<string, Place>, again: map<string, nat>, redeclared: seq<seq<Place>>,
                  d: map<string, Place>, a: map<string, nat>, r: seq<seq<Place>>, file: nat, at: nat)
    requires file < |summaries| && at < |summaries[file].declarations|
    requires var declaration := summaries[file].declarations[at];
      var name, here, bodies := declaration.name, Place(file, at), Before(summaries, declaration.name, true, file, at);
      && KnowsAt(summaries, declared, again, redeclared, name, file, at)
      && if bodies != [] && declaration.prototype then (d, a, r) == (declared, again, redeclared)
         else
           && d == declared[name := here]
           && if bodies == [] then (a, r) == (again, redeclared)
              else if |bodies| == 1 then (a, r) == (again[name := |redeclared|], redeclared + [[bodies[0], here]])
              else name in again && again[name] < |redeclared| && (a, r) == (again, redeclared[again[name] := bodies + [here]])
    ensures KnowsAt(summaries, d, a, r, summaries[file].declarations[at].name, file, at + 1)
  {
    hide Before;
    var name := summaries[file].declarations[at].name;
    BeforeNext(summaries, name, true, file, at);
    BeforeNext(summaries, name, false, file, at);
  }

  /** No two names share a group. */
  lemma OwnGroups(again: map<string, nat>, names: seq<string>, redeclared: seq<seq<Place>>, before: Place)
    requires Groups(again, names, redeclared, before)
    ensures forall name :: name in again ==> again[name] < |redeclared|
    ensures forall name, other :: name in again && other in again && again[name] == again[other] ==> name == other
  {
  }

  /** What was known of every other name still is. */
  lemma {:induction false} OthersKnown(summaries: seq<Summary>, declared: map<string, Place>, again: map<string, nat>,
                                       names: seq<string>, redeclared: seq<seq<Place>>, d: map<string, Place>,
                                       a: map<string, nat>, n: seq<string>, r: seq<seq<Place>>, file: nat, at: nat)
    requires file < |summaries| && at < |summaries[file].declarations|
    requires Indexed(summaries, declared, again, names, redeclared, file, at) && Groups(a, n, r, Place(file, at + 1))
    requires KnowsAt(summaries, d, a, r, summaries[file].declarations[at].name, file, at + 1)
    requires forall other :: other != summaries[file].declarations[at].name ==>
      && (other in d <==> other in declared) && (other in d ==> d[other] == declared[other])
      && (other in a <==> other in again)
      && (other in a ==> again[other] < |redeclared| <= |r| && a[other] == again[other] && r[again[other]] == redeclared[again[other]])
    ensures Indexed(summaries, d, a, n, r, file, at + 1)
  {
    hide Before, Groups;
    ghost var next: nat := at + 1;
    forall other: string ensures KnowsAt(summaries, d, a, r, other, file, next) {
      BeforeNext(summaries, other, true, file, at);
      BeforeNext(summaries, other, false, file, at);
      assert KnowsAt(summaries, declared, again, redeclared, other, file, at);
    }
  }

  lemma StillGroups(again: map<string, nat>, names: seq<string>, redeclared: seq<seq<Place>>, before: Place, after: Place)
    requires Groups(again, names, redeclared, before) && Earlier(before, after)
    ensures Groups(again, names, redeclared, after)
  {
  }

  // ----- what a file depends on

  /** The file the name a reference uses is declared in. */
  function Target(summaries: seq<Summary>, declared: map<string, Place>, file: nat, at: nat): Option<nat>
    requires file < |summaries| && at < |summaries[file].references|
  {
    var name := summaries[file].references[at].name;
    if name in declared then Some(declared[name].file) else None
  }

  /** A reference of `file` uses what `target` declares; only a `bind` no design element holds counts as one. */
  predicate Leading(summaries: seq<Summary>, declared: map<string, Place>, file: nat, at: nat, target: nat, binds: bool)
    requires file < |summaries| && at < |summaries[file].references|
  {
    && file != target && Target(summaries, declared, file, at) == Some(target)
    && (binds ==> summaries[file].references[at].uses == Bind(false))
  }

  /** The first such reference of `file`. */
  predicate FirstLeading(summaries: seq<Summary>, declared: map<string, Place>, file: nat, at: nat, target: nat, binds: bool) {
    && file < |summaries| && at < |summaries[file].references|
    && Leading(summaries, declared, file, at, target, binds)
    && forall k :: 0 <= k < at ==> !Leading(summaries, declared, file, k, target, binds)
  }

  /** Each file the first `count` references of `file` use a name of, at the first to, in that order. */
  ghost predicate DependsOn(summaries: seq<Summary>, declared: map<string, Place>, file: nat, uses: seq<Place>, count: nat)
    requires file < |summaries| && count <= |summaries[file].references|
  {
    && (forall i :: 0 <= i < |uses| ==>
          uses[i].at < count && FirstLeading(summaries, declared, file, uses[i].at, uses[i].file, false))
    && (forall i, j :: 0 <= i < j < |uses| ==> uses[i].at < uses[j].at)
    && (forall k, target :: 0 <= k < count && Leading(summaries, declared, file, k, target, false) ==> Listed(uses, target))
  }

  predicate Listed(uses: seq<Place>, target: nat) {
    exists i :: 0 <= i < |uses| && uses[i].file == target
  }

  /** `binds` are first binds into what `target` declares, of files in order, before the reference at `at` of `file`. */
  ghost predicate FirstBinds(summaries: seq<Summary>, declared: map<string, Place>, target: nat, binds: seq<Place>,
                             file: nat, at: nat) {
    && (forall i :: 0 <= i < |binds| ==>
          Earlier(binds[i], Place(file, at)) && FirstLeading(summaries, declared, binds[i].file, binds[i].at, target, true))
    && (forall i, j :: 0 <= i < j < |binds| ==> binds[i].file < binds[j].file)
  }

  /** Every file with a `bind` into what `target` declares before there is listed. */
  ghost predicate AllBinds(summaries: seq<Summary>, declared: map<string, Place>, target: nat, binds: seq<Place>,
                           file: nat, at: nat) {
    forall f: nat, k: nat :: Binds(summaries, declared, target, f, k) && Earlier(Place(f, k), Place(file, at)) ==> Listed(binds, f)
  }

  predicate Binds(summaries: seq<Summary>, declared: map<string, Place>, target: nat, file: nat, at: nat) {
    && file < |summaries| && at < |summaries[file].references|
    && Leading(summaries, declared, file, at, target, true)
  }

  ghost predicate BoundInto(summaries: seq<Summary>, declared: map<string, Place>, target: nat, binds: seq<Place>,
                            file: nat, at: nat) {
    FirstBinds(summaries, declared, target, binds, file, at) && AllBinds(summaries, declared, target, binds, file, at)
  }

  /** The files `file` depends on, each with the first reference to it. */
  method DependenciesOf(summaries: seq<Summary>, declared: map<string, Place>, file: nat) returns (uses: seq<Place>)
    requires file < |summaries|
    ensures DependsOn(summaries, declared, file, uses, |summaries[file].references|)
  {
    uses := [];
    var seen: set<nat> := {};
    for at := 0 to |summaries[file].references|
      invariant DependsOn(summaries, declared, file, uses, at)
      invariant forall target :: target in seen <==> Listed(uses, target)
    {
      var target := Target(summaries, declared, file, at);
      if target.Some? && target.value != file && target.value !in seen {
        ghost var was := uses;
        seen, uses := seen + {target.value}, uses + [Place(target.value, at)];
        forall t ensures Listed(uses, t) <==> Listed(was, t) || t == target.value {
          MoreUses(was, Place(target.value, at), t);
        }
      }
    }
  }

  lemma MoreUses(uses: seq<Place>, place: Place, target: nat)
    ensures Listed(uses + [place], target) <==> Listed(uses, target) || place.file == target
  {
    var more := uses + [place];
    assert more[|uses|] == place;
    assert forall i :: 0 <= i < |uses| ==> more[i] == uses[i];
  }

  /** The files that bind into what each file declares. */
  method BindsInto(summaries: seq<Summary>, declared: map<string, Place>) returns (bound: seq<seq<Place>>)
    requires forall name :: name in declared ==> declared[name].file < |summaries|
    ensures |bound| == |summaries|
    ensures forall target :: 0 <= target < |summaries| ==>
      BoundInto(summaries, declared, target, bound[target], |summaries|, 0)
  {
    hide BoundInto, FirstLeading;
    bound := seq(|summaries|, _ => []);
    forall target | 0 <= target < |summaries| ensures BoundInto(summaries, declared, target, bound[target], 0, 0) {
      NoneBound(summaries, declared, target);
    }
    for file := 0 to |summaries|
      invariant |bound| == |summaries|
      invariant forall target :: 0 <= target < |summaries| ==> BoundInto(summaries, declared, target, bound[target], file, 0)
    {
      for at := 0 to |summaries[file].references|
        invariant |bound| == |summaries|
        invariant forall target :: 0 <= target < |summaries| ==> BoundInto(summaries, declared, target, bound[target], file, at)
      {
        var target := Target(summaries, declared, file, at);
        ghost var was := bound;
        if target.Some? {
          var first := !Listed(bound[target.value], file);
          if summaries[file].references[at].uses == Bind(false) && target.value != file && first {
            bound := bound[target.value := bound[target.value] + [Place(file, at)]];
          }
        }
        forall t | 0 <= t < |summaries| ensures BoundInto(summaries, declared, t, bound[t], file, at + 1) {
          BindSeen(summaries, declared, t, was[t], file, at);
        }
      }
      forall t | 0 <= t < |summaries| ensures BoundInto(summaries, declared, t, bound[t], file + 1, 0) {
        NextFile(summaries, declared, t, bound[t], file);
      }
    }
  }

  lemma NoneBound(summaries: seq<Summary>, declared: map<string, Place>, target: nat)
    ensures BoundInto(summaries, declared, target, [], 0, 0)
  {
  }

  lemma NextFile(summaries: seq<Summary>, declared: map<string, Place>, target: nat, binds: seq<Place>, file: nat)
    requires file < |summaries| && BoundInto(summaries, declared, target, binds, file, |summaries[file].references|)
    ensures BoundInto(summaries, declared, target, binds, file + 1, 0)
  {
  }

  /** One reference more: its file is listed if it is its first `bind` into what the target declares. */
  lemma {:induction false} BindSeen(summaries: seq<Summary>, declared: map<string, Place>, target: nat, binds: seq<Place>,
                                    file: nat, at: nat)
    requires file < |summaries| && at < |summaries[file].references|
    requires BoundInto(summaries, declared, target, binds, file, at)
    ensures var adds := Leading(summaries, declared, file, at, target, true) && !Listed(binds, file);
      BoundInto(summaries, declared, target, if adds then binds + [Place(file, at)] else binds, file, at + 1)
  {
    var adds := Leading(summaries, declared, file, at, target, true) && !Listed(binds, file);
    var more := if adds then binds + [Place(file, at)] else binds;
    if adds {
      FirstSeen(summaries, declared, target, binds, file, at);
    }
    forall f: nat, k: nat | Binds(summaries, declared, target, f, k) && Earlier(Place(f, k), Place(file, at + 1))
      ensures Listed(more, f)
    {
      MoreUses(binds, Place(file, at), f);
      assert Earlier(Place(f, k), Place(file, at)) || Place(f, k) == Place(file, at);
    }
  }

  lemma {:induction false} FirstSeen(summaries: seq<Summary>, declared: map<string, Place>, target: nat, binds: seq<Place>,
                                     file: nat, at: nat)
    requires file < |summaries| && at < |summaries[file].references|
    requires BoundInto(summaries, declared, target, binds, file, at)
    requires Leading(summaries, declared, file, at, target, true) && !Listed(binds, file)
    ensures FirstBinds(summaries, declared, target, binds + [Place(file, at)], file, at + 1)
  {
    hide Leading;
    forall i | 0 <= i < |binds| ensures binds[i].file < file {
      assert Listed(binds, binds[i].file);
    }
    forall k | 0 <= k < at ensures !Leading(summaries, declared, file, k, target, true) {
      assert !Binds(summaries, declared, target, file, k);
    }
  }

  // ----- the index

  /** What the declarations of the first `files` files make of every name. */
  ghost predicate IndexedFiles(summaries: seq<Summary>, declared: map<string, Place>, again: map<string, nat>,
                               names: seq<string>, redeclared: seq<seq<Place>>, files: nat)
    requires files <= |summaries|
  {
    && Groups(again, names, redeclared, Place(files, 0))
    && forall name: string :: KnowsIn(summaries, declared, again, redeclared, name, files)
  }

  ghost predicate KnowsIn(summaries: seq<Summary>, declared: map<string, Place>, again: map<string, nat>,
                          redeclared: seq<seq<Place>>, name: string, files: nat)
    requires files <= |summaries|
  {
    Knows(declared, again, redeclared, name, Named(summaries, name, true, files), Named(summaries, name, false, files))
  }

  lemma FileBegins(summaries: seq<Summary>, declared: map<string, Place>, again: map<string, nat>,
                   names: seq<string>, redeclared: seq<seq<Place>>, file: nat)
    requires file < |summaries| && IndexedFiles(summaries, declared, again, names, redeclared, file)
    ensures Indexed(summaries, declared, again, names, redeclared, file, 0)
  {
    forall name: string ensures KnowsAt(summaries, declared, again, redeclared, name, file, 0) {
      assert KnowsIn(summaries, declared, again, redeclared, name, file);
      assert Before(summaries, name, true, file, 0) == Named(summaries, name, true, file);
      assert Before(summaries, name, false, file, 0) == Named(summaries, name, false, file);
    }
  }

  lemma FileEnds(summaries: seq<Summary>, declared: map<string, Place>, again: map<string, nat>,
                 names: seq<string>, redeclared: seq<seq<Place>>, file: nat)
    requires file < |summaries| && Indexed(summaries, declared, again, names, redeclared, file, |summaries[file].declarations|)
    ensures IndexedFiles(summaries, declared, again, names, redeclared, file + 1)
  {
    var files, count := file + 1, |summaries[file].declarations|;
    forall name: string ensures KnowsIn(summaries, declared, again, redeclared, name, files) {
      assert KnowsAt(summaries, declared, again, redeclared, name, file, count);
    }
    StillGroups(again, names, redeclared, Place(file, count), Place(files, 0));
  }

  /** The names declared with a body more than once, `names`, and every such declaration of each. */
  ghost predicate IsRedeclared(summaries: seq<Summary>, names: seq<string>, redeclared: seq<seq<Place>>) {
    && |names| == |redeclared|
    && (forall g :: 0 <= g < |names| ==>
          |redeclared[g]| > 1 && redeclared[g] == Named(summaries, names[g], true, |summaries|))
    && (forall name: string :: |Named(summaries, name, true, |summaries|)| > 1 ==> name in names)
    && (forall g, h :: 0 <= g < h < |names| ==> names[g] != names[h] && Earlier(redeclared[g][1], redeclared[h][1]))
  }

  ghost predicate Resolves(summaries: seq<Summary>, declared: map<string, Place>) {
    forall name: string :: Found(declared, name)
      == Meaning(Named(summaries, name, true, |summaries|), Named(summaries, name, false, |summaries|))
  }

  /** The index of its summaries: each name's meaning, and what each file needs. */
  ghost predicate IsIndex(index: Index) {
    var n := |index.summaries|;
    && Resolves(index.summaries, index.declared)
    && |index.dependencies| == |index.bound| == n
    && (forall file :: 0 <= file < n ==>
          DependsOn(index.summaries, index.declared, file, index.dependencies[file], |index.summaries[file].references|))
    && (forall file :: 0 <= file < n ==> BoundInto(index.summaries, index.declared, file, index.bound[file], n, 0))
    && exists names :: IsRedeclared(index.summaries, names, index.redeclared)
  }

  lemma AllIndexed(summaries: seq<Summary>, declared: map<string, Place>, again: map<string, nat>,
                   names: seq<string>, redeclared: seq<seq<Place>>)
    requires IndexedFiles(summaries, declared, again, names, redeclared, |summaries|)
    ensures Resolves(summaries, declared) && IsRedeclared(summaries, names, redeclared)
    ensures forall name :: name in declared ==> IsPlace(summaries, declared[name])
  {
    hide Named;
    forall name: string
      ensures Found(declared, name)
        == Meaning(Named(summaries, name, true, |summaries|), Named(summaries, name, false, |summaries|))
      ensures |Named(summaries, name, true, |summaries|)| > 1 ==> name in names
      ensures name in declared ==> IsPlace(summaries, declared[name])
    {
      assert KnowsIn(summaries, declared, again, redeclared, name, |summaries|);
      if name in again {
        assert names[again[name]] == name;
      }
    }
    forall g | 0 <= g < |names|
      ensures |redeclared[g]| > 1 && redeclared[g] == Named(summaries, names[g], true, |summaries|)
    {
      assert KnowsIn(summaries, declared, again, redeclared, names[g], |summaries|);
    }
  }

  // ----- the order of the names declared more than once

  lemma {:induction false} NamedSo(summaries: seq<Summary>, name: string, files: nat)
    requires files <= |summaries|
    ensures forall p :: p in Named(summaries, name, true, files) ==> IsPlace(summaries, p) && At(summaries, p).name == name
  {
    if files > 0 {
      NamedSo(summaries, name, files - 1);
    }
  }

  /** Between its first two declarations with a body, `outer` leaves room for the first two of `inner`. */
  ghost predicate Encloses(summaries: seq<Summary>, outer: string, inner: string) {
    var o, i := Named(summaries, outer, true, |summaries|), Named(summaries, inner, true, |summaries|);
    |o| > 1 && |i| > 1 && Earlier(o[0], i[0]) && Earlier(i[1], o[1])
  }

  predicate FirstDeclaredFirst(redeclared: seq<seq<Place>>) {
    forall g, h :: 0 <= g < h < |redeclared| && redeclared[g] != [] && redeclared[h] != [] ==>
      Earlier(redeclared[g][0], redeclared[h][0])
  }

  /**
   * The names declared more than once are in the order first declared exactly when none is
   * declared a first time before, and again after, both of another.
   */
  lemma {:induction false} FirstDeclaredOrder(summaries: seq<Summary>, names: seq<string>, redeclared: seq<seq<Place>>)
    requires IsRedeclared(summaries, names, redeclared)
    ensures FirstDeclaredFirst(redeclared) <==> forall outer, inner :: !Encloses(summaries, outer, inner)
  {
    hide Named;
    forall outer, inner | Encloses(summaries, outer, inner) ensures !FirstDeclaredFirst(redeclared) {
      EnclosedFirst(summaries, names, redeclared, outer, inner);
    }
    if forall outer, inner :: !Encloses(summaries, outer, inner) {
      forall g, h | 0 <= g < h < |redeclared| ensures Earlier(redeclared[g][0], redeclared[h][0]) {
        NamedSo(summaries, names[g], |summaries|);
        NamedSo(summaries, names[h], |summaries|);
        assert redeclared[g][0] in redeclared[g] && redeclared[h][0] in redeclared[h];
        assert redeclared[g][0] != redeclared[h][0];
        assert !Encloses(summaries, names[h], names[g]);
      }
    }
  }

  lemma {:induction false} EnclosedFirst(summaries: seq<Summary>, names: seq<string>, redeclared: seq<seq<Place>>,
                                         outer: string, inner: string)
    requires IsRedeclared(summaries, names, redeclared) && Encloses(summaries, outer, inner)
    ensures !FirstDeclaredFirst(redeclared)
  {
    hide Named;
    var g :| 0 <= g < |names| && names[g] == outer;
    var h :| 0 <= h < |names| && names[h] == inner;
    assert h < g && !Earlier(redeclared[h][0], redeclared[g][0]);
  }

  const ABBA := [Declaration("a", false), Declaration("b", false), Declaration("b", false), Declaration("a", false)]

  /** A file that declares `a`, `b`, `b` and `a` again has `b` first. */
  lemma {:induction false} SecondDeclaredFirst(names: seq<string>, redeclared: seq<seq<Place>>)
    requires IsRedeclared([Summary(ABBA, [], false)], names, redeclared)
    ensures !FirstDeclaredFirst(redeclared)
  {
    var summaries := [Summary(ABBA, [], false)];
    NamedInAbba(summaries, "a");
    NamedInAbba(summaries, "b");
    assert Encloses(summaries, "a", "b");
    EnclosedFirst(summaries, names, redeclared, "a", "b");
  }

  lemma NamedInAbba(summaries: seq<Summary>, name: string)
    requires summaries == [Summary(ABBA, [], false)]
    ensures Named(summaries, name, true, 1) ==
      if name == "a" then [Place(0, 0), Place(0, 3)] else if name == "b" then [Place(0, 1), Place(0, 2)] else []
  {
    hide NamedIn, Named;
    NamedOne(summaries, name);
    NamedInNext(ABBA, name, 1);
    NamedInNext(ABBA, name, 2);
    NamedInNext(ABBA, name, 3);
    NamedInNext(ABBA, name, 4);
  }

  lemma NamedOne(summaries: seq<Summary>, name: string)
    requires |summaries| == 1
    ensures Named(summaries, name, true, 1) == NamedIn(summaries[0].declarations, 0, name, true, |summaries[0].declarations|)
    ensures NamedIn(summaries[0].declarations, 0, name, true, 0) == []
  {
    assert Named(summaries, name, true, 0) == [];
  }

  lemma NamedInNext(declarations: seq<Declaration>, name: string, count: nat)
    requires 0 < count <= |declarations| && !declarations[count - 1].prototype
    ensures NamedIn(declarations, 0, name, true, count) ==
      NamedIn(declarations, 0, name, true, count - 1) + if declarations[count - 1].name == name then [Place(0, count - 1)] else []
  {
  }

  method New(summaries: seq<Summary>) returns (index: Index)
    ensures IsIndex(index) && index.summaries == summaries
  {
    hide Indexed, IndexedFiles;
    var declared: map<string, Place>, again: map<string, nat>, redeclared: seq<seq<Place>> := map[], map[], [];
    ghost var names: seq<string> := [];
    NoneIndexed(summaries);
    for file := 0 to |summaries|
      invariant IndexedFiles(summaries, declared, again, names, redeclared, file)
    {
      FileBegins(summaries, declared, again, names, redeclared, file);
      for at := 0 to |summaries[file].declarations|
        invariant Indexed(summaries, declared, again, names, redeclared, file, at)
      {
        declared, again, redeclared, names := Declare(summaries, file, at, declared, again, redeclared, names);
      }
      FileEnds(summaries, declared, again, names, redeclared, file);
    }
    AllIndexed(summaries, declared, again, names, redeclared);
    hide Resolves, IsRedeclared, DependsOn, BoundInto;
    var dependencies: seq<seq<Place>> := [];
    for file := 0 to |summaries|
      invariant |dependencies| == file
      invariant forall f :: 0 <= f < file ==> DependsOn(summaries, declared, f, dependencies[f], |summaries[f].references|)
    {
      var uses := DependenciesOf(summaries, declared, file);
      dependencies := dependencies + [uses];
    }
    var bound := BindsInto(summaries, declared);
    index := Index(summaries, declared, dependencies, bound, redeclared);
  }

  lemma NoneIndexed(summaries: seq<Summary>)
    ensures IndexedFiles(summaries, map[], map[], [], [], 0)
  {
    forall name: string ensures KnowsIn(summaries, map[], map[], [], name, 0) {
    }
  }

  // ----- which files are needed

  /** What leads on from `file`: those it depends on, each by its own reference, and those that bind into it, by theirs. */
  function Next(index: Index, file: nat): (links: seq<Chains.Link>)
    requires IsIndex(index) && file < |index.summaries|
    ensures forall i :: 0 <= i < |links| ==> links[i].to < |index.summaries|
  {
    var uses, binds := index.dependencies[file], index.bound[file];
    assert forall i :: 0 <= i < |uses| ==> uses[i].file < |index.summaries| by {
      DependenciesWithin(index, file);
    }
    seq(|uses|, i requires 0 <= i < |uses| => Chains.Link(uses[i].file, file, uses[i].at))
    + seq(|binds|, i requires 0 <= i < |binds| => Chains.Link(binds[i].file, binds[i].file, binds[i].at))
  }

  lemma DependenciesWithin(index: Index, file: nat)
    requires IsIndex(index) && file < |index.summaries|
    ensures forall i :: 0 <= i < |index.dependencies[file]| ==> index.dependencies[file][i].file < |index.summaries|
    ensures forall i :: 0 <= i < |index.bound[file]| ==> index.bound[file][i].file < |index.summaries|
  {
    var uses := index.dependencies[file];
    forall i | 0 <= i < |uses| ensures uses[i].file < |index.summaries| {
      assert Leading(index.summaries, index.declared, file, uses[i].at, uses[i].file, false);
      var name := index.summaries[file].references[uses[i].at].name;
      assert index.declared[name].file == uses[i].file;
      assert Found(index.declared, name)
        == Meaning(Named(index.summaries, name, true, |index.summaries|), Named(index.summaries, name, false, |index.summaries|));
    }
  }

  function AllNext(index: Index): (links: Chains.Links)
    requires IsIndex(index)
    ensures |links| == |index.summaries| && Chains.IsLinked(links)
    ensures forall f :: 0 <= f < |links| ==> links[f] == Next(index, f)
  {
    seq(|index.summaries|, f requires 0 <= f < |index.summaries| => Next(index, f))
  }

  /** What each file leads to. */
  function Leadings(index: Index): (next: seq<seq<nat>>)
    requires IsIndex(index)
    ensures |next| == |index.summaries| && IsGraph(next)
  {
    Chains.Targets(AllNext(index))
  }

  /** Some reference of `file` uses what `target` declares. */
  ghost predicate Refers(index: Index, file: nat, target: nat, binds: bool)
    requires file < |index.summaries|
  {
    exists at :: 0 <= at < |index.summaries[file].references| && Leading(index.summaries, index.declared, file, at, target, binds)
  }

  /** One file leads to another exactly when it uses what that one declares, or that one binds into it. */
  lemma {:induction false} LeadsOn(index: Index, a: nat, b: nat)
    requires IsIndex(index) && a < |index.summaries| && b < |index.summaries|
    ensures Leads(Leadings(index), a, b) <==> Refers(index, a, b, false) || Refers(index, b, a, true)
  {
    hide Resolves, Leading;
    NextListed(index, a, b);
    assert DependsOn(index.summaries, index.declared, a, index.dependencies[a], |index.summaries[a].references|);
    assert BoundInto(index.summaries, index.declared, a, index.bound[a], |index.summaries|, 0);
    hide IsIndex, Next;
    if Refers(index, b, a, true) {
      var at :| 0 <= at < |index.summaries[b].references| && Leading(index.summaries, index.declared, b, at, a, true);
      assert Binds(index.summaries, index.declared, a, b, at);
    }
  }

  lemma {:induction false} NextListed(index: Index, a: nat, b: nat)
    requires IsIndex(index) && a < |index.summaries|
    ensures b in Leadings(index)[a] <==> Listed(index.dependencies[a], b) || Listed(index.bound[a], b)
  {
    hide DependsOn, BoundInto, Resolves, IsRedeclared;
    var uses, binds, links := index.dependencies[a], index.bound[a], Next(index, a);
    var ends := Leadings(index)[a];
    assert forall i :: 0 <= i < |uses| ==> ends[i] == uses[i].file;
    assert forall i :: 0 <= i < |binds| ==> ends[|uses| + i] == binds[i].file;
  }

  /** The files that declare `tops`, or the first of them none does. */
  method Resolve(index: Index, tops: seq<string>) returns (r: Result<seq<nat>, string>)
    requires IsIndex(index)
    ensures r.Ok? ==> Within(r.value, |index.summaries|) && Declaring(index, tops, r.value)
    ensures r.Err? ==> FirstUnknown(index, tops, r.error)
  {
    hide IsIndex;
    var files: seq<nat> := [];
    for i := 0 to |tops|
      invariant |files| == i && Within(files, |index.summaries|)
      invariant forall k :: 0 <= k < i ==> tops[k] in index.declared && files[k] == index.declared[tops[k]].file
    {
      if tops[i] !in index.declared {
        return Err(tops[i]);
      }
      DeclaredWithin(index, tops[i]);
      files := files + [index.declared[tops[i]].file];
    }
    return Ok(files);
  }

  lemma DeclaredWithin(index: Index, name: string)
    requires IsIndex(index) && name in index.declared
    ensures index.declared[name].file < |index.summaries|
  {
    assert Found(index.declared, name)
      == Meaning(Named(index.summaries, name, true, |index.summaries|), Named(index.summaries, name, false, |index.summaries|));
  }

  /** `files` declare `tops`. */
  predicate Declaring(index: Index, tops: seq<string>, files: seq<nat>) {
    && |files| == |tops|
    && forall i :: 0 <= i < |tops| ==> tops[i] in index.declared && files[i] == index.declared[tops[i]].file
  }

  /** No file declares `top`, the first such of `tops`. */
  predicate FirstUnknown(index: Index, tops: seq<string>, top: string) {
    exists i :: 0 <= i < |tops| && tops[i] == top && top !in index.declared && forall k :: 0 <= k < i ==> tops[k] in index.declared
  }

  function Encrypted(summaries: seq<Summary>, files: nat): (encrypted: seq<nat>)
    requires files <= |summaries|
    ensures forall f :: f in encrypted <==> 0 <= f < files && summaries[f].encrypted
  {
    if files == 0 then []
    else
      var before := Encrypted(summaries, files - 1);
      if summaries[files - 1].encrypted then before + [files - 1] else before
  }

  /** A file is needed: a top's, or an encrypted one, leads to it. */
  ghost predicate Needed(index: Index, tops: seq<string>, file: nat)
    requires IsIndex(index)
  {
    exists start: nat :: Reaches(Leadings(index), start, file) && StartsAt(index, tops, start)
  }

  predicate StartsAt(index: Index, tops: seq<string>, start: nat) {
    && start < |index.summaries|
    && (index.summaries[start].encrypted || exists i :: 0 <= i < |tops| && tops[i] in index.declared && index.declared[tops[i]].file == start)
  }

  /** Every file the files declaring `tops` need, and the encrypted ones, in the order indexed. */
  method Reachable(index: Index, tops: seq<string>) returns (r: Result<seq<nat>, string>)
    requires IsIndex(index)
    ensures r.Err? ==> FirstUnknown(index, tops, r.error)
    ensures r.Ok? ==> forall i :: 0 <= i < |tops| ==> tops[i] in index.declared
    ensures r.Ok? ==> forall i, j :: 0 <= i < j < |r.value| ==> r.value[i] < r.value[j]
    ensures r.Ok? ==> forall f :: f in r.value <==> 0 <= f < |index.summaries| && Needed(index, tops, f)
  {
    hide IsIndex;
    var resolved := Resolve(index, tops);
    if resolved.Err? {
      return Err(resolved.error);
    }
    var encrypted := Encrypted(index.summaries, |index.summaries|);
    assert forall i :: 0 <= i < |encrypted| ==> encrypted[i] in encrypted;
    var starts := resolved.value + encrypted;
    var next := Leadings(index);
    var reached := Closure(next, starts);
    var files: seq<nat> := [];
    for f := 0 to |reached|
      invariant forall g :: g in files <==> 0 <= g < f && reached[g]
      invariant forall i, j :: 0 <= i < j < |files| ==> files[i] < files[j]
    {
      assert forall i :: 0 <= i < |files| ==> files[i] in files;
      if reached[f] {
        files := files + [f];
      }
    }
    forall f | 0 <= f < |index.summaries| ensures ReachesFrom(next, starts, f) <==> Needed(index, tops, f) {
      FromStarts(index, tops, resolved.value, f);
    }
    return Ok(files);
  }

  lemma {:induction false} FromStarts(index: Index, tops: seq<string>, files: seq<nat>, f: nat)
    requires IsIndex(index) && Declaring(index, tops, files) && Within(files, |index.summaries|)
    ensures ReachesFrom(Leadings(index), files + Encrypted(index.summaries, |index.summaries|), f) <==> Needed(index, tops, f)
  {
    hide IsIndex, Reaches;
    var encrypted := Encrypted(index.summaries, |index.summaries|);
    var starts := files + encrypted;
    forall s: nat ensures s in starts <==> StartsAt(index, tops, s) {
      if s in files {
        var i :| 0 <= i < |files| && files[i] == s;
      }
      if s < |index.summaries| && exists i :: 0 <= i < |tops| && tops[i] in index.declared && index.declared[tops[i]].file == s {
        var i :| 0 <= i < |tops| && tops[i] in index.declared && index.declared[tops[i]].file == s;
        assert files[i] == s;
      }
    }
    if Needed(index, tops, f) {
      var start: nat :| Reaches(Leadings(index), start, f) && StartsAt(index, tops, start);
      var i :| 0 <= i < |starts| && starts[i] == start;
    }
  }

  // ----- files in the order of their dependencies

  /** What each file depends on, whoever binds into it. */
  function Depends(index: Index): (next: seq<seq<nat>>)
    requires IsIndex(index)
    ensures |next| == |index.summaries| && IsGraph(next)
    ensures forall f :: 0 <= f < |next| ==> |next[f]| == |index.dependencies[f]|
    ensures forall f, i :: 0 <= f < |next| && 0 <= i < |next[f]| ==> next[f][i] == index.dependencies[f][i].file
  {
    assert forall f, i :: 0 <= f < |index.summaries| && 0 <= i < |index.dependencies[f]| ==>
      index.dependencies[f][i].file < |index.summaries| by {
      forall f | 0 <= f < |index.summaries|
        ensures forall i :: 0 <= i < |index.dependencies[f]| ==> index.dependencies[f][i].file < |index.summaries|
      {
        DependenciesWithin(index, f);
      }
    }
    seq(|index.summaries|, f requires 0 <= f < |index.summaries| =>
      seq(|index.dependencies[f]|, i requires 0 <= i < |index.dependencies[f]| => index.dependencies[f][i].file as nat))
  }

  /** `files` with each after those it depends on: see `FileOrder` for what that order is. */
  method Ordered(index: Index, files: seq<nat>) returns (out: seq<nat>)
    requires IsIndex(index) && Within(files, |index.summaries|)
    ensures out == FileOrder.Order(Depends(index), files)
  {
    var wanted := FileOrder.Set(files);
    var seen: set<nat> := {};
    out := [];
    assert files[0..] == files;
    for i := 0 to |files|
      invariant FileOrder.VisitAll(Depends(index), wanted, files[i..], seen, out) == FileOrder.VisitAll(Depends(index), wanted, files, {}, [])
    {
      assert files[i..][1..] == files[i + 1..];
      seen, out := Visit(index, files[i], wanted, seen, out);
    }
  }

  method Visit(index: Index, file: nat, wanted: set<nat>, seen: set<nat>, out: seq<nat>) returns (s: set<nat>, o: seq<nat>)
    requires IsIndex(index) && file < |index.summaries| && file in wanted
    ensures (s, o) == FileOrder.Visit(Depends(index), wanted, file, seen, out)
    decreases |wanted - seen|
  {
    s, o := seen, out;
    if file in s {
      return;
    }
    s := s + {file};
    var next := Depends(index);
    ghost var final := FileOrder.VisitAll(next, wanted, next[file], s, o);
    FileOrder.Fewer(wanted, seen, s, file);
    assert next[file][0..] == next[file];
    for i := 0 to |next[file]|
      invariant seen + {file} <= s && FileOrder.VisitAll(next, wanted, next[file][i..], s, o) == final
    {
      assert next[file][i..][1..] == next[file][i + 1..];
      var dependency := next[file][i];
      if dependency in wanted {
        FileOrder.Fewer(wanted, seen, s, file);
        s, o := Visit(index, dependency, wanted, s, o);
      }
    }
    o := o + [file];
  }

  // ----- why a file is needed

  /** One file on a chain, and the reference that led there: whether this file's own `bind`, or the file before's. */
  datatype Step = Step(file: nat, via: Option<Reference>, binds: bool)

  /** A step from a file to the next, by the first reference that leads there. */
  ghost predicate Steps(index: Index, before: nat, step: Step) {
    before < |index.summaries| && step.via.Some? && exists at: nat :: StepsBy(index, before, step, at)
  }

  predicate StepsBy(index: Index, before: nat, step: Step, at: nat)
    requires step.via.Some?
  {
    var (holder, target) := if step.binds then (step.file, before) else (before, step.file);
    && FirstLeading(index.summaries, index.declared, holder, at, target, step.binds)
    && step.via.value == index.summaries[holder].references[at]
  }

  /** `chain` goes from a file that declares a top to `file`, each step by a real reference or `bind`. */
  ghost predicate Explains(index: Index, starts: seq<nat>, chain: seq<Step>, file: nat) {
    && chain != [] && chain[0].file in starts && chain[0].via.None? && chain[|chain| - 1].file == file
    && forall i :: 0 < i < |chain| ==> Steps(index, chain[i - 1].file, chain[i])
  }

  /** The shortest chain from a file that declares one of `tops` to `file`, or none if it is not needed. */
  method Why(index: Index, tops: seq<string>, file: nat) returns (r: Result<Option<seq<Step>>, string>)
    requires IsIndex(index) && file < |index.summaries|
    ensures r.Err? ==> FirstUnknown(index, tops, r.error)
    ensures r.Ok? ==> exists starts :: Declaring(index, tops, starts) && IsWhy(index, starts, r.value, file)
  {
    hide IsIndex, Reaches, Explains;
    var resolved := Resolve(index, tops);
    if resolved.Err? {
      return Err(resolved.error);
    }
    var links := AllNext(index);
    var found := Chains.Shortest(links, resolved.value, file);
    if found.None? {
      return Ok(None);
    }
    var chain := Explain(index, resolved.value, found.value, file);
    return Ok(Some(chain));
  }

  /** The references behind a chain's links. */
  method Explain(index: Index, starts: seq<nat>, hops: seq<Chains.Hop>, file: nat) returns (chain: seq<Step>)
    requires IsIndex(index) && Chains.IsChain(AllNext(index), starts, hops, file)
    ensures Explains(index, starts, chain, file) && |chain| == |hops|
  {
    hide IsIndex, Steps;
    chain := [];
    for i := 0 to |hops|
      invariant |chain| == i
      invariant forall k :: 0 <= k < i ==> chain[k].file == hops[k].file && (chain[k].via.None? <==> k == 0)
      invariant forall k :: 0 < k < i ==> Steps(index, chain[k - 1].file, chain[k])
    {
      var link := hops[i].link;
      if i == 0 {
        chain := [Step(hops[i].file, None, false)];
      } else {
        assert Chains.Follows(AllNext(index), hops[i - 1], hops[i]);
        HopSteps(index, hops[i - 1].file, hops[i]);
        var via := index.summaries[link.value.holder].references[link.value.at];
        chain := chain + [Step(hops[i].file, Some(via), link.value.holder == hops[i].file)];
      }
    }
  }

  /** A chain exactly when a start leads to the file, and no shorter one exists. */
  ghost predicate IsWhy(index: Index, starts: seq<nat>, why: Option<seq<Step>>, file: nat)
    requires IsIndex(index)
  {
    && (why.Some? <==> ReachesFrom(Leadings(index), starts, file))
    && (why.Some? ==> Explains(index, starts, why.value, file))
    && (why.Some? ==> forall walk :: IsWalk(Leadings(index), walk) && walk[0] in starts && walk[|walk| - 1] == file ==>
          |walk| >= |why.value|)
  }

  lemma {:induction false} HopSteps(index: Index, before: nat, hop: Chains.Hop)
    requires IsIndex(index) && Chains.Follows(AllNext(index), Chains.Hop(before, None), hop)
    ensures var link := hop.link.value;
      && link.holder < |index.summaries| && link.at < |index.summaries[link.holder].references|
      && Steps(index, before, Step(hop.file, Some(index.summaries[link.holder].references[link.at]), link.holder == hop.file))
  {
    var link := hop.link.value;
    var uses, binds := index.dependencies[before], index.bound[before];
    assert DependsOn(index.summaries, index.declared, before, uses, |index.summaries[before].references|);
    assert BoundInto(index.summaries, index.declared, before, binds, |index.summaries|, 0);
    var i :| 0 <= i < |Next(index, before)| && Next(index, before)[i] == link;
    if i < |uses| {
      assert link == Chains.Link(uses[i].file, before, uses[i].at);
      assert StepsBy(index, before, Step(hop.file, Some(index.summaries[before].references[link.at]), false), link.at);
    } else {
      assert link == Chains.Link(binds[i - |uses|].file, binds[i - |uses|].file, binds[i - |uses|].at);
      assert StepsBy(index, before, Step(hop.file, Some(index.summaries[hop.file].references[link.at]), true), link.at);
    }
  }
}
