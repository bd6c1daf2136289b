/**
 * Which dependencies are in a design and which features each package enables: the two
 * grow together, an enabled feature bringing in a dependency and a dependency asking for
 * features, until neither changes.
 */
module Features {
  import opened Wrappers

  /** A dependency a feature brings into the design, and the feature it enables there, if any. */
  datatype Brings = Brings(dependency: string, feature: Option<string>)

  datatype Feature = Feature(dependencies: seq<Brings>)

  datatype Requirement = Requirement(name: string, defaultFeatures: bool, features: seq<string>)

  /** What selection reads of a package; `requirements` are its dependencies and dev-dependencies. */
  datatype Package = Package(requirements: seq<Requirement>, features: map<string, Feature>, defaultFeatures: seq<string>)

  /** The root's features a run enables. */
  datatype Selection = Selection(noFeatures: bool, features: seq<string>)

  /** The root first; where each dependency is, by name; and what the run asks. */
  datatype Design = Design(packages: seq<Package>, at: map<string, nat>, selection: Selection)

  predicate IsDesign(d: Design) {
    d.packages != [] && forall name :: name in d.at ==> d.at[name] < |d.packages|
  }

  datatype Enabled = Enabled(package: nat, name: string)

  /** Who asked for a feature: a package, or the run itself. */
  datatype Asker = Run | By(package: nat)

  datatype Error =
    | NotTheRoots(feature: string)
    | Missing(package: nat, name: string)
    | Undeclared(asker: Asker, package: nat, name: string)

  // ----- what is required

  /** A dependency some feature brings in, which is in the design only while one that names it is enabled. */
  predicate Optional(package: Package, name: string) {
    exists f :: f in package.features && Brings(name, None) in package.features[f].dependencies
  }

  predicate Names(feature: Feature, name: string) {
    exists i :: 0 <= i < |feature.dependencies| && feature.dependencies[i].dependency == name
  }

  predicate Brought(package: Package, p: nat, enabled: set<Enabled>, name: string) {
    exists f :: f in package.features && Enabled(p, f) in enabled && Names(package.features[f], name)
  }

  /** The package requires its dependency `i` while `enabled` are. */
  predicate Active(d: Design, enabled: set<Enabled>, p: nat, i: nat) {
    && p < |d.packages| && i < |d.packages[p].requirements|
    && var name := d.packages[p].requirements[i].name;
      !Optional(d.packages[p], name) || Brought(d.packages[p], p, enabled, name)
  }

  /** The package requires the one at `to` by its dependency `i`. */
  predicate Requires(d: Design, enabled: set<Enabled>, p: nat, i: nat, to: nat) {
    && Active(d, enabled, p, i)
    && var name := d.packages[p].requirements[i].name;
      name in d.at && d.at[name] == to
  }

  /** An enabled feature of `p` enables `name` of the package at `to`. */
  predicate Enables(d: Design, p: nat, feature: string, i: nat, to: nat, name: string) {
    && p < |d.packages| && feature in d.packages[p].features
    && var dependencies := d.packages[p].features[feature].dependencies;
      && i < |dependencies| && dependencies[i].feature == Some(name)
      && dependencies[i].dependency in d.at && d.at[dependencies[i].dependency] == to
  }

  // ----- the rules

  /** The root is in the design, and what a package in it requires while `active` are enabled. */
  ghost predicate ClosedDesign(d: Design, active: set<Enabled>, inDesign: set<nat>) {
    && 0 in inDesign
    && forall p, i: nat, to :: p in inDesign && Requires(d, active, p, i, to) ==> to in inDesign
  }

  /** A requirement of a package in the design turns on the default features of the one at `to`. */
  ghost predicate TurnsOn(d: Design, active: set<Enabled>, inDesign: set<nat>, to: nat) {
    exists p, i: nat :: p in inDesign && Requires(d, active, p, i, to) && d.packages[p].requirements[i].defaultFeatures
  }

  /** A requirement of `p` asks for a feature of the package at `to`. */
  ghost predicate Demands(d: Design, active: set<Enabled>, p: nat, to: nat, name: string) {
    exists i: nat :: Requires(d, active, p, i, to) && name in d.packages[p].requirements[i].features
  }

  ghost predicate Passes(d: Design, enabled: set<Enabled>, p: nat, to: nat, name: string) {
    exists feature, i: nat :: Enabled(p, feature) in enabled && Enables(d, p, feature, i, to, name)
  }

  /** `asker` asks for the feature `name` of the package at `to`. */
  ghost predicate Asks(d: Design, active: set<Enabled>, inDesign: set<nat>, enabled: set<Enabled>, asker: Asker, to: nat, name: string) {
    match asker
    case Run => to == 0 && name in d.selection.features
    case By(p) =>
      || (p == to == 0 < |d.packages| && !d.selection.noFeatures && name in d.packages[0].features)
      || (p in inDesign && Demands(d, active, p, to, name))
      || (p == to < |d.packages| && TurnsOn(d, active, inDesign, to) && name in d.packages[to].defaultFeatures)
      || Passes(d, enabled, p, to, name)
  }

  ghost predicate ClosedFeatures(d: Design, active: set<Enabled>, inDesign: set<nat>, enabled: set<Enabled>) {
    forall asker, to, name :: Asks(d, active, inDesign, enabled, asker, to, name) ==> Enabled(to, name) in enabled
  }

  /** A design and its features, closed under every rule. */
  ghost predicate Closed(d: Design, inDesign: set<nat>, enabled: set<Enabled>) {
    ClosedDesign(d, enabled, inDesign) && ClosedFeatures(d, enabled, inDesign, enabled)
  }

  /** What is wrong with a design: a package named and not found, or a feature asked for and not declared. */
  ghost predicate Wrong(d: Design, active: set<Enabled>, inDesign: set<nat>, enabled: set<Enabled>, error: Error) {
    match error
    case NotTheRoots(feature) => false
    case Missing(p, name) => name !in d.at && (RequiresName(d, active, p, name) || PassesName(d, enabled, p, name))
    case Undeclared(asker, p, name) =>
      p < |d.packages| && name !in d.packages[p].features && Asks(d, active, inDesign, enabled, asker, p, name)
  }

  ghost predicate RequiresName(d: Design, active: set<Enabled>, p: nat, name: string) {
    exists i: nat :: Active(d, active, p, i) && d.packages[p].requirements[i].name == name
  }

  ghost predicate PassesName(d: Design, enabled: set<Enabled>, p: nat, name: string) {
    exists feature, i: nat :: Enabled(p, feature) in enabled && PassesBy(d, p, feature, i, name)
  }

  predicate PassesBy(d: Design, p: nat, feature: string, i: nat, name: string) {
    && p < |d.packages| && feature in d.packages[p].features
    && i < |d.packages[p].features[feature].dependencies|
    && d.packages[p].features[feature].dependencies[i].dependency == name
    && d.packages[p].features[feature].dependencies[i].feature.Some?
  }

  /** What the settled design is: the least closed one, with nothing wrong. */
  ghost predicate Settled(d: Design, inDesign: set<nat>, enabled: set<Enabled>) {
    && Closed(d, inDesign, enabled)
    && (forall more, on :: Closed(d, more, on) ==> inDesign <= more && enabled <= on)
    && forall error :: !Wrong(d, enabled, inDesign, enabled, error)
  }

  /** An error every closed design has. */
  ghost predicate Unavoidable(d: Design, error: Error) {
    forall inDesign, enabled :: Closed(d, inDesign, enabled) ==> Wrong(d, enabled, inDesign, enabled, error)
  }

  // ----- more enabled, more asked

  lemma ActiveMore(d: Design, active: set<Enabled>, more: set<Enabled>, p: nat, i: nat)
    requires active <= more && Active(d, active, p, i)
    ensures Active(d, more, p, i)
  {
  }

  lemma AsksMore(d: Design, active: set<Enabled>, inDesign: set<nat>, enabled: set<Enabled>,
                 active': set<Enabled>, inDesign': set<nat>, enabled': set<Enabled>, asker: Asker, to: nat, name: string)
    requires active <= active' && inDesign <= inDesign' && enabled <= enabled'
    requires Asks(d, active, inDesign, enabled, asker, to, name)
    ensures Asks(d, active', inDesign', enabled', asker, to, name)
  {
    forall p: nat, i: nat, t | Requires(d, active, p, i, t) ensures Requires(d, active', p, i, t) {
      ActiveMore(d, active, active', p, i);
    }
    if asker.By? {
      var p := asker.package;
      if Demands(d, active, p, to, name) {
        var i: nat :| Requires(d, active, p, i, to) && name in d.packages[p].requirements[i].features;
        assert Requires(d, active', p, i, to);
      }
      if TurnsOn(d, active, inDesign, to) {
        var q, i: nat :| q in inDesign && Requires(d, active, q, i, to) && d.packages[q].requirements[i].defaultFeatures;
        assert Requires(d, active', q, i, to);
      }
      if Passes(d, enabled, p, to, name) {
        var feature, i: nat :| Enabled(p, feature) in enabled && Enables(d, p, feature, i, to, name);
      }
    }
  }

  // ----- one round

  /** A package required, and by which of the requirements. */
  datatype Direct = Direct(to: nat, i: nat)

  /** What `p` requires directly while `active` are enabled, all of it found. */
  ghost predicate IsDirect(d: Design, active: set<Enabled>, p: nat, row: seq<Direct>) {
    && (forall to, i :: Direct(to, i) in row <==> Requires(d, active, p, i, to))
    && forall name :: RequiresName(d, active, p, name) ==> name in d.at
  }

  ghost predicate AreDirect(d: Design, active: set<Enabled>, direct: seq<seq<Direct>>) {
    |direct| == |d.packages| && forall p :: 0 <= p < |direct| ==> IsDirect(d, active, p, direct[p])
  }

  method Required(d: Design, active: set<Enabled>, p: nat) returns (r: Result<seq<Direct>, Error>)
    requires p < |d.packages|
    ensures r.Ok? ==> IsDirect(d, active, p, r.value)
    ensures r.Err? ==> r.error.Missing? && r.error.package == p && r.error.name !in d.at && RequiresName(d, active, p, r.error.name)
  {
    var row: seq<Direct> := [];
    var requirements := d.packages[p].requirements;
    for i := 0 to |requirements|
      invariant forall to: nat, k: nat :: Direct(to, k) in row <==> k < i && Requires(d, active, p, k, to)
      invariant forall k: nat :: k < i && Active(d, active, p, k) ==> requirements[k].name in d.at
    {
      var name := requirements[i].name;
      if Active(d, active, p, i) {
        if name !in d.at {
          assert RequiresName(d, active, p, name);
          return Err(Missing(p, name));
        }
        row := row + [Direct(d.at[name], i)];
      }
    }
    return Ok(row);
  }

  method AllRequired(d: Design, active: set<Enabled>) returns (r: Result<seq<seq<Direct>>, Error>)
    requires IsDesign(d)
    ensures r.Ok? ==> AreDirect(d, active, r.value)
    ensures r.Err? ==> r.error.Missing? && r.error.name !in d.at && RequiresName(d, active, r.error.package, r.error.name)
  {
    hide IsDirect, RequiresName;
    var direct: seq<seq<Direct>> := [];
    for p := 0 to |d.packages|
      invariant |direct| == p && forall q :: 0 <= q < p ==> IsDirect(d, active, q, direct[q])
    {
      var row := Required(d, active, p);
      if row.Err? {
        return Err(row.error);
      }
      direct := direct + [row.value];
    }
    return Ok(direct);
  }

  ghost predicate LeastDesign(d: Design, active: set<Enabled>, inDesign: set<nat>) {
    ClosedDesign(d, active, inDesign) && forall more :: ClosedDesign(d, active, more) ==> inDesign <= more
  }

  /** Every package. */
  function Everything(d: Design): set<nat> {
    Below(|d.packages|)
  }

  function Below(count: nat): (all: set<nat>)
    ensures forall p :: p in all <==> 0 <= p < count
  {
    if count == 0 then {} else Below(count - 1) + {count - 1}
  }

  /** What is reached so far, but for what those in `waiting` require. */
  ghost predicate Reaching(d: Design, active: set<Enabled>, reached: set<nat>, waiting: seq<nat>) {
    && 0 in reached && reached <= Everything(d)
    && (forall p :: p in waiting ==> p in reached)
    && (forall p, i: nat, to :: p in reached && p !in waiting && Requires(d, active, p, i, to) ==> to in reached)
    && forall more :: ClosedDesign(d, active, more) ==> reached <= more
  }

  /** The packages the root requires, directly or not: a worklist, each marked when it is added. */
  method Reach(d: Design, ghost active: set<Enabled>, direct: seq<seq<Direct>>) returns (reached: set<nat>)
    requires IsDesign(d) && AreDirect(d, active, direct)
    ensures LeastDesign(d, active, reached) && reached <= Everything(d)
  {
    reached := {0};
    var waiting: seq<nat> := [0];
    while waiting != []
      invariant Reaching(d, active, reached, waiting)
      decreases |Everything(d) - reached| + |waiting|
    {
      hide Requires, IsDirect, Closed, LeastDesign;
      var p := waiting[|waiting| - 1];
      ghost var was := waiting;
      waiting := waiting[..|waiting| - 1];
      assert was == waiting + [p] && p in was;
      ghost var todo := |Everything(d) - reached| + |waiting|;
      for k := 0 to |direct[p]|
        invariant Reaching(d, active, reached, waiting + [p])
        invariant forall j :: 0 <= j < k ==> direct[p][j].to in reached
        invariant |Everything(d) - reached| + |waiting| == todo
      {
        var to := direct[p][k].to;
        assert Requires(d, active, p, direct[p][k].i, to) by {
          assert IsDirect(d, active, p, direct[p]);
          assert direct[p][k] == Direct(to, direct[p][k].i);
        }
        if to !in reached {
          ReachedOne(d, active, reached, waiting, p, direct[p][k].i, to);
          reached, waiting := reached + {to}, waiting + [to];
        }
      }
      ReachedAll(d, active, reached, waiting, p, direct);
    }
  }

  lemma {:induction false} ReachedOne(d: Design, active: set<Enabled>, reached: set<nat>, waiting: seq<nat>, p: nat, i: nat, to: nat)
    requires IsDesign(d) && Reaching(d, active, reached, waiting + [p])
    requires Requires(d, active, p, i, to) && to !in reached
    ensures Reaching(d, active, reached + {to}, waiting + [to] + [p])
    ensures |Everything(d) - (reached + {to})| == |Everything(d) - reached| - 1
  {
    assert p in waiting + [p];
    assert Everything(d) - (reached + {to}) == Everything(d) - reached - {to};
    forall more | ClosedDesign(d, active, more) ensures to in more {
      assert p in more;
    }
    assert forall q :: q in waiting + [to] + [p] <==> q in waiting + [p] || q == to;
  }

  lemma {:induction false} ReachedAll(d: Design, active: set<Enabled>, reached: set<nat>, waiting: seq<nat>, p: nat, direct: seq<seq<Direct>>)
    requires AreDirect(d, active, direct) && p < |direct| && Reaching(d, active, reached, waiting + [p])
    requires forall j :: 0 <= j < |direct[p]| ==> direct[p][j].to in reached
    ensures Reaching(d, active, reached, waiting)
  {
    forall q, i: nat, to | q in reached && q !in waiting && Requires(d, active, q, i, to) ensures to in reached {
      if q == p {
        assert IsDirect(d, active, p, direct[p]);
        assert Direct(to, i) in direct[p];
      } else {
        assert q !in waiting + [p];
      }
    }
    assert forall q :: q in waiting ==> q in waiting + [p];
  }

  ghost predicate LeastFeatures(d: Design, active: set<Enabled>, inDesign: set<nat>, enabled: set<Enabled>) {
    ClosedFeatures(d, active, inDesign, enabled) && NoMore(d, active, inDesign, enabled)
  }

  /** Nothing is enabled that need not be. */
  ghost predicate NoMore(d: Design, active: set<Enabled>, inDesign: set<nat>, enabled: set<Enabled>) {
    forall more :: ClosedFeatures(d, active, inDesign, more) ==> enabled <= more
  }

  /** A feature asked for, of which package, and by whom. */
  datatype Request = Request(to: nat, name: string, asker: Asker)

  predicate Requested(requests: seq<Request>, to: nat, name: string) {
    exists i :: 0 <= i < |requests| && requests[i].to == to && requests[i].name == name
  }

  /** Every request is asked for, and what is asked for is requested. */
  ghost predicate AskedBy(d: Design, active: set<Enabled>, inDesign: set<nat>, enabled: set<Enabled>, requests: seq<Request>) {
    && (forall r :: r in requests ==> Asks(d, active, inDesign, enabled, r.asker, r.to, r.name))
    && (forall asker, to, name :: Asks(d, active, inDesign, enabled, asker, to, name) ==>
          Enabled(to, name) in enabled || Requested(requests, to, name))
  }

  /** One package's requests of the features `names` of the one at `to`. */
  function RequestsOf(to: nat, names: seq<string>, asker: Asker): (r: seq<Request>)
    ensures forall q :: q in r <==> q.to == to && q.asker == asker && q.name in names
  {
    if names == [] then []
    else
      assert names == [names[0]] + names[1..];
      [Request(to, names[0], asker)] + RequestsOf(to, names[1..], asker)
  }

  lemma InRequests(requests: seq<Request>)
    ensures forall q :: q in requests ==> Requested(requests, q.to, q.name)
  {
  }

  /** What the requirements of `p` ask for, and whose default features they turn on. */
  method RequestsBy(d: Design, ghost active: set<Enabled>, p: nat, row: seq<Direct>) returns (requests: seq<Request>, defaults: set<nat>)
    requires IsDesign(d) && p < |d.packages| && IsDirect(d, active, p, row)
    ensures forall q :: q in requests <==> q.asker == By(p) && Demands(d, active, p, q.to, q.name)
    ensures forall to :: to in defaults <==> TurnedOnBy(d, active, p, to)
  {
    hide Requires, Demands, TurnedOnBy;
    DirectMeans(d, active, p, row);
    requests, defaults := [], {};
    for k := 0 to |row|
      invariant Within(d, p, row[..k])
      invariant forall q :: q in requests <==> q.asker == By(p) && DemandsIn(d, p, row[..k], q.to, q.name)
      invariant forall to :: to in defaults <==> TurnsIn(d, p, row[..k], to)
    {
      ForOneMore(d, p, row, k);
      hide DemandsIn, TurnsIn;
      var requirement := d.packages[p].requirements[row[k].i];
      if requirement.defaultFeatures {
        defaults := defaults + {row[k].to};
      }
      requests := requests + RequestsOf(row[k].to, requirement.features, By(p));
    }
    assert row[..|row|] == row;
  }

  lemma DirectMeans(d: Design, active: set<Enabled>, p: nat, row: seq<Direct>)
    requires p < |d.packages| && IsDirect(d, active, p, row)
    ensures Within(d, p, row)
    ensures forall to, name :: DemandsIn(d, p, row, to, name) <==> Demands(d, active, p, to, name)
    ensures forall to :: TurnsIn(d, p, row, to) <==> TurnedOnBy(d, active, p, to)
  {
    forall k | 0 <= k < |row| ensures Requires(d, active, p, row[k].i, row[k].to) {
      assert row[k] == Direct(row[k].to, row[k].i) && row[k] in row;
    }
    hide Optional, Brought;
    forall to, name ensures DemandsIn(d, p, row, to, name) <==> Demands(d, active, p, to, name) {
      if Demands(d, active, p, to, name) {
        var i: nat :| Requires(d, active, p, i, to) && name in d.packages[p].requirements[i].features;
        assert Direct(to, i) in row;
      }
    }
    forall to ensures TurnsIn(d, p, row, to) <==> TurnedOnBy(d, active, p, to) {
      if TurnedOnBy(d, active, p, to) {
        var i: nat :| Requires(d, active, p, i, to) && d.packages[p].requirements[i].defaultFeatures;
        assert Direct(to, i) in row;
      }
    }
  }

  lemma ForOneMore(d: Design, p: nat, row: seq<Direct>, k: nat)
    requires k < |row| && Within(d, p, row)
    ensures Within(d, p, row[..k]) && Within(d, p, row[..k + 1])
    ensures var requirement := d.packages[p].requirements[row[k].i];
      && (forall to, name :: DemandsIn(d, p, row[..k + 1], to, name) <==>
            DemandsIn(d, p, row[..k], to, name) || (to == row[k].to && name in requirement.features))
      && (forall to :: TurnsIn(d, p, row[..k + 1], to) <==>
            TurnsIn(d, p, row[..k], to) || (to == row[k].to && requirement.defaultFeatures))
  {
    var less, more := row[..k], row[..k + 1];
    assert more == less + [row[k]] && more[k] == row[k];
    assert forall j :: 0 <= j < k ==> more[j] == less[j];
    forall to, name
      ensures DemandsIn(d, p, more, to, name) <==>
        DemandsIn(d, p, less, to, name) || (to == row[k].to && name in d.packages[p].requirements[row[k].i].features)
    {
      if DemandsIn(d, p, less, to, name) {
        var j :| 0 <= j < |less| && less[j].to == to && name in d.packages[p].requirements[less[j].i].features;
        assert more[j] == less[j];
      }
    }
    forall to
      ensures TurnsIn(d, p, more, to) <==>
        TurnsIn(d, p, less, to) || (to == row[k].to && d.packages[p].requirements[row[k].i].defaultFeatures)
    {
      if TurnsIn(d, p, less, to) {
        var j :| 0 <= j < |less| && less[j].to == to && d.packages[p].requirements[less[j].i].defaultFeatures;
        assert more[j] == less[j];
      }
    }
  }

  ghost predicate TurnedOnBy(d: Design, active: set<Enabled>, p: nat, to: nat) {
    exists i: nat :: Requires(d, active, p, i, to) && d.packages[p].requirements[i].defaultFeatures
  }

  predicate Within(d: Design, p: nat, row: seq<Direct>) {
    p < |d.packages| && forall k :: 0 <= k < |row| ==> row[k].i < |d.packages[p].requirements|
  }

  predicate DemandsIn(d: Design, p: nat, row: seq<Direct>, to: nat, name: string)
    requires Within(d, p, row)
  {
    exists k :: 0 <= k < |row| && row[k].to == to && name in d.packages[p].requirements[row[k].i].features
  }

  predicate TurnsIn(d: Design, p: nat, row: seq<Direct>, to: nat)
    requires Within(d, p, row)
  {
    exists k :: 0 <= k < |row| && row[k].to == to && d.packages[p].requirements[row[k].i].defaultFeatures
  }

  lemma MoreRequests(a: seq<Request>, b: seq<Request>)
    ensures forall to, name :: Requested(a + b, to, name) <==> Requested(a, to, name) || Requested(b, to, name)
  {
    var both := a + b;
    forall to, name ensures Requested(both, to, name) <==> Requested(a, to, name) || Requested(b, to, name) {
      if Requested(a, to, name) {
        var i :| 0 <= i < |a| && a[i].to == to && a[i].name == name;
        assert both[i] == a[i];
      }
      if Requested(b, to, name) {
        var i :| 0 <= i < |b| && b[i].to == to && b[i].name == name;
        assert both[|a| + i] == b[i];
      }
    }
  }

  /** What the root and the run ask of the root. */
  method AskRoot(d: Design) returns (requests: seq<Request>)
    requires IsDesign(d)
    ensures forall q :: q in requests ==> q.to == 0 && RootAsks(d, q.asker, q.name)
    ensures forall asker, name :: RootAsks(d, asker, name) ==> Requested(requests, 0, name)
  {
    requests := [];
    if !d.selection.noFeatures {
      var names := d.packages[0].features.Keys;
      while names != {}
        invariant names <= d.packages[0].features.Keys
        invariant forall q :: q in requests ==> q.to == 0 && q.asker == By(0) && q.name in d.packages[0].features
        invariant forall name :: name in d.packages[0].features ==> name in names || Requested(requests, 0, name)
        decreases |names|
      {
        var name :| name in names;
        names := names - {name};
        MoreRequests(requests, [Request(0, name, By(0))]);
        assert [Request(0, name, By(0))][0].name == name;
        requests := requests + [Request(0, name, By(0))];
      }
    }
    var run := RequestsOf(0, d.selection.features, Run);
    InRequests(run);
    assert forall name :: name in d.selection.features ==> Request(0, name, Run) in run;
    MoreRequests(requests, run);
    requests := requests + run;
  }

  predicate RootAsks(d: Design, asker: Asker, name: string) {
    || (asker == Run && name in d.selection.features)
    || (asker == By(0) && d.packages != [] && !d.selection.noFeatures && name in d.packages[0].features)
  }

  /** What the requirements of the first `count` packages ask for, those in the design. */
  ghost predicate AskedTo(d: Design, active: set<Enabled>, inDesign: set<nat>, requests: seq<Request>, defaults: set<nat>, count: nat) {
    && (forall q :: q in requests ==> Asks(d, active, inDesign, {}, q.asker, q.to, q.name))
    && (forall asker, name :: RootAsks(d, asker, name) ==> Requested(requests, 0, name))
    && (forall p: nat, to, name :: p < count && p in inDesign && Demands(d, active, p, to, name) ==> Requested(requests, to, name))
    && (forall to :: to in defaults <==> exists p: nat :: p < count && p in inDesign && TurnedOnBy(d, active, p, to))
  }

  lemma {:induction false} AskedToNext(d: Design, active: set<Enabled>, inDesign: set<nat>, requests: seq<Request>, defaults: set<nat>,
                                       count: nat, more: seq<Request>, on: set<nat>)
    requires AskedTo(d, active, inDesign, requests, defaults, count) && count in inDesign
    requires forall q :: q in more <==> q.asker == By(count) && Demands(d, active, count, q.to, q.name)
    requires forall to :: to in on <==> TurnedOnBy(d, active, count, to)
    ensures AskedTo(d, active, inDesign, requests + more, defaults + on, count + 1)
  {
    hide Demands, TurnedOnBy, RootAsks;
    MoreRequests(requests, more);
    InRequests(more);
    forall p: nat, to, name | p < count + 1 && p in inDesign && Demands(d, active, p, to, name)
      ensures Requested(requests + more, to, name)
    {
      if p == count {
        assert Request(to, name, By(count)) in more;
      }
    }
  }

  /** Everything asked for before any feature enables another. */
  method Ask(d: Design, ghost active: set<Enabled>, direct: seq<seq<Direct>>, inDesign: set<nat>) returns (requests: seq<Request>)
    requires IsDesign(d) && AreDirect(d, active, direct) && inDesign <= Everything(d)
    ensures AskedBy(d, active, inDesign, {}, requests)
  {
    requests := AskRoot(d);
    var defaults: set<nat> := {};
    assert AskedTo(d, active, inDesign, requests, defaults, 0);
    for p := 0 to |d.packages|
      invariant AskedTo(d, active, inDesign, requests, defaults, p)
    {
      hide AskedTo, IsDirect;
      if p in inDesign {
        var more, on := RequestsBy(d, active, p, direct[p]);
        AskedToNext(d, active, inDesign, requests, defaults, p, more, on);
        requests, defaults := requests + more, defaults + on;
      } else {
        AskedToSkip(d, active, inDesign, requests, defaults, p);
      }
    }
    TurnedOn(d, active, inDesign, requests, defaults);
    ghost var first := requests;
    for p := 0 to |d.packages|
      invariant forall q :: q in requests ==> Asks(d, active, inDesign, {}, q.asker, q.to, q.name)
      invariant forall to, name :: Requested(first, to, name) ==> Requested(requests, to, name)
      invariant forall q: nat, name :: q < p && q in defaults && name in d.packages[q].defaultFeatures ==> Requested(requests, q, name)
    {
      hide Asks;
      if p in defaults {
        var more := RequestsOf(p, d.packages[p].defaultFeatures, By(p));
        InRequests(more);
        MoreRequests(requests, more);
        assert forall name :: name in d.packages[p].defaultFeatures ==> Request(p, name, By(p)) in more;
        DefaultsAsk(d, active, inDesign, p, more);
        requests := requests + more;
      }
    }
    AskedAll(d, active, inDesign, first, defaults, requests);
  }

  lemma AskedToSkip(d: Design, active: set<Enabled>, inDesign: set<nat>, requests: seq<Request>, defaults: set<nat>, count: nat)
    requires AskedTo(d, active, inDesign, requests, defaults, count) && count !in inDesign
    ensures AskedTo(d, active, inDesign, requests, defaults, count + 1)
  {
    hide Demands, TurnedOnBy, RootAsks, Asks;
  }

  lemma TurnedOn(d: Design, active: set<Enabled>, inDesign: set<nat>, requests: seq<Request>, defaults: set<nat>)
    requires AskedTo(d, active, inDesign, requests, defaults, |d.packages|) && inDesign <= Everything(d)
    ensures forall to :: to in defaults <==> TurnsOn(d, active, inDesign, to)
    ensures forall q :: q in requests ==> Asks(d, active, inDesign, {}, q.asker, q.to, q.name)
  {
    hide Optional, Brought, Asks, Demands;
    forall to ensures to in defaults <==> TurnsOn(d, active, inDesign, to) {
      if to in defaults {
        var p: nat :| p < |d.packages| && p in inDesign && TurnedOnBy(d, active, p, to);
        var i: nat :| Requires(d, active, p, i, to) && d.packages[p].requirements[i].defaultFeatures;
      }
      if TurnsOn(d, active, inDesign, to) {
        var p, i: nat :| p in inDesign && Requires(d, active, p, i, to) && d.packages[p].requirements[i].defaultFeatures;
        assert TurnedOnBy(d, active, p, to);
      }
    }
  }

  lemma DefaultsAsk(d: Design, active: set<Enabled>, inDesign: set<nat>, p: nat, more: seq<Request>)
    requires p < |d.packages| && TurnsOn(d, active, inDesign, p)
    requires forall q :: q in more ==> q.to == p && q.asker == By(p) && q.name in d.packages[p].defaultFeatures
    ensures forall q :: q in more ==> Asks(d, active, inDesign, {}, q.asker, q.to, q.name)
  {
    hide Demands, TurnsOn, Passes;
  }

  /** Every rule but that a feature enables another is covered. */
  lemma {:induction false} AskedAll(d: Design, active: set<Enabled>, inDesign: set<nat>, first: seq<Request>, defaults: set<nat>, requests: seq<Request>)
    requires AskedTo(d, active, inDesign, first, defaults, |d.packages|) && inDesign <= Everything(d)
    requires forall q :: q in requests ==> Asks(d, active, inDesign, {}, q.asker, q.to, q.name)
    requires forall to, name :: Requested(first, to, name) ==> Requested(requests, to, name)
    requires forall to :: to in defaults <==> TurnsOn(d, active, inDesign, to)
    requires forall q: nat, name :: q < |d.packages| && q in defaults && name in d.packages[q].defaultFeatures ==>
      Requested(requests, q, name)
    ensures AskedBy(d, active, inDesign, {}, requests)
  {
    hide TurnsOn, Demands, Requested;
    forall asker, to: nat, name | Asks(d, active, inDesign, {}, asker, to, name) ensures Requested(requests, to, name) {
      if asker.By? && !(asker.package in inDesign && Demands(d, active, asker.package, to, name))
          && !(asker.package == to && TurnsOn(d, active, inDesign, to) && name in d.packages[to].defaultFeatures) {
        assert !Passes(d, {}, asker.package, to, name);
        assert to == 0 && RootAsks(d, asker, name);
      } else if asker.Run? {
        assert RootAsks(d, asker, name);
      }
    }
  }

  /** All enabled so far are declared, and the packages they enable features of are found. */
  ghost predicate Sound(d: Design, enabled: set<Enabled>) {
    && (forall e :: e in enabled ==> e.package < |d.packages| && e.name in d.packages[e.package].features)
    && (forall p, name :: PassesName(d, enabled, p, name) ==> name in d.at)
  }

  /** The features a declared feature enables elsewhere. */
  method Passed(d: Design, to: nat, name: string) returns (r: Result<seq<Request>, Error>)
    requires to < |d.packages| && name in d.packages[to].features
    ensures r.Ok? ==> forall q :: q in r.value <==> q.asker == By(to) && EnablesOne(d, to, name, q.to, q.name)
    ensures r.Ok? ==> forall dependency :: PassesOne(d, to, name, dependency) ==> dependency in d.at
    ensures r.Err? ==> r.error.Missing? && r.error.package == to && r.error.name !in d.at && PassesOne(d, to, name, r.error.name)
  {
    var requests: seq<Request> := [];
    var dependencies := d.packages[to].features[name].dependencies;
    for i := 0 to |dependencies|
      invariant forall q :: q in requests <==> q.asker == By(to) && exists k: nat :: k < i && Enables(d, to, name, k, q.to, q.name)
      invariant forall k :: 0 <= k < i && dependencies[k].feature.Some? ==> dependencies[k].dependency in d.at
    {
      var brings := dependencies[i];
      if brings.feature.Some? {
        if brings.dependency !in d.at {
          assert PassesBy(d, to, name, i, brings.dependency);
          return Err(Missing(to, brings.dependency));
        }
        ghost var was := requests;
        requests := requests + [Request(d.at[brings.dependency], brings.feature.value, By(to))];
        assert Enables(d, to, name, i, d.at[brings.dependency], brings.feature.value);
      }
    }
    return Ok(requests);
  }

  ghost predicate EnablesOne(d: Design, p: nat, feature: string, to: nat, name: string) {
    exists i: nat :: Enables(d, p, feature, i, to, name)
  }

  ghost predicate PassesOne(d: Design, p: nat, feature: string, dependency: string) {
    exists i: nat :: PassesBy(d, p, feature, i, dependency)
  }

  /** Every feature declared. */
  function Universe(d: Design): set<Enabled> {
    set p, name | p in Everything(d) && name in d.packages[p].features :: Enabled(p, name)
  }

  lemma PassesSplit(d: Design, enabled: set<Enabled>, e: Enabled, p: nat, to: nat, name: string)
    ensures Passes(d, enabled + {e}, p, to, name) <==>
      Passes(d, enabled, p, to, name) || (p == e.package && EnablesOne(d, p, e.name, to, name))
  {
    if Passes(d, enabled, p, to, name) {
      var feature, i: nat :| Enabled(p, feature) in enabled && Enables(d, p, feature, i, to, name);
      assert Enabled(p, feature) in enabled + {e};
    }
    if p == e.package && EnablesOne(d, p, e.name, to, name) {
      var i: nat :| Enables(d, p, e.name, i, to, name);
      assert Enabled(p, e.name) in enabled + {e};
    }
  }

  lemma PassesNameSplit(d: Design, enabled: set<Enabled>, e: Enabled, p: nat, name: string)
    requires PassesName(d, enabled + {e}, p, name)
    ensures PassesName(d, enabled, p, name) || (p == e.package && PassesOne(d, p, e.name, name))
  {
    var feature, i: nat :| Enabled(p, feature) in enabled + {e} && PassesBy(d, p, feature, i, name);
  }

  /** One feature more is enabled, and asks for what it enables elsewhere. */
  lemma {:induction false} EnabledOne(d: Design, active: set<Enabled>, inDesign: set<nat>, enabled: set<Enabled>, rest: seq<Request>,
                                      r: Request, passed: seq<Request>)
    requires AskedBy(d, active, inDesign, enabled, rest + [r]) && Sound(d, enabled)
    requires r.to < |d.packages| && r.name in d.packages[r.to].features
    requires forall q :: q in passed <==> q.asker == By(r.to) && EnablesOne(d, r.to, r.name, q.to, q.name)
    requires forall dependency :: PassesOne(d, r.to, r.name, dependency) ==> dependency in d.at
    ensures AskedBy(d, active, inDesign, enabled + {Enabled(r.to, r.name)}, rest + passed)
    ensures Sound(d, enabled + {Enabled(r.to, r.name)})
  {
    hide EnablesOne, Passes, TurnsOn, Demands, PassesOne, PassesName;
    var e := Enabled(r.to, r.name);
    var more := enabled + {e};
    MoreRequests(rest, [r]);
    MoreRequests(rest, passed);
    InRequests(passed);
    forall q | q in rest + passed ensures Asks(d, active, inDesign, more, q.asker, q.to, q.name) {
      if q in rest {
        assert q in rest + [r];
        AsksMore(d, active, inDesign, enabled, active, inDesign, more, q.asker, q.to, q.name);
      } else {
        PassesSplit(d, enabled, e, r.to, q.to, q.name);
      }
    }
    forall asker, to: nat, name | Asks(d, active, inDesign, more, asker, to, name)
      ensures Enabled(to, name) in more || Requested(rest + passed, to, name)
    {
      if asker.By? {
        PassesSplit(d, enabled, e, asker.package, to, name);
      }
      if Asks(d, active, inDesign, enabled, asker, to, name) {
        assert Requested([r], to, name) ==> Enabled(to, name) == e;
      } else {
        assert Request(to, name, asker) in passed;
      }
    }
    forall p, name | PassesName(d, more, p, name) ensures name in d.at {
      PassesNameSplit(d, enabled, e, p, name);
    }
  }

  /** Nothing more is asked for. */
  lemma {:induction false} EnabledAlready(d: Design, active: set<Enabled>, inDesign: set<nat>, enabled: set<Enabled>, rest: seq<Request>, r: Request)
    requires AskedBy(d, active, inDesign, enabled, rest + [r]) && Enabled(r.to, r.name) in enabled
    ensures AskedBy(d, active, inDesign, enabled, rest)
  {
    hide Asks;
    MoreRequests(rest, [r]);
    assert forall q :: q in rest ==> q in rest + [r];
  }

  /** An error found while features are enabled is one of any features closed under the rules. */
  ghost predicate WrongIn(d: Design, active: set<Enabled>, inDesign: set<nat>, error: Error) {
    forall more :: ClosedFeatures(d, active, inDesign, more) ==> Wrong(d, active, inDesign, more, error)
  }

  lemma AskedWithin(d: Design, active: set<Enabled>, inDesign: set<nat>, enabled: set<Enabled>, q: Request)
    requires IsDesign(d) && Asks(d, active, inDesign, enabled, q.asker, q.to, q.name)
    ensures q.to < |d.packages|
  {
    hide Active;
  }

  lemma OneFewer(d: Design, enabled: set<Enabled>, e: Enabled)
    requires enabled <= Universe(d) && e !in enabled && e.package < |d.packages| && e.name in d.packages[e.package].features
    ensures enabled + {e} <= Universe(d) && |Universe(d) - (enabled + {e})| < |Universe(d) - enabled|
  {
    assert e in Universe(d);
    assert Universe(d) - (enabled + {e}) == Universe(d) - enabled - {e};
  }

  /** Every feature asked for, and those they enable in turn. */
  method Enable(d: Design, ghost active: set<Enabled>, ghost inDesign: set<nat>, requests: seq<Request>) returns (r: Result<set<Enabled>, Error>)
    requires IsDesign(d) && AskedBy(d, active, inDesign, {}, requests)
    ensures r.Ok? ==> LeastFeatures(d, active, inDesign, r.value) && Sound(d, r.value) && r.value <= Universe(d)
    ensures r.Err? ==> WrongIn(d, active, inDesign, r.error)
  {
    hide *;
    NothingYet(d, active, inDesign);
    var next: set<Enabled> := {};
    var waiting := requests;
    while waiting != []
      invariant AskedBy(d, active, inDesign, next, waiting) && Sound(d, next) && next <= Universe(d)
      invariant NoMore(d, active, inDesign, next)
      decreases |Universe(d) - next|, |waiting|
    {
      var q := waiting[|waiting| - 1];
      ghost var was := waiting;
      waiting := waiting[..|waiting| - 1];
      assert was == waiting + [q];
      TopAsked(d, active, inDesign, next, was);
      AskedWithin(d, active, inDesign, next, q);
      if q.name !in d.packages[q.to].features {
        UndeclaredWrong(d, active, inDesign, next, q);
        return Err(Undeclared(q.asker, q.to, q.name));
      }
      var e := Enabled(q.to, q.name);
      if e in next {
        EnabledAlready(d, active, inDesign, next, waiting, q);
      } else {
        var passed := Passed(d, q.to, q.name);
        MustEnable(d, active, inDesign, next, q);
        if passed.Err? {
          MissingWrong(d, active, inDesign, next, q, passed.error.name);
          return Err(passed.error);
        }
        EnabledOne(d, active, inDesign, next, waiting, q, passed.value);
        OneFewer(d, next, e);
        next := next + {e};
        waiting := waiting + passed.value;
      }
    }
    NothingWaits(d, active, inDesign, next);
    return Ok(next);
  }

  lemma NothingYet(d: Design, active: set<Enabled>, inDesign: set<nat>)
    ensures Sound(d, {}) && {} <= Universe(d) && NoMore(d, active, inDesign, {})
  {
  }

  lemma NothingWaits(d: Design, active: set<Enabled>, inDesign: set<nat>, enabled: set<Enabled>)
    requires AskedBy(d, active, inDesign, enabled, []) && NoMore(d, active, inDesign, enabled)
    ensures LeastFeatures(d, active, inDesign, enabled)
  {
    hide Asks;
  }

  lemma TopAsked(d: Design, active: set<Enabled>, inDesign: set<nat>, enabled: set<Enabled>, requests: seq<Request>)
    requires AskedBy(d, active, inDesign, enabled, requests) && requests != []
    ensures var q := requests[|requests| - 1]; Asks(d, active, inDesign, enabled, q.asker, q.to, q.name)
  {
  }

  /** What is asked for now is in any features closed under the rules. */
  lemma MustEnable(d: Design, active: set<Enabled>, inDesign: set<nat>, enabled: set<Enabled>, q: Request)
    requires Asks(d, active, inDesign, enabled, q.asker, q.to, q.name)
    requires NoMore(d, active, inDesign, enabled)
    ensures NoMore(d, active, inDesign, enabled + {Enabled(q.to, q.name)})
    ensures forall more :: ClosedFeatures(d, active, inDesign, more) ==> Asks(d, active, inDesign, more, q.asker, q.to, q.name)
  {
    hide Asks;
    forall more | ClosedFeatures(d, active, inDesign, more)
      ensures Enabled(q.to, q.name) in more && Asks(d, active, inDesign, more, q.asker, q.to, q.name)
    {
      AsksMore(d, active, inDesign, enabled, active, inDesign, more, q.asker, q.to, q.name);
    }
  }

  lemma UndeclaredWrong(d: Design, active: set<Enabled>, inDesign: set<nat>, enabled: set<Enabled>, q: Request)
    requires Asks(d, active, inDesign, enabled, q.asker, q.to, q.name)
    requires NoMore(d, active, inDesign, enabled)
    requires q.to < |d.packages| && q.name !in d.packages[q.to].features
    ensures WrongIn(d, active, inDesign, Undeclared(q.asker, q.to, q.name))
  {
    hide Asks, ClosedFeatures;
    MustEnable(d, active, inDesign, enabled, q);
  }

  lemma MissingWrong(d: Design, active: set<Enabled>, inDesign: set<nat>, enabled: set<Enabled>, q: Request, name: string)
    requires NoMore(d, active, inDesign, enabled + {Enabled(q.to, q.name)})
    requires name !in d.at && PassesOne(d, q.to, q.name, name)
    ensures WrongIn(d, active, inDesign, Missing(q.to, name))
  {
    hide ClosedFeatures;
    var i: nat :| PassesBy(d, q.to, q.name, i, name);
    forall more | ClosedFeatures(d, active, inDesign, more) ensures PassesName(d, more, q.to, name) {
      assert enabled + {Enabled(q.to, q.name)} <= more;
      assert Enabled(q.to, q.name) in more;
    }
  }

  // ----- round after round

  /** What a round makes of what was enabled before it. */
  ghost predicate Round(d: Design, before: set<Enabled>, inDesign: set<nat>, enabled: set<Enabled>) {
    && LeastDesign(d, before, inDesign) && LeastFeatures(d, before, inDesign, enabled)
    && inDesign <= Everything(d) && enabled <= Universe(d)
  }

  lemma ClosedDesignFewer(d: Design, active: set<Enabled>, fewer: set<Enabled>, inDesign: set<nat>)
    requires fewer <= active && ClosedDesign(d, active, inDesign)
    ensures ClosedDesign(d, fewer, inDesign)
  {
    hide Optional, Brought;
    forall p, i: nat, to | p in inDesign && Requires(d, fewer, p, i, to) ensures to in inDesign {
      ActiveMore(d, fewer, active, p, i);
      assert Requires(d, active, p, i, to);
    }
  }

  lemma ClosedFeaturesFewer(d: Design, active: set<Enabled>, inDesign: set<nat>, fewer: set<Enabled>, less: set<nat>, enabled: set<Enabled>)
    requires fewer <= active && less <= inDesign && ClosedFeatures(d, active, inDesign, enabled)
    ensures ClosedFeatures(d, fewer, less, enabled)
  {
    hide Asks;
    forall asker, to, name | Asks(d, fewer, less, enabled, asker, to, name) ensures Enabled(to, name) in enabled {
      AsksMore(d, fewer, less, enabled, active, inDesign, enabled, asker, to, name);
    }
  }

  /** A round only adds to the one before it. */
  lemma {:induction false} RoundGrows(d: Design, first: set<Enabled>, inDesign: set<nat>, enabled: set<Enabled>, more: set<nat>, on: set<Enabled>)
    requires Round(d, first, inDesign, enabled) && Round(d, enabled, more, on) && first <= enabled
    ensures inDesign <= more && enabled <= on
  {
    hide ClosedDesign, ClosedFeatures;
    ClosedDesignFewer(d, enabled, first, more);
    ClosedFeaturesFewer(d, enabled, more, first, inDesign, on);
  }

  /** A round stays within every design closed under the rules. */
  lemma {:induction false} RoundWithin(d: Design, before: set<Enabled>, inDesign: set<nat>, enabled: set<Enabled>, more: set<nat>, on: set<Enabled>)
    requires Round(d, before, inDesign, enabled) && before <= on && Closed(d, more, on)
    ensures inDesign <= more && enabled <= on
  {
    hide ClosedDesign, ClosedFeatures;
    ClosedDesignFewer(d, on, before, more);
    ClosedFeaturesFewer(d, on, more, before, inDesign, on);
  }

  /** What a round begins with: nothing, or what the one before it made. */
  ghost predicate Growing(d: Design, first: set<Enabled>, inDesign: set<nat>, enabled: set<Enabled>) {
    && first <= enabled && inDesign <= Everything(d) && enabled <= Universe(d)
    && (Round(d, first, inDesign, enabled) || (inDesign == {} && enabled == {}))
    && forall more, on :: Closed(d, more, on) ==> inDesign <= more && enabled <= on
  }

  lemma {:induction false} RoundDone(d: Design, first: set<Enabled>, inDesign: set<nat>, enabled: set<Enabled>, more: set<nat>, on: set<Enabled>)
    requires Growing(d, first, inDesign, enabled) && Round(d, enabled, more, on)
    ensures inDesign <= more && enabled <= on && Growing(d, enabled, more, on)
    ensures (more == inDesign && on == enabled) || Left(d, more, on) < Left(d, inDesign, enabled)
  {
    hide LeastDesign, LeastFeatures, Closed;
    if !(inDesign == {} && enabled == {}) {
      RoundGrows(d, first, inDesign, enabled, more, on);
    }
    forall m, o | Closed(d, m, o) ensures more <= m && on <= o {
      RoundWithin(d, enabled, more, on, m, o);
    }
    Shrinks(Everything(d), inDesign, more);
    Shrinks(Universe(d), enabled, on);
  }

  function Left(d: Design, inDesign: set<nat>, enabled: set<Enabled>): nat {
    |Everything(d) - inDesign| + |Universe(d) - enabled|
  }

  lemma Shrinks<T>(all: set<T>, some: set<T>, more: set<T>)
    requires some <= more <= all
    ensures |all - more| <= |all - some| && (|all - more| == |all - some| ==> more == some)
  {
    assert all - some == (all - more) + (more - some);
  }

  /** When a round adds nothing, what it made is the least design closed under the rules. */
  lemma {:induction false} Fixed(d: Design, first: set<Enabled>, inDesign: set<nat>, enabled: set<Enabled>, direct: seq<seq<Direct>>)
    requires IsDesign(d) && Growing(d, first, inDesign, enabled) && Round(d, enabled, inDesign, enabled)
    requires AreDirect(d, enabled, direct) && Sound(d, enabled)
    ensures Settled(d, inDesign, enabled)
  {
    hide Asks, RequiresName, PassesName, Requires;
    forall error ensures !Wrong(d, enabled, inDesign, enabled, error) {
      match error
      case NotTheRoots(_) =>
      case Missing(p, name) =>
        if RequiresName(d, enabled, p, name) {
          RequiresWithin(d, enabled, p, name);
          assert IsDirect(d, enabled, p, direct[p]);
        }
      case Undeclared(asker, p, name) =>
        if Asks(d, enabled, inDesign, enabled, asker, p, name) {
          assert Enabled(p, name) in enabled;
        }
    }
  }

  lemma RequiresWithin(d: Design, enabled: set<Enabled>, p: nat, name: string)
    requires RequiresName(d, enabled, p, name)
    ensures p < |d.packages|
  {
  }

  /** An error in a round is one every design closed under the rules has. */
  lemma {:induction false} RoundWrong(d: Design, first: set<Enabled>, inDesign: set<nat>, enabled: set<Enabled>, error: Error)
    requires Growing(d, first, inDesign, enabled)
    requires error.Missing? && error.name !in d.at && RequiresName(d, enabled, error.package, error.name)
    ensures Unavoidable(d, error)
  {
    hide Closed, Round, Optional, Brought;
    var i: nat :| Active(d, enabled, error.package, i) && d.packages[error.package].requirements[i].name == error.name;
    forall more, on | Closed(d, more, on) ensures RequiresName(d, on, error.package, error.name) {
      ActiveMore(d, enabled, on, error.package, i);
    }
  }

  lemma {:induction false} FeaturesWrong(d: Design, first: set<Enabled>, inDesign: set<nat>, enabled: set<Enabled>, more: set<nat>, error: Error)
    requires Growing(d, first, inDesign, enabled) && LeastDesign(d, enabled, more) && WrongIn(d, enabled, more, error)
    ensures Unavoidable(d, error)
  {
    hide Round, ClosedDesign, ClosedFeatures, Asks;
    forall m, o | Closed(d, m, o) ensures Wrong(d, o, m, o, error) {
      ClosedDesignFewer(d, o, enabled, m);
      ClosedFeaturesFewer(d, o, m, enabled, more, o);
      assert Wrong(d, enabled, more, o, error);
      WrongMore(d, enabled, more, o, o, m, error);
    }
  }

  lemma WrongMore(d: Design, active: set<Enabled>, inDesign: set<nat>, enabled: set<Enabled>, on: set<Enabled>, more: set<nat>, error: Error)
    requires active <= on && inDesign <= more && Wrong(d, active, inDesign, enabled, error)
    ensures Wrong(d, on, more, enabled, error)
  {
    hide Asks, PassesName, Optional, Brought;
    if error.Undeclared? {
      AsksMore(d, active, inDesign, enabled, on, more, enabled, error.asker, error.package, error.name);
    } else if error.Missing? && RequiresName(d, active, error.package, error.name) {
      var i: nat :| Active(d, active, error.package, i) && d.packages[error.package].requirements[i].name == error.name;
      ActiveMore(d, active, on, error.package, i);
    }
  }

  lemma NothingGrown(d: Design)
    ensures Growing(d, {}, {}, {})
  {
  }

  /** Whether a name holds the separator of a package and a feature of it. */
  predicate HasSlash(name: string) {
    '/' in name
  }

  /**
   * The design settled: the least one closed under what packages require, what they and the
   * run ask for, and what an enabled feature brings. An error is one no design avoids.
   */
  method Select(d: Design) returns (r: Result<(set<nat>, set<Enabled>), Error>)
    requires IsDesign(d)
    ensures r.Ok? ==> (forall name :: name in d.selection.features ==> !HasSlash(name)) && Settled(d, r.value.0, r.value.1)
    ensures r.Err? ==> (r.error.NotTheRoots? && r.error.feature in d.selection.features && HasSlash(r.error.feature)) || Unavoidable(d, r.error)
  {
    hide *;
    for i := 0 to |d.selection.features|
      invariant forall k :: 0 <= k < i ==> !HasSlash(d.selection.features[k])
    {
      if HasSlash(d.selection.features[i]) {
        return Err(NotTheRoots(d.selection.features[i]));
      }
    }
    var inDesign: set<nat>, enabled: set<Enabled> := {}, {};
    ghost var first: set<Enabled> := {};
    NothingGrown(d);
    while true
      invariant Growing(d, first, inDesign, enabled)
      decreases Left(d, inDesign, enabled)
    {
      var direct := AllRequired(d, enabled);
      if direct.Err? {
        RoundWrong(d, first, inDesign, enabled, direct.error);
        return Err(direct.error);
      }
      var reached := Reach(d, enabled, direct.value);
      var requests := Ask(d, enabled, direct.value, reached);
      var next := Enable(d, enabled, reached, requests);
      if next.Err? {
        FeaturesWrong(d, first, inDesign, enabled, reached, next.error);
        return Err(next.error);
      }
      IsRound(d, enabled, reached, next.value);
      RoundDone(d, first, inDesign, enabled, reached, next.value);
      if reached == inDesign && next.value == enabled {
        Fixed(d, first, inDesign, enabled, direct.value);
        return Ok((inDesign, enabled));
      }
      first, inDesign, enabled := enabled, reached, next.value;
    }
  }

  lemma IsRound(d: Design, before: set<Enabled>, inDesign: set<nat>, enabled: set<Enabled>)
    requires LeastDesign(d, before, inDesign) && LeastFeatures(d, before, inDesign, enabled)
    requires inDesign <= Everything(d) && enabled <= Universe(d)
    ensures Round(d, before, inDesign, enabled)
  {
  }

  // ----- some design is closed

  /** The features a package declares, has by default, asks for or passes on. */
  ghost predicate MentionedBy(package: Package, name: string) {
    || name in package.features || name in package.defaultFeatures
    || (exists i :: 0 <= i < |package.requirements| && name in package.requirements[i].features)
    || (exists f :: f in package.features && Passing(package.features[f], name))
  }

  predicate Passing(feature: Feature, name: string) {
    exists i :: 0 <= i < |feature.dependencies| && feature.dependencies[i].feature == Some(name)
  }

  ghost function NamesOf(names: seq<string>): (all: set<string>)
    ensures forall name :: name in all <==> name in names
  {
    set name | name in names
  }

  ghost function Asked(requirements: seq<Requirement>): (all: set<string>)
    ensures forall name :: name in all <==> exists i :: 0 <= i < |requirements| && name in requirements[i].features
  {
    if requirements == [] then {}
    else
      var n := |requirements| - 1;
      Asked(requirements[..n]) + NamesOf(requirements[n].features)
  }

  ghost function PassedOn(dependencies: seq<Brings>): (all: set<string>)
    ensures forall name :: name in all <==> exists i :: 0 <= i < |dependencies| && dependencies[i].feature == Some(name)
  {
    if dependencies == [] then {}
    else
      var n := |dependencies| - 1;
      PassedOn(dependencies[..n]) + if dependencies[n].feature.Some? then {dependencies[n].feature.value} else {}
  }

  ghost function PassedBy(features: map<string, Feature>): (all: set<string>)
    ensures forall name :: name in all <==> exists f :: f in features && Passing(features[f], name)
    decreases |features|
  {
    if features == map[] then {}
    else
      var f :| f in features;
      var rest := features - {f};
      assert forall g :: g in features <==> g == f || g in rest;
      assert |rest| < |features| by {
        assert rest.Keys == features.Keys - {f};
      }
      PassedBy(rest) + PassedOn(features[f].dependencies)
  }

  ghost function NamesIn(package: Package): (all: set<string>)
    ensures forall name :: name in all <==> MentionedBy(package, name)
  {
    package.features.Keys + NamesOf(package.defaultFeatures) + Asked(package.requirements) + PassedBy(package.features)
  }

  ghost function AllNames(packages: seq<Package>): set<string> {
    if packages == [] then {}
    else
      var n := |packages| - 1;
      AllNames(packages[..n]) + NamesIn(packages[n])
  }

  lemma {:induction false} NamedIn(packages: seq<Package>, p: nat, name: string)
    requires p < |packages| && MentionedBy(packages[p], name)
    ensures name in AllNames(packages)
    decreases |packages|
  {
    hide MentionedBy, NamesIn;
    if p < |packages| - 1 {
      NamedIn(packages[..|packages| - 1], p, name);
    }
  }

  /** Every feature of that name of every package. */
  ghost function AllEnabled(d: Design): set<Enabled> {
    set p, name | p in Everything(d) && name in AllNames(d.packages) + NamesOf(d.selection.features) :: Enabled(p, name)
  }

  /** With every package in it and every feature on, a design is closed under the rules: an error no closed design avoids is one of some. */
  lemma {:induction false} SomeClosed(d: Design)
    requires IsDesign(d)
    ensures Closed(d, Everything(d), AllEnabled(d))
    ensures forall error :: Unavoidable(d, error) ==> exists inDesign, enabled :: Closed(d, inDesign, enabled) && Wrong(d, enabled, inDesign, enabled, error)
  {
    hide AllNames, Everything, Active, MentionedBy;
    var all, on := Everything(d), AllEnabled(d);
    EverythingIs(d);
    forall asker, to, name | Asks(d, on, all, on, asker, to, name) ensures Enabled(to, name) in on {
      AskedIsNamed(d, on, all, on, asker, to, name);
    }
    assert Closed(d, all, on);
  }

  lemma EverythingIs(d: Design)
    ensures forall p :: p in Everything(d) <==> 0 <= p < |d.packages|
  {
  }

  /** What is asked for is a feature of a package there is, by a name mentioned. */
  lemma {:induction false} AskedIsNamed(d: Design, active: set<Enabled>, inDesign: set<nat>, enabled: set<Enabled>, asker: Asker, to: nat, name: string)
    requires IsDesign(d) && Asks(d, active, inDesign, enabled, asker, to, name)
    ensures to in Everything(d) && name in AllNames(d.packages) + NamesOf(d.selection.features)
  {
    hide AllNames, Everything, Active, MentionedBy;
    EverythingIs(d);
    match asker
    case Run =>
    case By(p) =>
      if name in d.packages[0].features && to == 0 {
        MentionsOwn(d.packages[0], name);
        NamedIn(d.packages, 0, name);
      } else if Demands(d, active, p, to, name) {
        DemandNamed(d, active, p, to, name);
        NamedIn(d.packages, p, name);
      } else if p == to < |d.packages| && name in d.packages[to].defaultFeatures {
        MentionsOwn(d.packages[to], name);
        NamedIn(d.packages, to, name);
      } else {
        PassNamed(d, enabled, p, to, name);
        NamedIn(d.packages, p, name);
      }
  }

  lemma MentionsOwn(package: Package, name: string)
    requires name in package.features || name in package.defaultFeatures
    ensures MentionedBy(package, name)
  {
  }

  lemma PassNamed(d: Design, enabled: set<Enabled>, p: nat, to: nat, name: string)
    requires Passes(d, enabled, p, to, name)
    ensures p < |d.packages| && MentionedBy(d.packages[p], name)
  {
    var feature, i: nat :| Enabled(p, feature) in enabled && Enables(d, p, feature, i, to, name);
    assert Passing(d.packages[p].features[feature], name);
  }

  lemma DemandNamed(d: Design, active: set<Enabled>, p: nat, to: nat, name: string)
    requires Demands(d, active, p, to, name)
    ensures p < |d.packages| && MentionedBy(d.packages[p], name)
  {
    hide Optional, Brought;
  }
}
