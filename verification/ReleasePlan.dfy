/**
  The release planner's cascade and the publish-cone gate that runs after it.

  `index` is the given crates.io lookup: the latest release of every published crate.
*/
module ReleasePlan {
  import opened Prelude
  import opened ReleaseVersions

  type Crate = string

  datatype Dep = Dep(name: Crate, req: Requirement, dev: bool)

  datatype Release = Release(version: Version, deps: seq<Dep>)

  // ---------------------------------------------------------------- the cone

  /** What the planner looks at: the initial plan, the baselines, and the published pins. */
  datatype Problem = Problem(plan: map<Crate, Version>, baselines: map<Crate, Version>, pins: map<Crate, seq<Dep>>)

  predicate Known(p: Problem, c: Crate) {
    c in p.plan || c in p.baselines
  }

  /** The version a crate is released at, if it is released. */
  function Target(p: Problem, c: Crate): Version
    requires Known(p, c)
  {
    if c in p.plan then p.plan[c] else Bump(p.baselines[c], Additive)
  }

  /** The pin excludes the dependency's new version and also the dependant's own version. */
  predicate Breaks(req: Requirement, target: Version, own: Version) {
    !CaretAllows(req, target) && !CaretAllows(req, own)
  }

  ghost predicate BreaksAt(p: Problem, s: set<Crate>, c: Crate, k: nat)
    requires c in p.baselines && c in p.pins && k < |p.pins[c]|
  {
    var d := p.pins[c][k];
    d.name in s && Known(p, d.name) && Breaks(d.req, Target(p, d.name), p.baselines[c])
  }

  /** Releasing the crates of s strands c. */
  ghost predicate Stranded(p: Problem, s: set<Crate>, c: Crate) {
    && c in p.baselines && c in p.pins
    && exists k :: 0 <= k < |p.pins[c]| && BreaksAt(p, s, c, k)
  }

  ghost predicate Closed(p: Problem, s: set<Crate>) {
    p.plan.Keys <= s && forall c :: c in p.baselines && Stranded(p, s, c) ==> c in s
  }

  /** r releases exactly the least closed set, each crate at its target version. */
  ghost predicate IsCone(p: Problem, r: map<Crate, Version>) {
    && Closed(p, r.Keys)
    && (forall s: set<Crate> :: Closed(p, s) ==> r.Keys <= s)
    && (forall c :: c in r ==> Known(p, c) && r[c] == Target(p, c))
  }

  /** There is only one cone, so the order of crates and of pins cannot matter. */
  lemma ConeUnique(p: Problem, a: map<Crate, Version>, b: map<Crate, Version>)
    requires IsCone(p, a) && IsCone(p, b)
    ensures a == b
  {
    assert a.Keys == b.Keys;
  }

  ghost predicate Order(order: seq<Crate>, baselines: map<Crate, Version>) {
    && (forall c :: c in baselines <==> c in order)
    && (forall i, j :: 0 <= i < j < |order| ==> order[i] != order[j])
  }

  /** A plan on its way to the cone. */
  ghost predicate Within(p: Problem, plan: map<Crate, Version>) {
    && p.plan.Keys <= plan.Keys <= p.plan.Keys + p.baselines.Keys
    && (forall c :: c in plan ==> plan[c] == Target(p, c))
    && (forall s: set<Crate> :: Closed(p, s) ==> plan.Keys <= s)
  }

  lemma AddStranded(p: Problem, plan: map<Crate, Version>, c: Crate, k: nat)
    requires Within(p, plan) && c !in plan && c in p.baselines && c in p.pins && k < |p.pins[c]|
    requires BreaksAt(p, plan.Keys, c, k)
    ensures Within(p, plan[c := Bump(p.baselines[c], Additive)])
  {
    forall s: set<Crate> | Closed(p, s) ensures c in s {
      assert BreaksAt(p, s, c, k);
    }
  }

  /** One visit of the loop body to a crate: its pins in order. */
  method Visit(p: Problem, plan: map<Crate, Version>, name: Crate) returns (after: map<Crate, Version>)
    requires Within(p, plan) && name in p.baselines
    ensures Within(p, after)
    ensures after == plan || (name !in plan && after.Keys == plan.Keys + {name})
    ensures after == plan && name !in plan ==> !Stranded(p, plan.Keys, name)
  {
    after := plan;
    var base := p.baselines[name];
    var current := if name in plan then plan[name] else base;
    var pins := if name in p.pins then p.pins[name] else [];
    var k := 0;
    while k < |pins|
      invariant k <= |pins| && Within(p, after)
      invariant after == plan || (name !in plan && name in after && after.Keys == plan.Keys + {name})
      invariant after == plan && name !in plan ==> forall j :: 0 <= j < k ==> !BreaksAt(p, plan.Keys, name, j)
    {
      var d := pins[k];
      if d.name in after {
        if !CaretAllows(d.req, after[d.name]) && !CaretAllows(d.req, current) {
          if name !in after {
            AddStranded(p, after, name, k);
            after := after[name := Bump(base, Additive)];
          }
        }
      }
      k := k + 1;
    }
  }

  /** One pass over all crates: it grows the plan, or proves it closed. */
  method Pass(p: Problem, plan: map<Crate, Version>, order: seq<Crate>) returns (after: map<Crate, Version>, changed: bool)
    requires Order(order, p.baselines) && Within(p, plan)
    ensures Within(p, after)
    ensures if changed then plan.Keys < after.Keys else after == plan && Closed(p, plan.Keys)
  {
    after, changed := plan, false;
    var i := 0;
    while i < |order|
      invariant i <= |order| && Within(p, after)
      invariant if changed then plan.Keys < after.Keys
                else after == plan && forall j :: 0 <= j < i ==> order[j] in plan || !Stranded(p, plan.Keys, order[j])
    {
      var next := Visit(p, after, order[i]);
      if next != after { changed := true; }
      after := next;
      i := i + 1;
    }
  }

  /**
    Closes the cone.  Whatever order the crates are visited in, the result is the cone
    of the problem, reached in at most one pass per baseline crate and one more.
  */
  method Cascade(p: Problem, order: seq<Crate>) returns (plan: map<Crate, Version>, ghost passes: nat)
    requires Order(order, p.baselines)
    ensures IsCone(p, plan)
    ensures passes <= |p.baselines.Keys| + 1
  {
    plan := p.plan;
    passes := 0;
    var changed := true;
    while changed
      invariant Within(p, plan)
      invariant if changed then passes <= |plan.Keys - p.plan.Keys|
                else passes <= |plan.Keys - p.plan.Keys| + 1 && Closed(p, plan.Keys)
      decreases p.baselines.Keys - plan.Keys, changed
    {
      ghost var before := plan;
      plan, changed := Pass(p, plan, order);
      passes := passes + 1;
      if changed { Grown(p.plan.Keys, p.baselines.Keys, before.Keys, plan.Keys); }
    }
    SubsetSize(plan.Keys - p.plan.Keys, p.baselines.Keys);
  }

  lemma Grown<T>(initial: set<T>, baselines: set<T>, a: set<T>, b: set<T>)
    requires initial <= a < b <= initial + baselines
    ensures |a - initial| < |b - initial|
    ensures baselines - b < baselines - a
  {
    var x :| x in b && x !in a;
    SubsetSize((a - initial) + {x}, b - initial);
    assert x in baselines - a;
  }

  // ---------------------------------------------------------------- how deep the cone goes

  ghost predicate PinsHold(p: Problem) {
    forall c, k :: c in p.baselines && c in p.pins && 0 <= k < |p.pins[c]| && p.pins[c][k].name in p.baselines ==>
      CaretAllows(p.pins[c][k].req, p.baselines[p.pins[c][k].name])
  }

  /** No published pin is on a 0.0.z version, where even a patch is outside the caret. */
  ghost predicate NoZeroZeroPins(p: Problem) {
    forall c, k :: c in p.pins && 0 <= k < |p.pins[c]| && p.pins[c][k].req.Caret? ==>
      p.pins[c][k].req.base.major != 0 || p.pins[c][k].req.base.minor != 0
  }

  /**
    A cascaded crate strands nobody else: when the published pins hold and none is on a
    0.0.z version, the cone is the initial plan and the crates it strands directly.
  */
  lemma ConeIsOneLevel(p: Problem, r: map<Crate, Version>, c: Crate)
    requires IsCone(p, r) && PinsHold(p) && NoZeroZeroPins(p)
    ensures c in r <==> c in p.plan || Stranded(p, p.plan.Keys, c)
  {
    var level := p.plan.Keys + set x | x in p.baselines && Stranded(p, p.plan.Keys, x);
    forall x | x in p.baselines && Stranded(p, level, x) ensures x in level {
      var k :| 0 <= k < |p.pins[x]| && BreaksAt(p, level, x, k);
      var d := p.pins[x][k];
      if d.name !in p.plan {
        AdditiveBumpStrandsNobody(d.req, p.baselines[d.name]);
        assert false;
      }
      assert BreaksAt(p, p.plan.Keys, x, k);
    }
    assert Closed(p, level);
    if Stranded(p, p.plan.Keys, c) {
      var k :| 0 <= k < |p.pins[c]| && BreaksAt(p, p.plan.Keys, c, k);
      assert BreaksAt(p, r.Keys, c, k);
    }
  }

  /** On the 0.0.z line the cascade does go deeper: b is stranded by a, and c only by b. */
  lemma DeepConeExists() returns (p: Problem, r: map<Crate, Version>)
    ensures PinsHold(p) && IsCone(p, r) && "c" in r && !Stranded(p, p.plan.Keys, "c")
  {
    var v := (n: nat) => Version(0, 0, n);
    var pinA := [Dep("a", Caret(v(1)), false)];
    var pinB := [Dep("b", Caret(v(3)), false)];
    p := Problem(map["a" := v(2)], map["a" := v(1), "b" := v(3), "c" := v(5)], map["b" := pinA, "c" := pinB]);
    r := map["a" := v(2), "b" := v(4), "c" := v(6)];
    forall s: set<Crate> | Closed(p, s) ensures r.Keys <= s {
      assert BreaksAt(p, s, "b", 0);
      assert BreaksAt(p, s, "c", 0);
    }
    assert Target(p, "b") == v(4) && Target(p, "c") == v(6);
  }

  // ---------------------------------------------------------------- the gate

  datatype Strand = Strand(name: Crate, pinned: Version, dep: Crate, req: Requirement, ships: Version)

  ghost predicate IsStrand(current: map<Crate, Version>, index: map<Crate, Release>, preMerge: bool, s: Strand) {
    && s.name in current && s.name in index && s.pinned == index[s.name].version
    && (preMerge ==> current[s.name] == s.pinned)
    && s.dep in current && s.ships == current[s.dep]
    && Dep(s.dep, s.req, false) in index[s.name].deps
    && !CaretAllows(s.req, s.ships)
  }

  /** A crate the gate looks into: published, and in pre-merge mode not bumped here. */
  predicate Examined(current: map<Crate, Version>, index: map<Crate, Release>, preMerge: bool, name: Crate) {
    name in current && name in index && (preMerge ==> current[name] == index[name].version)
  }

  predicate Violates(current: map<Crate, Version>, d: Dep) {
    d.name in current && !d.dev && !CaretAllows(d.req, current[d.name])
  }

  /** The report lines of one crate, in the order of its pins. */
  function Lines(current: map<Crate, Version>, name: Crate, version: Version, deps: seq<Dep>): seq<Strand> {
    if deps == [] then []
    else
      var rest, d := Lines(current, name, version, deps[..|deps| - 1]), deps[|deps| - 1];
      if Violates(current, d) then rest + [Strand(name, version, d.name, d.req, current[d.name])] else rest
  }

  /** The whole report, crate by crate. */
  function Report(current: map<Crate, Version>, index: map<Crate, Release>, preMerge: bool, names: seq<Crate>): seq<Strand> {
    if names == [] then []
    else
      var rest, name := Report(current, index, preMerge, names[..|names| - 1]), names[|names| - 1];
      if Examined(current, index, preMerge, name)
      then rest + Lines(current, name, index[name].version, index[name].deps) else rest
  }

  lemma {:induction false} LinesAre(current: map<Crate, Version>, name: Crate, version: Version, deps: seq<Dep>, s: Strand)
    ensures s in Lines(current, name, version, deps) <==>
              && s.name == name && s.pinned == version && Dep(s.dep, s.req, false) in deps
              && s.dep in current && s.ships == current[s.dep] && !CaretAllows(s.req, s.ships)
  {
    if deps != [] {
      LinesAre(current, name, version, deps[..|deps| - 1], s);
      assert deps == deps[..|deps| - 1] + [deps[|deps| - 1]];
    }
  }

  /** The report holds every strand of the workspace, and nothing else. */
  lemma {:induction false} ReportIs(current: map<Crate, Version>, index: map<Crate, Release>, preMerge: bool, names: seq<Crate>, s: Strand)
    ensures s in Report(current, index, preMerge, names) <==> IsStrand(current, index, preMerge, s) && s.name in names
  {
    if names != [] {
      var name := names[|names| - 1];
      ReportIs(current, index, preMerge, names[..|names| - 1], s);
      assert names == names[..|names| - 1] + [name];
      if Examined(current, index, preMerge, name) { LinesAre(current, name, index[name].version, index[name].deps, s); }
    }
  }

  method FindStrands(current: map<Crate, Version>, names: seq<Crate>, index: map<Crate, Release>, preMerge: bool)
    returns (strands: seq<Strand>)
    requires forall c :: c in current <==> c in names
    ensures strands == Report(current, index, preMerge, names)
    ensures forall s :: s in strands <==> IsStrand(current, index, preMerge, s)
  {
    strands := [];
    var i := 0;
    while i < |names|
      invariant i <= |names| && strands == Report(current, index, preMerge, names[..i])
    {
      var name := names[i];
      assert names[..i + 1][..i] == names[..i];
      if name in index && (!preMerge || current[name] == index[name].version) {
        var lines := StrandsOf(current, name, index[name]);
        strands := strands + lines;
      }
      i := i + 1;
    }
    assert names[..i] == names;
    forall s ensures s in strands <==> IsStrand(current, index, preMerge, s) { ReportIs(current, index, preMerge, names, s); }
  }

  method StrandsOf(current: map<Crate, Version>, name: Crate, latest: Release) returns (lines: seq<Strand>)
    ensures lines == Lines(current, name, latest.version, latest.deps)
  {
    lines := [];
    var k := 0;
    while k < |latest.deps|
      invariant k <= |latest.deps| && lines == Lines(current, name, latest.version, latest.deps[..k])
    {
      var dep := latest.deps[k];
      assert latest.deps[..k + 1][..k] == latest.deps[..k];
      if dep.name in current && !dep.dev && !CaretAllows(dep.req, current[dep.name]) {
        lines := lines + [Strand(name, latest.version, dep.name, dep.req, current[dep.name])];
      }
      k := k + 1;
    }
    assert latest.deps[..k] == latest.deps;
  }

  // ---------------------------------------------------------------- planner and gate together

  /** The planner's view of a workspace: published crates are baselines, dev pins are dropped. */
  ghost predicate PlansFor(p: Problem, current: map<Crate, Version>, index: map<Crate, Release>) {
    && p.plan.Keys <= current.Keys
    && (forall c :: c in p.baselines <==> c in current && c in index)
    && (forall c :: c in p.baselines ==> p.baselines[c] == index[c].version)
    && (forall c :: c in p.baselines ==> c in p.pins && (forall d :: d in p.pins[c] <==> d in index[c].deps && !d.dev))
    && (forall c :: c in p.plan && c in p.baselines ==> p.plan[c] != p.baselines[c])
  }

  ghost predicate StrandFree(current: map<Crate, Version>, index: map<Crate, Release>) {
    forall s :: !IsStrand(current, index, false, s)
  }

  /**
    The coincidence the cascade overlooks: an unplanned, unchanged crate whose pin excludes
    the planned version of its dependency, while the same pin admits the crate's own version.
  */
  ghost predicate Coincidence(p: Problem, plan: map<Crate, Version>, current: map<Crate, Version>,
                              index: map<Crate, Release>, s: Strand) {
    && s.name !in plan && s.name in p.baselines && s.name in current && s.name in index
    && current[s.name] == p.baselines[s.name] == s.pinned
    && s.dep in plan && s.ships == plan[s.dep]
    && Dep(s.dep, s.req, false) in index[s.name].deps
    && !CaretAllows(s.req, plan[s.dep]) && CaretAllows(s.req, p.baselines[s.name])
  }

  /** After the cascade is written to a strand-free workspace, the gate reports exactly the coincidences. */
  lemma GateReportsCoincidences(p: Problem, plan: map<Crate, Version>, current: map<Crate, Version>,
                                index: map<Crate, Release>, s: Strand)
    requires PlansFor(p, current, index) && StrandFree(current, index) && IsCone(p, plan)
    ensures IsStrand(current + plan, index, true, s) <==> Coincidence(p, plan, current, index, s)
  {
    var now := current + plan;
    ConeInside(p, plan);
    assert !IsStrand(current, index, false, s);
    assert forall c :: c in plan && c in p.baselines ==> plan[c] != p.baselines[c];
    var d := Dep(s.dep, s.req, false);
    if IsStrand(now, index, true, s) && s.name !in plan && s.dep in plan {
      assert d in p.pins[s.name];
      var k :| 0 <= k < |p.pins[s.name]| && p.pins[s.name][k] == d;
      assert !BreaksAt(p, plan.Keys, s.name, k);
    }
  }

  lemma ConeInside(p: Problem, plan: map<Crate, Version>)
    requires IsCone(p, plan)
    ensures plan.Keys <= p.plan.Keys + p.baselines.Keys
  {
    var all := p.plan.Keys + p.baselines.Keys;
    assert Closed(p, all);
  }

  /** So the planner's own verification passes exactly when no coincidence exists. */
  lemma GatePassesExactly(p: Problem, plan: map<Crate, Version>, current: map<Crate, Version>, index: map<Crate, Release>)
    requires PlansFor(p, current, index) && StrandFree(current, index) && IsCone(p, plan)
    ensures (forall s :: !IsStrand(current + plan, index, true, s)) <==> (forall s :: !Coincidence(p, plan, current, index, s))
  {
    forall s ensures IsStrand(current + plan, index, true, s) <==> Coincidence(p, plan, current, index, s) {
      GateReportsCoincidences(p, plan, current, index, s);
    }
  }

  /** The same coincidence, visible before the cascade runs: on the initial plan alone. */
  ghost predicate EarlyCoincidence(p: Problem, current: map<Crate, Version>, index: map<Crate, Release>, s: Strand) {
    && s.name !in p.plan && !Stranded(p, p.plan.Keys, s.name)
    && s.name in p.baselines && s.name in current && s.name in index
    && current[s.name] == p.baselines[s.name] == s.pinned
    && s.dep in p.plan && s.ships == p.plan[s.dep]
    && Dep(s.dep, s.req, false) in index[s.name].deps
    && !CaretAllows(s.req, p.plan[s.dep]) && CaretAllows(s.req, p.baselines[s.name])
  }

  /** A pin on a cascaded crate still holds after its patch bump. */
  lemma CascadedPinsHold(p: Problem, plan: map<Crate, Version>, c: Crate, d: Dep)
    requires IsCone(p, plan) && PinsHold(p) && NoZeroZeroPins(p)
    requires c in p.baselines && c in p.pins && d in p.pins[c] && d.name in plan && d.name !in p.plan
    ensures CaretAllows(d.req, plan[d.name])
  {
    var k :| 0 <= k < |p.pins[c]| && p.pins[c][k] == d;
    AdditiveBumpStrandsNobody(p.pins[c][k].req, p.baselines[d.name]);
  }

  /**
    Where the pins hold and none is on 0.0.z, the planner's caller can tell beforehand: the
    gate will report exactly the coincidences of the initial plan.
  */
  lemma GateForetold(p: Problem, plan: map<Crate, Version>, current: map<Crate, Version>, index: map<Crate, Release>, s: Strand)
    requires PlansFor(p, current, index) && StrandFree(current, index) && IsCone(p, plan) && PinsHold(p) && NoZeroZeroPins(p)
    ensures IsStrand(current + plan, index, true, s) <==> EarlyCoincidence(p, current, index, s)
  {
    GateReportsCoincidences(p, plan, current, index, s);
    ConeIsOneLevel(p, plan, s.name);
    ConeIsOneLevel(p, plan, s.dep);
    var d := Dep(s.dep, s.req, false);
    if s.name in p.baselines && s.name in index && d in index[s.name].deps && s.dep in plan && s.dep !in p.plan {
      assert d in p.pins[s.name];
      CascadedPinsHold(p, plan, s.name, d);
    }
  }

  /** The docstring's promise fails: a driver on the same version line as its provider is left stranded. */
  lemma SameLineIsOverlooked() returns (p: Problem, plan: map<Crate, Version>, current: map<Crate, Version>, index: map<Crate, Release>, s: Strand)
    ensures PlansFor(p, current, index) && StrandFree(current, index) && IsCone(p, plan)
    ensures IsStrand(current + plan, index, true, s)
  {
    var old20, new21 := Version(0, 20, 1), Version(0, 21, 0);
    var pin := Dep("p", Caret(old20), false);
    current := map["p" := old20, "d" := old20];
    index := map["p" := Release(old20, []), "d" := Release(old20, [pin])];
    plan := map["p" := new21];
    p := Problem(plan, current, map["p" := [], "d" := [pin]]);
    s := Strand("d", old20, "p", Caret(old20), new21);
    assert index["d"].deps[0] == pin && index["p"].deps == [];
    forall c | c in p.baselines && Stranded(p, plan.Keys, c) ensures c in plan {
      var k :| 0 <= k < |p.pins[c]| && BreaksAt(p, plan.Keys, c, k);
    }
    forall s' ensures !IsStrand(current, index, false, s') {
    }
    assert current + plan == map["p" := new21, "d" := old20];
  }
}
