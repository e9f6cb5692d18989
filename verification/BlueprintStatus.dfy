/** The observer beside the installer: pin health of one blueprint, and the leaves nobody pins. */
module BlueprintStatus {
  import opened Outcomes
  import opened Installer
  import opened Cascade
  import opened CascadeLaws

  datatype PinState = PinOk | PinMismatch | PinMissing

  datatype Report = Report(dep: Dep, installed: Option<Version>, state: PinState)

  predicate PinHolds(leaves: Leaves, d: Dep) {
    FoundVersion(leaves, d.id) == Some(d.version)
  }

  ghost predicate Healthy(leaves: Leaves, deps: seq<Dep>) {
    forall d :: d in deps && Complete(d) ==> PinHolds(leaves, d)
  }

  /** The complete pins, in manifest order. */
  function CompletePinsOf(deps: seq<Dep>): seq<Dep> {
    if deps == [] then []
    else
      var n := |deps| - 1;
      CompletePinsOf(deps[..n]) + if Complete(deps[n]) then [deps[n]] else []
  }

  lemma {:induction false} CompletePinsAre(deps: seq<Dep>)
    ensures forall d :: d in CompletePinsOf(deps) <==> d in deps && Complete(d)
  {
    if deps != [] {
      var n := |deps| - 1;
      CompletePinsAre(deps[..n]);
      assert deps == deps[..n] + [deps[n]];
    }
  }

  ghost predicate Reports(leaves: Leaves, r: Report) {
    && r.installed == FoundVersion(leaves, r.dep.id)
    && (r.state == PinMissing <==> r.installed == None)
    && (r.state == PinOk <==> PinHolds(leaves, r.dep))
  }

  /** One report per complete pin, in manifest order; broken when any of them does not hold. */
  method Status(leaves: Leaves, deps: seq<Dep>) returns (reports: seq<Report>, broken: bool)
    ensures broken <==> !Healthy(leaves, deps)
    ensures |reports| == |CompletePinsOf(deps)|
    ensures forall i :: 0 <= i < |reports| ==> reports[i].dep == CompletePinsOf(deps)[i] && Reports(leaves, reports[i])
    ensures broken <==> exists r :: r in reports && r.state != PinOk
  {
    reports, broken := [], false;
    for i := 0 to |deps|
      invariant |reports| == |CompletePinsOf(deps[..i])|
      invariant forall k :: 0 <= k < |reports| ==> reports[k].dep == CompletePinsOf(deps[..i])[k] && Reports(leaves, reports[k])
      invariant broken <==> exists k :: 0 <= k < |reports| && reports[k].state != PinOk
    {
      assert deps[..i + 1][..i] == deps[..i];
      var d := deps[i];
      if !Complete(d) {
        continue;
      }
      var installed := FoundVersion(leaves, d.id);
      var state := if installed == None then PinMissing else if installed.value != d.version then PinMismatch else PinOk;
      ghost var before := reports;
      reports := reports + [Report(d, installed, state)];
      assert forall k :: 0 <= k < |before| ==> reports[k] == before[k];
      assert reports[|before|].state == state;
      broken := broken || state != PinOk;
    }
    assert deps[..|deps|] == deps;
    CompletePinsAre(deps);
    BrokenIffUnhealthy(leaves, deps, reports);
  }

  lemma BrokenIffUnhealthy(leaves: Leaves, deps: seq<Dep>, reports: seq<Report>)
    requires |reports| == |CompletePinsOf(deps)|
    requires forall i :: 0 <= i < |reports| ==> reports[i].dep == CompletePinsOf(deps)[i] && Reports(leaves, reports[i])
    ensures (exists k :: 0 <= k < |reports| && reports[k].state != PinOk) <==> !Healthy(leaves, deps)
  {
    CompletePinsAre(deps);
    if k :| 0 <= k < |reports| && reports[k].state != PinOk {
      assert reports[k].dep in CompletePinsOf(deps);
    }
    if !Healthy(leaves, deps) {
      var d :| d in deps && Complete(d) && !PinHolds(leaves, d);
      var k :| 0 <= k < |CompletePinsOf(deps)| && CompletePinsOf(deps)[k] == d;
      assert reports[k].state != PinOk;
    }
  }

  /** The ids that manifests of leaves give and no installed blueprint pins; none while there is no blueprint at all. */
  ghost function Orphans(leaves: Leaves, blueprints: map<Name, seq<Dep>>): set<Name> {
    if blueprints == map[] then {} else set x | x in Names(leaves) && !Referenced(blueprints, x)
  }

  function Names(leaves: Leaves): set<Name> {
    set k | k in leaves && leaves[k].Leaf? && leaves[k].name != "" :: leaves[k].name
  }

  ghost predicate Referenced(blueprints: map<Name, seq<Dep>>, x: Name) {
    exists b, d :: b in blueprints && d in blueprints[b] && d.id == x && d.id != ""
  }

  method OrphanLeaves(leaves: Leaves, blueprints: map<Name, seq<Dep>>) returns (orphans: set<Name>)
    ensures orphans == Orphans(leaves, blueprints)
  {
    var referenced: set<Name> := {};
    var hasBlueprint := false;
    var left := blueprints.Keys;
    while left != {}
      invariant left <= blueprints.Keys
      invariant hasBlueprint <==> left != blueprints.Keys
      invariant forall x :: x in referenced <==>
        exists b, d :: b in blueprints && b !in left && d in blueprints[b] && d.id == x && d.id != ""
    {
      var b :| b in left;
      hasBlueprint := true;
      var more := set d | d in blueprints[b] && d.id != "" :: d.id;
      referenced := referenced + more;
      left := left - {b};
    }
    if !hasBlueprint {
      assert blueprints == map[];
      return {};
    }
    orphans := Names(leaves) - referenced;
  }

  // ---- after an install

  /** No leaf is pinned at two versions. */
  ghost predicate OnePinEach(deps: seq<Dep>) {
    forall d, e :: d in deps && e in deps && d.id == e.id ==> d.version == e.version
  }

  /** The pin holds already, or an install brings the version it asks for. */
  predicate Obtainable(w: World, leaves: Leaves, d: Dep) {
    PinHolds(leaves, d) || Delivered(w, d.id, d.version)
  }

  lemma FoundAt(leaves: Leaves, id: Name)
    ensures id in leaves ==> FoundVersion(leaves, id) == VersionOf(leaves[id])
    ensures Homed(leaves, id) && id !in leaves ==> FoundVersion(leaves, id) == None
  {
  }

  /** The pin after a cascade that went through, when the blueprint pins its leaf at one version only. */
  lemma PinAfter(w: World, leaves: Leaves, deps: seq<Dep>, operations: nat, faults: set<nat>, d: Dep)
    requires HomedPins(leaves, deps) && Cascaded(w, leaves, deps, operations, faults).ok
    requires d in deps && OnePinEach(deps)
    ensures PinHolds(Cascaded(w, leaves, deps, operations, faults).leaves, d) <==> Obtainable(w, leaves, d)
  {
    var now := Cascaded(w, leaves, deps, operations, faults).leaves;
    LeafAfter(w, leaves, deps, operations, faults, d.id);
    FoundAt(leaves, d.id);
    FoundAt(now, d.id);
    hide Cascaded, Supply, FoundVersion;
    if PinHolds(leaves, d) {
      assert AllSkipped(leaves, deps, d.id);
    } else {
      assert !AllSkipped(leaves, deps, d.id);
    }
  }

  /** After a successful install the new blueprint is healthy exactly when its pins do not contradict each other
      and each can be had at its version. */
  lemma InstalledIsHealthy(w: World, leaves: Leaves, deps: seq<Dep>, operations: nat, faults: set<nat>)
    requires CompletePins(deps) && HomedPins(leaves, deps) && Cascaded(w, leaves, deps, operations, faults).ok
    ensures Healthy(Cascaded(w, leaves, deps, operations, faults).leaves, deps) <==>
      OnePinEach(deps) && forall d :: d in deps ==> Obtainable(w, leaves, d)
  {
    var now := Cascaded(w, leaves, deps, operations, faults).leaves;
    hide Cascaded, HomedPins, Obtainable;
    if OnePinEach(deps) {
      forall d | d in deps ensures PinHolds(now, d) <==> Obtainable(w, leaves, d) {
        PinAfter(w, leaves, deps, operations, faults, d);
      }
    } else {
      var d, e :| d in deps && e in deps && d.id == e.id && d.version != e.version;
      assert !(PinHolds(now, d) && PinHolds(now, e));
    }
  }

  /** Whichever other blueprint loses a pin it had is named, with that pin, in a warning that was returned. */
  lemma BrokenPinIsWarned(w: World, leaves: Leaves, blueprints: map<Name, seq<Dep>>, deps: seq<Dep>, warnings: seq<Warning>,
                          operations: nat, faults: set<nat>, b: Name, d: Dep)
    requires HomedPins(leaves, deps) && Cascaded(w, leaves, deps, operations, faults).ok
    requires WarnsOf(blueprints, Plan(leaves, deps), warnings)
    requires b in blueprints && d in blueprints[b] && Complete(d) && d.id in leaves
    requires PinHolds(leaves, d) && !PinHolds(Cascaded(w, leaves, deps, operations, faults).leaves, d)
    ensures exists g :: g in warnings && g.dep == d.id && g.existing == d.version && b in g.owners
  {
    var steps := Plan(leaves, deps);
    LeafAfter(w, leaves, deps, operations, faults, d.id);
    FoundAt(leaves, d.id);
    FoundAt(Cascaded(w, leaves, deps, operations, faults).leaves, d.id);
    hide Cascaded, Supply, FoundVersion, HomedPins;
    var e :| e in deps && e.id == d.id && FoundVersion(leaves, e.id) != Some(e.version);
    var i :| 0 <= i < |deps| && deps[i] == e;
    assert steps[i] == Planned(leaves, e) && steps[i].action == Override(d.version);
    var g :| g in warnings && g.dep == e.id && g.pinned == e.version && g.existing == d.version;
    assert Pins(blueprints, Pin(b, g.dep, g.existing));
  }

  ghost function PinnedIds(deps: seq<Dep>): set<Name> {
    set d | d in deps :: d.id
  }

  lemma ReferencedMore(blueprints: map<Name, seq<Dep>>, id: Name, deps: seq<Dep>)
    requires id !in blueprints && CompletePins(deps)
    ensures forall x :: Referenced(blueprints[id := deps], x) <==> Referenced(blueprints, x) || x in PinnedIds(deps)
  {
    var more := blueprints[id := deps];
    forall x ensures Referenced(more, x) <==> Referenced(blueprints, x) || x in PinnedIds(deps) {
      if Referenced(blueprints, x) {
        var b, d :| b in blueprints && d in blueprints[b] && d.id == x && d.id != "";
        assert b in more && d in more[b];
      }
      if x in PinnedIds(deps) {
        var d :| d in deps && d.id == x;
        assert id in more && d in more[id];
      }
    }
  }

  /** The ids that the installs brought. */
  ghost predicate Brings(w: World, leaves: Leaves, deps: seq<Dep>, y: Name) {
    exists d :: d in deps && !PinHolds(leaves, d) && BringsAs(w, d, y)
  }

  predicate BringsAs(w: World, d: Dep, y: Name) {
    var leaf := Supply(w, d.id, d.version);
    leaf.Some? && leaf.value.Leaf? && leaf.value.name == y != ""
  }

  /** Every leaf stands under the id its manifest gives. */
  ghost predicate OwnNames(leaves: Leaves) {
    forall k :: k in leaves && leaves[k].Leaf? && leaves[k].name != "" ==> leaves[k].name == k
  }

  /** Which ids are seen after a cascade. */
  lemma NamesAfter(w: World, leaves: Leaves, deps: seq<Dep>, operations: nat, faults: set<nat>, y: Name)
    requires OwnNames(leaves) && HomedPins(leaves, deps) && OnePinEach(deps)
    requires Cascaded(w, leaves, deps, operations, faults).ok && y !in PinnedIds(deps)
    ensures y in Names(Cascaded(w, leaves, deps, operations, faults).leaves) <==> y in Names(leaves) || Brings(w, leaves, deps, y)
  {
    var now := Cascaded(w, leaves, deps, operations, faults).leaves;
    if y in Names(now) {
      var k :| k in now && now[k].Leaf? && now[k].name == y != "";
      LeafAfter(w, leaves, deps, operations, faults, k);
    }
    if y in Names(leaves) {
      LeafAfter(w, leaves, deps, operations, faults, y);
      assert AllSkipped(leaves, deps, y);
      assert y in now;
    }
    if Brings(w, leaves, deps, y) {
      var d :| d in deps && !PinHolds(leaves, d) && BringsAs(w, d, y);
      LeafAfter(w, leaves, deps, operations, faults, d.id);
      assert !AllSkipped(leaves, deps, d.id);
      var e :| e in deps && e.id == d.id && Landed(w, leaves, e, now);
    }
  }

  /** Installing a blueprint beside others takes its pins from the orphans and, exactly when no install brings a leaf
      under an id that nothing pins and that was no orphan yet, adds none. */
  lemma OrphansShrink(w: World, leaves: Leaves, blueprints: map<Name, seq<Dep>>, id: Name, deps: seq<Dep>,
                      operations: nat, faults: set<nat>)
    requires blueprints != map[] && id !in blueprints && CompletePins(deps) && OnePinEach(deps)
    requires OwnNames(leaves) && HomedPins(leaves, deps) && Cascaded(w, leaves, deps, operations, faults).ok
    ensures Orphans(Cascaded(w, leaves, deps, operations, faults).leaves, blueprints[id := deps])
        == Orphans(leaves, blueprints) - PinnedIds(deps)
      <==> forall y :: Brings(w, leaves, deps, y) ==> Referenced(blueprints[id := deps], y) || y in Orphans(leaves, blueprints)
  {
    var now, more := Cascaded(w, leaves, deps, operations, faults).leaves, blueprints[id := deps];
    ReferencedMore(blueprints, id, deps);
    forall y | y !in PinnedIds(deps) ensures y in Names(now) <==> y in Names(leaves) || Brings(w, leaves, deps, y) {
      NamesAfter(w, leaves, deps, operations, faults, y);
    }
    assert more != map[] by {
      assert id in more;
    }
    hide Cascaded, Referenced, Brings, Names, HomedPins, OwnNames;
    assert forall y :: y in Orphans(now, more) <==>
      || y in Orphans(leaves, blueprints) - PinnedIds(deps)
      || (Brings(w, leaves, deps, y) && !Referenced(more, y));
  }
}
