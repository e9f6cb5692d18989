/** Installing a blueprint and the leaf widgets it pins: plan, override, and roll back when a leaf fails. */
module Cascade {
  import opened Installer
  import BlueprintIds

  datatype Dep = Dep(id: Name, version: Version)

  datatype Action = Install | Skip | Override(existing: Version)

  datatype PlanStep = PlanStep(id: Name, version: Version, action: Action)

  /** A pin some installed blueprint declares. */
  datatype Pin = Pin(blueprint: Name, dep: Name, version: Version)

  /** dep at `pinned` will replace it at `existing`; owners pin the version that goes. */
  datatype Warning = Warning(dep: Name, pinned: Version, existing: Version, owners: seq<Name>)

  datatype Undo = Removed(id: Name, version: Version) | Installed(id: Name)

  datatype Outcome =
    | NotALeaf(id: Name)
    | InvalidPin
    | AlreadyInstalled
    | RolledBack
    | Success(steps: seq<PlanStep>, warnings: seq<Warning>)

  predicate Complete(d: Dep) {
    d.id != "" && d.version != ""
  }

  ghost predicate CompletePins(deps: seq<Dep>) {
    forall d :: d in deps ==> Complete(d)
  }

  // ---- the plan

  function Planned(leaves: Leaves, d: Dep): PlanStep {
    match FoundVersion(leaves, d.id)
    case None => PlanStep(d.id, d.version, Install)
    case Some(v) => PlanStep(d.id, d.version, if v == d.version then Skip else Override(v))
  }

  /** Every step planned against the leaves as they were before any of them. */
  function Plan(leaves: Leaves, deps: seq<Dep>): (steps: seq<PlanStep>)
    ensures |steps| == |deps| && forall i :: 0 <= i < |deps| ==> steps[i] == Planned(leaves, deps[i])
  {
    seq(|deps|, i requires 0 <= i < |deps| => Planned(leaves, deps[i]))
  }

  ghost predicate Pins(blueprints: map<Name, seq<Dep>>, p: Pin) {
    p.blueprint in blueprints && Dep(p.dep, p.version) in blueprints[p.blueprint] && Complete(Dep(p.dep, p.version))
  }

  /** Every complete pin of every installed blueprint; the directory gives no order. */
  method ScanPins(blueprints: map<Name, seq<Dep>>) returns (pins: seq<Pin>)
    ensures forall p :: p in pins <==> Pins(blueprints, p)
  {
    pins := [];
    var left := blueprints.Keys;
    while left != {}
      invariant left <= blueprints.Keys
      invariant forall p :: p in pins <==> p.blueprint !in left && Pins(blueprints, p)
    {
      var b :| b in left;
      var deps := blueprints[b];
      ghost var before := pins;
      for i := 0 to |deps|
        invariant forall p :: p in pins <==>
          p in before || (p.blueprint == b && Complete(Dep(p.dep, p.version)) && Dep(p.dep, p.version) in deps[..i])
      {
        assert deps[..i + 1] == deps[..i] + [deps[i]];
        if Complete(deps[i]) {
          pins := pins + [Pin(b, deps[i].id, deps[i].version)];
        }
      }
      assert deps[..|deps|] == deps;
      left := left - {b};
    }
  }

  /** The blueprints that own the version about to go. */
  method OwnersOf(pins: seq<Pin>, dep: Name, existing: Version) returns (owners: seq<Name>)
    ensures forall b :: b in owners <==> Pin(b, dep, existing) in pins
  {
    owners := [];
    for i := 0 to |pins|
      invariant forall b :: b in owners <==> Pin(b, dep, existing) in pins[..i]
    {
      assert pins[..i + 1] == pins[..i] + [pins[i]];
      if pins[i].dep == dep && pins[i].version == existing {
        owners := owners + [pins[i].blueprint];
      }
    }
    assert pins[..|pins|] == pins;
  }

  /** Exactly the overridden leaves are warned about, each with every blueprint that pins what it loses. */
  ghost predicate WarnsOf(blueprints: map<Name, seq<Dep>>, steps: seq<PlanStep>, warnings: seq<Warning>) {
    && (forall w :: w in warnings ==> PlanStep(w.dep, w.pinned, Override(w.existing)) in steps)
    && (forall i :: 0 <= i < |steps| && steps[i].action.Override? ==>
          exists w :: w in warnings && w.dep == steps[i].id && w.pinned == steps[i].version && w.existing == steps[i].action.existing)
    && (forall w, b :: w in warnings ==> (b in w.owners <==> Pins(blueprints, Pin(b, w.dep, w.existing))))
  }

  lemma WarnsOneMore(blueprints: map<Name, seq<Dep>>, steps: seq<PlanStep>, warnings: seq<Warning>,
                     step: PlanStep, more: seq<Warning>)
    requires WarnsOf(blueprints, steps, warnings)
    requires if step.action.Override?
             then |more| == 1 && more[0] == Warning(step.id, step.version, step.action.existing, more[0].owners)
               && forall b :: b in more[0].owners <==> Pins(blueprints, Pin(b, step.id, step.action.existing))
             else more == []
    ensures WarnsOf(blueprints, steps + [step], warnings + more)
  {
    var after, all := steps + [step], warnings + more;
    forall i | 0 <= i < |after| && after[i].action.Override?
      ensures exists w :: w in all && w.dep == after[i].id && w.pinned == after[i].version && w.existing == after[i].action.existing
    {
      if i < |steps| {
        var w :| w in warnings && w.dep == after[i].id && w.pinned == after[i].version && w.existing == after[i].action.existing;
        assert w in all;
      } else {
        assert more[0] in all;
      }
    }
  }

  method PlanCascade(leaves: Leaves, blueprints: map<Name, seq<Dep>>, deps: seq<Dep>)
      returns (steps: seq<PlanStep>, warnings: seq<Warning>)
    requires CompletePins(deps)
    ensures steps == Plan(leaves, deps)
    ensures WarnsOf(blueprints, steps, warnings)
  {
    var pins := ScanPins(blueprints);
    steps, warnings := [], [];
    for i := 0 to |deps|
      invariant steps == Plan(leaves, deps)[..i]
      invariant WarnsOf(blueprints, steps, warnings)
    {
      var step := Planned(leaves, deps[i]);
      var more: seq<Warning> := [];
      if step.action.Override? {
        assert deps[i] in deps;
        var owners := OwnersOf(pins, step.id, step.action.existing);
        more := [Warning(step.id, step.version, step.action.existing, owners)];
      }
      WarnsOneMore(blueprints, steps, warnings, step, more);
      steps, warnings := steps + [step], warnings + more;
    }
  }

  // ---- carrying it out

  /** The leaves so far, what was done to them, how many leaf operations that took, and whether all went well. */
  datatype Progress = Progress(leaves: Leaves, log: seq<Undo>, operations: nat, ok: bool)

  function Failed(p: Progress): Progress {
    p.(operations := p.operations + 1, ok := false)
  }

  function Put(w: World, p: Progress, id: Name, version: Version, faults: set<nat>): Progress {
    var after := InstallInto(w, p.leaves, id, version);
    if after.None? || p.operations in faults then Failed(p)
    else Progress(after.value, p.log + [Installed(id)], p.operations + 1, true)
  }

  /** An override takes the old leaf out before the pinned one goes in. faults: the operations that fail of themselves. */
  function Step(w: World, p: Progress, step: PlanStep, faults: set<nat>): Progress {
    if !p.ok then p
    else match step.action
    case Skip => p
    case Install => Put(w, p, step.id, step.version, faults)
    case Override(existing) =>
      var cleared := RemoveFrom(p.leaves, step.id);
      if cleared.None? || p.operations in faults then Failed(p)
      else
        var next := Progress(cleared.value, p.log + [Removed(step.id, existing)], p.operations + 1, true);
        Put(w, next, step.id, step.version, faults)
  }

  /** The steps in order; nothing more once one has failed. */
  function Carried(w: World, start: Progress, steps: seq<PlanStep>, faults: set<nat>): Progress {
    if steps == [] then start else
    var n := |steps| - 1;
    Step(w, Carried(w, start, steps[..n], faults), steps[n], faults)
  }

  function Started(leaves: Leaves, operations: nat): Progress {
    Progress(leaves, [], operations, true)
  }

  /** The whole cascade of a blueprint with these pins. */
  function Cascaded(w: World, leaves: Leaves, deps: seq<Dep>, operations: nat, faults: set<nat>): Progress {
    Carried(w, Started(leaves, operations), Plan(leaves, deps), faults)
  }

  lemma {:induction false} FailedStays(w: World, start: Progress, steps: seq<PlanStep>, k: nat, faults: set<nat>)
    requires k <= |steps| && !Carried(w, start, steps[..k], faults).ok
    ensures Carried(w, start, steps, faults) == Carried(w, start, steps[..k], faults)
    decreases |steps|
  {
    if k < |steps| {
      assert steps[..|steps| - 1][..k] == steps[..k];
      FailedStays(w, start, steps[..|steps| - 1], k, faults);
    } else {
      assert steps[..k] == steps;
    }
  }

  // ---- undoing it

  /** One undo; one that cannot be done is passed over. */
  function UndoneOne(w: World, leaves: Leaves, u: Undo): Leaves {
    var after := match u
      case Installed(id) => RemoveFrom(leaves, id)
      case Removed(id, version) => InstallInto(w, leaves, id, version);
    if after.None? then leaves else after.value
  }

  /** The log undone from its end. */
  function Undone(w: World, leaves: Leaves, log: seq<Undo>, operations: nat, faults: set<nat>): Leaves
    decreases |log|
  {
    if log == [] then leaves else
    var n := |log| - 1;
    var after := if operations in faults then leaves else UndoneOne(w, leaves, log[n]);
    Undone(w, after, log[..n], operations + 1, faults)
  }

  // ---- the project

  /** Turned away before anything is touched. */
  ghost predicate Refused(blueprints: map<Name, seq<Dep>>, id: Name, deps: seq<Dep>) {
    || (exists d :: d in deps && BlueprintIds.IsBlueprintId(d.id))
    || !CompletePins(deps)
    || id in blueprints
  }

  /** The project the commands act on. installs counts those of blueprints. */
  class Project {
    const world: World
    var leaves: Leaves
    var blueprints: map<Name, seq<Dep>>
    var installs: map<Name, nat>
    var operations: nat

    constructor (world: World, leaves: Leaves, blueprints: map<Name, seq<Dep>>)
      ensures this.world == world && this.leaves == leaves && this.blueprints == blueprints
      ensures operations == 0 && installs == map[]
    {
      this.world := world;
      this.leaves := leaves;
      this.blueprints := blueprints;
      installs := map[];
      operations := 0;
    }

    method InstallLeaf(id: Name, version: Version, faults: set<nat>) returns (ok: bool)
      modifies this`leaves, this`operations
      ensures operations == old(operations) + 1
      ensures var after := InstallInto(world, old(leaves), id, version);
        ok == (after.Some? && old(operations) !in faults) && leaves == if ok then after.value else old(leaves)
    {
      var faulty := operations in faults;
      operations := operations + 1;
      if id in leaves || faulty {
        return false;
      }
      var leaf := Supply(world, id, version);
      if leaf.None? {
        return false;
      }
      leaves := leaves[id := leaf.value];
      return true;
    }

    method UninstallLeaf(id: Name, faults: set<nat>) returns (ok: bool)
      modifies this`leaves, this`operations
      ensures operations == old(operations) + 1
      ensures var after := RemoveFrom(old(leaves), id);
        ok == (after.Some? && old(operations) !in faults) && leaves == if ok then after.value else old(leaves)
    {
      var faulty := operations in faults;
      operations := operations + 1;
      if faulty {
        return false;
      }
      var place := Find(leaves, id);
      if place.None? {
        return false;
      }
      leaves := leaves - {place.value};
      return true;
    }

    /** One step of the plan. */
    method ApplyStep(step: PlanStep, given: seq<Undo>, faults: set<nat>) returns (ok: bool, log: seq<Undo>)
      modifies this`leaves, this`operations
      ensures Progress(leaves, log, operations, ok)
        == Step(world, Progress(old(leaves), given, old(operations), true), step, faults)
    {
      log := given;
      if step.action.Skip? {
        return true, log;
      }
      if step.action.Override? {
        var removed := UninstallLeaf(step.id, faults);
        if !removed {
          return false, log;
        }
        log := log + [Removed(step.id, step.action.existing)];
      }
      ok := InstallLeaf(step.id, step.version, faults);
      if ok {
        log := log + [Installed(step.id)];
      }
    }

    /** Carries the plan out, logging each change; stops at the first leaf that fails. */
    method RunSteps(steps: seq<PlanStep>, faults: set<nat>) returns (ok: bool, log: seq<Undo>)
      modifies this`leaves, this`operations
      ensures Progress(leaves, log, operations, ok) == Carried(world, Started(old(leaves), old(operations)), steps, faults)
    {
      log, ok := [], true;
      ghost var start := Started(leaves, operations);
      for i := 0 to |steps|
        invariant ok && Progress(leaves, log, operations, true) == Carried(world, start, steps[..i], faults)
      {
        assert steps[..i + 1][..i] == steps[..i];
        ok, log := ApplyStep(steps[i], log, faults);
        if !ok {
          FailedStays(world, start, steps, i + 1, faults);
          return;
        }
      }
      assert steps[..|steps|] == steps;
    }

    /** Undoes the log from its end. */
    method Rollback(log: seq<Undo>, faults: set<nat>)
      modifies this`leaves, this`operations
      ensures leaves == Undone(world, old(leaves), log, old(operations), faults)
    {
      var n := |log|;
      assert log[..n] == log;
      while n > 0
        invariant n <= |log|
        invariant Undone(world, leaves, log[..n], operations, faults) == Undone(world, old(leaves), log, old(operations), faults)
      {
        assert log[..n][..n - 1] == log[..n - 1];
        n := n - 1;
        match log[n] {
          case Installed(id) => var ok := UninstallLeaf(id, faults);
          case Removed(id, version) => var ok := InstallLeaf(id, version, faults);
        }
      }
    }

    /** faults are leaf operations of the cascade that fail of themselves; undoFaults, ones of the rollback. */
    method InstallBlueprint(id: Name, deps: seq<Dep>, faults: set<nat>, undoFaults: set<nat>) returns (r: Outcome)
      modifies this
      ensures r.Success? || r.RolledBack? <==> !Refused(old(blueprints), id, deps)
      ensures r.NotALeaf? <==> exists d :: d in deps && BlueprintIds.IsBlueprintId(d.id)
      ensures r.NotALeaf? ==> BlueprintIds.IsBlueprintId(r.id) && exists d :: d in deps && d.id == r.id
      ensures r.InvalidPin? <==>
        (forall d :: d in deps ==> !BlueprintIds.IsBlueprintId(d.id)) && exists d :: d in deps && (d.id == "" || d.version == "")
      ensures r.AlreadyInstalled? <==>
        (forall d :: d in deps ==> !BlueprintIds.IsBlueprintId(d.id)) && CompletePins(deps) && id in old(blueprints)
      ensures var end := Cascaded(world, old(leaves), deps, old(operations), faults);
        && (r.Success? ==>
              && end.ok && leaves == end.leaves && blueprints == old(blueprints)[id := deps]
              && r.steps == Plan(old(leaves), deps) && WarnsOf(old(blueprints), r.steps, r.warnings))
        && (r.RolledBack? ==>
              && !end.ok && leaves == Undone(world, end.leaves, end.log, end.operations, undoFaults)
              && blueprints == old(blueprints))
      ensures !r.Success? && !r.RolledBack? ==> leaves == old(leaves) && blueprints == old(blueprints)
      ensures r.Success? || r.RolledBack? ==>
        && id in installs && installs[id] == 1 + (if id in old(installs) then old(installs)[id] else 0)
        && installs - {id} == old(installs) - {id}
      ensures !r.Success? && !r.RolledBack? ==> installs == old(installs)
    {
      hide Carried, Undone, WarnsOf;
      for i := 0 to |deps|
        invariant unchanged(this)
        invariant forall k :: 0 <= k < i ==> !BlueprintIds.IsBlueprintId(deps[k].id)
      {
        if BlueprintIds.IsBlueprintId(deps[i].id) {
          return NotALeaf(deps[i].id);
        }
      }
      for i := 0 to |deps|
        invariant unchanged(this)
        invariant forall k :: 0 <= k < i ==> Complete(deps[k])
      {
        if !Complete(deps[i]) {
          assert deps[i] in deps;
          return InvalidPin;
        }
      }
      var steps, warnings := PlanCascade(leaves, blueprints, deps);
      if id in blueprints {
        return AlreadyInstalled;
      }
      blueprints := blueprints[id := deps];
      installs := installs[id := 1 + if id in installs then installs[id] else 0];
      var ok, log := RunSteps(steps, faults);
      if !ok {
        Rollback(log, undoFaults);
        blueprints := blueprints - {id};
        return RolledBack;
      }
      return Success(steps, warnings);
    }
  }
}
