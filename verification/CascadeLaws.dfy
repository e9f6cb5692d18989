/** What a cascade leaves behind: when it goes through, what each leaf is then, and when rolling back restores everything. */
module CascadeLaws {
  import opened Outcomes
  import opened Installer
  import opened Cascade

  ghost predicate Pinned(deps: seq<Dep>, x: Name) {
    exists j :: 0 <= j < |deps| && deps[j].id == x
  }

  /** No pinned leaf is found in another's place. */
  ghost predicate HomedPins(leaves: Leaves, deps: seq<Dep>) {
    forall d :: d in deps ==> Homed(leaves, d.id)
  }

  ghost predicate SameAt(a: Leaves, b: Leaves, x: Name) {
    (x in a <==> x in b) && (x in a && x in b ==> a[x] == b[x])
  }

  lemma SameMaps(a: Leaves, b: Leaves)
    requires forall x :: SameAt(a, b, x)
    ensures a == b
  {
    assert forall x :: x in a <==> x in b by {
      forall x ensures x in a <==> x in b {
        assert SameAt(a, b, x);
      }
    }
    forall x | x in a ensures a[x] == b[x] {
      assert SameAt(a, b, x);
    }
  }

  /** What the plan found, when the leaf stands in its own place. */
  lemma PlannedHome(leaves: Leaves, d: Dep)
    requires Homed(leaves, d.id)
    ensures var s := Planned(leaves, d);
      && s.id == d.id && s.version == d.version
      && (s.action.Skip? <==> d.id in leaves && VersionOf(leaves[d.id]) == Some(d.version))
      && (s.action.Override? ==> d.id in leaves && VersionOf(leaves[d.id]) == Some(s.action.existing))
      && (s.action.Install? <==> (d.id in leaves ==> VersionOf(leaves[d.id]) == None))
  {
  }

  /** One step whose leaf stands in its own place, if anywhere. */
  lemma StepHome(w: World, before: Leaves, p: Progress, d: Dep, faults: set<nat>)
    requires Homed(before, d.id) && p.ok && before.Keys <= p.leaves.Keys
    ensures var s, end := Planned(before, d), Step(w, p, Planned(before, d), faults);
      && (s.action.Skip? <==> FoundVersion(before, d.id) == Some(d.version))
      && (s.action.Skip? ==> end == p && d.id in before)
      && (!s.action.Skip? && end.ok ==>
            Supply(w, d.id, d.version).Some? && end.leaves == p.leaves[d.id := Supply(w, d.id, d.version).value])
  {
    PlannedHome(before, d);
    hide Supply, FoundVersion, Homed, Planned;
  }

  /** The pins of a cascade so far, and the state they led to, one pin at a time. */
  lemma OneMore(w: World, leaves: Leaves, deps: seq<Dep>, operations: nat, faults: set<nat>)
    requires deps != []
    ensures var n := |deps| - 1;
      Cascaded(w, leaves, deps, operations, faults)
      == Step(w, Cascaded(w, leaves, deps[..n], operations, faults), Planned(leaves, deps[n]), faults)
  {
    assert Plan(leaves, deps)[..|deps| - 1] == Plan(leaves, deps[..|deps| - 1]);
  }

  lemma HomedEarlier(leaves: Leaves, deps: seq<Dep>)
    requires deps != [] && HomedPins(leaves, deps)
    ensures var n := |deps| - 1; HomedPins(leaves, deps[..n]) && Homed(leaves, deps[n].id)
  {
    var n := |deps| - 1;
    assert deps[n] in deps && forall d :: d in deps[..n] ==> d in deps;
  }

  lemma PinnedLast(deps: seq<Dep>, x: Name)
    requires deps != []
    ensures var n := |deps| - 1; Pinned(deps, x) <==> Pinned(deps[..n], x) || deps[n].id == x
  {
    var n := |deps| - 1;
    assert forall j :: 0 <= j < n ==> deps[..n][j] == deps[j];
    if j :| 0 <= j < n && deps[j].id == x {
      assert deps[..n][j].id == x;
    }
  }

  /** Exactly the leaves there before and the pinned ones are there after a cascade that went through. */
  lemma {:induction false} KeysAfter(w: World, leaves: Leaves, deps: seq<Dep>, operations: nat, faults: set<nat>)
    requires HomedPins(leaves, deps) && Cascaded(w, leaves, deps, operations, faults).ok
    ensures forall x :: x in Cascaded(w, leaves, deps, operations, faults).leaves <==> x in leaves || Pinned(deps, x)
  {
    if deps != [] {
      var n := |deps| - 1;
      OneMore(w, leaves, deps, operations, faults);
      HomedEarlier(leaves, deps);
      KeysAfter(w, leaves, deps[..n], operations, faults);
      StepHome(w, leaves, Cascaded(w, leaves, deps[..n], operations, faults), deps[n], faults);
      forall x ensures Pinned(deps, x) <==> Pinned(deps[..n], x) || deps[n].id == x {
        PinnedLast(deps, x);
      }
      hide *;
    }
  }

  // ---- when it goes through

  /** The pin is there already, or can be had and has a free place once the leaf it overrides is gone. */
  ghost predicate Fits(w: World, leaves: Leaves, deps: seq<Dep>, i: nat)
    requires i < |deps|
  {
    var d := deps[i];
    var found := FoundVersion(leaves, d.id);
    || found == Some(d.version)
    || (Supply(w, d.id, d.version).Some?
        && (found == None ==> d.id !in leaves && forall j :: 0 <= j < i ==> deps[j].id != d.id))
  }

  lemma FitsEarlier(w: World, leaves: Leaves, deps: seq<Dep>, n: nat, i: nat)
    requires i < n <= |deps|
    ensures Fits(w, leaves, deps[..n], i) == Fits(w, leaves, deps, i)
  {
    assert forall j :: 0 <= j <= i ==> deps[..n][j] == deps[j];
  }

  /** Without faults, a cascade goes through exactly when every pin fits. */
  lemma {:induction false} GoesThrough(w: World, leaves: Leaves, deps: seq<Dep>, operations: nat)
    requires HomedPins(leaves, deps)
    ensures Cascaded(w, leaves, deps, operations, {}).ok <==> forall i :: 0 <= i < |deps| ==> Fits(w, leaves, deps, i)
  {
    hide Fits;
    if deps != [] {
      var n := |deps| - 1;
      OneMore(w, leaves, deps, operations, {});
      HomedEarlier(leaves, deps);
      GoesThrough(w, leaves, deps[..n], operations);
      forall i | 0 <= i < n ensures Fits(w, leaves, deps[..n], i) == Fits(w, leaves, deps, i) {
        FitsEarlier(w, leaves, deps, n, i);
      }
      var p := Cascaded(w, leaves, deps[..n], operations, {});
      assert p.ok ==> (Step(w, p, Planned(leaves, deps[n]), {}).ok <==> Fits(w, leaves, deps, n)) by {
        if p.ok {
          StepFits(w, leaves, deps, operations);
        }
      }
      assert (forall i :: 0 <= i < |deps| ==> Fits(w, leaves, deps, i))
        <==> (forall i :: 0 <= i < n ==> Fits(w, leaves, deps, i)) && Fits(w, leaves, deps, n);
    }
  }

  lemma StepFits(w: World, leaves: Leaves, deps: seq<Dep>, operations: nat)
    requires deps != [] && HomedPins(leaves, deps)
    requires Cascaded(w, leaves, deps[..|deps| - 1], operations, {}).ok
    ensures var n := |deps| - 1;
      Step(w, Cascaded(w, leaves, deps[..n], operations, {}), Planned(leaves, deps[n]), {}).ok <==> Fits(w, leaves, deps, n)
  {
    var n := |deps| - 1;
    HomedEarlier(leaves, deps);
    KeysAfter(w, leaves, deps[..n], operations, {});
    PlannedHome(leaves, deps[n]);
    assert Pinned(deps[..n], deps[n].id) <==> exists j :: 0 <= j < n && deps[j].id == deps[n].id by {
      assert forall j :: 0 <= j < n ==> deps[..n][j] == deps[j];
    }
    hide Cascaded, HomedPins, Supply;
  }

  // ---- what each leaf is then

  ghost predicate AllSkipped(leaves: Leaves, deps: seq<Dep>, x: Name) {
    forall d :: d in deps && d.id == x ==> FoundVersion(leaves, x) == Some(d.version)
  }

  /** d was not there as pinned, so that an install of it went through. */
  ghost predicate Landed(w: World, leaves: Leaves, d: Dep, now: Leaves) {
    FoundVersion(leaves, d.id) != Some(d.version) && d.id in now && Supply(w, d.id, d.version) == Some(now[d.id])
  }

  /** x is untouched when its pins were all there, else what an install of some pin that was not there brought. */
  ghost predicate LeafIs(w: World, leaves: Leaves, deps: seq<Dep>, now: Leaves, x: Name) {
    if AllSkipped(leaves, deps, x) then SameAt(leaves, now, x)
    else exists d :: d in deps && d.id == x && Landed(w, leaves, d, now)
  }

  lemma {:induction false} LeafAfter(w: World, leaves: Leaves, deps: seq<Dep>, operations: nat, faults: set<nat>, x: Name)
    requires HomedPins(leaves, deps) && Cascaded(w, leaves, deps, operations, faults).ok
    ensures LeafIs(w, leaves, deps, Cascaded(w, leaves, deps, operations, faults).leaves, x)
  {
    if deps == [] {
      assert LeafIs(w, leaves, [], leaves, x);
    } else {
      var n := |deps| - 1;
      var before, now := Cascaded(w, leaves, deps[..n], operations, faults), Cascaded(w, leaves, deps, operations, faults).leaves;
      OneMore(w, leaves, deps, operations, faults);
      HomedEarlier(leaves, deps);
      KeysAfter(w, leaves, deps[..n], operations, faults);
      LeafAfter(w, leaves, deps[..n], operations, faults, x);
      StepHome(w, leaves, before, deps[n], faults);
      hide *;
      LeafMore(w, leaves, deps, before.leaves, now, x);
    }
  }

  lemma LeafMore(w: World, leaves: Leaves, deps: seq<Dep>, before: Leaves, now: Leaves, x: Name)
    requires deps != [] && LeafIs(w, leaves, deps[..|deps| - 1], before, x)
    requires var d := deps[|deps| - 1];
      if FoundVersion(leaves, d.id) == Some(d.version) then now == before
      else Supply(w, d.id, d.version).Some? && now == before[d.id := Supply(w, d.id, d.version).value]
    ensures LeafIs(w, leaves, deps, now, x)
  {
    var n := |deps| - 1;
    SkippedLast(leaves, deps, x);
    hide AllSkipped, FoundVersion, Supply;
    if deps[n].id == x && FoundVersion(leaves, x) != Some(deps[n].version) {
      assert deps[n] in deps && Landed(w, leaves, deps[n], now);
    } else if !AllSkipped(leaves, deps, x) {
      var d :| d in deps[..n] && d.id == x && Landed(w, leaves, d, before);
      assert d in deps && Landed(w, leaves, d, now);
    }
  }

  lemma SkippedLast(leaves: Leaves, deps: seq<Dep>, x: Name)
    requires deps != []
    ensures var n := |deps| - 1;
      AllSkipped(leaves, deps, x) <==>
        AllSkipped(leaves, deps[..n], x) && (deps[n].id == x ==> FoundVersion(leaves, x) == Some(deps[n].version))
  {
    assert deps == deps[..|deps| - 1] + [deps[|deps| - 1]];
    hide FoundVersion;
  }

  /** Leaves that are not pinned are what they were. */
  lemma UnpinnedUnchanged(w: World, leaves: Leaves, deps: seq<Dep>, operations: nat, faults: set<nat>, x: Name)
    requires HomedPins(leaves, deps) && Cascaded(w, leaves, deps, operations, faults).ok && !Pinned(deps, x)
    ensures SameAt(leaves, Cascaded(w, leaves, deps, operations, faults).leaves, x)
  {
    LeafAfter(w, leaves, deps, operations, faults, x);
    PinsPinned(deps);
  }

  lemma PinsPinned(deps: seq<Dep>)
    ensures forall d :: d in deps ==> Pinned(deps, d.id)
  {
    forall d | d in deps ensures Pinned(deps, d.id) {
      var j :| 0 <= j < |deps| && deps[j] == d;
    }
  }

  // ---- rolling back

  /** Which leaves are there after the logged changes. */
  function KeysNow(before: set<Name>, log: seq<Undo>): set<Name> {
    if log == [] then before else
    var earlier := KeysNow(before, log[..|log| - 1]);
    match log[|log| - 1]
    case Removed(id, _) => earlier - {id}
    case Installed(id) => earlier + {id}
  }

  ghost predicate Touched(log: seq<Undo>, x: Name) {
    exists u :: u in log && u.id == x
  }

  /** The change could be made after the log, and a leaf that is removed is logged at the version it had before all. */
  ghost predicate CanFollow(before: Leaves, log: seq<Undo>, u: Undo) {
    match u
    case Removed(id, version) => id in KeysNow(before.Keys, log) && id in before && VersionOf(before[id]) == Some(version)
    case Installed(id) => id !in KeysNow(before.Keys, log)
  }

  ghost predicate Consistent(before: Leaves, log: seq<Undo>) {
    forall n :: 0 <= n < |log| ==> CanFollow(before, log[..n], log[n])
  }

  /** The log tells how the leaves got from `before` to `now`. */
  ghost predicate Logged(before: Leaves, log: seq<Undo>, now: Leaves) {
    && Consistent(before, log)
    && now.Keys == KeysNow(before.Keys, log)
    && forall x :: !Touched(log, x) ==> SameAt(before, now, x)
  }

  lemma KeysMore(before: set<Name>, log: seq<Undo>, u: Undo)
    ensures KeysNow(before, log + [u]) == if u.Removed? then KeysNow(before, log) - {u.id} else KeysNow(before, log) + {u.id}
  {
    assert (log + [u])[..|log|] == log;
  }

  lemma ConsistentMore(before: Leaves, log: seq<Undo>, u: Undo)
    requires Consistent(before, log) && CanFollow(before, log, u)
    ensures Consistent(before, log + [u]) && KeysNow(before.Keys, (log + [u])[..|log|]) == KeysNow(before.Keys, log)
    ensures forall x :: Touched(log + [u], x) <==> Touched(log, x) || u.id == x
  {
    var more := log + [u];
    assert forall n :: 0 <= n <= |log| ==> more[..n] == log[..n];
    assert log[..|log|] == log;
    hide CanFollow, KeysNow;
    TouchedMore(log, u);
  }

  lemma TouchedMore(log: seq<Undo>, u: Undo)
    ensures forall x :: Touched(log + [u], x) <==> Touched(log, x) || u.id == x
  {
    forall x ensures Touched(log + [u], x) <==> Touched(log, x) || u.id == x {
      assert u in log + [u] && forall v :: v in log ==> v in log + [u];
    }
  }

  lemma EarlierConsistent(before: Leaves, log: seq<Undo>)
    requires log != [] && Consistent(before, log)
    ensures var n := |log| - 1; Consistent(before, log[..n]) && CanFollow(before, log[..n], log[n])
    ensures forall x :: Touched(log, x) <==> Touched(log[..|log| - 1], x) || log[|log| - 1].id == x
  {
    hide CanFollow;
    var n := |log| - 1;
    assert forall k :: 0 <= k <= n ==> log[..n][..k] == log[..k];
    TouchedMore(log[..n], log[n]);
    assert log[..n] + [log[n]] == log;
  }

  lemma LogRemoved(before: Leaves, log: seq<Undo>, now: Leaves, id: Name, version: Version)
    requires Logged(before, log, now) && id in now && id in before && VersionOf(before[id]) == Some(version)
    ensures Logged(before, log + [Removed(id, version)], now - {id})
  {
    ConsistentMore(before, log, Removed(id, version));
    KeysMore(before.Keys, log, Removed(id, version));
    hide Consistent, Touched, KeysNow;
    forall x | !Touched(log, x) && x != id ensures SameAt(before, now - {id}, x) {
      assert SameAt(before, now, x);
    }
  }

  lemma LogInstalled(before: Leaves, log: seq<Undo>, now: Leaves, id: Name, leaf: Leaf)
    requires Logged(before, log, now) && id !in now
    ensures Logged(before, log + [Installed(id)], now[id := leaf])
  {
    ConsistentMore(before, log, Installed(id));
    KeysMore(before.Keys, log, Installed(id));
    hide Consistent, Touched, KeysNow;
    var after := now[id := leaf];
    forall x | !Touched(log, x) && x != id ensures SameAt(before, after, x) {
      assert SameAt(before, now, x);
    }
  }

  /** However the cascade ends, its log tells what it did, to pinned leaves only. */
  lemma {:induction false} CascadeLogs(w: World, leaves: Leaves, deps: seq<Dep>, operations: nat, faults: set<nat>)
    requires HomedPins(leaves, deps)
    ensures var end := Cascaded(w, leaves, deps, operations, faults);
      Logged(leaves, end.log, end.leaves) && forall x :: Touched(end.log, x) ==> Pinned(deps, x)
  {
    if deps == [] {
      assert Touched([], "") == false;
    } else {
      var n := |deps| - 1;
      OneMore(w, leaves, deps, operations, faults);
      HomedEarlier(leaves, deps);
      CascadeLogs(w, leaves, deps[..n], operations, faults);
      PlannedHome(leaves, deps[n]);
      forall x ensures Pinned(deps, x) <==> Pinned(deps[..n], x) || deps[n].id == x {
        PinnedLast(deps, x);
      }
      var p := Cascaded(w, leaves, deps[..n], operations, faults);
      if p.ok {
        KeysAfter(w, leaves, deps[..n], operations, faults);
        StepLogs(w, leaves, p, Planned(leaves, deps[n]), faults);
      }
    }
  }

  lemma StepLogs(w: World, before: Leaves, p: Progress, s: PlanStep, faults: set<nat>)
    requires p.ok && Logged(before, p.log, p.leaves) && before.Keys <= p.leaves.Keys
    requires s.action.Override? ==> s.id in before && VersionOf(before[s.id]) == Some(s.action.existing)
    ensures var end := Step(w, p, s, faults);
      Logged(before, end.log, end.leaves) && forall x :: Touched(end.log, x) ==> Touched(p.log, x) || x == s.id
  {
    hide Logged, Touched;
    var next := p;
    if s.action.Override? {
      LogRemoved(before, p.log, p.leaves, s.id, s.action.existing);
      TouchedMore(p.log, Removed(s.id, s.action.existing));
      next := Progress(p.leaves - {s.id}, p.log + [Removed(s.id, s.action.existing)], p.operations + 1, true);
    }
    if s.id !in next.leaves && Supply(w, s.id, s.version).Some? {
      LogInstalled(before, next.log, next.leaves, s.id, Supply(w, s.id, s.version).value);
      TouchedMore(next.log, Installed(s.id));
    }
  }

  /** An install of the version the leaf had brings the very leaf back. */
  ghost predicate Returns(w: World, before: Leaves, id: Name, version: Version) {
    id in before && Supply(w, id, version) == Some(before[id])
  }

  ghost predicate AllReturn(w: World, before: Leaves, log: seq<Undo>) {
    forall u :: u in log && u.Removed? ==> Returns(w, before, u.id, u.version)
  }

  /** While undoing: the leaves the rest of the log says are there, as before where it does not touch them. */
  ghost predicate Restoring(before: Leaves, log: seq<Undo>, now: Leaves) {
    Logged(before, log, now) && (log == [] ==> now == before)
  }

  lemma LoggedRestoring(before: Leaves, log: seq<Undo>, now: Leaves)
    requires Logged(before, log, now)
    ensures Restoring(before, log, now)
  {
    if log == [] {
      forall x ensures SameAt(before, now, x) {
        assert !Touched(log, x);
      }
      SameMaps(before, now);
    }
  }

  lemma {:induction false} UntouchedKeys(before: set<Name>, log: seq<Undo>, x: Name)
    requires !Touched(log, x)
    ensures x in KeysNow(before, log) <==> x in before
  {
    if log != [] {
      var n := |log| - 1;
      TouchedMore(log[..n], log[n]);
      assert log[..n] + [log[n]] == log;
      UntouchedKeys(before, log[..n], x);
    }
  }

  /** Undoing the last change that was logged, when what it took away comes back. */
  lemma UndoReturns(w: World, before: Leaves, log: seq<Undo>, now: Leaves)
    requires log != [] && Logged(before, log, now)
    requires var u := log[|log| - 1]; u.Removed? ==> Returns(w, before, u.id, u.version)
    ensures Logged(before, log[..|log| - 1], UndoneOne(w, now, log[|log| - 1]))
  {
    var n := |log| - 1;
    var rest, u := log[..n], log[n];
    EarlierConsistent(before, log);
    KeysMore(before.Keys, rest, u);
    assert rest + [u] == log;
    UndoneKeys(w, before, now, rest, u);
    assert u.Installed? ==> u.id !in KeysNow(before.Keys, rest);
    hide Consistent, Touched, KeysNow, UndoneOne, CanFollow;
    var after := UndoneOne(w, now, u);
    forall x | !Touched(rest, x) ensures SameAt(before, after, x) {
      UntouchedKeys(before.Keys, rest, x);
      if x != u.id {
        assert SameAt(before, now, x);
      }
    }
  }

  lemma UndoneKeys(w: World, before: Leaves, now: Leaves, rest: seq<Undo>, u: Undo)
    requires CanFollow(before, rest, u) && (u.Removed? ==> Returns(w, before, u.id, u.version))
    requires now.Keys == if u.Removed? then KeysNow(before.Keys, rest) - {u.id} else KeysNow(before.Keys, rest) + {u.id}
    ensures UndoneOne(w, now, u) == if u.Removed? then now[u.id := before[u.id]] else now - {u.id}
    ensures UndoneOne(w, now, u).Keys == KeysNow(before.Keys, rest)
  {
    hide KeysNow, Supply;
  }

  lemma {:induction false} AllReturned(w: World, before: Leaves, log: seq<Undo>, now: Leaves, operations: nat)
    requires Logged(before, log, now) && AllReturn(w, before, log)
    ensures Undone(w, now, log, operations, {}) == before
    decreases |log|
  {
    LoggedRestoring(before, log, now);
    if log != [] {
      var n := |log| - 1;
      assert log[n] in log && forall u :: u in log[..n] ==> u in log;
      UndoReturns(w, before, log, now);
      AllReturned(w, before, log[..n], UndoneOne(w, now, log[n]), operations + 1);
    }
  }

  lemma {:induction false} UndoneKeeps(w: World, leaves: Leaves, log: seq<Undo>, operations: nat, faults: set<nat>, x: Name)
    requires !Touched(log, x) && (x in leaves && leaves[x].Leaf? ==> !Touched(log, leaves[x].name))
    ensures SameAt(leaves, Undone(w, leaves, log, operations, faults), x)
    decreases |log|
  {
    if log != [] {
      var n := |log| - 1;
      TouchedMore(log[..n], log[n]);
      assert log[..n] + [log[n]] == log;
      var after := if operations in faults then leaves else UndoneOne(w, leaves, log[n]);
      assert SameAt(leaves, after, x) by {
        hide Touched, Supply;
      }
      UndoneKeeps(w, after, log[..n], operations + 1, faults, x);
    }
  }

  lemma {:induction false} StillThere(before: Leaves, log: seq<Undo>, x: Name)
    requires Consistent(before, log) && x in before && forall u :: u in log ==> !(u.Removed? && u.id == x)
    ensures x in KeysNow(before.Keys, log) && !Touched(log, x)
  {
    if log != [] {
      var n := |log| - 1;
      EarlierConsistent(before, log);
      assert log[n] in log && forall u :: u in log[..n] ==> u in log;
      StillThere(before, log[..n], x);
      hide Consistent, Touched;
    }
  }

  lemma UndoneBelow(w: World, before: Leaves, leaves: Leaves, log: seq<Undo>)
    requires log != [] && Consistent(before, log) && leaves.Keys <= KeysNow(before.Keys, log)
    ensures UndoneOne(w, leaves, log[|log| - 1]).Keys <= KeysNow(before.Keys, log[..|log| - 1])
  {
    var n := |log| - 1;
    EarlierConsistent(before, log);
    KeysMore(before.Keys, log[..n], log[n]);
    assert log[..n] + [log[n]] == log;
    hide *;
    UndoneWithin(w, before, leaves, log[..n], log[n]);
  }

  lemma UndoneWithin(w: World, before: Leaves, leaves: Leaves, rest: seq<Undo>, u: Undo)
    requires CanFollow(before, rest, u)
    requires leaves.Keys <= if u.Removed? then KeysNow(before.Keys, rest) - {u.id} else KeysNow(before.Keys, rest) + {u.id}
    ensures UndoneOne(w, leaves, u).Keys <= KeysNow(before.Keys, rest)
  {
    hide KeysNow, Supply;
    var after := UndoneOne(w, leaves, u);
    assert u.Installed? ==> u.id !in after;
  }

  /** A leaf that was removed ends as its reinstall brings it, or gone. */
  lemma {:induction false} RemovedEnds(w: World, before: Leaves, leaves: Leaves, log: seq<Undo>, operations: nat, x: Name, version: Version)
    requires Consistent(before, log) && leaves.Keys <= KeysNow(before.Keys, log) && Removed(x, version) in log
    ensures var end := Undone(w, leaves, log, operations, {}); x in end ==> Supply(w, x, version) == Some(end[x])
    decreases |log|
  {
    var n := |log| - 1;
    var rest, u, after := log[..n], log[n], UndoneOne(w, leaves, log[n]);
    UndoneBelow(w, before, leaves, log);
    EarlierConsistent(before, log);
    assert log == rest + [u];
    if Removed(x, version) in rest {
      hide *;
      RemovedEnds(w, before, after, rest, operations + 1, x, version);
      UndoneStep(w, leaves, log, operations);
    } else {
      assert u == Removed(x, version);
      assert forall v :: v in rest ==> !(v.Removed? && v.id == x) by {
        RemovedOnce(before, rest, x, version);
      }
      StillThere(before, rest, x);
      KeysMore(before.Keys, rest, u);
      assert x in after ==> Supply(w, x, version) == Some(after[x]);
      hide Supply, KeysNow, UndoneOne, Undone, Consistent;
      UndoneGone(w, after, rest, operations + 1, x);
      UndoneStep(w, leaves, log, operations);
    }
  }

  lemma UndoneStep(w: World, leaves: Leaves, log: seq<Undo>, operations: nat)
    requires log != []
    ensures var n := |log| - 1;
      Undone(w, leaves, log, operations, {}) == Undone(w, UndoneOne(w, leaves, log[n]), log[..n], operations + 1, {})
  {
  }

  lemma RemovedOnce(before: Leaves, log: seq<Undo>, x: Name, version: Version)
    requires Consistent(before, log) && x in before && VersionOf(before[x]) == Some(version) && Removed(x, version) !in log
    ensures forall v :: v in log ==> !(v.Removed? && v.id == x)
  {
    forall v | v in log && v.Removed? ensures v.id != x {
      var k :| 0 <= k < |log| && log[k] == v;
      assert CanFollow(before, log[..k], log[k]);
    }
  }

  /** What is left to undo cannot bring back or change a leaf it does not touch. */
  lemma {:induction false} UndoneGone(w: World, leaves: Leaves, log: seq<Undo>, operations: nat, x: Name)
    requires !Touched(log, x)
    ensures var end := Undone(w, leaves, log, operations, {}); x in end ==> x in leaves && end[x] == leaves[x]
    decreases |log|
  {
    if log != [] {
      var n := |log| - 1;
      TouchedMore(log[..n], log[n]);
      assert log[..n] + [log[n]] == log;
      var after := UndoneOne(w, leaves, log[n]);
      assert x in after ==> x in leaves && after[x] == leaves[x] by {
        hide Touched, Supply;
      }
      UndoneGone(w, after, log[..n], operations + 1, x);
    }
  }

  /** A rollback without faults restores the leaves exactly when a reinstall of each one that was removed brings it back. */
  lemma RollbackRestores(w: World, leaves: Leaves, deps: seq<Dep>, operations: nat, faults: set<nat>)
    requires HomedPins(leaves, deps)
    ensures var end := Cascaded(w, leaves, deps, operations, faults);
      Undone(w, end.leaves, end.log, end.operations, {}) == leaves <==> AllReturn(w, leaves, end.log)
  {
    var end := Cascaded(w, leaves, deps, operations, faults);
    CascadeLogs(w, leaves, deps, operations, faults);
    if AllReturn(w, leaves, end.log) {
      AllReturned(w, leaves, end.log, end.leaves, end.operations);
    } else {
      var u :| u in end.log && u.Removed? && !Returns(w, leaves, u.id, u.version);
      RemovedEnds(w, leaves, end.leaves, end.log, end.operations, u.id, u.version);
      var k :| 0 <= k < |end.log| && end.log[k] == u;
      assert CanFollow(leaves, end.log[..k], u);
    }
  }

  /** Whatever fails, in the cascade or in its rollback: a leaf that is not pinned stays, unless its manifest gives a pinned id. */
  lemma RollbackKeeps(w: World, leaves: Leaves, deps: seq<Dep>, operations: nat, faults: set<nat>, undoFaults: set<nat>, x: Name)
    requires HomedPins(leaves, deps) && !Pinned(deps, x)
    requires x in leaves && leaves[x].Leaf? ==> !Pinned(deps, leaves[x].name)
    ensures var end := Cascaded(w, leaves, deps, operations, faults);
      SameAt(leaves, Undone(w, end.leaves, end.log, end.operations, undoFaults), x)
  {
    var end := Cascaded(w, leaves, deps, operations, faults);
    CascadeLogs(w, leaves, deps, operations, faults);
    UndoneKeeps(w, end.leaves, end.log, end.operations, undoFaults, x);
  }

  // ---- the same, asked before the install

  /** The pin overrides the leaf that the log entry removes. */
  ghost predicate Overrides(leaves: Leaves, deps: seq<Dep>, u: Undo) {
    u.Removed? && exists j :: 0 <= j < |deps| && deps[j].id == u.id && Planned(leaves, deps[j]).action == Override(u.version)
  }

  lemma OverridesLast(leaves: Leaves, deps: seq<Dep>, u: Undo)
    requires deps != []
    ensures var n := |deps| - 1;
      Overrides(leaves, deps, u) <==>
        || Overrides(leaves, deps[..n], u)
        || (u.Removed? && deps[n].id == u.id && Planned(leaves, deps[n]).action == Override(u.version))
  {
    var n := |deps| - 1;
    assert forall j :: 0 <= j < n ==> deps[..n][j] == deps[j];
    hide Planned;
    if Overrides(leaves, deps, u) {
      var j :| 0 <= j < |deps| && deps[j].id == u.id && Planned(leaves, deps[j]).action == Override(u.version);
      assert j < n ==> deps[..n][j].id == u.id;
    }
    if Overrides(leaves, deps[..n], u) {
      var j :| 0 <= j < n && deps[..n][j].id == u.id && Planned(leaves, deps[..n][j]).action == Override(u.version);
      assert deps[j].id == u.id;
    }
  }

  lemma {:induction false} RemovedAreOverridden(w: World, leaves: Leaves, deps: seq<Dep>, operations: nat, u: Undo)
    requires HomedPins(leaves, deps) && u.Removed?
    requires deps != [] ==> Cascaded(w, leaves, deps[..|deps| - 1], operations, {}).ok
    ensures u in Cascaded(w, leaves, deps, operations, {}).log <==> Overrides(leaves, deps, u)
  {
    if deps != [] {
      var n := |deps| - 1;
      OneMore(w, leaves, deps, operations, {});
      HomedEarlier(leaves, deps);
      if n > 0 {
        OneMore(w, leaves, deps[..n], operations, {});
        assert deps[..n][..n - 1] == deps[..n - 1];
      }
      RemovedAreOverridden(w, leaves, deps[..n], operations, u);
      OverridesLast(leaves, deps, u);
      KeysAfter(w, leaves, deps[..n], operations, {});
      StepRemoves(w, leaves, Cascaded(w, leaves, deps[..n], operations, {}), deps[n], u);
      hide *;
    }
  }

  lemma StepRemoves(w: World, before: Leaves, p: Progress, d: Dep, u: Undo)
    requires Homed(before, d.id) && p.ok && before.Keys <= p.leaves.Keys && u.Removed?
    ensures u in Step(w, p, Planned(before, d), {}).log <==>
      || u in p.log
      || (d.id == u.id && Planned(before, d).action == Override(u.version))
  {
    PlannedHome(before, d);
    hide Supply, Homed, Planned;
  }

  /** The first pin that does not fit stops an install without faults; it then changes nothing exactly when
      every leaf that this pin and those before it override can be had again. */
  lemma StoppedRestores(w: World, leaves: Leaves, deps: seq<Dep>, operations: nat, i: nat)
    requires HomedPins(leaves, deps) && i < |deps| && !Fits(w, leaves, deps, i) && forall j :: 0 <= j < i ==> Fits(w, leaves, deps, j)
    ensures var end := Cascaded(w, leaves, deps, operations, {});
      && !end.ok
      && (Undone(w, end.leaves, end.log, end.operations, {}) == leaves
          <==> forall u :: Overrides(leaves, deps[..i + 1], u) ==> Returns(w, leaves, u.id, u.version))
  {
    var end := Cascaded(w, leaves, deps, operations, {});
    var tried := deps[..i + 1];
    assert tried[..i] == deps[..i];
    assert HomedPins(leaves, tried) && HomedPins(leaves, deps[..i]);
    forall j | 0 <= j <= i ensures Fits(w, leaves, tried, j) == Fits(w, leaves, deps, j) && (j < i ==> Fits(w, leaves, deps[..i], j)) {
      FitsEarlier(w, leaves, deps, i + 1, j);
      if j < i {
        FitsEarlier(w, leaves, deps, i, j);
      }
    }
    GoesThrough(w, leaves, tried, operations);
    GoesThrough(w, leaves, deps[..i], operations);
    assert Plan(leaves, deps)[..i + 1] == Plan(leaves, tried);
    FailedStays(w, Started(leaves, operations), Plan(leaves, deps), i + 1, {});
    RollbackRestores(w, leaves, deps, operations, {});
    forall u: Undo | u.Removed? ensures u in end.log <==> Overrides(leaves, tried, u) {
      RemovedAreOverridden(w, leaves, tried, operations, u);
    }
  }
}
