/** What stands above a procedure: who links it, transitively, and by which chains. */
module Upstream {
  import opened LinkGraph
  import opened Ordering
  import opened Procedures
  import opened Sets
  import opened Outcomes

  /** links points from a procedure to the ones whose steps link it. */
  ghost predicate ParentsOf(lib: Library, links: Graph) {
    forall a, b :: Edge(links, b, a) <==> Edge(Links(lib), a, b)
  }

  lemma WithEdgeEdges(g: Graph, a: Id, b: Id)
    ensures forall x, y :: Edge(WithEdge(g, a, b), x, y) <==> Edge(g, x, y) || (x == a && y == b)
  {
  }

  method ParentLinks(lib: Library) returns (links: Graph)
    ensures ParentsOf(lib, links)
  {
    links := map[];
    var left := lib.Keys;
    while left != {}
      invariant left <= lib.Keys
      invariant forall a, b :: Edge(links, b, a) <==> a !in left && Edge(Links(lib), a, b)
    {
      var a :| a in left;
      var steps := lib[a];
      ghost var before := links;
      for i := 0 to |steps|
        invariant forall x, b :: Edge(links, b, x) <==>
          Edge(before, b, x) || (x == a && LinkedBefore(steps, i, b))
      {
        assert forall b :: LinkedBefore(steps, i + 1, b) <==> LinkedBefore(steps, i, b) || steps[i].link == Some(b);
        if steps[i].link.Some? {
          WithEdgeEdges(links, steps[i].link.value, a);
          links := WithEdge(links, steps[i].link.value, a);
        }
      }
      left := left - {a};
      forall x, b ensures Edge(links, b, x) <==> x !in left && Edge(Links(lib), x, b) {
        LinkEdge(lib, x, b);
        if x == a && Edge(Links(lib), a, b) {
          var s :| s in steps && s.link == Some(b);
          var k :| 0 <= k < |steps| && steps[k] == s;
        }
      }
    }
  }

  /** The procedures that link to id, transitively, id itself aside. */
  ghost function Above(links: Graph, id: Id): set<Id> {
    set x | x in Nodes(links) && x != id && Leads(links, id, x)
  }

  lemma AboveHas(links: Graph, id: Id, x: Id)
    ensures x in Above(links, id) <==> x != id && Leads(links, id, x)
  {
    if Leads(links, id, x) {
      var c := LeadsLast(links, id, x);
    }
  }

  /** How much of the library sinks into a procedure. */
  method Gravity(id: Id, links: Graph) returns (n: nat)
    ensures n == |Above(links, id)|
  {
    var seen: set<Id> := {};
    var frontier := [id];
    while frontier != []
      invariant seen <= Above(links, id)
      invariant forall x :: x in frontier ==> x in seen + {id}
      invariant forall a, b :: a in seen + {id} && a !in frontier && Edge(links, a, b) ==> b in seen + {id}
      decreases Above(links, id) - seen, |frontier|
    {
      ghost var waiting := frontier;
      var current := frontier[|frontier| - 1];
      assert current in frontier && current in seen + {id};
      frontier := frontier[..|frontier| - 1];
      assert waiting == frontier + [current];
      var left := if current in links then links[current] else {};
      ghost var before := seen;
      ghost var popped := frontier;
      while left != {}
        invariant left <= if current in links then links[current] else {}
        invariant before <= seen <= Above(links, id)
        invariant popped <= frontier && (frontier == popped || before < seen)
        invariant forall x :: x in frontier ==> x in seen + {id}
        invariant forall x :: x in seen - before ==> x in frontier
        invariant forall b :: Edge(links, current, b) && b !in left ==> b in seen + {id}
      {
        var parent :| parent in left;
        left := left - {parent};
        if parent !in seen && parent != id {
          EdgeLeads(links, current, parent);
          AboveHas(links, id, current);
          if current != id {
            LeadsTrans(links, id, current, parent);
          }
          AboveHas(links, id, parent);
          seen := seen + {parent};
          frontier := frontier + [parent];
        }
      }
    }
    forall x | x in Above(links, id) ensures x in seen {
      AboveHas(links, id, x);
      var p :| Chain(links, id, x, p);
      ClosedHolds(links, id, x, seen + {id}, p);
    }
    assert seen == Above(links, id);
    return |seen|;
  }

  function Reverse<T>(s: seq<T>): (r: seq<T>)
    ensures |r| == |s| && forall i :: 0 <= i < |s| ==> r[i] == s[|s| - 1 - i]
  {
    seq(|s|, i requires 0 <= i < |s| => s[|s| - 1 - i])
  }

  /** Climbs run upwards from the procedure; a chain is a climb read from its top. */
  function RootFirst(climbs: seq<seq<Id>>): (chains: seq<seq<Id>>)
    ensures |chains| == |climbs|
  {
    seq(|climbs|, i requires 0 <= i < |climbs| => Reverse(climbs[i]))
  }

  /** A climb that can go no further: nobody outside it links its top. */
  ghost predicate Maximal(links: Graph, p: seq<Id>) {
    IsPath(links, p) && Distinct(p) && forall x :: Edge(links, p[|p| - 1], x) ==> x in p
  }

  /** Exactly the finished climbs that start the way path does, each once. */
  ghost predicate Climbs(links: Graph, path: seq<Id>, found: seq<seq<Id>>) {
    (forall q :: q in found <==> |q| > 1 && path <= q && Maximal(links, q)) && Distinct(found)
  }

  /** The part of Climbs that goes through the parents dealt with so far. */
  ghost predicate ClimbsVia(links: Graph, path: seq<Id>, done: set<Id>, found: seq<seq<Id>>) {
    (forall q :: q in found <==> |q| > 1 && Via(path, done, q) && Maximal(links, q)) && Distinct(found)
  }

  /** q starts like path and then goes to one of these parents. */
  ghost predicate Via(path: seq<Id>, done: set<Id>, q: seq<Id>) {
    |q| > |path| && path <= q && q[|path|] in done
  }

  /** The climbs part at some step, and the first goes to the name sorted before. */
  ghost predicate GoesBefore(p: seq<Id>, q: seq<Id>) {
    exists k: nat :: PartsAt(p, q, k)
  }

  predicate PartsAt(p: seq<Id>, q: seq<Id>, k: nat) {
    k < |p| && k < |q| && p[..k] == q[..k] && p[k] != q[k] && Below(p[k].name, q[k].name)
  }

  ghost predicate InClimbOrder(found: seq<seq<Id>>) {
    forall i, j :: 0 <= i < j < |found| ==> GoesBefore(found[i], found[j])
  }

  /** The climbs through the parents dealt with so far, in order; those parents are the first n names. */
  ghost predicate ClimbsUpTo(links: Graph, path: seq<Id>, names: seq<string>, n: nat, found: seq<seq<Id>>)
    requires n <= |names|
  {
    ClimbsVia(links, path, Named(names[..n]), found) && InClimbOrder(found)
  }

  function Named(names: seq<string>): set<Id> {
    set name | name in names :: Id(name)
  }

  class Chains {
    var chains: seq<seq<Id>>

    constructor ()
      ensures chains == []
    {
      chains := [];
    }

    /** Every call appends to the one list of chains. */
    method Climb(links: Graph, path: seq<Id>) returns (ghost added: seq<seq<Id>>)
      requires path != [] && IsPath(links, path) && Distinct(path)
      modifies this
      ensures chains == old(chains) + RootFirst(added) && Climbs(links, path, added) && InClimbOrder(added)
      decreases Nodes(links) - set x | x in path
    {
      hide *;
      added := [];
      var parents := ParentsOff(links, path);
      if parents == {} {
        FullPath(links, path);
        OneInOrder(path);
        if |path| > 1 {
          added := [path];
          chains := chains + [Reverse(path)];
        }
        assert RootFirst(added) == if |path| > 1 then [Reverse(path)] else [] by { OneRootFirst(path); }
        return;
      }
      var names := Sorted(set p | p in parents :: p.name);
      NoneUpTo(links, path, names);
      for n := 0 to |names|
        invariant chains == old(chains) + RootFirst(added)
        invariant ClimbsUpTo(links, path, names, n, added)
      {
        var parent := Id(names[n]);
        NameIsParent(parents, names, n);
        NextClimb(links, path, parent);
        var more := Climb(links, path + [parent]);
        JoinUpTo(links, path, names, n, added, more);
        added := added + more;
      }
      AllNamed(parents, names);
      AllUpTo(links, path, names, added);
    }
  }

  lemma OneInOrder(path: seq<Id>)
    ensures InClimbOrder([path]) && InClimbOrder([])
  {
  }

  lemma NoneUpTo(links: Graph, path: seq<Id>, names: seq<string>)
    ensures ClimbsUpTo(links, path, names, 0, []) && RootFirst([]) == []
  {
    NoClimbs(links, path);
    assert Named(names[..0]) == {};
  }

  lemma NameIsParent(parents: set<Id>, names: seq<string>, n: nat)
    requires names == Sorted(set p | p in parents :: p.name) && n < |names|
    ensures Id(names[n]) in parents
  {
    assert names[n] in names;
    var p :| p in parents && p.name == names[n];
    assert p == Id(names[n]);
  }

  lemma AllNamed(parents: set<Id>, names: seq<string>)
    requires names == Sorted(set p | p in parents :: p.name)
    ensures Named(names) == parents && InOrder(names)
  {
    forall x
      ensures x in Named(names) <==> x in parents
    {
      if x in parents {
        assert x.name in names && x == Id(x.name);
      }
      if x in Named(names) {
        var p :| p in parents && p.name == x.name;
        assert p == Id(p.name) && x == Id(x.name);
      }
    }
  }

  lemma JoinUpTo(links: Graph, path: seq<Id>, names: seq<string>, n: nat, added: seq<seq<Id>>, more: seq<seq<Id>>)
    requires n < |names| && InOrder(names)
    requires ClimbsUpTo(links, path, names, n, added) && Climbs(links, path + [Id(names[n])], more) && InClimbOrder(more)
    ensures ClimbsUpTo(links, path, names, n + 1, added + more)
    ensures RootFirst(added + more) == RootFirst(added) + RootFirst(more)
  {
    hide Climbs, ClimbsVia, InClimbOrder, InOrder, RootFirst, Named;
    NamedMore(names, n);
    JoinClimbs(links, path, Named(names[..n]), Id(names[n]), added, more);
    JoinOrder(links, path, names, n, added, more);
  }

  lemma NamedMore(names: seq<string>, n: nat)
    requires n < |names| && InOrder(names)
    ensures Named(names[..n + 1]) == Named(names[..n]) + {Id(names[n])} && Id(names[n]) !in Named(names[..n])
  {
    assert names[..n + 1] == names[..n] + [names[n]];
    forall k | 0 <= k < n
      ensures names[..n][k] != names[n]
    {
    }
  }

  lemma JoinOrder(links: Graph, path: seq<Id>, names: seq<string>, n: nat, added: seq<seq<Id>>, more: seq<seq<Id>>)
    requires n < |names| && InOrder(names) && InClimbOrder(added) && InClimbOrder(more)
    requires ClimbsVia(links, path, Named(names[..n]), added) && Climbs(links, path + [Id(names[n])], more)
    ensures InClimbOrder(added + more)
  {
    hide Maximal, Distinct, GoesBefore;
    forall i, j | 0 <= i < |added| && 0 <= j < |more|
      ensures GoesBefore(added[i], more[j])
    {
      PartsHere(path, names, n, added[i], more[j]);
    }
    forall i, j | 0 <= i < j < |added + more|
      ensures GoesBefore((added + more)[i], (added + more)[j])
    {
      if i < |added| <= j {
        assert GoesBefore(added[i], more[j - |added|]);
      } else if i >= |added| {
        assert GoesBefore(more[i - |added|], more[j - |added|]);
      }
    }
  }

  lemma PartsHere(path: seq<Id>, names: seq<string>, n: nat, p: seq<Id>, q: seq<Id>)
    requires n < |names| && InOrder(names) && Via(path, Named(names[..n]), p) && path + [Id(names[n])] <= q
    ensures GoesBefore(p, q)
  {
    var k := |path|;
    var name :| name in names[..n] && p[k] == Id(name);
    assert q[k] == Id(names[n]) && p[..k] == path == q[..k];
    assert PartsAt(p, q, k);
  }

  lemma AllUpTo(links: Graph, path: seq<Id>, names: seq<string>, added: seq<seq<Id>>)
    requires path != [] && ParentsOff(links, path) != {} && Named(names) == ParentsOff(links, path)
    requires ClimbsUpTo(links, path, names, |names|, added)
    ensures Climbs(links, path, added) && InClimbOrder(added)
  {
    assert names[..|names|] == names;
    hide ClimbsVia, Climbs, InClimbOrder, ParentsOff;
    AllParents(links, path, added);
  }

  /** The parents of the path's top that are not on the path yet. */
  function ParentsOff(links: Graph, path: seq<Id>): set<Id>
    requires path != []
  {
    var node := path[|path| - 1];
    set p | p in (if node in links then links[node] else {}) && p !in path
  }

  lemma OneRootFirst(path: seq<Id>)
    ensures RootFirst([path]) == [Reverse(path)] && RootFirst([]) == []
  {
  }

  lemma NoClimbs(links: Graph, path: seq<Id>)
    ensures ClimbsVia(links, path, {}, []) && RootFirst([]) == []
  {
  }

  lemma NextClimb(links: Graph, path: seq<Id>, parent: Id)
    requires IsPath(links, path) && Distinct(path) && parent in ParentsOff(links, path)
    ensures IsPath(links, path + [parent]) && Distinct(path + [parent])
    ensures Nodes(links) - (set x | x in path + [parent]) < Nodes(links) - set x | x in path
  {
    PathExtend(links, path, parent);
    assert forall x :: x in path + [parent] <==> x in path || x == parent;
    assert parent in Nodes(links) - set x | x in path;
  }

  lemma StepsOut(links: Graph, path: seq<Id>, q: seq<Id>)
    requires path != [] && path < q && Maximal(links, q)
    ensures q[|path|] in ParentsOff(links, path)
  {
    assert Edge(links, q[|path| - 1], q[|path|]);
    assert forall k :: 0 <= k < |path| ==> q[k] == path[k];
  }

  lemma FullPath(links: Graph, path: seq<Id>)
    requires IsPath(links, path) && Distinct(path) && ParentsOff(links, path) == {}
    ensures Climbs(links, path, if |path| > 1 then [path] else [])
  {
    forall x | Edge(links, path[|path| - 1], x) ensures x in path {
      assert x !in ParentsOff(links, path);
    }
    forall q | path <= q && Maximal(links, q) ensures q == path {
      if |q| > |path| {
        StepsOut(links, path, q);
      }
    }
  }

  lemma DistinctJoin<T>(a: seq<T>, b: seq<T>)
    requires Distinct(a) && Distinct(b) && forall x :: x in a ==> x !in b
    ensures Distinct(a + b)
  {
    forall i, j | 0 <= i < j < |a + b| ensures (a + b)[i] != (a + b)[j] {
      if i < |a| <= j {
        assert a[i] in a && b[j - |a|] in b;
      }
    }
  }

  lemma JoinClimbs(links: Graph, path: seq<Id>, done: set<Id>, parent: Id, added: seq<seq<Id>>, more: seq<seq<Id>>)
    requires parent !in done && Climbs(links, path + [parent], more) && ClimbsVia(links, path, done, added)
    ensures ClimbsVia(links, path, done + {parent}, added + more)
    ensures RootFirst(added + more) == RootFirst(added) + RootFirst(more)
  {
    hide Maximal, Distinct;
    forall q ensures path + [parent] <= q <==> Via(path, {parent}, q) {
    }
    DistinctJoin(added, more);
  }

  lemma AllParents(links: Graph, path: seq<Id>, added: seq<seq<Id>>)
    requires path != [] && ParentsOff(links, path) != {} && ClimbsVia(links, path, ParentsOff(links, path), added)
    ensures Climbs(links, path, added)
  {
    var x :| x in ParentsOff(links, path);
    assert !Maximal(links, path);
    forall q | Maximal(links, q) ensures path <= q <==> Via(path, ParentsOff(links, path), q) {
      if path <= q {
        assert |q| == |path| ==> q == path;
        StepsOut(links, path, q);
      }
    }
  }

  /** A chain above id, root first: it ends at id, meets nobody twice, and nobody outside it links its root. */
  ghost predicate IsChain(lib: Library, id: Id, c: seq<Id>) {
    && |c| > 1 && c[|c| - 1] == id && IsPath(Links(lib), c) && Distinct(c)
    && forall x :: Edge(Links(lib), x, c[0]) ==> x in c
  }

  lemma ClimbIsChain(lib: Library, links: Graph, id: Id, q: seq<Id>)
    requires ParentsOf(lib, links) && q != []
    ensures |q| > 1 && [id] <= q && Maximal(links, q) <==> IsChain(lib, id, Reverse(q))
  {
    var c := Reverse(q);
    assert forall x :: x in c <==> x in q by {
      forall i | 0 <= i < |q| ensures q[i] in c && c[i] in q {
        assert q[i] == c[|q| - 1 - i];
      }
    }
    if IsPath(links, q) {
      forall i, j | 0 <= i < |c| && 0 <= j < |c| && j == i + 1 ensures Edge(Links(lib), c[i], c[j]) {
        assert Edge(links, q[|q| - 1 - j], q[|q| - 1 - i]);
      }
    }
    if IsPath(Links(lib), c) {
      forall i, j | 0 <= i < |q| && 0 <= j < |q| && j == i + 1 ensures Edge(links, q[i], q[j]) {
        assert c[|c| - 1 - j] == q[j] && c[|c| - 1 - i] == q[i];
        assert Edge(Links(lib), c[|c| - 1 - j], c[|c| - 1 - i]);
      }
    }
    ReverseDistinct(q);
    ReverseDistinct(c);
    ReverseTwice(q);
  }

  lemma ReverseTwice<T>(s: seq<T>)
    ensures Reverse(Reverse(s)) == s
  {
  }

  lemma ReverseDistinct<T>(s: seq<T>)
    ensures Distinct(s) ==> Distinct(Reverse(s))
  {
  }

  /** Chains listed from the last, as the climb finds them. */
  ghost predicate InChainOrder(chains: seq<seq<Id>>) {
    forall i, j :: 0 <= i < j < |chains| ==> GoesBefore(Reverse(chains[i]), Reverse(chains[j]))
  }

  const SHOWN: nat := 12

  /** Every chain above a procedure, in the order of the names upwards, and what is read off them. */
  method ChainsAbove(lib: Library, id: Id)
      returns (chains: seq<seq<Id>>, shown: seq<seq<Id>>, orphan: bool, roots: set<Id>, depth: nat)
    ensures forall c :: c in chains <==> IsChain(lib, id, c)
    ensures Distinct(chains) && InChainOrder(chains)
    ensures shown == chains[..if |chains| < SHOWN then |chains| else SHOWN]
    ensures orphan <==> !exists c :: IsChain(lib, id, c)
    ensures forall r :: r in roots <==> exists c :: IsChain(lib, id, c) && c[0] == r
    ensures forall c :: IsChain(lib, id, c) ==> |c| - 1 <= depth
    ensures depth > 0 ==> exists c :: IsChain(lib, id, c) && |c| - 1 == depth
  {
    hide *;
    var links := ParentLinks(lib);
    var climb := new Chains();
    StartsSimple(links, id);
    var climbs := climb.Climb(links, [id]);
    chains := climb.chains;
    shown := chains[..if |chains| < SHOWN then |chains| else SHOWN];
    AllChains(lib, links, id, climbs, chains);
    ReversedOrder(climbs);
    orphan := chains == [];
    if chains != [] {
      assert chains[0] in chains;
    }
    roots := set c | c in chains && |c| > 0 :: c[0];
    depth := Longest(chains);
    forall c | IsChain(lib, id, c) ensures |c| > 1 {
      ChainLong(lib, id, c);
    }
  }

  lemma ReversedOrder(climbs: seq<seq<Id>>)
    requires InClimbOrder(climbs)
    ensures InChainOrder(RootFirst(climbs))
  {
    hide GoesBefore;
    var chains := RootFirst(climbs);
    forall i, j | 0 <= i < j < |chains|
      ensures GoesBefore(Reverse(chains[i]), Reverse(chains[j]))
    {
      ReverseTwice(climbs[i]);
      ReverseTwice(climbs[j]);
    }
  }

  lemma StartsSimple(links: Graph, id: Id)
    ensures IsPath(links, [id]) && Distinct([id])
  {
  }

  lemma ChainLong(lib: Library, id: Id, c: seq<Id>)
    requires IsChain(lib, id, c)
    ensures |c| > 1
  {
  }

  /** max(len - 1) over the chains, 0 when there are none. */
  method Longest(chains: seq<seq<Id>>) returns (depth: nat)
    ensures forall c :: c in chains ==> |c| - 1 <= depth
    ensures depth > 0 ==> exists c :: c in chains && |c| - 1 == depth
  {
    depth := 0;
    for i := 0 to |chains|
      invariant forall k :: 0 <= k < i ==> |chains[k]| - 1 <= depth
      invariant depth > 0 ==> exists c :: c in chains && |c| - 1 == depth
    {
      if |chains[i]| - 1 > depth {
        depth := |chains[i]| - 1;
        assert chains[i] in chains;
      }
    }
  }

  lemma AllChains(lib: Library, links: Graph, id: Id, climbs: seq<seq<Id>>, chains: seq<seq<Id>>)
    requires ParentsOf(lib, links) && Climbs(links, [id], climbs) && chains == RootFirst(climbs)
    ensures forall c :: c in chains <==> IsChain(lib, id, c)
    ensures Distinct(chains)
  {
    forall c ensures c in chains <==> IsChain(lib, id, c) {
      ReverseTwice(c);
      if c in chains {
        var i :| 0 <= i < |chains| && chains[i] == c;
        assert climbs[i] in climbs;
        ClimbIsChain(lib, links, id, climbs[i]);
      }
      if IsChain(lib, id, c) {
        ClimbIsChain(lib, links, id, Reverse(c));
        assert Reverse(c) in climbs;
        var i :| 0 <= i < |climbs| && climbs[i] == Reverse(c);
        assert chains[i] == c;
      }
    }
    forall i, j | 0 <= i < j < |chains| ensures chains[i] != chains[j] {
      ReverseTwice(climbs[i]);
      ReverseTwice(climbs[j]);
    }
  }

  /** A climb can always be carried on until it is finished. */
  lemma {:induction false} Finish(links: Graph, path: seq<Id>) returns (q: seq<Id>)
    requires path != [] && IsPath(links, path) && Distinct(path)
    ensures path <= q && Maximal(links, q)
    decreases Nodes(links) - set x | x in path
  {
    if parent :| parent in ParentsOff(links, path) {
      NextClimb(links, path, parent);
      q := Finish(links, path + [parent]);
    } else {
      FullPath(links, path);
      q := path;
      forall x | Edge(links, path[|path| - 1], x) ensures x in path {
        assert x !in ParentsOff(links, path);
      }
    }
  }

  lemma PathLeads(links: Graph, q: seq<Id>, i: nat, j: nat)
    requires IsPath(links, q) && i < j < |q|
    ensures Leads(links, q[i], q[j])
  {
    PathPrefix(links, q, j + 1);
    PathSuffix(links, q[..j + 1], i);
    assert Chain(links, q[i], q[j], q[..j + 1][i..]);
  }

  /** Whoever leads to id, transitively, stands on a chain. */
  lemma OnSomeChain(lib: Library, links: Graph, id: Id, x: Id) returns (c: seq<Id>)
    requires ParentsOf(lib, links) && x != id && Leads(links, id, x)
    ensures IsChain(lib, id, c) && x in c
  {
    hide Maximal, ParentsOf, IsChain, Distinct;
    var p :| Chain(links, id, x, p);
    var s := SimplePath(links, p);
    var q := Finish(links, s);
    ClimbIsChain(lib, links, id, q);
    c := Reverse(q);
    assert q[|s| - 1] == x && c[|q| - |s|] == x;
  }

  lemma ChainLeadsUp(lib: Library, links: Graph, id: Id, c: seq<Id>, x: Id)
    requires ParentsOf(lib, links) && x != id && IsChain(lib, id, c) && x in c
    ensures Leads(links, id, x)
  {
    ReverseTwice(c);
    ClimbIsChain(lib, links, id, Reverse(c));
    var i :| 0 <= i < |c| && c[i] == x;
    assert Reverse(c)[|c| - 1 - i] == x;
    PathLeads(links, Reverse(c), 0, |c| - 1 - i);
  }

  /** The procedures on the chains, id aside, are exactly the ones gravity counts. */
  lemma ChainsAreGravity(lib: Library, links: Graph, id: Id, x: Id)
    requires ParentsOf(lib, links) && x != id
    ensures x in Above(links, id) <==> exists c :: IsChain(lib, id, c) && x in c
  {
    hide Above, IsChain, Leads;
    AboveHas(links, id, x);
    if Leads(links, id, x) {
      var c := OnSomeChain(lib, links, id, x);
    }
    if c :| IsChain(lib, id, c) && x in c {
      ChainLeadsUp(lib, links, id, c, x);
    }
  }

  /** A procedure is an orphan exactly when nothing sinks into it. */
  lemma OrphanIffWeightless(lib: Library, links: Graph, id: Id)
    requires ParentsOf(lib, links)
    ensures (!exists c :: IsChain(lib, id, c)) <==> |Above(links, id)| == 0
  {
    if x :| x in Above(links, id) {
      ChainsAreGravity(lib, links, id, x);
    }
    if c :| IsChain(lib, id, c) {
      ChainsAreGravity(lib, links, id, c[0]);
    }
  }

  /** Reading the graph backwards turns every chain round. */
  lemma LeadsBackwards(lib: Library, links: Graph, a: Id, b: Id)
    requires ParentsOf(lib, links)
    ensures Leads(links, b, a) <==> Leads(Links(lib), a, b)
  {
    if p :| Chain(links, b, a, p) {
      var c := Reverse(p);
      forall i, j | 0 <= i < |c| && 0 <= j < |c| && j == i + 1 ensures Edge(Links(lib), c[i], c[j]) {
        assert Edge(links, p[|p| - 1 - j], p[|p| - 1 - i]);
      }
      assert Chain(Links(lib), a, b, c);
    }
    if p :| Chain(Links(lib), a, b, p) {
      var c := Reverse(p);
      forall i, j | 0 <= i < |c| && 0 <= j < |c| && j == i + 1 ensures Edge(links, c[i], c[j]) {
        assert Edge(Links(lib), p[|p| - 1 - j], p[|p| - 1 - i]);
      }
      assert Chain(links, b, a, c);
    }
  }

  /** Without circles, gravity strictly grows along every link. */
  lemma GravityGrows(lib: Library, links: Graph, a: Id, b: Id)
    requires ParentsOf(lib, links) && Acyclic(Links(lib)) && Edge(Links(lib), a, b)
    ensures |Above(links, a)| < |Above(links, b)|
  {
    EdgeLeads(links, b, a);
    forall x ensures !Leads(links, x, x) {
      LeadsBackwards(lib, links, x, x);
    }
    forall x | x in Above(links, a) ensures x in Above(links, b) {
      AboveHas(links, a, x);
      LeadsTrans(links, b, a, x);
      AboveHas(links, b, x);
    }
    AboveHas(links, b, a);
    assert Above(links, a) <= Above(links, b) - {a};
    SubsetSize(Above(links, a), Above(links, b) - {a});
  }

  /** Without circles, the roots are exactly the ancestors nobody links. */
  lemma RootsAreParentless(lib: Library, links: Graph, id: Id, r: Id)
    requires ParentsOf(lib, links) && Acyclic(Links(lib))
    ensures (exists c :: IsChain(lib, id, c) && c[0] == r) <==>
            r in Above(links, id) && forall x :: !Edge(Links(lib), x, r)
  {
    if c :| IsChain(lib, id, c) && c[0] == r {
      ChainsAreGravity(lib, links, id, r);
      forall x ensures !Edge(Links(lib), x, r) {
        if Edge(Links(lib), x, r) {
          var i :| 0 <= i < |c| && c[i] == x;
          EdgeLeads(Links(lib), x, r);
          if i > 0 {
            PathLeads(Links(lib), c, 0, i);
            LeadsTrans(Links(lib), r, x, r);
          }
        }
      }
    }
    if r in Above(links, id) && forall x :: !Edge(Links(lib), x, r) {
      ChainsAreGravity(lib, links, id, r);
      var c :| IsChain(lib, id, c) && r in c;
      var i :| 0 <= i < |c| && c[i] == r;
      if i > 0 {
        assert Edge(Links(lib), c[i - 1], c[i]);
      }
    }
  }
}
