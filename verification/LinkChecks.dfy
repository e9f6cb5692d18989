/** The searches and refusals that keep procedures from linking in circles. */
module LinkChecks {
  import opened Outcomes
  import opened LinkGraph
  import opened Procedures

  /** Why a link is refused; Circle carries the chain from the linked procedure back to the owner. */
  datatype Refusal = SelfLink | Missing | Circle(back: seq<Id>)

  /** Every path on the stack is a chain of links from the start of the search. */
  ghost predicate Rooted(g: Graph, start: Id, stack: seq<seq<Id>>) {
    forall q :: q in stack ==> IsPath(g, q) && q[0] == start
  }

  /** Some path on the stack ends at b. */
  ghost predicate OnTop(stack: seq<seq<Id>>, b: Id) {
    exists q :: q in stack && q != [] && q[|q| - 1] == b
  }

  /** A link the search has dealt with: not the target, and visited or waiting on the stack. */
  ghost predicate Handled(b: Id, target: Id, seen: set<Id>, stack: seq<seq<Id>>) {
    b != target && (b in seen || OnTop(stack, b))
  }

  /** No way to the target hides behind a visited procedure. */
  ghost predicate Explored(lib: Library, seen: set<Id>, target: Id, stack: seq<seq<Id>>) {
    forall a, b :: a in seen && Edge(Links(lib), a, b) ==> Handled(b, target, seen, stack)
  }

  lemma PushKeeps(g: Graph, start: Id, stack: seq<seq<Id>>, path: seq<Id>, linked: Id)
    requires Rooted(g, start, stack) && IsPath(g, path) && path[0] == start && Edge(g, path[|path| - 1], linked)
    ensures Rooted(g, start, stack + [path + [linked]]) && OnTop(stack + [path + [linked]], linked)
    ensures Chain(g, start, linked, path + [linked])
  {
    PathExtend(g, path, linked);
    var grown := stack + [path + [linked]];
    assert grown[|stack|] == path + [linked];
    forall q | q in grown ensures IsPath(g, q) && q[0] == start {
      if q !in stack {
        assert q == path + [linked];
      }
    }
  }

  lemma PopKeeps(g: Graph, start: Id, stack: seq<seq<Id>>)
    requires Rooted(g, start, stack) && stack != []
    ensures Rooted(g, start, stack[..|stack| - 1]) && stack == stack[..|stack| - 1] + [stack[|stack| - 1]]
    ensures var path := stack[|stack| - 1];
      IsPath(g, path) && path[0] == start && path[|path| - 1] in Nodes(g) + {start}
  {
    var path := stack[|stack| - 1];
    assert path in stack;
    if |path| > 1 {
      assert Edge(g, path[|path| - 2], path[|path| - 1]);
    }
  }

  lemma HandledKeeps(b: Id, target: Id, seen: set<Id>, more: set<Id>, stack: seq<seq<Id>>, grown: seq<seq<Id>>)
    requires Handled(b, target, seen, stack)
    requires seen <= more && forall q :: q in stack ==> q in grown || (q != [] && q[|q| - 1] in more)
    ensures Handled(b, target, more, grown)
  {
  }

  lemma ExploredKeeps(lib: Library, seen: set<Id>, target: Id, stack: seq<seq<Id>>, current: Id, grown: seq<seq<Id>>)
    requires Explored(lib, seen, target, stack)
    requires forall q :: q in stack ==> q in grown || (q != [] && q[|q| - 1] == current)
    requires current in lib ==>
      forall s :: s in lib[current] && s.link.Some? ==> Handled(s.link.value, target, seen + {current}, grown)
    ensures Explored(lib, seen + {current}, target, grown)
  {
    forall a, b | a in seen + {current} && Edge(Links(lib), a, b)
      ensures Handled(b, target, seen + {current}, grown)
    {
      if a in seen {
        HandledKeeps(b, target, seen, seen + {current}, stack, grown);
      } else {
        LinkEdge(lib, a, b);
      }
    }
  }

  lemma ExploredSkips(lib: Library, seen: set<Id>, target: Id, stack: seq<seq<Id>>, path: seq<Id>)
    requires path != [] && path[|path| - 1] in seen && Explored(lib, seen, target, stack + [path])
    ensures Explored(lib, seen, target, stack)
  {
    forall a, b | a in seen && Edge(Links(lib), a, b) ensures Handled(b, target, seen, stack) {
      HandledKeeps(b, target, seen, seen, stack + [path], stack);
    }
  }

  /** Everything the start leads to has been visited once the stack is empty. */
  lemma ExploredAll(lib: Library, start: Id, target: Id, seen: set<Id>)
    requires Searching(lib, start, target, seen, [])
    ensures !Leads(Links(lib), start, target)
  {
    var g := Links(lib);
    if Leads(g, start, target) {
      var c := LeadsLast(g, start, target);
      if c != start {
        var p :| Chain(g, start, c, p);
        ClosedHolds(g, start, c, seen, p);
      }
      assert false;
    }
  }

  /** One visited procedure: its links in step order. A link to the target ends the search; a new one is pushed. */
  method PushLinks(lib: Library, start: Id, path: seq<Id>, target: Id, seen: set<Id>, stack: seq<seq<Id>>)
      returns (hit: bool, grown: seq<seq<Id>>)
    requires path != [] && path[|path| - 1] in lib && IsPath(Links(lib), path) && path[0] == start
    requires Rooted(Links(lib), start, stack)
    ensures hit ==> Chain(Links(lib), start, target, path + [target])
    ensures !hit ==> Rooted(Links(lib), start, grown) && stack <= grown
    ensures !hit ==> forall s :: s in lib[path[|path| - 1]] && s.link.Some? ==> Handled(s.link.value, target, seen, grown)
  {
    var steps := lib[path[|path| - 1]];
    hit, grown := false, stack;
    for i := 0 to |steps|
      invariant Rooted(Links(lib), start, grown) && stack <= grown
      invariant forall k :: 0 <= k < i && steps[k].link.Some? ==> Handled(steps[k].link.value, target, seen, grown)
    {
      if steps[i].link.None? {
        continue;
      }
      var linked := steps[i].link.value;
      LinkEdge(lib, path[|path| - 1], linked);
      PushKeeps(Links(lib), start, grown, path, linked);
      if linked == target {
        return true, grown;
      }
      if linked !in seen {
        ghost var was := grown;
        grown := grown + [path + [linked]];
        forall k | 0 <= k < i && steps[k].link.Some? ensures Handled(steps[k].link.value, target, seen, grown) {
          HandledKeeps(steps[k].link.value, target, seen, seen, was, grown);
        }
      }
    }
  }

  /** The search so far: rooted paths, nothing hidden behind a visited procedure, the start not forgotten. */
  ghost predicate Searching(lib: Library, start: Id, target: Id, seen: set<Id>, stack: seq<seq<Id>>) {
    && Rooted(Links(lib), start, stack)
    && Explored(lib, seen, target, stack)
    && (start in seen || OnTop(stack, start))
  }

  lemma SearchStarts(lib: Library, start: Id, target: Id)
    ensures Searching(lib, start, target, {}, [[start]])
  {
    assert [start] in [[start]];
  }

  lemma SearchPops(lib: Library, start: Id, target: Id, seen: set<Id>, stack: seq<seq<Id>>)
    requires Searching(lib, start, target, seen, stack) && stack != []
    ensures var path := stack[|stack| - 1];
      && path != [] && IsPath(Links(lib), path) && path[0] == start
      && Rooted(Links(lib), start, stack[..|stack| - 1])
      && path[|path| - 1] in Nodes(Links(lib)) + {start}
      && (path[|path| - 1] in seen ==> Searching(lib, start, target, seen, stack[..|stack| - 1]))
  {
    PopKeeps(Links(lib), start, stack);
    var rest, path := stack[..|stack| - 1], stack[|stack| - 1];
    if path[|path| - 1] in seen {
      ExploredSkips(lib, seen, target, rest, path);
    }
  }

  lemma SearchVisits(lib: Library, start: Id, target: Id, seen: set<Id>, stack: seq<seq<Id>>, grown: seq<seq<Id>>)
    requires Searching(lib, start, target, seen, stack) && stack != []
    requires Rooted(Links(lib), start, grown) && stack[..|stack| - 1] <= grown
    requires stack[|stack| - 1] != []
    requires var path := stack[|stack| - 1];
      path[|path| - 1] in lib ==>
        forall s :: s in lib[path[|path| - 1]] && s.link.Some? ==>
          Handled(s.link.value, target, seen + {path[|path| - 1]}, grown)
    ensures var path := stack[|stack| - 1];
      Searching(lib, start, target, seen + {path[|path| - 1]}, grown)
  {
    var rest, path := stack[..|stack| - 1], stack[|stack| - 1];
    assert stack == rest + [path];
    ExploredKeeps(lib, seen, target, stack, path[|path| - 1], grown);
  }

  /** Depth-first over a stack of paths; a link to the target ends the search with the path that found it. */
  method LinkPath(lib: Library, start: Id, target: Id) returns (r: Option<seq<Id>>)
    ensures r.Some? ==> Chain(Links(lib), start, target, r.value)
    ensures r.Some? <==> Leads(Links(lib), start, target)
  {
    hide *;
    ghost var all := Nodes(Links(lib)) + {start};
    var seen: set<Id> := {};
    var stack: seq<seq<Id>> := [[start]];
    SearchStarts(lib, start, target);
    while stack != []
      invariant Searching(lib, start, target, seen, stack)
      decreases all - seen, |stack|
    {
      SearchPops(lib, start, target, seen, stack);
      var path := stack[|stack| - 1];
      var rest := stack[..|stack| - 1];
      var current := path[|path| - 1];
      if current in seen {
        stack := rest;
        continue;
      }
      var grown := rest;
      if current in lib {
        var hit;
        hit, grown := PushLinks(lib, start, path, target, seen + {current}, rest);
        if hit {
          ChainLeads(Links(lib), start, target, path + [target]);
          return Some(path + [target]);
        }
      }
      SearchVisits(lib, start, target, seen, stack, grown);
      assert all - (seen + {current}) < all - seen;
      seen, stack := seen + {current}, grown;
    }
    ExploredAll(lib, start, target, seen);
    return None;
  }

  /** A step of the owner may link this procedure. */
  ghost predicate Allowed(lib: Library, owner: Id, linked: Id) {
    linked != owner && linked in lib && !Leads(Links(lib), linked, owner)
  }

  method RequireProcedure(lib: Library, linked: Id, owner: Id) returns (refused: Option<Refusal>)
    ensures refused == None <==> Allowed(lib, owner, linked)
    ensures refused == Some(Missing) <==> linked != owner && linked !in lib
    ensures refused == Some(SelfLink) <==> linked == owner
    ensures refused.Some? && refused.value.Circle? ==> Chain(Links(lib), linked, owner, refused.value.back)
    ensures refused.Some? && !refused.value.Missing? <==>
            OnCircle(WithEdge(Links(lib), owner, linked), owner, linked)
  {
    NewLinkOnCircle(Links(lib), owner, linked);
    if linked == owner {
      return Some(SelfLink);
    }
    if linked !in lib {
      if Leads(Links(lib), linked, owner) {
        var c := LeadsFirst(Links(lib), linked, owner);
      }
      return Some(Missing);
    }
    var back := LinkPath(lib, linked, owner);
    refused := if back.Some? then Some(Circle(back.value)) else None;
  }

  /** A step of the procedure carries this link. */
  ghost predicate Steps(lib: Library, id: Id, title: string, linked: Id)
    requires id in lib
  {
    exists s :: s in lib[id] && s.title == title && s.link == Some(linked)
  }

  /** The link part of validating one procedure: the links that dangle, and the steps that link in a circle. */
  method ValidateLinks(lib: Library, id: Id)
      returns (dangling: seq<Id>, selfLinks: seq<string>, circles: seq<(string, seq<Id>)>)
    requires id in lib
    ensures forall l :: l in dangling <==> l != id && l !in lib && Edge(Links(lib), id, l)
    ensures forall t :: t in selfLinks <==> Steps(lib, id, t, id)
    ensures forall c :: c in circles ==> |c.1| > 0 && c.1[0] != id && Steps(lib, id, c.0, c.1[0])
                                         && Chain(Links(lib), c.1[0], id, c.1)
    ensures forall t, l :: Steps(lib, id, t, l) && l != id && l in lib && Leads(Links(lib), l, id) ==>
                             exists c :: c in circles && c.0 == t && c.1[0] == l
    ensures dangling == [] && selfLinks == [] && circles == [] <==> LinksAllowed(lib, id)
  {
    dangling, selfLinks, circles := [], [], [];
    var steps := lib[id];
    for i := 0 to |steps|
      invariant forall l :: l in dangling <==> l != id && l !in lib && LinkedBefore(steps, i, l)
      invariant forall t :: t in selfLinks <==> exists k :: 0 <= k < i && steps[k].title == t && steps[k].link == Some(id)
      invariant forall c :: c in circles ==> |c.1| > 0 && c.1[0] != id && Steps(lib, id, c.0, c.1[0])
                                             && Chain(Links(lib), c.1[0], id, c.1)
      invariant forall k :: 0 <= k < i && steps[k].link.Some? && steps[k].link.value != id && steps[k].link.value in lib
                            && Leads(Links(lib), steps[k].link.value, id) ==>
                              exists c :: c in circles && c.0 == steps[k].title && c.1[0] == steps[k].link.value
    {
      if steps[i].link.None? {
        continue;
      }
      var linked := steps[i].link.value;
      if linked == id {
        selfLinks := selfLinks + [steps[i].title];
      } else if linked !in lib {
        dangling := dangling + [linked];
      } else {
        var back := LinkPath(lib, linked, id);
        if back.Some? {
          circles := circles + [(steps[i].title, back.value)];
        }
      }
    }
    if dangling == [] && selfLinks == [] && circles == [] {
      forall l | Edge(Links(lib), id, l) ensures Allowed(lib, id, l) {
        var s :| s in steps && s.link == Some(l);
        assert Steps(lib, id, s.title, l);
        assert s.title !in selfLinks && l !in dangling;
      }
    }
    if dangling != [] {
      assert dangling[0] in dangling && !Allowed(lib, id, dangling[0]);
    } else if selfLinks != [] {
      assert selfLinks[0] in selfLinks;
      assert Edge(Links(lib), id, id) && !Allowed(lib, id, id);
    } else if circles != [] {
      var c := circles[0];
      assert c in circles && Edge(Links(lib), id, c.1[0]);
      ChainLeads(Links(lib), c.1[0], id, c.1);
      assert !Allowed(lib, id, c.1[0]);
    }
  }

  ghost predicate LinksAllowed(lib: Library, id: Id)
    requires id in lib
  {
    forall l :: Edge(Links(lib), id, l) ==> Allowed(lib, id, l)
  }

  /** Every procedure passes its link checks exactly when no link anywhere dangles or lies on a circle. */
  lemma AllValidIffSound(lib: Library)
    ensures (forall id :: id in lib ==> LinksAllowed(lib, id)) <==> Sound(lib)
  {
    var g := Links(lib);
    if forall id :: id in lib ==> LinksAllowed(lib, id) {
      forall a ensures !Leads(g, a, a) {
        if Leads(g, a, a) {
          var c := LeadsFirst(g, a, a);
        }
      }
      forall a, b | Edge(g, a, b) ensures b in lib {
        assert LinksAllowed(lib, a);
      }
    }
    if Sound(lib) {
      forall id, l | id in lib && Edge(g, id, l) ensures Allowed(lib, id, l) {
        EdgeLeads(g, id, l);
        if Leads(g, l, id) {
          LeadsTrans(g, id, l, id);
        }
      }
    }
  }
}
