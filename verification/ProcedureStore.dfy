/** The store of procedures: every edit reads the library, is checked, and is written whole or not at all. */
module ProcedureStore {
  import opened Outcomes
  import opened LinkGraph
  import opened Procedures
  import opened LinkChecks
  import opened DocumentEdits

  datatype Edit =
    | Create(id: Id, twin: bool, steps: seq<Step>)
    | AddSteps(id: Id, steps: seq<Step>, after: Option<string>)
    | ChangeStep(id: Id, title: string, change: StepChange)
    | RemoveOne(id: Id, title: string)
    | Move(id: Id, title: string, position: int)
    | Delete(id: Id)

  /** The linking step of a change, when it sets a link. */
  ghost predicate NewLinkAllowed(lib: Library, id: Id, c: StepChange) {
    c.link.Some? && c.link.value.Some? ==> Allowed(lib, id, c.link.value.value)
  }

  /** The library an edit leaves, or None when the edit is refused. */
  ghost function Effect(lib: Library, e: Edit): Option<Library> {
    match e
    case Create(id, twin, steps) =>
      if id in lib || twin then None
      else if steps == [] then Some(lib[id := []])
      else if BatchFits(lib, id, [], steps, None) then Some(lib[id := steps])
      else None
    case AddSteps(id, steps, after) =>
      if id in lib && BatchFits(lib, id, lib[id], steps, after)
      then Some(lib[id := Spliced(lib[id], steps, after)]) else None
    case ChangeStep(id, title, change) =>
      if id in lib && NewLinkAllowed(lib, id, change) then Written(lib, id, EditStep(lib[id], title, change)) else None
    case RemoveOne(id, title) =>
      if id in lib then Written(lib, id, RemoveStep(lib[id], title)) else None
    case Move(id, title, position) =>
      if id in lib then Written(lib, id, MoveStep(lib[id], title, position)) else None
    case Delete(id) =>
      if id in lib && forall other :: other in lib && other != id ==> !Edge(Links(lib), other, id)
      then Some(lib - {id}) else None
  }

  function Written(lib: Library, id: Id, r: Result<Document, EditError>): Option<Library> {
    if r.Ok? then Some(lib[id := r.value]) else None
  }

  /** The library after a run of edits; a refused edit changes nothing. */
  ghost function AfterRun(lib: Library, edits: seq<Edit>): Library {
    if edits == [] then lib else
    var before := AfterRun(lib, edits[..|edits| - 1]);
    var effect := Effect(before, edits[|edits| - 1]);
    if effect.Some? then effect.value else before
  }

  class Store {
    var docs: Library

    constructor (docs: Library)
      ensures this.docs == docs
    {
      this.docs := docs;
    }

    method CreateProcedure(id: Id, twin: bool, steps: seq<Step>) returns (failed: Option<EditError>)
      modifies this
      ensures var effect := Effect(old(docs), Create(id, twin, steps));
        (failed == None <==> effect.Some?) && docs == (if effect.Some? then effect.value else old(docs))
      ensures failed == None ==> docs == old(docs)[id := steps]
      ensures failed == Some(AlreadyExists) <==> id in old(docs)
      ensures failed == Some(TwinExists) <==> id !in old(docs) && twin
      ensures failed.Some? && !failed.value.AlreadyExists? && !failed.value.TwinExists? ==>
        steps != [] && BatchRefused(old(docs), id, [], steps, None, failed.value)
    {
      if id in docs {
        return Some(AlreadyExists);
      }
      if twin {
        return Some(TwinExists);
      }
      var document: Document := [];
      if steps != [] {
        var r := AppendSteps(docs, id, document, steps, None);
        if r.Err? {
          return Some(r.error);
        }
        document := r.value;
        assert Spliced([], steps, None) == steps;
      }
      docs := docs[id := document];
      return None;
    }

    method AddSteps(id: Id, steps: seq<Step>, after: Option<string>) returns (failed: Option<EditError>)
      modifies this
      ensures var effect := Effect(old(docs), Edit.AddSteps(id, steps, after));
        (failed == None <==> effect.Some?) && docs == (if effect.Some? then effect.value else old(docs))
      ensures failed == None ==> id in docs && Lands(old(docs)[id], docs[id], steps, after) && docs == old(docs)[id := docs[id]]
      ensures failed == Some(NoSuchProcedure) <==> id !in old(docs)
      ensures failed.Some? && id in old(docs) ==> BatchRefused(old(docs), id, old(docs)[id], steps, after, failed.value)
    {
      if id !in docs {
        return Some(NoSuchProcedure);
      }
      var r := AppendSteps(docs, id, docs[id], steps, after);
      failed := Write(id, r);
    }

    method ChangeStep(id: Id, title: string, change: StepChange) returns (failed: Option<EditError>)
      modifies this
      ensures var effect := Effect(old(docs), Edit.ChangeStep(id, title, change));
        (failed == None <==> effect.Some?) && docs == (if effect.Some? then effect.value else old(docs))
      ensures failed == None ==> id in docs && OneChanged(old(docs)[id], docs[id], title, change) && docs == old(docs)[id := docs[id]]
      ensures failed == Some(NoSuchProcedure) <==> id !in old(docs)
      ensures id in old(docs) ==> (failed.Some? && failed.value.LinkRefused? <==> !NewLinkAllowed(old(docs), id, change))
      ensures id in old(docs) && NewLinkAllowed(old(docs), id, change) && failed.Some? ==>
        EditStep(old(docs)[id], title, change) == Err(failed.value)
    {
      if id !in docs {
        return Some(NoSuchProcedure);
      }
      if change.link.Some? && change.link.value.Some? {
        var refused := RequireProcedure(docs, change.link.value.value, id);
        if refused.Some? {
          return Some(LinkRefused(refused.value));
        }
      }
      EditStepLands(docs[id], title, change);
      failed := Write(id, EditStep(docs[id], title, change));
    }

    method RemoveOne(id: Id, title: string) returns (failed: Option<EditError>)
      modifies this
      ensures var effect := Effect(old(docs), Edit.RemoveOne(id, title));
        (failed == None <==> effect.Some?) && docs == (if effect.Some? then effect.value else old(docs))
      ensures failed == None ==> id in docs && OneRemoved(old(docs)[id], docs[id], title) && docs == old(docs)[id := docs[id]]
      ensures failed == Some(NoSuchProcedure) <==> id !in old(docs)
      ensures failed.Some? && id in old(docs) ==> RemoveStep(old(docs)[id], title) == Err(failed.value)
    {
      if id !in docs {
        return Some(NoSuchProcedure);
      }
      RemoveStepLands(docs[id], title);
      failed := Write(id, RemoveStep(docs[id], title));
    }

    method Move(id: Id, title: string, position: int) returns (failed: Option<EditError>)
      modifies this
      ensures var effect := Effect(old(docs), Edit.Move(id, title, position));
        (failed == None <==> effect.Some?) && docs == (if effect.Some? then effect.value else old(docs))
      ensures failed == None ==> id in docs && OneMoved(old(docs)[id], docs[id], title, position) && docs == old(docs)[id := docs[id]]
      ensures failed == Some(NoSuchProcedure) <==> id !in old(docs)
      ensures failed.Some? && id in old(docs) ==> MoveStep(old(docs)[id], title, position) == Err(failed.value)
    {
      if id !in docs {
        return Some(NoSuchProcedure);
      }
      if MoveStep(docs[id], title, position).Ok? {
        MoveStepLands(docs[id], title, position);
      } else {
        MoveStepRefused(docs[id], title, position);
      }
      failed := Write(id, MoveStep(docs[id], title, position));
    }

    method Write(id: Id, r: Result<Document, EditError>) returns (failed: Option<EditError>)
      modifies this
      ensures failed == if r.Ok? then None else Some(r.error)
      ensures docs == if r.Ok? then old(docs)[id := r.value] else old(docs)
    {
      if r.Err? {
        return Some(r.error);
      }
      docs := docs[id := r.value];
      return None;
    }

    /** Refused while another procedure's step links it; the refusal names every such procedure. */
    method Delete(id: Id) returns (failed: Option<EditError>)
      modifies this
      ensures var effect := Effect(old(docs), Edit.Delete(id));
        (failed == None <==> effect.Some?) && docs == (if effect.Some? then effect.value else old(docs))
      ensures failed.Some? && failed.value.StillLinked? ==>
        forall other :: other in failed.value.linkers <==> other != id && Edge(Links(docs), other, id)
      ensures failed == None ==> docs == old(docs) - {id}
      ensures failed == Some(NoSuchProcedure) <==> id !in old(docs)
      ensures failed.Some? && id in old(docs) ==> failed.value.StillLinked?
    {
      if id !in docs {
        return Some(NoSuchProcedure);
      }
      var linkers: seq<Id> := [];
      var left := docs.Keys - {id};
      while left != {}
        invariant docs == old(docs) && left <= docs.Keys - {id}
        invariant forall other :: other in linkers <==> other in docs.Keys - {id} - left && Edge(Links(docs), other, id)
      {
        var other :| other in left;
        if exists s :: s in docs[other] && s.link == Some(id) {
          linkers := linkers + [other];
        }
        LinkEdge(docs, other, id);
        left := left - {other};
      }
      if linkers != [] {
        assert linkers[0] in linkers && linkers[0] in docs && Edge(Links(docs), linkers[0], id);
        return Some(StillLinked(linkers));
      }
      assert forall other :: other in docs && other != id ==> other !in linkers;
      docs := docs - {id};
      return None;
    }
  }

  /** A new document whose links are old ones or allowed ones keeps circles out. */
  lemma RewriteKeepsSound(lib: Library, id: Id, d: Document)
    requires forall s :: s in d && s.link.Some? ==> Edge(Links(lib), id, s.link.value) || Allowed(lib, id, s.link.value)
    ensures Acyclic(Links(lib)) ==> Acyclic(Links(lib[id := d]))
    ensures Sound(lib) ==> Sound(lib[id := d])
  {
    var after := lib[id := d];
    if Acyclic(Links(lib)) {
      BatchKeepsAcyclic(Links(lib), Links(after), id);
    }
    if Sound(lib) {
      forall a, b | Edge(Links(after), a, b) ensures b in after {
        if a != id {
          assert Edge(Links(lib), a, b);
        }
      }
    }
  }

  lemma DeleteKeepsSound(lib: Library, id: Id)
    requires id in lib && forall other :: other in lib && other != id ==> !Edge(Links(lib), other, id)
    ensures Acyclic(Links(lib)) ==> Acyclic(Links(lib - {id}))
    ensures Sound(lib) ==> Sound(lib - {id})
  {
    var after := lib - {id};
    if Acyclic(Links(lib)) {
      BatchKeepsAcyclic(Links(lib), Links(after), id);
    }
    if Sound(lib) {
      forall a, b | Edge(Links(after), a, b) ensures b in after {
        assert Edge(Links(lib), a, b);
      }
    }
  }

  lemma KeepsDocument(lib: Library, e: Edit)
    requires !e.Delete? && Effect(lib, e).Some?
    ensures e.id in Effect(lib, e).value
  {
  }

  /** No edit closes a circle, and none leaves a link dangling. */
  lemma EditKeepsSound(lib: Library, e: Edit)
    requires Effect(lib, e).Some?
    ensures Acyclic(Links(lib)) ==> Acyclic(Links(Effect(lib, e).value))
    ensures Sound(lib) ==> Sound(Effect(lib, e).value)
  {
    if e.Delete? {
      DeleteKeepsSound(lib, e.id);
    } else {
      var d := Effect(lib, e).value[e.id];
      forall s | s in d && s.link.Some?
        ensures Edge(Links(lib), e.id, s.link.value) || Allowed(lib, e.id, s.link.value)
      {
        NewLinksChecked(lib, e, s);
      }
      RewriteKeepsSound(lib, e.id, d);
      assert Effect(lib, e).value == lib[e.id := d];
    }
  }

  lemma NewLinksChecked(lib: Library, e: Edit, s: Step)
    requires !e.Delete? && Effect(lib, e).Some?
    requires s in Effect(lib, e).value[e.id] && s.link.Some?
    ensures Edge(Links(lib), e.id, s.link.value) || Allowed(lib, e.id, s.link.value)
  {
    hide ValidDocument, FindTitle, Allowed, IsPath, Leads, Links;
    if e.id in lib && s in lib[e.id] {
      LinkEdge(lib, e.id, s.link.value);
    } else if e.Create? || e.AddSteps? {
      assert EntryFits(lib, e.id, s);
    } else if e.ChangeStep? {
      var was := lib[e.id][FindTitle(lib[e.id], e.title)];
      assert s == Changed(was, e.change);
      LinkEdge(lib, e.id, s.link.value);
    } else {
      assert false;
    }
  }

  /** In every run from a sound library, whatever is refused and whatever is written, the library stays sound. */
  lemma {:induction false} RunKeepsSound(lib: Library, edits: seq<Edit>)
    ensures Acyclic(Links(lib)) ==> Acyclic(Links(AfterRun(lib, edits)))
    ensures Sound(lib) ==> Sound(AfterRun(lib, edits))
  {
    if edits != [] {
      var earlier := edits[..|edits| - 1];
      RunKeepsSound(lib, earlier);
      var before := AfterRun(lib, earlier);
      if Effect(before, edits[|edits| - 1]).Some? {
        EditKeepsSound(before, edits[|edits| - 1]);
      }
    }
  }
}
