/** Installing and removing one leaf widget: where it is found under cg/, and what an install of a version brings. */
module Installer {
  import opened Outcomes
  import opened Ordering

  type Name = string
  type Version = string

  /** An installed widget's manifest gives its id ("" without one) and its version, or does not parse. */
  datatype Leaf = Leaf(name: Name, version: Option<Version>) | Unreadable

  /** The leaves under cg/, each under the id it was installed by. */
  type Leaves = map<Name, Leaf>

  /** A widget of the local library: its head's version, the registry its sidecar names, and the archived manifests. */
  datatype Shelf = Shelf(version: Option<Version>, origin: Option<string>, archive: map<Version, Leaf>)

  /** An id that starts with a registry's prefix, and the rest of it. */
  datatype Route = Route(registry: string, bare: Name)

  datatype Source = Source(registry: string, id: Name)

  /** What an install draws on: the library, the registries, and what each serves; a registry knows no versions to choose from. */
  datatype World = World(library: map<Name, Shelf>, cloud: bool, routes: map<Name, Route>, home: string, served: map<Source, Leaf>)

  /** The leaves whose manifest gives the id. */
  function Named(leaves: Leaves, id: Name): set<Name> {
    set x | x in leaves && leaves[x].Leaf? && leaves[x].name == id
  }

  /** A leaf is found in its own place, else by its manifest. */
  function Find(leaves: Leaves, id: Name): (place: Option<Name>)
    ensures place.Some? ==> place.value in leaves
    ensures id in leaves ==> place == Some(id)
  {
    if id in leaves then Some(id)
    else if Named(leaves, id) == {} then None
    else Some(First(Named(leaves, id)))
  }

  function VersionOf(leaf: Leaf): Option<Version> {
    if leaf.Leaf? then leaf.version else None
  }

  function FoundVersion(leaves: Leaves, id: Name): Option<Version> {
    var place := Find(leaves, id);
    if place.Some? then VersionOf(leaves[place.value]) else None
  }

  /** No other place answers for the id. */
  predicate Homed(leaves: Leaves, id: Name) {
    id in leaves || Named(leaves, id) == {}
  }

  /** The version the library's index shows. */
  function Listed(shelf: Shelf): Version {
    if shelf.version.Some? then shelf.version.value else "1.0.0"
  }

  function Served(w: World, registry: string, id: Name): Option<Leaf> {
    if w.cloud && Source(registry, id) in w.served then Some(w.served[Source(registry, id)]) else None
  }

  /** What an install brings. The version asked for is followed only in the local library; "" asks for its head. */
  function Supply(w: World, id: Name, version: Version): Option<Leaf> {
    if id in w.routes then
      var Route(registry, bare) := w.routes[id];
      if w.cloud && bare in w.library && w.library[bare].origin == Some(registry)
      then Some(Leaf(bare, w.library[bare].version))
      else Served(w, registry, bare)
    else if id in w.library then
      var shelf := w.library[id];
      if version == "" || version == Listed(shelf) then Some(Leaf(id, shelf.version))
      else if version in shelf.archive then Some(shelf.archive[version])
      else None
    else Served(w, w.home, id)
  }

  /** An install of the version brings that version. */
  predicate Delivered(w: World, id: Name, version: Version) {
    var leaf := Supply(w, id, version);
    leaf.Some? && VersionOf(leaf.value) == Some(version)
  }

  /** The version the registry has now. */
  function ServedVersion(w: World, registry: string, id: Name): Option<Version> {
    var leaf := Served(w, registry, id);
    if leaf.Some? then VersionOf(leaf.value) else None
  }

  /** Every archived manifest gives the version it is archived under. */
  predicate Archived(shelf: Shelf) {
    forall v :: v in shelf.archive ==> VersionOf(shelf.archive[v]) == Some(v)
  }

  /** Where a version can be had: the head or the archive here; the one version a registry has, or the library's in its stead. */
  lemma DeliveredWhen(w: World, id: Name, version: Version)
    requires version != "" && forall x :: x in w.library ==> Archived(w.library[x]) && w.library[x].version.Some?
    ensures Delivered(w, id, version) <==>
      if id in w.routes then
        var Route(registry, bare) := w.routes[id];
        && w.cloud
        && if bare in w.library && w.library[bare].origin == Some(registry)
           then w.library[bare].version == Some(version)
           else ServedVersion(w, registry, bare) == Some(version)
      else if id in w.library then w.library[id].version == Some(version) || version in w.library[id].archive
      else w.cloud && ServedVersion(w, w.home, id) == Some(version)
  {
    if id !in w.routes && id in w.library {
      assert Archived(w.library[id]);
    }
  }

  /** Nothing is installed over a leaf. */
  function InstallInto(w: World, leaves: Leaves, id: Name, version: Version): Option<Leaves> {
    var leaf := Supply(w, id, version);
    if id in leaves || leaf.None? then None else Some(leaves[id := leaf.value])
  }

  function RemoveFrom(leaves: Leaves, id: Name): Option<Leaves> {
    var place := Find(leaves, id);
    if place.None? then None else Some(leaves - {place.value})
  }
}
