/** What a library item holds, what its hash reads, and what copying and archiving leave out. */
module Contents {
  import opened Outcomes

  /** A folder's entries, in the order they are walked. */
  datatype Tree =
    | Done
    | File(name: string, bytes: string, more: Tree)
    | Folder(name: string, inside: Tree, more: Tree)

  datatype Item = AFile(bytes: string) | AFolder(inside: Tree)

  /** A manifest without its version: what the author wrote, and the validation stamp check-in writes. */
  datatype Manifest = Manifest(fields: string, stamp: string)

  /** The top-level items beside the manifest. */
  datatype Content = Content(items: map<string, Item>, manifest: Manifest)

  const HASHED := {"src", "tests", "examples", "python"}

  /** The names of a language's build artifacts. No language's are folders that are hashed. */
  type Artifacts = names: set<string> | names !! HASHED

  datatype Kind = Widget(artifacts: Artifacts) | Blueprint

  // ---- names

  predicate Ends(name: string, suffix: string) {
    |suffix| <= |name| && name[|name| - |suffix|..] == suffix
  }

  predicate IsMetadata(name: string) {
    name in {".DS_Store", "__MACOSX", "Thumbs.db", "desktop.ini"} || "._" <= name
  }

  /** What is dropped at every depth below the top: these names, compiled files, and OS metadata where it is asked for. */
  datatype Filter = Filter(names: set<string>, metadata: bool)

  predicate Drops(f: Filter, name: string) {
    name in f.names || Ends(name, ".pyc") || (f.metadata && IsMetadata(name))
  }

  /** Regenerated or carried over by check-in. */
  const KEPT_ASIDE := {"history", "changelog.json", ".validation_stamp.json", ".dep_cache.json", ".cartograph_source"}

  const CACHES := {".venv", "__pycache__", ".pytest_cache", "cg"}

  /** Left out at the top, by copying and archiving alike. */
  function TopSkips(k: Kind): set<string> {
    KEPT_ASIDE + if k.Widget? then k.artifacts else CACHES
  }

  function CopyFilter(k: Kind): Filter {
    match k
    case Widget(artifacts) => Filter(artifacts + {".dep_cache.json", ".cartograph_source"}, true)
    case Blueprint => Filter(CACHES + {".cartograph_source"}, false)
  }

  function ArchiveFilter(k: Kind): Filter {
    Filter(TopSkips(k), k.Widget?)
  }

  // ---- filtering

  function Kept(t: Tree, f: Filter): Tree {
    match t
    case Done => Done
    case File(name, bytes, more) => if Drops(f, name) then Kept(more, f) else File(name, bytes, Kept(more, f))
    case Folder(name, inside, more) => if Drops(f, name) then Kept(more, f) else Folder(name, Kept(inside, f), Kept(more, f))
  }

  function KeptItem(item: Item, f: Filter): Item {
    if item.AFile? then item else AFolder(Kept(item.inside, f))
  }

  function KeptContent(c: Content, top: set<string>, f: Filter): Content {
    c.(items := map x | x in c.items && x !in top :: KeptItem(c.items[x], f))
  }

  function Copied(c: Content, k: Kind): Content {
    KeptContent(c, TopSkips(k), CopyFilter(k))
  }

  function Archived(c: Content, k: Kind): Content {
    KeptContent(c, TopSkips(k), ArchiveFilter(k))
  }

  /** No entry at any depth is dropped. */
  predicate Clean(t: Tree, f: Filter) {
    match t
    case Done => true
    case File(name, _, more) => !Drops(f, name) && Clean(more, f)
    case Folder(name, inside, more) => !Drops(f, name) && Clean(inside, f) && Clean(more, f)
  }

  predicate CleanContent(c: Content, top: set<string>, f: Filter) {
    c.items.Keys !! top && forall x :: x in c.items && c.items[x].AFolder? ==> Clean(c.items[x].inside, f)
  }

  function Size(t: Tree): nat {
    match t
    case Done => 0
    case File(_, _, more) => 1 + Size(more)
    case Folder(_, inside, more) => 1 + Size(inside) + Size(more)
  }

  /** Filtering changes a tree exactly when there is something to drop. */
  lemma {:induction false} KeptWhole(t: Tree, f: Filter)
    ensures Size(Kept(t, f)) <= Size(t)
    ensures Kept(t, f) == t <==> Clean(t, f)
    ensures Clean(Kept(t, f), f)
  {
    match t
    case Done =>
    case File(_, _, more) => KeptWhole(more, f);
    case Folder(_, inside, more) => KeptWhole(inside, f); KeptWhole(more, f);
  }

  lemma KeptContentWhole(c: Content, top: set<string>, f: Filter)
    ensures KeptContent(c, top, f) == c <==> CleanContent(c, top, f)
    ensures CleanContent(KeptContent(c, top, f), top, f)
  {
    var after := KeptContent(c, top, f);
    forall x | x in c.items && c.items[x].AFolder? ensures KeptItem(c.items[x], f) == c.items[x] <==> Clean(c.items[x].inside, f) {
      KeptWhole(c.items[x].inside, f);
    }
    forall x | x in after.items && after.items[x].AFolder? ensures Clean(after.items[x].inside, f) {
      KeptWhole(c.items[x].inside, f);
    }
    if after == c {
      forall x | x in c.items ensures x !in top && KeptItem(c.items[x], f) == c.items[x] {
        assert x in after.items && after.items[x] == c.items[x];
      }
    }
    if CleanContent(c, top, f) {
      assert after.items == c.items;
    }
  }

  /** A second filter that drops no more than the first has nothing left to drop. */
  lemma {:induction false} CleanBelow(t: Tree, f: Filter, g: Filter)
    requires forall name :: Drops(g, name) ==> Drops(f, name)
    requires Clean(t, f)
    ensures Clean(t, g)
  {
    match t
    case Done =>
    case File(_, _, more) => CleanBelow(more, f, g);
    case Folder(_, inside, more) => CleanBelow(inside, f, g); CleanBelow(more, f, g);
  }

  /** What was archived is copied whole. */
  lemma ArchivedCopies(c: Content, k: Kind)
    ensures Copied(Archived(c, k), k) == Archived(c, k)
  {
    var archived := Archived(c, k);
    KeptContentWhole(c, TopSkips(k), ArchiveFilter(k));
    forall x | x in archived.items && archived.items[x].AFolder? ensures Clean(archived.items[x].inside, CopyFilter(k)) {
      CleanBelow(archived.items[x].inside, ArchiveFilter(k), CopyFilter(k));
    }
    KeptContentWhole(archived, TopSkips(k), CopyFilter(k));
  }

  // ---- the hash

  predicate HashSkipsFile(name: string) {
    Ends(name, ".pyc") || IsMetadata(name)
  }

  predicate HashSkipsFolder(name: string) {
    name == "__pycache__" || IsMetadata(name)
  }

  /** The bytes of the files, one after the other. */
  function Bytes(t: Tree): string {
    match t
    case Done => ""
    case File(name, bytes, more) => (if HashSkipsFile(name) then "" else bytes) + Bytes(more)
    case Folder(name, inside, more) => (if HashSkipsFolder(name) then "" else Bytes(inside)) + Bytes(more)
  }

  function BytesOf(items: map<string, Item>, name: string): string {
    if name in items && items[name].AFolder? then Bytes(items[name].inside) else ""
  }

  /** What the implementation hash reads; None without any of its folders. */
  function HashOf(items: map<string, Item>): Option<string> {
    if items.Keys !! HASHED then None
    else Some(BytesOf(items, "src") + BytesOf(items, "tests") + BytesOf(items, "examples") + BytesOf(items, "python"))
  }

  /** Every file that is hashed and dropped is empty. */
  predicate HashKept(t: Tree, f: Filter) {
    match t
    case Done => true
    case File(name, bytes, more) => (Drops(f, name) ==> HashSkipsFile(name) || bytes == "") && HashKept(more, f)
    case Folder(name, inside, more) =>
      && (HashSkipsFolder(name) || if Drops(f, name) then Bytes(inside) == "" else HashKept(inside, f))
      && HashKept(more, f)
  }

  predicate HashKeptAt(items: map<string, Item>, name: string, f: Filter) {
    name in items && items[name].AFolder? ==> HashKept(items[name].inside, f)
  }

  predicate HashKeptIn(c: Content, k: Kind) {
    forall name :: name in HASHED ==> HashKeptAt(c.items, name, CopyFilter(k))
  }

  /** Filtering keeps what is hashed exactly when it drops only empty files of it. */
  lemma {:induction false} BytesKept(t: Tree, f: Filter)
    ensures |Bytes(Kept(t, f))| <= |Bytes(t)|
    ensures |Bytes(Kept(t, f))| == |Bytes(t)| <==> HashKept(t, f)
    ensures HashKept(t, f) ==> Bytes(Kept(t, f)) == Bytes(t)
  {
    match t
    case Done =>
    case File(_, _, more) => BytesKept(more, f);
    case Folder(_, inside, more) => BytesKept(inside, f); BytesKept(more, f);
  }

  lemma BytesKeptAt(c: Content, name: string, k: Kind)
    requires name in HASHED
    ensures name in Copied(c, k).items <==> name in c.items
    ensures var after, before := BytesOf(Copied(c, k).items, name), BytesOf(c.items, name);
      && |after| <= |before| && (|after| == |before| <==> HashKeptAt(c.items, name, CopyFilter(k)))
      && (HashKeptAt(c.items, name, CopyFilter(k)) ==> after == before)
  {
    if name in c.items && c.items[name].AFolder? {
      BytesKept(c.items[name].inside, CopyFilter(k));
    }
  }

  /** A copy has the hash of its original exactly when no hashed file with anything in it is left out. */
  lemma HashCopied(c: Content, k: Kind)
    ensures HashOf(Copied(c, k).items).Some? <==> HashOf(c.items).Some?
    ensures HashOf(Copied(c, k).items) == HashOf(c.items) <==> HashKeptIn(c, k)
  {
    BytesKeptAt(c, "src", k);
    BytesKeptAt(c, "tests", k);
    BytesKeptAt(c, "examples", k);
    BytesKeptAt(c, "python", k);
    hide BytesOf, HashKeptAt, Copied, CopyFilter;
  }

  // ---- laying a blueprint's copy over the library's

  predicate HasFolder(t: Tree, name: string) {
    match t
    case Done => false
    case File(_, _, more) => HasFolder(more, name)
    case Folder(other, _, more) => other == name || HasFolder(more, name)
  }

  function WithFile(t: Tree, name: string, bytes: string): Tree {
    match t
    case Done => File(name, bytes, Done)
    case File(other, was, more) => if other == name then File(name, bytes, more) else File(other, was, WithFile(more, name, bytes))
    case Folder(other, inside, more) => Folder(other, inside, WithFile(more, name, bytes))
  }

  /** A folder cannot take a file's place, nor a file a folder's inside the folder it falls into. */
  predicate Blocked(under: Item, over: Item, name: string) {
    if over.AFolder? then under.AFile? else under.AFolder? && HasFolder(under.inside, name)
  }

  /** A folder replaces a folder and a file a file; a file over a folder goes into it. */
  function Laid(under: Item, over: Item, name: string): Item {
    if over.AFile? && under.AFolder? then AFolder(WithFile(under.inside, name, over.bytes)) else over
  }

  predicate CannotOverlay(under: Content, over: Content) {
    exists x :: x in under.items && x in over.items && Blocked(under.items[x], over.items[x], x)
  }

  /** Items that the copy does not have stay behind. */
  function Overlaid(under: Content, over: Content): Content {
    over.(items := map x | x in under.items.Keys + over.items.Keys ::
            if x !in over.items then under.items[x]
            else if x in under.items then Laid(under.items[x], over.items[x], x) else over.items[x])
  }

  /** The head has nothing at the top that the copy lacks, and no folder where the copy has a file. */
  predicate Covers(over: Content, under: Content) {
    && under.items.Keys <= over.items.Keys
    && forall x :: x in under.items && x in over.items ==> !(over.items[x].AFile? && under.items[x].AFolder?)
  }

  lemma OverlaidIs(under: Content, over: Content)
    ensures Overlaid(under, over) == over <==> Covers(over, under)
  {
    var after := Overlaid(under, over);
    forall x | x in under.items && x !in over.items ensures after != over {
      assert x in after.items;
    }
    forall x | x in under.items && x in over.items && over.items[x].AFile? && under.items[x].AFolder? ensures after != over {
      assert after.items[x] != over.items[x];
    }
    if Covers(over, under) {
      assert after.items == over.items;
    }
  }

  // ---- the same, file by file

  datatype FileAt = FileAt(path: seq<string>, bytes: string)

  function Within(folder: string, files: seq<FileAt>): seq<FileAt> {
    if files == [] then [] else [FileAt([folder] + files[0].path, files[0].bytes)] + Within(folder, files[1..])
  }

  /** Every file of the tree with its path, in the order they are walked. */
  function Files(t: Tree): seq<FileAt> {
    match t
    case Done => []
    case File(name, bytes, more) => [FileAt([name], bytes)] + Files(more)
    case Folder(name, inside, more) => Within(name, Files(inside)) + Files(more)
  }

  function Select(files: seq<FileAt>, f: Filter): seq<FileAt> {
    if files == [] then []
    else (if forall n :: n in files[0].path ==> !Drops(f, n) then [files[0]] else []) + Select(files[1..], f)
  }

  lemma {:induction false} SelectJoin(a: seq<FileAt>, b: seq<FileAt>, f: Filter)
    ensures Select(a + b, f) == Select(a, f) + Select(b, f)
  {
    if a == [] {
      assert a + b == b;
    } else {
      assert (a + b)[1..] == a[1..] + b;
      SelectJoin(a[1..], b, f);
    }
  }

  lemma {:induction false} SelectWithin(folder: string, files: seq<FileAt>, f: Filter)
    ensures Select(Within(folder, files), f) == if Drops(f, folder) then [] else Within(folder, Select(files, f))
  {
    hide Drops;
    if files != [] {
      SelectWithin(folder, files[1..], f);
      assert forall n :: n in [folder] + files[0].path <==> n == folder || n in files[0].path;
      WithinJoin(folder, if forall n :: n in files[0].path ==> !Drops(f, n) then [files[0]] else [], Select(files[1..], f));
    }
  }

  lemma {:induction false} WithinJoin(folder: string, a: seq<FileAt>, b: seq<FileAt>)
    ensures Within(folder, a + b) == Within(folder, a) + Within(folder, b)
  {
    if a == [] {
      assert a + b == b;
    } else {
      assert (a + b)[1..] == a[1..] + b;
      WithinJoin(folder, a[1..], b);
    }
  }

  /** Filtering keeps exactly the files with no dropped name on their path, and their order. */
  lemma {:induction false} KeptFiles(t: Tree, f: Filter)
    ensures Files(Kept(t, f)) == Select(Files(t), f)
  {
    hide Drops;
    match t
    case Done =>
    case File(name, bytes, more) =>
      KeptFiles(more, f);
      SelectJoin([FileAt([name], bytes)], Files(more), f);
    case Folder(name, inside, more) =>
      KeptFiles(inside, f);
      KeptFiles(more, f);
      SelectJoin(Within(name, Files(inside)), Files(more), f);
      SelectWithin(name, Files(inside), f);
  }

  /** The hash walks into every folder but caches and OS metadata, and reads every file but compiled ones and OS metadata. */
  predicate IsHashed(path: seq<string>) {
    && path != []
    && (forall i :: 0 <= i < |path| - 1 ==> path[i] != "__pycache__" && !IsMetadata(path[i]))
    && !IsMetadata(path[|path| - 1]) && !Ends(path[|path| - 1], ".pyc")
  }

  function HashedBytes(files: seq<FileAt>): string {
    if files == [] then "" else (if IsHashed(files[0].path) then files[0].bytes else "") + HashedBytes(files[1..])
  }

  lemma {:induction false} HashedJoin(a: seq<FileAt>, b: seq<FileAt>)
    ensures HashedBytes(a + b) == HashedBytes(a) + HashedBytes(b)
  {
    hide IsHashed;
    if a == [] {
      assert a + b == b;
    } else {
      assert (a + b)[1..] == a[1..] + b;
      HashedJoin(a[1..], b);
    }
  }

  lemma {:induction false} HashedWithin(folder: string, files: seq<FileAt>)
    requires forall g :: g in files ==> g.path != []
    ensures HashedBytes(Within(folder, files)) == if HashSkipsFolder(folder) then "" else HashedBytes(files)
  {
    hide IsMetadata, Ends;
    if files != [] {
      HashedWithin(folder, files[1..]);
      assert files[0] in files;
      HashedUnder(folder, files[0].path);
      hide IsHashed, HashSkipsFolder;
    }
  }

  lemma HashedUnder(folder: string, path: seq<string>)
    requires path != []
    ensures IsHashed([folder] + path) <==> !HashSkipsFolder(folder) && IsHashed(path)
  {
    hide IsMetadata, Ends;
    var whole := [folder] + path;
    assert whole[0] == folder && whole[|whole| - 1] == path[|path| - 1];
    assert forall i :: 0 <= i < |path| ==> whole[i + 1] == path[i];
  }

  lemma {:induction false} PathsNamed(t: Tree)
    ensures forall g :: g in Files(t) ==> g.path != []
  {
    match t
    case Done =>
    case File(_, _, more) => PathsNamed(more);
    case Folder(name, inside, more) =>
      PathsNamed(more);
      WithinNamed(name, Files(inside));
  }

  lemma {:induction false} WithinNamed(folder: string, files: seq<FileAt>)
    ensures forall g :: g in Within(folder, files) ==> g.path != []
  {
    if files != [] {
      WithinNamed(folder, files[1..]);
    }
  }

  lemma {:induction false} BytesAreFiles(t: Tree)
    ensures Bytes(t) == HashedBytes(Files(t))
  {
    hide IsMetadata, Ends;
    match t
    case Done =>
    case File(name, bytes, more) =>
      BytesAreFiles(more);
      HashedJoin([FileAt([name], bytes)], Files(more));
    case Folder(name, inside, more) =>
      BytesAreFiles(inside);
      BytesAreFiles(more);
      PathsNamed(inside);
      HashedJoin(Within(name, Files(inside)), Files(more));
      HashedWithin(name, Files(inside));
  }

  /** Names that end in .pyc, and OS metadata, spelled out. */
  lemma NamesAre(name: string)
    ensures Ends(name, ".pyc") <==> exists stem :: name == stem + ".pyc"
    ensures IsMetadata(name) <==>
      || name == ".DS_Store" || name == "__MACOSX" || name == "Thumbs.db" || name == "desktop.ini"
      || exists rest :: name == "._" + rest
  {
    if Ends(name, ".pyc") {
      assert name == name[..|name| - 4] + ".pyc";
    }
    if "._" <= name {
      assert name == "._" + name[2..];
    }
  }

  /** What each kind of item leaves out, at the top and below it. */
  lemma LeftOut(k: Kind, name: string)
    ensures k.Widget? ==>
      && (Drops(CopyFilter(k), name) <==>
            name in k.artifacts || IsMetadata(name) || Ends(name, ".pyc") || name == ".dep_cache.json" || name == ".cartograph_source")
      && (Drops(ArchiveFilter(k), name) <==> Drops(CopyFilter(k), name) || name in {"history", "changelog.json", ".validation_stamp.json"})
      && (name in TopSkips(k) <==>
            name in k.artifacts || name in {"history", "changelog.json", ".validation_stamp.json", ".dep_cache.json", ".cartograph_source"})
    ensures k.Blueprint? ==>
      && (Drops(CopyFilter(k), name) <==>
            Ends(name, ".pyc") || name in {".venv", "__pycache__", ".pytest_cache", ".cartograph_source", "cg"})
      && (Drops(ArchiveFilter(k), name) <==>
            Drops(CopyFilter(k), name) || name in {"history", "changelog.json", ".validation_stamp.json", ".dep_cache.json"})
      && (name in TopSkips(k) <==>
            name in {"history", "changelog.json", ".validation_stamp.json", ".dep_cache.json", ".cartograph_source",
                     ".venv", "__pycache__", ".pytest_cache", "cg"})
  {
    hide IsMetadata, Ends;
  }

  /** The file is put in place of the one of that name, or added; every other file stays. */
  lemma {:induction false} FilePut(t: Tree, name: string, bytes: string)
    ensures FileAt([name], bytes) in Files(WithFile(t, name, bytes))
    ensures forall g: FileAt :: g.path != [name] ==> (g in Files(WithFile(t, name, bytes)) <==> g in Files(t))
  {
    match t
    case Done =>
    case File(_, _, more) => FilePut(more, name, bytes);
    case Folder(_, _, more) => FilePut(more, name, bytes);
  }

  /** What is in the way of laying one item over another: a file under a folder, or inside a folder a folder of the file's name. */
  lemma BlockedMeans(under: Item, over: Item, name: string)
    ensures Blocked(under, over, name) <==>
      || (under.AFile? && over.AFolder?)
      || (under.AFolder? && over.AFile? && name in FolderNames(under.inside))
    ensures !Blocked(under, over, name) ==>
      Laid(under, over, name) == if under.AFolder? && over.AFile? then AFolder(WithFile(under.inside, name, over.bytes)) else over
  {
    if under.AFolder? {
      HasNamed(under.inside, name);
    }
  }

  function FolderNames(t: Tree): set<string> {
    match t
    case Done => {}
    case File(_, _, more) => FolderNames(more)
    case Folder(name, _, more) => {name} + FolderNames(more)
  }

  lemma {:induction false} HasNamed(t: Tree, name: string)
    ensures HasFolder(t, name) <==> name in FolderNames(t)
  {
    match t
    case Done =>
    case File(_, _, more) => HasNamed(more, name);
    case Folder(_, _, more) => HasNamed(more, name);
  }
}
