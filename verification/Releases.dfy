/** One library item's releases: the head, the archived versions and the changelog, under check-in and restore. */
module Releases {
  import opened Outcomes
  import opened Contents

  /**
   A version of the form of section 2 of SemVer 2.0.0; any other text the version reader takes, with what it reads;
   or one it does not take. tail ranks versions of equal number: pre-releases below 0, further parts above it.
   */
  datatype Version =
    | Semver(major: nat, minor: nat, patch: nat)
    | Other(text: string, epoch: nat, major: nat, minor: nat, patch: nat, tail: int)
    | Malformed(text: string)

  datatype BumpKind = Major | Minor | Patch

  datatype Key = Key(epoch: nat, major: nat, minor: nat, patch: nat, tail: int)

  /** A malformed version sorts as 0.0.0. */
  function KeyOf(v: Version): Key {
    match v
    case Semver(major, minor, patch) => Key(0, major, minor, patch, 0)
    case Other(_, epoch, major, minor, patch, tail) => Key(epoch, major, minor, patch, tail)
    case Malformed(_) => Key(0, 0, 0, 0, 0)
  }

  /** Precedence, section 11 of SemVer 2.0.0, with an epoch before the number. */
  predicate Below(a: Version, b: Version) {
    var x, y := KeyOf(a), KeyOf(b);
    if x.epoch != y.epoch then x.epoch < y.epoch
    else if x.major != y.major then x.major < y.major
    else if x.minor != y.minor then x.minor < y.minor
    else if x.patch != y.patch then x.patch < y.patch
    else x.tail < y.tail
  }

  /** The higher epoch is above; a version that cannot be read stands as 0.0.0; one read as X.Y.Z and nothing else stands
      as X.Y.Z; of equal numbers, what follows them decides. */
  lemma OrderIs(a: Version, b: Version)
    ensures a.Malformed? ==> (Below(a, b) <==> Below(Semver(0, 0, 0), b)) && (Below(b, a) <==> Below(b, Semver(0, 0, 0)))
    ensures a.Other? && a.epoch == 0 && a.tail == 0 ==>
      var plain := Semver(a.major, a.minor, a.patch);
      (Below(a, b) <==> Below(plain, b)) && (Below(b, a) <==> Below(b, plain))
    ensures a.Other? && b.Other? && a.epoch < b.epoch ==> Below(a, b)
    ensures HasEpoch(a) && !HasEpoch(b) ==> Below(b, a)
    ensures a.Other? && b.Other? && (a.epoch, a.major, a.minor, a.patch) == (b.epoch, b.major, b.minor, b.patch) ==>
      (Below(a, b) <==> a.tail < b.tail)
    ensures a.Other? && b.Other? && a.epoch == b.epoch && (a.major, a.minor, a.patch) != (b.major, b.minor, b.patch) ==>
      (Below(a, b) <==> Below(Semver(a.major, a.minor, a.patch), Semver(b.major, b.minor, b.patch)))
  {
  }

  predicate HasEpoch(v: Version) {
    v.Other? && v.epoch > 0
  }

  /** Sections 6 to 8 of SemVer 2.0.0. A malformed version cannot be bumped; an epoch is lost, and only then the bump is not above. */
  function Bump(v: Version, kind: BumpKind): (r: Option<Version>)
    ensures r.None? <==> v.Malformed?
    ensures r.Some? ==> r.value.Semver? && (Below(v, r.value) <==> !HasEpoch(v))
  {
    if v.Malformed? then None else
    Some(match kind
         case Major => Semver(v.major + 1, 0, 0)
         case Minor => Semver(v.major, v.minor + 1, 0)
         case Patch => Semver(v.major, v.minor, v.patch + 1))
  }

  /** A patch is the least version above; a minor one the least above that ends in 0; a major one the least above that
      ends in 0.0. A version of another form is bumped by its number alone. */
  lemma BumpIsLeast(v: Version, kind: BumpKind)
    requires !v.Malformed?
    ensures v.Other? ==> Bump(v, kind) == Bump(Semver(v.major, v.minor, v.patch), kind)
    ensures v.Semver? ==>
      var next := Bump(v, kind).value;
      && Below(v, next) && EndsAs(next, kind)
      && forall w: Version :: w.Semver? && EndsAs(w, kind) && Below(v, w) ==> w == next || Below(next, w)
  {
  }

  predicate EndsAs(v: Version, kind: BumpKind)
    requires v.Semver?
  {
    match kind
    case Major => v.minor == 0 && v.patch == 0
    case Minor => v.patch == 0
    case Patch => true
  }

  datatype Working = Working(version: Version, content: Content)

  datatype LogEntry = LogEntry(version: Version, reason: string)

  datatype Release = Release(head: Option<Working>, history: map<Version, Content>, changelog: seq<LogEntry>)

  /** What surrounds a check-in: validation, the contamination scan, the override, the stamp it will write, and the
      build artifacts of the language. */
  datatype Request = Request(kind: BumpKind, reason: string, valid: bool, blocks: bool, warnings: bool,
                             overriding: bool, overrideReason: string, stamp: string, artifacts: Artifacts)

  datatype Refusal =
    | Invalid
    | Stale
    | MalformedBaseline
    | WrongBump(intended: Option<BumpKind>)
    | VersionConflict
    | Identical
    | Contaminated
    | PausedOnWarnings
    | NoOverrideReason
    | NotFound
    | InTheWay

  function ScanRefusal(q: Request): Option<Refusal> {
    if q.blocks then Some(Contaminated)
    else if q.warnings && !q.overriding then Some(PausedOnWarnings)
    else if q.overriding && q.overrideReason == "" then Some(NoOverrideReason)
    else None
  }

  /** The level a hand-made bump corresponds to. */
  function Intended(base: Version, local: Version): Option<BumpKind> {
    if Bump(base, Patch) == Some(local) then Some(Patch)
    else if Bump(base, Minor) == Some(local) then Some(Minor)
    else if Bump(base, Major) == Some(local) then Some(Major)
    else None
  }

  /** The level named in the refusal is the one whose bump would have been accepted, whenever there is one. */
  lemma IntendedIsRight(base: Version, local: Version, kind: BumpKind)
    ensures Intended(base, local) == Some(kind) <==> Bump(base, kind) == Some(local)
  {
  }

  /** A local version is the baseline's, or exactly the bump asked for. */
  function VersionRefusal(base: Version, local: Version, kind: BumpKind): Option<Refusal> {
    if local == base then None
    else if Below(local, base) then Some(Stale)
    else if Bump(base, kind).None? then Some(MalformedBaseline)
    else if Bump(base, kind) != Some(local) then Some(WrongBump(Intended(base, local)))
    else None
  }

  /** The hash of the head is compared, when it has one, and the manifest beside it; nothing else is looked at. */
  predicate LooksUnchanged(copy: Content, head: Content) {
    HashOf(head.items).Some? && HashOf(copy.items) == HashOf(head.items) && copy.manifest == head.manifest
  }

  /** Blueprints: the hashes may also both be missing, and stamps do not count as changes. */
  predicate LooksUnchangedBlueprint(copy: Content, head: Content) {
    HashOf(copy.items) == HashOf(head.items) && copy.manifest.fields == head.manifest.fields
  }

  function Stamped(c: Content, stamp: string): Content {
    c.(manifest := c.manifest.(stamp := stamp))
  }

  /** The head is archived under its version; the new one takes its place with its line on top of the log. */
  function Published(r: Release, version: Version, content: Content, reason: string, k: Kind): Release {
    Release(Some(Working(version, content)),
            if r.head.Some? then r.history[r.head.value.version := Archived(r.head.value.content, k)] else r.history,
            [LogEntry(version, if reason != "" then reason
                               else if r.head.Some? then "No reason provided" else "Initial release")] + r.changelog)
  }

  function CheckedIn(r: Release, w: Working, q: Request): Result<Release, Refusal> {
    var k, refused := Widget(q.artifacts), ScanRefusal(q);
    var content := Copied(Stamped(w.content, q.stamp), k);
    if !q.valid then Err(Invalid)
    else if r.head.None? then
      if refused.Some? then Err(refused.value) else Ok(Published(r, w.version, content, q.reason, k))
    else
      var base := r.head.value.version;
      var wrong := VersionRefusal(base, w.version, q.kind);
      if wrong.Some? then Err(wrong.value)
      else if LooksUnchanged(w.content, r.head.value.content) then Err(Identical)
      else if refused.Some? then Err(refused.value)
      else if Bump(base, q.kind).None? then Err(MalformedBaseline)
      else Ok(Published(r, Bump(base, q.kind).value, content, q.reason, k))
  }

  /** The archived content comes back as a patch on top of the head, through check-in itself. */
  function Restored(r: Release, v: Version, q: Request): Result<Release, Refusal> {
    if r.head.None? || v !in r.history then Err(NotFound)
    else CheckedIn(r, Working(r.head.value.version, r.history[v]), AsRestore(q))
  }

  function AsRestore(q: Request): Request {
    q.(kind := Patch, overriding := false, overrideReason := "", reason := "RESTORE: " + q.reason)
  }

  /** Blueprints: the local version must be the library's, and the copy goes over what the library holds. */
  function BlueprintCheckedIn(r: Release, w: Working, q: Request): Result<Release, Refusal> {
    var refused := ScanRefusal(q);
    var content := Copied(Stamped(w.content, q.stamp), Blueprint);
    if !q.valid then Err(Invalid)
    else if r.head.None? then
      if refused.Some? then Err(refused.value) else Ok(Published(r, w.version, content, q.reason, Blueprint))
    else
      var head := r.head.value;
      if w.version != head.version then Err(VersionConflict)
      else if LooksUnchangedBlueprint(w.content, head.content) then Err(Identical)
      else if refused.Some? then Err(refused.value)
      else if Bump(w.version, q.kind).None? then Err(MalformedBaseline)
      else if CannotOverlay(head.content, content) then Err(InTheWay)
      else Ok(Published(r, Bump(w.version, q.kind).value, Overlaid(head.content, content), q.reason, Blueprint))
  }

  datatype Event =
    | DoCheckin(w: Working, q: Request)
    | DoRestore(v: Version, q: Request)
    | DoCheckinBlueprint(w: Working, q: Request)

  function Happens(r: Release, e: Event): Result<Release, Refusal> {
    match e
    case DoCheckin(w, q) => CheckedIn(r, w, q)
    case DoRestore(v, q) => Restored(r, v, q)
    case DoCheckinBlueprint(w, q) => BlueprintCheckedIn(r, w, q)
  }

  function KindOf(e: Event): Kind {
    match e
    case DoCheckin(_, q) => Widget(q.artifacts)
    case DoRestore(_, q) => Widget(q.artifacts)
    case DoCheckinBlueprint(_, _) => Blueprint
  }

  function AfterRun(r: Release, events: seq<Event>): Release {
    if events == [] then r else
    var before := AfterRun(r, events[..|events| - 1]);
    var after := Happens(before, events[|events| - 1]);
    if after.Ok? then after.value else before
  }

  const NOTHING := Release(None, map[], [])

  /** The head is above everything archived, and the log is exactly the head and the archive, newest first. */
  ghost predicate Ordered(r: Release) {
    if r.head.None? then r == NOTHING
    else
      && |r.changelog| == |r.history| + 1 && r.changelog[0].version == r.head.value.version
      && (r.history != map[] ==> r.head.value.version.Semver?)
      && (forall v :: v in r.history ==> Below(v, r.head.value.version))
      && (forall v :: v in r.history <==> LoggedAt(r.changelog, v, 1))
      && forall i, j :: 0 <= i < j < |r.changelog| ==> Below(r.changelog[j].version, r.changelog[i].version)
  }

  /** The next version is above the head. */
  ghost predicate Rises(r: Release, version: Version) {
    r.head.Some? ==> version.Semver? && Below(r.head.value.version, version)
  }

  ghost predicate LoggedAt(changelog: seq<LogEntry>, v: Version, from: nat) {
    exists i :: from <= i < |changelog| && changelog[i].version == v
  }

  lemma LoggedMore(line: LogEntry, changelog: seq<LogEntry>, v: Version)
    requires changelog != []
    ensures LoggedAt([line] + changelog, v, 1) <==> changelog[0].version == v || LoggedAt(changelog, v, 1)
  {
    var more := [line] + changelog;
    if LoggedAt(changelog, v, 1) {
      var i :| 1 <= i < |changelog| && changelog[i].version == v;
      assert more[i + 1].version == v;
    }
    if changelog[0].version == v {
      assert more[1].version == v;
    }
    if LoggedAt(more, v, 1) {
      var i :| 1 <= i < |more| && more[i].version == v;
      assert changelog[i - 1].version == v;
    }
  }

  lemma PublishKeepsOrder(r: Release, version: Version, content: Content, reason: string, k: Kind)
    requires Ordered(r) && Rises(r, version)
    ensures var after := Published(r, version, content, reason, k);
      Ordered(after) && forall v :: v in r.history ==> v in after.history && after.history[v] == r.history[v]
    ensures r.head.Some? ==> r.head.value.version !in r.history
  {
    hide LoggedAt, Archived;
    var after := Published(r, version, content, reason, k);
    if r.head.Some? {
      forall v ensures LoggedAt(after.changelog, v, 1) <==> v == r.head.value.version || LoggedAt(r.changelog, v, 1) {
        LoggedMore(after.changelog[0], r.changelog, v);
      }
      forall v | v in after.history ensures Below(v, version) {
        assert v == r.head.value.version || v in r.history;
      }
      forall i, j | 0 <= i < j < |after.changelog| ensures Below(after.changelog[j].version, after.changelog[i].version) {
        assert after.changelog[j] == r.changelog[j - 1];
        assert i > 0 ==> after.changelog[i] == r.changelog[i - 1];
      }
    } else {
      NothingLogged(after.changelog);
    }
  }

  lemma NothingLogged(changelog: seq<LogEntry>)
    requires |changelog| <= 1
    ensures forall v :: !LoggedAt(changelog, v, 1)
  {
  }

  predicate EpochHead(r: Release) {
    r.head.Some? && HasEpoch(r.head.value.version)
  }

  /** What any successful event does: it publishes, above the head it archives unless that head has an epoch. */
  lemma EventPublishes(r: Release, e: Event)
    requires Happens(r, e).Ok?
    ensures var after := Happens(r, e).value;
      && after.head.Some?
      && (exists reason :: after == Published(r, after.head.value.version, after.head.value.content, reason, KindOf(e)))
      && (Rises(r, after.head.value.version) <==> !EpochHead(r))
  {
    var after := Happens(r, e).value;
    hide Archived, Copied, Overlaid, CannotOverlay, LooksUnchanged, LooksUnchangedBlueprint;
    var reason := match e
      case DoCheckin(_, q) => q.reason
      case DoRestore(_, q) => AsRestore(q).reason
      case DoCheckinBlueprint(_, q) => q.reason;
    assert after == Published(r, after.head.value.version, after.head.value.content, reason, KindOf(e));
  }

  /** One event: order is kept, exactly unless the head it archives has an epoch; no archived snapshot is lost or overwritten. */
  lemma EventKeepsOrder(r: Release, e: Event)
    requires Ordered(r) && Happens(r, e).Ok?
    ensures Ordered(Happens(r, e).value) <==> !EpochHead(r)
    ensures !EpochHead(r) ==>
      forall v :: v in r.history ==> v in Happens(r, e).value.history && Happens(r, e).value.history[v] == r.history[v]
  {
    hide Ordered, Rises, Happens;
    EventPublishes(r, e);
    var after := Happens(r, e).value;
    var version, content := after.head.value.version, after.head.value.content;
    var reason :| after == Published(r, version, content, reason, KindOf(e));
    if EpochHead(r) {
      OnlyRising(r, version, content, reason, KindOf(e));
    } else {
      PublishKeepsOrder(r, version, content, reason, KindOf(e));
    }
  }

  lemma OnlyRising(r: Release, version: Version, content: Content, reason: string, k: Kind)
    requires !Rises(r, version)
    ensures !Ordered(Published(r, version, content, reason, k))
  {
    assert r.head.value.version in Published(r, version, content, reason, k).history;
  }

  /** Whatever is checked in first has no epoch. */
  predicate NoEpochs(events: seq<Event>) {
    forall k :: 0 <= k < |events| ==>
      match events[k]
      case DoCheckin(w, _) => !HasEpoch(w.version)
      case DoCheckinBlueprint(w, _) => !HasEpoch(w.version)
      case DoRestore(_, _) => true
  }

  lemma EventBringsNoEpoch(r: Release, e: Event)
    requires NoEpochs([e]) && Happens(r, e).Ok?
    ensures !EpochHead(Happens(r, e).value)
  {
    assert [e][0] == e;
  }

  /** Over every run of check-ins and restores. */
  lemma {:induction false} RunKeepsOrder(r: Release, events: seq<Event>)
    requires Ordered(r) && !EpochHead(r) && NoEpochs(events)
    ensures Ordered(AfterRun(r, events)) && !EpochHead(AfterRun(r, events))
    ensures forall v :: v in r.history ==> v in AfterRun(r, events).history && AfterRun(r, events).history[v] == r.history[v]
  {
    hide Happens, Ordered;
    if events != [] {
      var n := |events| - 1;
      RunKeepsOrder(r, events[..n]);
      if Happens(AfterRun(r, events[..n]), events[n]).Ok? {
        EventKeepsOrder(AfterRun(r, events[..n]), events[n]);
        EventBringsNoEpoch(AfterRun(r, events[..n]), events[n]);
      }
    }
  }

  /** Exactly when a check-in over an existing head goes through, with which version, and when the head is all of the copy. */
  lemma CheckinAccepts(r: Release, w: Working, q: Request)
    requires r.head.Some?
    ensures var base, next := r.head.value.version, Bump(r.head.value.version, q.kind);
      CheckedIn(r, w, q).Ok? <==>
        && q.valid && next.Some? && (w.version == base || (w.version == next.value && !HasEpoch(base)))
        && !q.blocks && (q.warnings ==> q.overriding) && (q.overriding ==> q.overrideReason != "")
        && var before, after := r.head.value.content, w.content;
        HashOf(before.items).None? || HashOf(after.items) != HashOf(before.items) || after.manifest != before.manifest
    ensures CheckedIn(r, w, q).Ok? ==>
      var head, k := CheckedIn(r, w, q).value.head.value, Widget(q.artifacts);
      && Some(head.version) == Bump(r.head.value.version, q.kind)
      && head.content == Copied(Stamped(w.content, q.stamp), k)
      && (head.content == Stamped(w.content, q.stamp) <==> CleanContent(w.content, TopSkips(k), CopyFilter(k)))
  {
    var k := Widget(q.artifacts);
    KeptContentWhole(Stamped(w.content, q.stamp), TopSkips(k), CopyFilter(k));
    hide KeptContent;
  }

  /** Why a check-in is refused: each refusal names a cause that is there, in the order they are looked for. */
  lemma CheckinRefuses(r: Release, w: Working, q: Request)
    requires CheckedIn(r, w, q).Err?
    ensures match CheckedIn(r, w, q).error
            case Invalid => !q.valid
            case Stale => r.head.Some? && Below(w.version, r.head.value.version)
            case MalformedBaseline => r.head.Some? && r.head.value.version.Malformed?
            case WrongBump(intended) =>
              && r.head.Some? && !Below(w.version, r.head.value.version) && w.version != r.head.value.version
              && Bump(r.head.value.version, q.kind) != Some(w.version)
              && forall kind :: intended == Some(kind) <==> Bump(r.head.value.version, kind) == Some(w.version)
            case Identical => r.head.Some? && HashOf(w.content.items) == HashOf(r.head.value.content.items)
              && w.content.manifest == r.head.value.content.manifest
            case Contaminated => q.blocks
            case PausedOnWarnings => q.warnings && !q.overriding && !q.blocks
            case NoOverrideReason => q.overriding && q.overrideReason == "" && !q.blocks
            case _ => false
  {
    hide HashOf, KeptContent;
  }

  /** The line a release gets on top of the log. */
  lemma CheckinLogs(r: Release, w: Working, q: Request)
    requires CheckedIn(r, w, q).Ok?
    ensures var after := CheckedIn(r, w, q).value;
      && after.changelog == [LogEntry(after.head.value.version, after.changelog[0].reason)] + r.changelog
      && (q.reason != "" ==> after.changelog[0].reason == q.reason)
      && (q.reason == "" ==> after.changelog[0].reason == if r.head.None? then "Initial release" else "No reason provided")
      && (r.head.None? ==> after.head.value.version == w.version && after.history == r.history)
  {
    hide KeptContent;
  }

  /** A bump made by hand beforehand is taken as it is, the same result as leaving it to check-in; after an epoch it is stale. */
  lemma NeverBumpedTwice(r: Release, w: Working, q: Request)
    requires r.head.Some? && Bump(r.head.value.version, q.kind) == Some(w.version)
    ensures !EpochHead(r) ==> CheckedIn(r, w, q) == CheckedIn(r, w.(version := r.head.value.version), q)
    ensures EpochHead(r) && q.valid ==> CheckedIn(r, w, q) == Err(Stale)
    ensures CheckedIn(r, w, q).Ok? ==> CheckedIn(r, w, q).value.head.value.version == w.version
  {
  }

  /** The working copy as check-in leaves it is refused at once, whatever is asked for, exactly when it has a folder that
      is hashed and every hashed file that check-in drops is empty. */
  lemma CheckedInIsNoChange(r: Release, w: Working, q: Request, again: Request)
    requires CheckedIn(r, w, q).Ok?
    requires again.valid && ScanRefusal(again).None? && !CheckedIn(r, w, q).value.head.value.version.Malformed?
    ensures var after := CheckedIn(r, w, q).value;
      CheckedIn(after, Working(after.head.value.version, Stamped(w.content, q.stamp)), again).Err? <==>
        HashOf(w.content.items).Some? && HashKeptIn(w.content, Widget(q.artifacts))
  {
    var copy := Stamped(w.content, q.stamp);
    HashCopied(copy, Widget(q.artifacts));
    assert HashKeptIn(copy, Widget(q.artifacts)) == HashKeptIn(w.content, Widget(q.artifacts));
    hide HashOf, KeptContent, HashKeptIn;
  }

  /** A restore that succeeds makes the head a copy of what was archived, as a patch, and keeps the archive. */
  lemma RestoreBringsBack(r: Release, v: Version, q: Request)
    requires Ordered(r) && Restored(r, v, q).Ok?
    ensures var after, k := Restored(r, v, q).value, Widget(q.artifacts);
      && after.head.value.content == Copied(Stamped(r.history[v], q.stamp), k)
      && Some(after.head.value.version) == Bump(r.head.value.version, Patch)
      && after.history == r.history[r.head.value.version := Archived(r.head.value.content, k)]
      && v in after.history && after.history[v] == r.history[v]
  {
    assert !EpochHead(r);
    hide Ordered, Copied, Archived, LooksUnchanged;
    EventKeepsOrder(r, DoRestore(v, q));
    assert Happens(r, DoRestore(v, q)) == Restored(r, v, q);
    hide Happens;
  }

  /** Archived and restored, with the same artifacts, content is what it was, stamp aside, exactly when it has no entry
      that archiving drops. */
  lemma RestoreReturns(r: Release, v: Version, q: Request, content: Content)
    requires Ordered(r) && Restored(r, v, q).Ok? && r.history[v] == Archived(content, Widget(q.artifacts))
    ensures var k := Widget(q.artifacts);
      Restored(r, v, q).value.head.value.content == Stamped(content, q.stamp) <==>
        CleanContent(content, TopSkips(k), ArchiveFilter(k))
  {
    var k := Widget(q.artifacts);
    var stamped := Stamped(content, q.stamp);
    RestoreBringsBack(r, v, q);
    assert Stamped(r.history[v], q.stamp) == Archived(stamped, k);
    ArchivedCopies(stamped, k);
    KeptContentWhole(stamped, TopSkips(k), ArchiveFilter(k));
    hide Restored, Copied, KeptContent, Ordered;
  }

  /** Exactly when a restore succeeds: the version is archived, not the head's content, and passes a clean scan. */
  lemma RestoreAccepts(r: Release, v: Version, q: Request)
    requires Ordered(r)
    ensures Restored(r, v, q).Ok? <==>
      && r.head.Some? && v in r.history && q.valid && !q.blocks && !q.warnings
      && var before, after := r.head.value.content, r.history[v];
      HashOf(before.items).None? || HashOf(after.items) != HashOf(before.items) || after.manifest != before.manifest
  {
  }

  /** Exactly when a blueprint check-in over a head goes through. */
  lemma BlueprintAccepts(r: Release, w: Working, q: Request)
    requires r.head.Some?
    ensures BlueprintCheckedIn(r, w, q).Ok? <==>
      && q.valid && w.version == r.head.value.version && !w.version.Malformed?
      && !q.blocks && (q.warnings ==> q.overriding) && (q.overriding ==> q.overrideReason != "")
      && var before, after := r.head.value.content, w.content;
      && (HashOf(after.items) != HashOf(before.items) || after.manifest.fields != before.manifest.fields)
      && !CannotOverlay(before, Copied(Stamped(after, q.stamp), Blueprint))
    ensures BlueprintCheckedIn(r, w, q).Ok? ==> Some(BlueprintCheckedIn(r, w, q).value.head.value.version) == Bump(w.version, q.kind)
  {
    hide Copied, CannotOverlay, HashOf;
  }

  /** Whatever was the head at some point of a run stays it to the end, or was archived by some later event of the run:
      all of it, exactly when it has no entry that archiving drops. */
  lemma {:induction false} RunArchives(r: Release, events: seq<Event>, from: nat)
    requires Ordered(r) && !EpochHead(r) && NoEpochs(events) && from <= |events| && AfterRun(r, events[..from]).head.Some?
    ensures var held, end := AfterRun(r, events[..from]).head.value, AfterRun(r, events);
      || end.head == Some(held)
      || (held.version in end.history
          && exists k :: from <= k < |events| && ArchivedAs(held.content, KindOf(events[k]), end.history[held.version]))
    decreases |events|
  {
    hide Happens, Ordered, Archived, Contents.CleanContent, ArchivedAs;
    if from < |events| {
      var n := |events| - 1;
      var held, before := AfterRun(r, events[..from]).head.value, AfterRun(r, events[..n]);
      assert events[..n][..from] == events[..from];
      RunKeepsOrder(r, events[..n]);
      RunArchives(r, events[..n], from);
      if Happens(before, events[n]).Ok? {
        EventPublishes(before, events[n]);
        EventKeepsOrder(before, events[n]);
        if before.head == Some(held) {
          ArchivedExactly(held.content, KindOf(events[n]));
        } else {
          var k :| from <= k < n && ArchivedAs(held.content, KindOf(events[..n][k]), before.history[held.version]);
          assert events[..n][k] == events[k];
        }
      } else if before.head != Some(held) {
        var k :| from <= k < n && ArchivedAs(held.content, KindOf(events[..n][k]), before.history[held.version]);
        assert events[..n][k] == events[k];
      }
    } else {
      assert events[..from] == events;
    }
  }

  ghost predicate ArchivedAs(content: Content, k: Kind, archived: Content) {
    archived == Archived(content, k) && (archived == content <==> CleanContent(content, TopSkips(k), ArchiveFilter(k)))
  }

  lemma ArchivedExactly(content: Content, k: Kind)
    ensures ArchivedAs(content, k, Archived(content, k))
  {
    KeptContentWhole(content, TopSkips(k), ArchiveFilter(k));
  }

  /** The item is copied whole, or is never copied and the library holds the same already. */
  predicate Arrives(under: Content, copy: Content, x: string)
    requires x in copy.items
  {
    if x in TopSkips(Blueprint) then x in under.items && under.items[x] == copy.items[x]
    else copy.items[x].AFolder? ==> Clean(copy.items[x].inside, CopyFilter(Blueprint))
  }

  /** A blueprint's head is the working copy exactly when the copy has every top-level item the old head had, none of them
      a file over a folder, and every item of the copy arrives whole. */
  lemma BlueprintHeadIsCopy(r: Release, w: Working, q: Request)
    requires r.head.Some? && BlueprintCheckedIn(r, w, q).Ok?
    ensures BlueprintCheckedIn(r, w, q).value.head.value.content == Stamped(w.content, q.stamp) <==>
      && Covers(w.content, r.head.value.content)
      && forall x :: x in w.content.items ==> Arrives(r.head.value.content, w.content, x)
  {
    var under, copy := r.head.value.content, Stamped(w.content, q.stamp);
    var over := Copied(copy, Blueprint);
    var head := Overlaid(under, over);
    assert head.manifest == copy.manifest;
    forall x | x in copy.items
      ensures (x in head.items && head.items[x] == copy.items[x]) <==>
        Arrives(under, w.content, x) && !(x in under.items && copy.items[x].AFile? && under.items[x].AFolder?)
    {
      ItemArrives(under, copy, x);
    }
    hide CannotOverlay, Copied, Arrives, LooksUnchangedBlueprint;
    if head == copy {
      forall x | x in under.items ensures x in copy.items {
        assert x in head.items;
      }
    }
    if Covers(copy, under) && forall x :: x in w.content.items ==> Arrives(under, w.content, x) {
      assert head.items.Keys <= copy.items.Keys;
      assert head.items == copy.items;
    }
  }

  lemma ItemArrives(under: Content, copy: Content, x: string)
    requires x in copy.items
    ensures var head := Overlaid(under, Copied(copy, Blueprint));
      (x in head.items && head.items[x] == copy.items[x]) <==>
        Arrives(under, copy, x) && !(x in under.items && copy.items[x].AFile? && under.items[x].AFolder?)
  {
    if copy.items[x].AFolder? {
      KeptWhole(copy.items[x].inside, CopyFilter(Blueprint));
    }
  }

  /** The library entry the commands rewrite. */
  class Entry {
    var head: Option<Working>
    var history: map<Version, Content>
    var changelog: seq<LogEntry>

    constructor ()
      ensures State() == NOTHING
    {
      head, history, changelog := None, map[], [];
    }

    function State(): Release
      reads this
    {
      Release(head, history, changelog)
    }

    /** Archive, swap in the new head, put its line on top of the changelog. */
    method Publish(version: Version, content: Content, reason: string, k: Kind)
      modifies this
      ensures State() == Published(old(State()), version, content, reason, k)
    {
      var line := LogEntry(version, if reason != "" then reason else if head.Some? then "No reason provided" else "Initial release");
      if head.Some? {
        history := history[head.value.version := Archived(head.value.content, k)];
      }
      changelog := [line] + changelog;
      head := Some(Working(version, content));
    }

    method Checkin(w: Working, q: Request) returns (refused: Option<Refusal>, left: Working)
      modifies this
      ensures refused == None <==> CheckedIn(old(State()), w, q).Ok?
      ensures refused.Some? ==> CheckedIn(old(State()), w, q) == Err(refused.value) && State() == old(State()) && left == w
      ensures refused == None ==> CheckedIn(old(State()), w, q) == Ok(State())
      ensures refused == None ==> left == Working(head.value.version, Stamped(w.content, q.stamp))
    {
      left := w;
      if !q.valid {
        return Some(Invalid), w;
      }
      if head.Some? {
        var base := head.value.version;
        if w.version != base {
          if Below(w.version, base) {
            return Some(Stale), w;
          }
          var expected := Bump(base, q.kind);
          if expected.None? {
            return Some(MalformedBaseline), w;
          }
          if w.version != expected.value {
            return Some(WrongBump(Intended(base, w.version))), w;
          }
        }
        if LooksUnchanged(w.content, head.value.content) {
          return Some(Identical), w;
        }
      }
      if q.blocks {
        return Some(Contaminated), w;
      }
      if q.warnings && !q.overriding {
        return Some(PausedOnWarnings), w;
      }
      if q.overriding && q.overrideReason == "" {
        return Some(NoOverrideReason), w;
      }
      var version := w.version;
      if head.Some? {
        var next := Bump(head.value.version, q.kind);
        if next.None? {
          return Some(MalformedBaseline), w;
        }
        version := next.value;
      }
      var stamped := Stamped(w.content, q.stamp);
      Publish(version, Copied(stamped, Widget(q.artifacts)), q.reason, Widget(q.artifacts));
      return None, Working(version, stamped);
    }

    method Restore(v: Version, q: Request) returns (refused: Option<Refusal>)
      modifies this
      ensures refused == None <==> Restored(old(State()), v, q).Ok?
      ensures refused == None ==> Restored(old(State()), v, q) == Ok(State())
      ensures refused.Some? ==> State() == old(State())
    {
      if head.None? || v !in history {
        return Some(NotFound);
      }
      var temp := Working(head.value.version, history[v]);
      var left;
      refused, left := Checkin(temp, AsRestore(q));
    }

    method CheckinBlueprint(w: Working, q: Request) returns (refused: Option<Refusal>)
      modifies this
      ensures refused == None <==> BlueprintCheckedIn(old(State()), w, q).Ok?
      ensures refused == None ==> BlueprintCheckedIn(old(State()), w, q) == Ok(State())
      ensures refused.Some? ==> BlueprintCheckedIn(old(State()), w, q) == Err(refused.value) && State() == old(State())
    {
      hide Copied, Contents.Archived, Overlaid, CannotOverlay, LooksUnchangedBlueprint;
      if !q.valid {
        return Some(Invalid);
      }
      if head.Some? {
        if w.version != head.value.version {
          return Some(VersionConflict);
        }
        if LooksUnchangedBlueprint(w.content, head.value.content) {
          return Some(Identical);
        }
      }
      var scan := ScanRefusal(q);
      if scan.Some? {
        return scan;
      }
      var version, content := w.version, Copied(Stamped(w.content, q.stamp), Blueprint);
      if head.Some? {
        if w.version.Malformed? {
          return Some(MalformedBaseline);
        }
        var major, minor, patch := w.version.major, w.version.minor, w.version.patch;
        match q.kind {
          case Major => major, minor, patch := major + 1, 0, 0;
          case Minor => minor, patch := minor + 1, 0;
          case Patch => patch := patch + 1;
        }
        version := Semver(major, minor, patch);
        if CannotOverlay(head.value.content, content) {
          return Some(InTheWay);
        }
        content := Overlaid(head.value.content, content);
      }
      Publish(version, content, q.reason, Blueprint);
      return None;
    }
  }
}
