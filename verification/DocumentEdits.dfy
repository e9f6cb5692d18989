/** Edits of one document, as the procedure engine makes them: each gives a valid document or an error. */
module DocumentEdits {
  import opened Outcomes
  import opened LinkGraph
  import opened Procedures
  import opened LinkChecks

  datatype EditError =
    | NoSuchProcedure
    | AlreadyExists
    | TwinExists
    | EmptyBatch
    | Blank
    | NothingToEdit
    | NoSuchStep
    | NotExactlyOne
    | BadPosition
    | InvalidDocument
    | LinkRefused(why: Refusal)
    | StillLinked(linkers: seq<Id>)

  /** Where a step goes: right after the named one, or at the end. */
  function Place(d: Document, after: Option<string>): (at: nat)
    requires after.Some? ==> FindTitle(d, after.value) < |d|
    ensures at <= |d|
  {
    if after.None? then |d| else FindTitle(d, after.value) + 1
  }

  function Checked(d: Document): (r: Result<Document, EditError>)
    ensures r.Ok? <==> ValidDocument(d)
    ensures r.Ok? ==> r.value == d
  {
    if ValidDocument(d) then Ok(d) else Err(InvalidDocument)
  }

  function AddStep(d: Document, s: Step, after: Option<string>): Result<Document, EditError> {
    if s.title == "" || s.text == "" || after == Some("") then Err(Blank)
    else if after.Some? && FindTitle(d, after.value) == |d| then Err(NoSuchStep)
    else
      var at := Place(d, after);
      Checked(d[..at] + [s] + d[at..])
  }

  /** link: None leaves the link, Some(None) takes it off, Some(Some(id)) sets it. */
  datatype StepChange = StepChange(title: Option<string>, text: Option<string>, link: Option<Option<Id>>)

  function Changed(s: Step, c: StepChange): Step {
    Step(if c.title.Some? then c.title.value else s.title,
         if c.text.Some? then c.text.value else s.text,
         if c.link.Some? then c.link.value else s.link)
  }

  function EditStep(d: Document, title: string, c: StepChange): Result<Document, EditError> {
    if title == "" then Err(Blank)
    else if c.title.None? && c.text.None? && c.link.None? then Err(NothingToEdit)
    else if c.title == Some("") || c.text == Some("") then Err(Blank)
    else
      var i := FindTitle(d, title);
      if i == |d| then Err(NoSuchStep) else Checked(d[i := Changed(d[i], c)])
  }

  function RemoveStep(d: Document, title: string): Result<Document, EditError> {
    if title == "" then Err(Blank)
    else
      var i := FindTitle(d, title);
      if i == |d| then Err(NoSuchStep) else Checked(d[..i] + d[i + 1..])
  }

  /** Exactly one step may carry the title; position is 1-based. */
  function MoveStep(d: Document, title: string, position: int): Result<Document, EditError> {
    var i := FindTitle(d, title);
    if i == |d| || FindTitle(d[i + 1..], title) < |d| - i - 1 then Err(NotExactlyOne)
    else if !(1 <= position <= |d|) then Err(BadPosition)
    else
      var rest := d[..i] + d[i + 1..];
      Checked(rest[..position - 1] + [d[i]] + rest[position - 1..])
  }

  /** One step gives way to another that differs in what was asked for, and in nothing else. */
  ghost predicate OneChanged(d: Document, r: Document, title: string, c: StepChange) {
    exists k :: 0 <= k < |d| == |r| && d[k].title == title && r[..k] == d[..k] && r[k + 1..] == d[k + 1..] && AsAsked(d[k], r[k], c)
  }

  ghost predicate AsAsked(was: Step, now: Step, c: StepChange) {
    && now.title == (if c.title.Some? then c.title.value else was.title)
    && (c.text.Some? ==> now.text == c.text.value) && (c.text.None? ==> now.text == was.text)
    && (c.link.Some? ==> now.link == c.link.value) && (c.link.None? ==> now.link == was.link)
  }

  ghost predicate HasTitle(d: Document, title: string) {
    exists k :: 0 <= k < |d| && d[k].title == title
  }

  /** What an edit leaves, and why it is refused. */
  lemma EditStepLands(d: Document, title: string, c: StepChange)
    ensures var r := EditStep(d, title, c);
      && (r.Ok? ==> ValidDocument(r.value) && OneChanged(d, r.value, title, c))
      && (r.Err? ==>
            match r.error
            case Blank => title == "" || c.title == Some("") || c.text == Some("")
            case NothingToEdit => c.title.None? && c.text.None? && c.link.None?
            case NoSuchStep => !HasTitle(d, title)
            case InvalidDocument => forall r :: OneChanged(d, r, title, c) && ValidDocument(r) ==> !ValidDocument(d)
            case _ => false)
  {
    var i := FindTitle(d, title);
    if i < |d| {
      var r := d[i := Changed(d[i], c)];
      assert r[..i] == d[..i] && r[i + 1..] == d[i + 1..];
      hide FindTitle;
      forall q | OneChanged(d, q, title, c) && ValidDocument(d) ensures q == r {
        ChangedAlike(d, q, r, title, c);
      }
    } else {
      assert !HasTitle(d, title);
    }
  }

  /** In a valid document an edit can only be made in one way. */
  lemma ChangedAlike(d: Document, q: Document, r: Document, title: string, c: StepChange)
    requires ValidDocument(d) && OneChanged(d, q, title, c) && OneChanged(d, r, title, c)
    ensures q == r
  {
    hide ValidDocument;
    var i :| 0 <= i < |d| == |q| && d[i].title == title && q[..i] == d[..i] && q[i + 1..] == d[i + 1..] && AsAsked(d[i], q[i], c);
    var j :| 0 <= j < |d| == |r| && d[j].title == title && r[..j] == d[..j] && r[j + 1..] == d[j + 1..] && AsAsked(d[j], r[j], c);
    TitlesApart(d, i, j);
    assert q[i] == r[i];
    hide *;
    SameAround(d, q, r, i);
  }

  lemma TitlesApart(d: Document, i: nat, j: nat)
    requires ValidDocument(d) && i < |d| && j < |d| && d[i].title == d[j].title
    ensures i == j
  {
  }

  lemma SameAround(d: Document, q: Document, r: Document, i: nat)
    requires i < |d| == |q| == |r| && q[i] == r[i]
    requires q[..i] == d[..i] == r[..i] && q[i + 1..] == d[i + 1..] == r[i + 1..]
    ensures q == r
  {
    assert q == q[..i] + [q[i]] + q[i + 1..];
    assert r == r[..i] + [r[i]] + r[i + 1..];
  }

  ghost predicate OneRemoved(d: Document, r: Document, title: string) {
    exists k :: 0 <= k < |d| && d[k].title == title && r == d[..k] + d[k + 1..]
  }

  lemma RemoveStepLands(d: Document, title: string)
    ensures var r := RemoveStep(d, title);
      && (r.Ok? ==> ValidDocument(r.value) && OneRemoved(d, r.value, title))
      && (r.Err? ==>
            match r.error
            case Blank => title == ""
            case NoSuchStep => !HasTitle(d, title)
            case InvalidDocument => !ValidDocument(d)
            case _ => false)
  {
    var i := FindTitle(d, title);
    if i < |d| {
      var r := d[..i] + d[i + 1..];
      assert forall k :: 0 <= k < |r| ==> r[k] == d[if k < i then k else k + 1];
      assert ValidDocument(d) ==> ValidDocument(r);
      hide FindTitle;
    } else {
      assert !HasTitle(d, title);
    }
  }

  /** The step with the title stands at the position, and the others keep their order. */
  ghost predicate OneMoved(d: Document, r: Document, title: string, position: int) {
    exists i :: 0 <= i < |d| && d[i].title == title
      && 1 <= position <= |d| == |r| && r[position - 1] == d[i] && r[..position - 1] + r[position..] == d[..i] + d[i + 1..]
  }

  /** The moved step is the one with the title, it ends at the position, and the other steps keep their order. */
  lemma MoveStepLands(d: Document, title: string, position: int)
    requires MoveStep(d, title, position).Ok?
    ensures ValidDocument(MoveStep(d, title, position).value) && OneMoved(d, MoveStep(d, title, position).value, title, position)
  {
    hide ValidDocument, FindTitle;
    var i := FindTitle(d, title);
    var rest := d[..i] + d[i + 1..];
    var r := rest[..position - 1] + [d[i]] + rest[position - 1..];
    assert r[..position - 1] == rest[..position - 1] && r[position..] == rest[position - 1..];
    assert r[position - 1] == d[i];
  }

  ghost predicate OnOneStep(d: Document, title: string) {
    exists i :: 0 <= i < |d| && d[i].title == title && forall k :: 0 <= k < |d| && k != i ==> d[k].title != title
  }

  /** Moving is refused exactly when the title is not on exactly one step, the position is out of range, or the document was invalid. */
  lemma MoveStepRefused(d: Document, title: string, position: int)
    ensures MoveStep(d, title, position) == Err(NotExactlyOne) <==> !OnOneStep(d, title)
    ensures MoveStep(d, title, position) == Err(BadPosition) <==> OnOneStep(d, title) && !(1 <= position <= |d|)
    ensures MoveStep(d, title, position) == Err(InvalidDocument) <==>
      OnOneStep(d, title) && 1 <= position <= |d| && !ValidDocument(d)
    ensures MoveStep(d, title, position).Err? ==>
      MoveStep(d, title, position).error in {NotExactlyOne, BadPosition, InvalidDocument}
  {
    hide ValidDocument, FindTitle, OnOneStep;
    TitleOnce(d, title);
    var i := FindTitle(d, title);
    if i < |d| && 1 <= position <= |d| {
      MovedValid(d, i, position);
    }
  }

  lemma TitleOnce(d: Document, title: string)
    ensures var i := FindTitle(d, title);
      i < |d| && FindTitle(d[i + 1..], title) == |d| - i - 1 <==>
        OnOneStep(d, title)
  {
    hide FindTitle;
    var i := FindTitle(d, title);
    if i < |d| {
      var j := FindTitle(d[i + 1..], title);
      assert forall k :: i < k < |d| ==> d[k] == d[i + 1..][k - i - 1];
      assert j < |d| - i - 1 ==> d[i + 1 + j].title == title;
    }
  }

  lemma MovedValid(d: Document, i: nat, position: int)
    requires i < |d| && 1 <= position <= |d|
    ensures var rest := d[..i] + d[i + 1..];
      ValidDocument(rest[..position - 1] + [d[i]] + rest[position - 1..]) <==> ValidDocument(d)
  {
    var rest := d[..i] + d[i + 1..];
    var moved := rest[..position - 1] + [d[i]] + rest[position - 1..];
    MovedStaysValid(d, moved, i, position - 1);
    MovedStaysValid(moved, d, position - 1, i);
  }

  /** Two documents that agree but for the place of one step: one is valid when the other is. */
  lemma MovedStaysValid(d: Document, moved: Document, i: nat, j: nat)
    requires |d| == |moved| && i < |d| && j < |d| && moved[j] == d[i]
    requires d[..i] + d[i + 1..] == moved[..j] + moved[j + 1..]
    ensures ValidDocument(d) ==> ValidDocument(moved)
  {
    hide ValidStep, Back;
    if ValidDocument(d) {
      forall k | 0 <= k < |d|
        ensures ValidStep(moved[k])
      {
        StoodBefore(d, moved, i, j, k);
      }
      forall k, m | 0 <= k < m < |d|
        ensures moved[k].title != moved[m].title
      {
        StoodBefore(d, moved, i, j, k);
        StoodBefore(d, moved, i, j, m);
        BackInjective(i, j, k, m);
      }
    }
  }

  lemma StoodBefore(d: Document, moved: Document, i: nat, j: nat, k: nat)
    requires |d| == |moved| && i < |d| && j < |d| && moved[j] == d[i] && k < |d|
    requires d[..i] + d[i + 1..] == moved[..j] + moved[j + 1..]
    ensures Back(i, j, k) < |d| && moved[k] == d[Back(i, j, k)]
  {
    var rest, r := d[..i] + d[i + 1..], if k < j then k else k - 1;
    if k != j {
      assert moved[k] == (moved[..j] + moved[j + 1..])[r] == rest[r];
    }
  }

  lemma BackInjective(i: nat, j: nat, k: nat, m: nat)
    requires k < m
    ensures Back(i, j, k) != Back(i, j, m)
  {
  }

  /** Where the step at index k stood before. */
  function Back(i: nat, j: nat, k: nat): nat {
    if k == j then i
    else
      var r := if k < j then k else k - 1;
      if r < i then r else r + 1
  }

  function Spliced(d: Document, entries: seq<Step>, after: Option<string>): Document
    requires after.Some? ==> FindTitle(d, after.value) < |d|
  {
    var at := Place(d, after);
    d[..at] + entries + d[at..]
  }

  /** A batch can start: it names no step to go after, or one the document has. */
  predicate Anchored(d: Document, after: Option<string>) {
    after.Some? ==> after.value != "" && FindTitle(d, after.value) < |d|
  }

  ghost predicate EntryFits(lib: Library, owner: Id, e: Step) {
    e.title != "" && e.text != "" && (e.link.Some? ==> Allowed(lib, owner, e.link.value))
  }

  /** A batch the owner's document takes: every entry complete, every link allowed as the library stands. */
  ghost predicate BatchFits(lib: Library, owner: Id, d: Document, entries: seq<Step>, after: Option<string>) {
    && entries != []
    && (forall e :: e in entries ==> EntryFits(lib, owner, e))
    && Anchored(d, after)
    && ValidDocument(Spliced(d, entries, after))
  }

  lemma FindUnique(d: Document, i: nat)
    requires ValidDocument(d) && i < |d|
    ensures FindTitle(d, d[i].title) == i
  {
  }

  /** Part of a batch is valid when the whole is. */
  lemma PrefixValid(d: Document, entries: seq<Step>, after: Option<string>, n: nat)
    requires Anchored(d, after) && n <= |entries|
    ensures ValidDocument(Spliced(d, entries, after)) ==> ValidDocument(Spliced(d, entries[..n], after))
  {
    var whole, part := Spliced(d, entries, after), Spliced(d, entries[..n], after);
    var at, skip := Place(d, after) + n, |entries| - n;
    assert forall k :: 0 <= k < at ==> part[k] == whole[k];
    assert forall k :: at <= k < |part| ==> part[k] == whole[k + skip];
  }

  /** The next entry of a batch goes right after the one before it. */
  lemma AddsNext(d: Document, entries: seq<Step>, after: Option<string>, i: nat, updated: Document, cursor: Option<string>)
    requires i < |entries| && entries[i].title != "" && entries[i].text != ""
    requires i == 0 ==> updated == d && cursor == after
    requires i > 0 ==> Anchored(d, after) && cursor == Some(entries[i - 1].title) && cursor != Some("")
    requires i > 0 ==> updated == Spliced(d, entries[..i], after) && ValidDocument(updated)
    ensures Anchored(d, after) ==> AddStep(updated, entries[i], cursor) == Checked(Spliced(d, entries[..i + 1], after))
    ensures !Anchored(d, after) ==> AddStep(updated, entries[i], cursor) == Err(if after == Some("") then Blank else NoSuchStep)
  {
    hide ValidDocument, FindTitle;
    if Anchored(d, after) {
      if i == 0 {
        AddsFirst(d, entries, after);
      } else {
        AddsLater(d, entries, after, i);
      }
    }
  }

  lemma AddsFirst(d: Document, entries: seq<Step>, after: Option<string>)
    requires entries != [] && entries[0].title != "" && entries[0].text != "" && Anchored(d, after)
    ensures AddStep(d, entries[0], after) == Checked(Spliced(d, entries[..1], after))
  {
    hide ValidDocument, FindTitle;
    assert entries[..1] == [entries[0]];
  }

  lemma AddsLater(d: Document, entries: seq<Step>, after: Option<string>, i: nat)
    requires 0 < i < |entries| && entries[i].title != "" && entries[i].text != "" && entries[i - 1].title != "" && Anchored(d, after)
    requires ValidDocument(Spliced(d, entries[..i], after))
    ensures AddStep(Spliced(d, entries[..i], after), entries[i], Some(entries[i - 1].title)) == Checked(Spliced(d, entries[..i + 1], after))
  {
    var at, updated := Place(d, after), Spliced(d, entries[..i], after);
    assert updated[at + i - 1] == entries[i - 1];
    FindUnique(updated, at + i - 1);
    hide ValidDocument, FindTitle;
    assert updated[..at + i] + [entries[i]] + updated[at + i..] == Spliced(d, entries[..i + 1], after);
  }

  /** The batch stands at the end, or right behind the step it was to go after, and the rest is as it was. */
  ghost predicate Lands(d: Document, r: Document, entries: seq<Step>, after: Option<string>) {
    match after
    case None => r == d + entries
    case Some(title) => exists k :: 0 <= k < |d| && d[k].title == title && r == d[..k + 1] + entries + d[k + 1..]
  }

  lemma SplicedLands(d: Document, entries: seq<Step>, after: Option<string>)
    requires Anchored(d, after)
    ensures Lands(d, Spliced(d, entries, after), entries, after)
  {
    assert d[..|d|] == d && d[|d|..] == [];
    assert d + entries + [] == d + entries;
  }

  lemma LandsOnce(d: Document, r: Document, entries: seq<Step>, after: Option<string>)
    requires ValidDocument(d) && Lands(d, r, entries, after)
    ensures Anchored(d, after) ==> r == Spliced(d, entries, after)
  {
    hide ValidStep;
    match after
    case None =>
      assert d[..|d|] == d && d[|d|..] == [];
      assert d + entries + [] == d + entries;
    case Some(title) =>
      var k :| 0 <= k < |d| && d[k].title == title && r == d[..k + 1] + entries + d[k + 1..];
      assert FindTitle(d, title) == k;
  }

  /** Why a batch is refused. */
  ghost predicate BatchRefused(lib: Library, owner: Id, d: Document, entries: seq<Step>, after: Option<string>, why: EditError) {
    match why
    case EmptyBatch => entries == []
    case Blank => after == Some("") || exists e :: e in entries && (e.title == "" || e.text == "")
    case LinkRefused(_) => exists e :: e in entries && e.link.Some? && !Allowed(lib, owner, e.link.value)
    case NoSuchStep => after.Some? && !HasTitle(d, after.value)
    case InvalidDocument => forall r :: Lands(d, r, entries, after) ==> !ValidDocument(d) || !ValidDocument(r)
    case _ => false
  }

  /** The whole batch lands as one block in its own order, or nothing does. */
  method AppendSteps(lib: Library, owner: Id, d: Document, entries: seq<Step>, after: Option<string>)
      returns (r: Result<Document, EditError>)
    ensures r.Ok? <==> BatchFits(lib, owner, d, entries, after)
    ensures r.Ok? ==> r.value == Spliced(d, entries, after) && Lands(d, r.value, entries, after)
    ensures r.Err? ==> BatchRefused(lib, owner, d, entries, after, r.error)
  {
    hide ValidDocument, Allowed, AddStep, Spliced, FindTitle, Lands;
    if entries == [] {
      return Err(EmptyBatch);
    }
    var updated, cursor := d, after;
    for i := 0 to |entries|
      invariant i == 0 ==> updated == d && cursor == after
      invariant i > 0 ==> Anchored(d, after) && cursor == Some(entries[i - 1].title)
      invariant i > 0 ==> updated == Spliced(d, entries[..i], after) && ValidDocument(updated)
      invariant forall k :: 0 <= k < i ==> EntryFits(lib, owner, entries[k])
    {
      var entry := entries[i];
      assert entry in entries;
      if entry.title == "" || entry.text == "" {
        return Err(Blank);
      }
      if entry.link.Some? {
        var refused := RequireProcedure(lib, entry.link.value, owner);
        if refused.Some? {
          return Err(LinkRefused(refused.value));
        }
      }
      AddsNext(d, entries, after, i, updated, cursor);
      var added := AddStep(updated, entry, cursor);
      if added.Err? {
        if Anchored(d, after) {
          PrefixValid(d, entries, after, i + 1);
          forall r | Lands(d, r, entries, after) && ValidDocument(d) ensures !ValidDocument(r) {
            LandsOnce(d, r, entries, after);
          }
        } else if after != Some("") {
          assert !HasTitle(d, after.value);
        }
        return added;
      }
      updated := added.value;
      cursor := Some(entry.title);
    }
    assert entries[..|entries|] == entries;
    SplicedLands(d, entries, after);
    return Ok(updated);
  }
}
