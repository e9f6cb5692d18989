/** A flattened method is walked in windows: where each one is cut, and what following the cuts gives. */
module Windows {
  import opened Outcomes
  import opened LinkGraph
  import opened Procedures
  import opened Flattening
  import opened MethodShape

  /** The walk limit used when none is given. */
  const FLAT_LIMIT: nat := 50

  function Min(a: nat, b: nat): nat {
    if a < b then a else b
  }

  /** A window may end here without splitting an inlined procedure. */
  predicate Surface(entries: seq<Entry>, k: nat)
    requires k <= |entries|
  {
    k == |entries| || entries[k].depth == 0
  }

  /** The limit falls here; a few more steps are allowed to come back to the surface. */
  function SoftEnd(entries: seq<Entry>, start: nat, limit: nat): (k: nat)
    ensures k <= |entries|
  {
    Min(|entries|, start + limit)
  }

  function HardEnd(entries: seq<Entry>, start: nat, limit: nat): (k: nat)
    ensures SoftEnd(entries, start, limit) <= k <= |entries|
  {
    Min(|entries|, start + limit + limit / 3)
  }

  /** end is the first surface from the limit on, or the limit itself when there is none within a third past it. */
  ghost predicate FirstSurface(entries: seq<Entry>, start: nat, limit: nat, end: nat) {
    var soft, hard := SoftEnd(entries, start, limit), HardEnd(entries, start, limit);
    && soft <= end <= hard
    && (forall k :: soft <= k < end ==> !Surface(entries, k))
    && (Surface(entries, end) || (end == soft && forall k :: soft <= k <= hard ==> !Surface(entries, k)))
  }

  /** Where the window from start ends: a tail of at most a fifth of the limit is taken along. */
  ghost predicate IsCut(entries: seq<Entry>, start: nat, limit: nat, end: nat) {
    exists e :: FirstSurface(entries, start, limit, e) && end == if |entries| - e <= limit / 5 then |entries| else e
  }

  lemma CutUnique(entries: seq<Entry>, start: nat, limit: nat, a: nat, b: nat)
    requires IsCut(entries, start, limit, a) && IsCut(entries, start, limit, b)
    ensures a == b
  {
    var e :| FirstSurface(entries, start, limit, e) && a == if |entries| - e <= limit / 5 then |entries| else e;
    var f :| FirstSurface(entries, start, limit, f) && b == if |entries| - f <= limit / 5 then |entries| else f;
  }

  /** The first surface at or after k, looking no further than hard. */
  function Rise(entries: seq<Entry>, k: nat, hard: nat): (r: Option<nat>)
    requires hard <= |entries|
    ensures r.Some? ==> k <= r.value <= hard && Surface(entries, r.value)
    ensures forall m :: k <= m <= hard && (r.Some? ==> m < r.value) ==> !Surface(entries, m)
    decreases hard + 1 - k
  {
    if k > hard then None else if Surface(entries, k) then Some(k) else Rise(entries, k + 1, hard)
  }

  function CutAt(entries: seq<Entry>, start: nat, limit: nat): (end: nat)
    requires start < |entries| && limit >= 1
    ensures start < end <= |entries| && IsCut(entries, start, limit, end)
  {
    var soft := SoftEnd(entries, start, limit);
    var rise := Rise(entries, soft, HardEnd(entries, start, limit));
    var e := if rise.Some? then rise.value else soft;
    assert FirstSurface(entries, start, limit, e);
    if |entries| - e <= limit / 5 then |entries| else e
  }

  /** A limit below one is one. */
  function Limit(given: int): (limit: nat)
    ensures limit >= 1
  {
    if given < 1 then 1 else given
  }

  method Cut(entries: seq<Entry>, start: nat, given: int) returns (end: nat)
    requires start < |entries|
    ensures end == CutAt(entries, start, Limit(given))
  {
    var limit: nat := if given < 1 then 1 else given;
    end := Min(|entries|, start + limit);
    if end < |entries| && entries[end].depth > 0 {
      var stop := Min(|entries|, start + limit + limit / 3) + 1;
      var soft := end;
      for k := soft to stop
        invariant end == soft
        invariant forall m :: soft <= m < k ==> !Surface(entries, m)
      {
        if k == |entries| || entries[k].depth == 0 {
          end := k;
          break;
        }
      }
    }
    assert FirstSurface(entries, start, limit, end);
    if 0 < |entries| - end <= limit / 5 {
      end := |entries|;
    }
    CutUnique(entries, start, limit, end, CutAt(entries, start, limit));
  }

  /** A window's length: never under the limit unless it is the last, never over by more than its allowances. */
  lemma WindowLength(entries: seq<Entry>, start: nat, limit: nat)
    requires start < |entries| && limit >= 1
    ensures var end := CutAt(entries, start, limit);
      && (end < |entries| ==> limit <= end - start <= limit + limit / 3 && |entries| - end > limit / 5)
      && (end == |entries| ==> end - start <= limit + limit / 3 + limit / 5)
  {
  }

  /** A window ends inside an inlined procedure exactly when no surface is within a third past the limit. */
  lemma DeepEndOnlyWhenForced(entries: seq<Entry>, start: nat, limit: nat)
    requires start < |entries| && limit >= 1
    ensures var soft, hard := SoftEnd(entries, start, limit), HardEnd(entries, start, limit);
      !Surface(entries, CutAt(entries, start, limit)) <==>
        |entries| - soft > limit / 5 && forall k :: soft <= k <= hard ==> !Surface(entries, k)
  {
    assert Surface(entries, |entries|);
  }

  /** One flat open: the steps of its window and the start of the next walk, when there is one. */
  datatype Opened = Opened(chosen: seq<Entry>, next: Option<nat>)

  function OpenAt(entries: seq<Entry>, start: nat, limit: nat): Opened
    requires start < |entries| && limit >= 1
  {
    var end := CutAt(entries, start, limit);
    Opened(entries[start..end], if end < |entries| then Some(end) else None)
  }

  /** What a flat open answers; a walk still in progress is handed back. */
  datatype OpenResult = NoPurpose | AlreadyOpen | NotStored | Invalid | BadStart | Walk(walk: Opened)

  /** unfinished: some walk of the procedure has an open box. A later window is a new walk by itself. */
  method OpenFlat(lib: Library, root: Id, purpose: string, again: bool, unfinished: bool, start: int, limit: int)
      returns (r: OpenResult)
    ensures r.NoPurpose? <==> purpose == ""
    ensures r.AlreadyOpen? <==> purpose != "" && !again && start == 0 && unfinished
    ensures r.NotStored? <==> purpose != "" && (again || start != 0 || !unfinished) && root !in lib
    ensures r.Invalid? <==> purpose != "" && (again || start != 0 || !unfinished) && root in lib && !ValidDocument(lib[root])
    ensures r.BadStart? <==>
      && purpose != "" && (again || start != 0 || !unfinished) && root in lib && ValidDocument(lib[root])
      && !(0 <= start < |Method(lib, root)|)
    ensures r.Walk? ==> r.walk == OpenAt(Method(lib, root), start, Limit(limit))
  {
    hide ValidDocument, Method;
    if purpose == "" {
      return NoPurpose;
    }
    if !again && start == 0 && unfinished {
      return AlreadyOpen;
    }
    if root !in lib {
      return NotStored;
    }
    if !ValidDocument(lib[root]) {
      return Invalid;
    }
    var expanded := ExpandRoot(lib, root);
    var entries := expanded.value;
    if start < 0 || start >= |entries| {
      return BadStart;
    }
    var end := Cut(entries, start, limit);
    return Walk(Opened(entries[start..end], if end < |entries| then Some(end) else None));
  }

  /** The opens a worker makes by following each walk's next start, from `start` to the end of the method. */
  function Followed(entries: seq<Entry>, start: nat, limit: nat): (opens: seq<Opened>)
    requires start < |entries| && limit >= 1
    ensures opens != []
    decreases |entries| - start
  {
    var o := OpenAt(entries, start, limit);
    [o] + if o.next.Some? then Followed(entries, o.next.value, limit) else []
  }

  function Chosen(opens: seq<Opened>): seq<Entry> {
    if opens == [] then [] else opens[0].chosen + Chosen(opens[1..])
  }

  /** The windows cover the method, in order, nothing twice. */
  lemma {:induction false} WindowsPartition(entries: seq<Entry>, start: nat, limit: nat)
    requires start < |entries| && limit >= 1
    ensures Chosen(Followed(entries, start, limit)) == entries[start..]
    decreases |entries| - start
  {
    var o := OpenAt(entries, start, limit);
    if o.next.Some? {
      WindowsPartition(entries, o.next.value, limit);
      assert Followed(entries, start, limit)[1..] == Followed(entries, o.next.value, limit);
    } else {
      assert Followed(entries, start, limit)[1..] == [];
    }
  }

  /** How many walks a method of a given length can be, and how long each of them. */
  lemma {:induction false} WalkCount(entries: seq<Entry>, start: nat, limit: nat)
    requires start < |entries| && limit >= 1
    ensures var opens := Followed(entries, start, limit);
      && (|opens| - 1) * limit < |entries| - start <= |opens| * (limit + limit / 3) + limit / 5
      && (|opens| > 1 ==> |opens[|opens| - 1].chosen| > limit / 5)
      && |opens[|opens| - 1].chosen| <= limit + limit / 3 + limit / 5
      && forall k :: 0 <= k < |opens| - 1 ==> limit <= |opens[k].chosen| <= limit + limit / 3
    decreases |entries| - start
  {
    hide CutAt, IsCut, FirstSurface;
    WindowLength(entries, start, limit);
    var end := CutAt(entries, start, limit);
    if end < |entries| {
      var opens, rest := Followed(entries, start, limit), Followed(entries, end, limit);
      WalkCount(entries, end, limit);
      assert opens == [OpenAt(entries, start, limit)] + rest;
      TimesOneMore(|rest| - 1, limit);
      TimesOneMore(|rest|, limit + limit / 3);
      assert opens[|opens| - 1] == rest[|rest| - 1];
      if |rest| == 1 {
        assert |rest[0].chosen| == |entries| - end;
      }
    }
  }

  lemma TimesOneMore(n: int, x: int)
    ensures (n + 1) * x == n * x + x
  {
  }

  /** How many opens are left to make from a start. */
  function OpensFrom(entries: seq<Entry>, start: nat): nat {
    if start < |entries| then |Followed(entries, start, FLAT_LIMIT)| else 0
  }

  /** The count `reach` reports without opening anything; an empty method, which cannot be opened, still reads as one. */
  method Reach(lib: Library, root: Id) returns (steps: nat, walks: nat)
    requires root in lib
    ensures steps == |Method(lib, root)|
    ensures walks == if steps == 0 then 1 else |Followed(Method(lib, root), 0, FLAT_LIMIT)|
  {
    var expanded := ExpandRoot(lib, root);
    var entries := expanded.value;
    steps, walks := |entries|, 0;
    var start := 0;
    while start < |entries|
      invariant start <= |entries|
      invariant OpensFrom(entries, 0) == walks + OpensFrom(entries, start)
      decreases |entries| - start
    {
      start := Cut(entries, start, FLAT_LIMIT);
      walks := walks + 1;
    }
    walks := if walks > 1 then walks else 1;
  }

  /** A walk that ends at the surface leaves no inlined procedure with steps on both sides. */
  lemma SurfaceSplitsNothing(lib: Library, root: Id, end: nat, a: nat, c: nat)
    requires root in lib && end <= |Method(lib, root)| && Surface(Method(lib, root), end)
    requires a < end <= c < |Method(lib, root)|
    requires Method(lib, root)[a].source == Method(lib, root)[c].source
    ensures Method(lib, root)[a].source == root
  {
    var out := Method(lib, root);
    Depths(lib, root, [root], 0, {root});
    StaysNested(lib, root, [root], 0, {root});
    assert out[a] in out && out[end] in out;
    if end < c {
      assert out[a].depth <= out[end].depth;
    }
  }
}
