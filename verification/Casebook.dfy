/**
 The casebook: problems as they presented, their diagnosis and fix, and the episodes they came from. A case is
 only ever added or joined by one more episode.
 */
module Casebook {
  import opened Decimals
  import opened Ordering
  import opened Sets
  import opened Texts

  datatype Instance = Instance(place: string, symptom: string)

  /** A stored file may hold something else where the list of touched tools belongs. */
  datatype Touches = Listed(names: seq<string>) | NotAList

  datatype Case = Case(id: string, problem: string, diagnosis: string, fix: string, touches: Touches, instances: seq<Instance>)

  type Cases = map<string, Case>

  const PROBLEM_LIMIT: nat := 400
  const DIAGNOSIS_LIMIT: nat := 700
  const FIX_LIMIT: nat := 900

  datatype Complaint =
    | FieldMissing(field: string)
    | FieldTooLong(field: string)
    | FieldNamesEpisode(field: string)
    | NoInstances
    | TouchesNotAList
    | InstanceLacks(number: nat, field: string)

  /** leaks: a text names a path, a file or an id of one episode. */
  function FieldComplaints(field: string, value: string, limit: nat, general: bool, leaks: string -> bool): seq<Complaint> {
    if Blank(value) then [FieldMissing(field)]
    else
      var long := if |value| > limit then [FieldTooLong(field)] else [];
      var named := if general && leaks(value) then [FieldNamesEpisode(field)] else [];
      long + named
  }

  function InstanceComplaints(item: Instance, number: nat): seq<Complaint> {
    var where := if Blank(item.place) then [InstanceLacks(number, "where")] else [];
    var symptom := if Blank(item.symptom) then [InstanceLacks(number, "symptom")] else [];
    where + symptom
  }

  /** A case fit for the store. */
  ghost predicate Fit(c: Case, leaks: string -> bool) {
    && !Blank(c.problem) && |c.problem| <= PROBLEM_LIMIT && !leaks(c.problem)
    && !Blank(c.diagnosis) && |c.diagnosis| <= DIAGNOSIS_LIMIT && !leaks(c.diagnosis)
    && !Blank(c.fix) && |c.fix| <= FIX_LIMIT
    && c.instances != [] && c.touches.Listed?
    && forall i :: 0 <= i < |c.instances| ==> !Blank(c.instances[i].place) && !Blank(c.instances[i].symptom)
  }

  const FIELDS := {"problem", "diagnosis", "fix"}

  function TextOf(c: Case, field: string): string {
    if field == "problem" then c.problem else if field == "diagnosis" then c.diagnosis else c.fix
  }

  function LimitOf(field: string): nat {
    if field == "problem" then PROBLEM_LIMIT else if field == "diagnosis" then DIAGNOSIS_LIMIT else FIX_LIMIT
  }

  /** The complaint is due. */
  ghost predicate Warranted(c: Case, leaks: string -> bool, q: Complaint) {
    match q
    case FieldMissing(field) => field in FIELDS && Blank(TextOf(c, field))
    case FieldTooLong(field) => field in FIELDS && !Blank(TextOf(c, field)) && |TextOf(c, field)| > LimitOf(field)
    case FieldNamesEpisode(field) => field in FIELDS && field != "fix" && !Blank(TextOf(c, field)) && leaks(TextOf(c, field))
    case NoInstances => c.instances == []
    case TouchesNotAList => c.touches.NotAList?
    case InstanceLacks(number, field) =>
      && 1 <= number <= |c.instances|
      && var item := c.instances[number - 1];
      (field == "where" && Blank(item.place)) || (field == "symptom" && Blank(item.symptom))
  }

  /** Why a case is not fit: exactly the complaints that are due, and none exactly when it is fit. */
  method Problems(c: Case, leaks: string -> bool) returns (out: seq<Complaint>)
    ensures forall q :: q in out <==> Warranted(c, leaks, q)
    ensures out == [] <==> Fit(c, leaks)
  {
    FieldsWarranted(c, leaks);
    FitUnwarranted(c, leaks);
    var fields := FieldComplaints("problem", c.problem, PROBLEM_LIMIT, true, leaks)
      + FieldComplaints("diagnosis", c.diagnosis, DIAGNOSIS_LIMIT, true, leaks)
      + FieldComplaints("fix", c.fix, FIX_LIMIT, false, leaks);
    hide FieldComplaints, InstanceComplaints, Blank, Fit;
    var episodes := EpisodeProblems(c, leaks);
    out := fields + episodes + if c.touches.NotAList? then [TouchesNotAList] else [];
    assert out != [] ==> out[0] in out;
  }

  method EpisodeProblems(c: Case, leaks: string -> bool) returns (out: seq<Complaint>)
    ensures forall q :: q in out <==> Warranted(c, leaks, q) && (q.NoInstances? || q.InstanceLacks?)
  {
    hide InstanceComplaints, Blank;
    if c.instances == [] {
      return [NoInstances];
    }
    out := [];
    for i := 0 to |c.instances|
      invariant forall q :: q in out <==> Warranted(c, leaks, q) && q.InstanceLacks? && q.number <= i
    {
      InstanceWarranted(c, leaks, i);
      out := out + InstanceComplaints(c.instances[i], i + 1);
    }
  }

  lemma FieldsWarranted(c: Case, leaks: string -> bool)
    ensures var fields := FieldComplaints("problem", c.problem, PROBLEM_LIMIT, true, leaks)
      + FieldComplaints("diagnosis", c.diagnosis, DIAGNOSIS_LIMIT, true, leaks)
      + FieldComplaints("fix", c.fix, FIX_LIMIT, false, leaks);
      forall q :: q in fields <==> Warranted(c, leaks, q) && (q.FieldMissing? || q.FieldTooLong? || q.FieldNamesEpisode?)
  {
    hide Blank;
  }

  lemma InstanceWarranted(c: Case, leaks: string -> bool, i: nat)
    requires i < |c.instances|
    ensures forall q :: q in InstanceComplaints(c.instances[i], i + 1) <==>
      q.InstanceLacks? && q.number == i + 1 && Warranted(c, leaks, q)
  {
    hide Blank;
  }

  lemma FitUnwarranted(c: Case, leaks: string -> bool)
    ensures Fit(c, leaks) <==> forall q :: !Warranted(c, leaks, q)
  {
    hide Blank;
    if forall q :: !Warranted(c, leaks, q) {
      forall field | field in FIELDS ensures !Blank(TextOf(c, field)) && |TextOf(c, field)| <= LimitOf(field) {
        assert !Warranted(c, leaks, FieldMissing(field)) && !Warranted(c, leaks, FieldTooLong(field));
      }
      assert TextOf(c, "problem") == c.problem && TextOf(c, "diagnosis") == c.diagnosis && TextOf(c, "fix") == c.fix;
      assert !Warranted(c, leaks, FieldNamesEpisode("problem")) && !Warranted(c, leaks, FieldNamesEpisode("diagnosis"));
      assert !Warranted(c, leaks, NoInstances) && !Warranted(c, leaks, TouchesNotAList);
      forall i | 0 <= i < |c.instances| ensures !Blank(c.instances[i].place) && !Blank(c.instances[i].symptom) {
        assert !Warranted(c, leaks, InstanceLacks(i + 1, "where")) && !Warranted(c, leaks, InstanceLacks(i + 1, "symptom"));
      }
    }
  }

  function Numbered(base: string, n: nat): string {
    base + "-" + Decimal(n)
  }

  lemma NumberedInjective(base: string, a: nat, b: nat)
    requires Numbered(base, a) == Numbered(base, b)
    ensures a == b
  {
    var k := |base| + 1;
    assert Numbered(base, a)[k..] == Decimal(a) && Numbered(base, b)[k..] == Decimal(b);
    DecimalInjective(a, b);
  }

  /** The base itself, or with the least number from 2 on that is free. */
  ghost predicate NewId(id: string, base: string, taken: set<string>) {
    && id !in taken
    && if base !in taken then id == base
       else exists n: nat :: n >= 2 && id == Numbered(base, n) && forall k: nat :: 2 <= k < n ==> Numbered(base, k) in taken
  }

  /** Some number always is free. */
  method Slug(base: string, taken: set<string>) returns (id: string)
    ensures NewId(id, base, taken)
  {
    if base !in taken {
      return base;
    }
    var n := 2;
    ghost var tried: set<string> := {};
    while Numbered(base, n) in taken
      invariant n >= 2 && tried <= taken && |tried| == n - 2
      invariant forall k: nat :: 2 <= k < n ==> Numbered(base, k) in taken
      invariant forall x :: x in tried ==> exists k: nat :: 2 <= k < n && x == Numbered(base, k)
      decreases |taken| - |tried|
    {
      if Numbered(base, n) in tried {
        var k: nat :| 2 <= k < n && Numbered(base, n) == Numbered(base, k);
        NumberedInjective(base, n, k);
      }
      SubsetSize(tried + {Numbered(base, n)}, taken);
      tried := tried + {Numbered(base, n)};
      n := n + 1;
    }
    return Numbered(base, n);
  }

  /** The share of the words two diagnoses have in common, of all their words. */
  function Overlap(mine: set<string>, theirs: set<string>): real {
    if mine + theirs == {} then 0.0 else |mine * theirs| as real / |mine + theirs| as real
  }

  /** Two diagnoses share at least 0.4 of their content words; texts without any share nothing. */
  predicate Alike(mine: set<string>, theirs: set<string>) {
    mine != {} && theirs != {} && Overlap(mine, theirs) >= 0.4
  }

  /** into: "" files a case of its own. base: the problem's words as an id. */
  datatype Call = Call(problem: string, diagnosis: string, fix: string, item: Instance, touches: seq<string>,
                       into: string, asNew: bool)

  function AddTouches(have: seq<string>, more: seq<string>): seq<string>
    decreases more
  {
    if more == [] then have
    else AddTouches(if more[0] in have then have else have + [more[0]], more[1..])
  }

  function MoreTouches(have: Touches, more: seq<string>): Touches {
    match have
    case Listed(names) => Listed(AddTouches(names, more))
    case NotAList => NotAList
  }

  function Joined(c: Case, call: Call): Case {
    c.(instances := c.instances + [call.item], touches := MoreTouches(c.touches, call.touches))
  }

  function Fresh(id: string, call: Call): Case {
    Case(id, Strip(call.problem), Strip(call.diagnosis), Strip(call.fix), Listed(call.touches), [call.item])
  }

  /** now is `was` with one more episode, last, and those of the call's touches that it lacked behind its own. */
  ghost predicate OneMore(was: Case, now: Case, call: Call) {
    && (now.id, now.problem, now.diagnosis, now.fix) == (was.id, was.problem, was.diagnosis, was.fix)
    && now.instances == was.instances + [call.item]
    && (was.touches.NotAList? ==> now.touches.NotAList?)
    && (was.touches.Listed? ==>
          && now.touches.Listed? && was.touches.names <= now.touches.names
          && (forall t :: t in now.touches.names <==> t in was.touches.names || t in call.touches)
          && forall i, j :: 0 <= i < j < |now.touches.names| && j >= |was.touches.names| ==> now.touches.names[i] != now.touches.names[j])
  }

  lemma {:induction false} TouchesAdded(have: seq<string>, more: seq<string>)
    ensures var all := AddTouches(have, more);
      && have <= all && (forall t :: t in all <==> t in have || t in more)
      && forall i, j :: 0 <= i < j < |all| && j >= |have| ==> all[i] != all[j]
    decreases more
  {
    if more != [] {
      TouchesAdded(if more[0] in have then have else have + [more[0]], more[1..]);
    }
  }

  lemma JoinedIsOneMore(c: Case, call: Call)
    ensures OneMore(c, Joined(c, call), call)
  {
    if c.touches.Listed? {
      TouchesAdded(c.touches.names, call.touches);
    }
  }

  /** A case of its own is worded as the call is, without the blanks around it, and has the call's one episode. */
  ghost predicate WordedAs(c: Case, call: Call) {
    && c.problem == Strip(call.problem) && c.diagnosis == Strip(call.diagnosis) && c.fix == Strip(call.fix)
    && c.instances == [call.item] && c.touches == Listed(call.touches)
  }

  /** The answers that carry words: every complaint due about the case as it would be stored, or look-alikes. */
  ghost predicate Answers(a: Answer, c: Case, diagnosis: string, cases: Cases, leaks: string -> bool, words: string -> set<string>) {
    && (a.Refused? ==> a.complaints != [] && forall q :: q in a.complaints <==> Warranted(c, leaks, q))
    && (a.LooksLike? ==> a.ids != [] && forall id :: id in a.ids ==> id in cases && Alike(words(diagnosis), words(cases[id].diagnosis)))
  }

  lemma SameComplaints(c: Case, d: Case, leaks: string -> bool)
    requires d == c.(id := d.id)
    ensures forall q :: Warranted(c, leaks, q) <==> Warranted(d, leaks, q)
  {
  }

  lemma Counts(a: set<string>, b: set<string>)
    ensures |a + b| == |a| + |b| - |a * b|
  {
  }

  /** Alike, in whole numbers: of five words either has, they share at least two. */
  lemma AlikeMeans(a: set<string>, b: set<string>)
    ensures Alike(a, b) <==> a != {} && b != {} && 5 * |a * b| >= 2 * (|a| + |b| - |a * b|)
    ensures Alike(a, b) <==> Alike(b, a)
    ensures a != {} ==> Alike(a, a)
    ensures a !! b ==> !Alike(a, b) && Overlap(a, b) == 0.0
  {
    Counts(a, b);
    assert a * b == b * a && a + b == b + a && a * a == a && a + a == a;
    if a != {} && b != {} {
      TwoFifths(|a * b|, |a + b|);
    }
  }

  lemma TwoFifths(x: nat, y: nat)
    requires y > 0
    ensures x as real / y as real >= 0.4 <==> 5 * x >= 2 * y
  {
    QuotientAtLeast(x as real, y as real);
    InWhole(x, y, x as real, y as real);
  }

  lemma QuotientAtLeast(u: real, v: real)
    requires v > 0.0
    ensures u / v >= 0.4 <==> u >= 0.4 * v
  {
    assert u / v * v == u;
    AtLeastScaled(u / v, v);
  }

  lemma InWhole(x: nat, y: nat, u: real, v: real)
    requires u == x as real && v == y as real
    ensures u >= 0.4 * v <==> 5 * x >= 2 * y
  {
    assert (5 * x) as real == 5.0 * u && (2 * y) as real == 2.0 * v;
  }

  lemma AtLeastScaled(q: real, v: real)
    requires v > 0.0
    ensures q >= 0.4 <==> q * v >= 0.4 * v
  {
    if q > 0.4 {
      ProductPositive(q - 0.4, v);
    } else if q < 0.4 {
      ProductPositive(0.4 - q, v);
    }
    assert (q - 0.4) * v == q * v - 0.4 * v;
  }

  lemma ProductPositive(a: real, b: real)
    requires a > 0.0 && b > 0.0
    ensures a * b > 0.0
  {
  }

  datatype Answer = NoCase | Refused(complaints: seq<Complaint>) | LooksLike(ids: seq<string>) | JoinedCase(id: string) | Created(id: string)

  /** Episodes in the whole store. */
  ghost function Total(cases: Cases): nat
    decreases |cases|
  {
    if cases == map[] then 0
    else
      var id :| id in cases;
      |cases[id].instances| + Total(cases - {id})
  }

  lemma {:induction false} TotalWithout(cases: Cases, id: string)
    requires id in cases
    ensures Total(cases) == |cases[id].instances| + Total(cases - {id})
    decreases |cases|
  {
    var first :| first in cases && Total(cases) == |cases[first].instances| + Total(cases - {first});
    if first != id {
      TotalWithout(cases - {first}, id);
      TotalWithout(cases - {id}, first);
      assert cases - {first} - {id} == cases - {id} - {first};
    }
  }

  lemma TotalStored(cases: Cases, c: Case)
    ensures Total(cases[c.id := c]) == Total(cases) + |c.instances| - (if c.id in cases then |cases[c.id].instances| else 0)
  {
    var more := cases[c.id := c];
    TotalWithout(more, c.id);
    assert more - {c.id} == cases - {c.id};
    if c.id in cases {
      TotalWithout(cases, c.id);
    } else {
      assert cases - {c.id} == cases;
    }
  }

  /** Filing order, and which cases were filed as new ones. */
  datatype Filing = Filing(id: string, asNew: bool)

  /** The words of a text do not depend on the blanks around it. */
  ghost predicate EdgeBlind(words: string -> set<string>) {
    forall s :: words(Strip(s)) == words(s)
  }

  lemma StrippedIsAsKnown(diagnosis: string, cases: Cases, words: string -> set<string>)
    requires EdgeBlind(words)
    ensures Known(Strip(diagnosis), cases, words) == Known(diagnosis, cases, words)
  {
    assert words(Strip(diagnosis)) == words(diagnosis);
  }

  /** Every stored case is fit, under its own id, and was filed once; one filed without saying so is like none before it. */
  ghost predicate Sound(cases: Cases, filed: seq<Filing>, leaks: string -> bool, words: string -> set<string>) {
    && (forall id :: id in cases ==> cases[id].id == id && Fit(cases[id], leaks))
    && (forall id :: id in cases <==> Filed(id, filed))
    && (forall i, j :: 0 <= i < j < |filed| ==> filed[i].id != filed[j].id)
    && forall i, j :: 0 <= i < j < |filed| && !filed[j].asNew ==> Unlike(filed[j].id, filed[i].id, cases, words)
  }

  ghost predicate Filed(id: string, filed: seq<Filing>) {
    exists i :: 0 <= i < |filed| && filed[i].id == id
  }

  ghost predicate Unlike(a: string, b: string, cases: Cases, words: string -> set<string>) {
    a in cases && b in cases && !Alike(words(cases[a].diagnosis), words(cases[b].diagnosis))
  }

  /** Some stored case has a diagnosis like this one. */
  ghost predicate Known(diagnosis: string, cases: Cases, words: string -> set<string>) {
    exists id :: id in cases && Alike(words(diagnosis), words(cases[id].diagnosis))
  }

  /** A case may be rewritten so long as it stays fit and keeps its diagnosis. */
  lemma RewrittenStaysSound(cases: Cases, filed: seq<Filing>, c: Case, leaks: string -> bool, words: string -> set<string>)
    requires Sound(cases, filed, leaks, words) && Fit(c, leaks)
    requires c.id in cases && c.diagnosis == cases[c.id].diagnosis
    ensures Sound(cases[c.id := c], filed, leaks, words)
  {
    hide Fit, Alike;
    var after := cases[c.id := c];
    forall i, j | 0 <= i < j < |filed| && !filed[j].asNew
      ensures Unlike(filed[j].id, filed[i].id, after, words)
    {
      assert Unlike(filed[j].id, filed[i].id, cases, words);
    }
  }

  lemma FiledStaysSound(cases: Cases, filed: seq<Filing>, c: Case, asNew: bool, leaks: string -> bool, words: string -> set<string>)
    requires Sound(cases, filed, leaks, words) && Fit(c, leaks)
    requires c.id !in cases && (asNew || !Known(c.diagnosis, cases, words))
    ensures Sound(cases[c.id := c], filed + [Filing(c.id, asNew)], leaks, words)
  {
    hide Fit, Alike;
    var after, more := cases[c.id := c], filed + [Filing(c.id, asNew)];
    assert forall i :: 0 <= i < |filed| ==> Filed(filed[i].id, filed) && filed[i].id in cases;
    forall id
      ensures id in after <==> Filed(id, more)
    {
      if id == c.id {
        assert more[|filed|].id == id;
      } else if Filed(id, filed) {
        var i :| 0 <= i < |filed| && filed[i].id == id;
        assert more[i].id == id;
      }
    }
    forall i, j | 0 <= i < j < |more| && !more[j].asNew
      ensures Unlike(more[j].id, more[i].id, after, words)
    {
      if j < |filed| {
        assert Unlike(filed[j].id, filed[i].id, cases, words);
      }
    }
  }

  const EXTENSION := ".json"

  function FileName(id: string): string {
    id + EXTENSION
  }

  lemma FileNameInjective()
    ensures forall a, b :: FileName(a) == FileName(b) ==> a == b
  {
    forall a, b | FileName(a) == FileName(b)
      ensures a == b
    {
      assert FileName(a)[..|a|] == a && FileName(b)[..|b|] == b;
    }
  }

  /** The next file is of a stored case, sorts after those before it, and is of no other case. */
  lemma NextFile(ids: set<string>, names: seq<string>, n: nat)
    requires names == Sorted(set id | id in ids :: FileName(id)) && n < |names|
    ensures |names[n]| >= |EXTENSION|
    ensures var id := names[n][..|names[n]| - |EXTENSION|];
      && id in ids && FileName(id) == names[n]
      && (forall x :: x in names[..n + 1] <==> x in names[..n] || x == names[n])
      && (forall x :: x in names[..n] ==> x != names[n] && Below(x, names[n]))
      && (forall other :: FileName(other) == names[n] ==> other == id)
  {
    assert names[n] in names;
    var origin :| origin in ids && FileName(origin) == names[n];
    assert names[n][..|names[n]| - |EXTENSION|] == origin;
    FileNameInjective();
    assert names[..n + 1] == names[..n] + [names[n]];
    hide FileName, Below;
  }

  lemma AllFiles(ids: set<string>, names: seq<string>)
    requires names == Sorted(set id | id in ids :: FileName(id))
    ensures names[..|names|] == names && forall id :: id in ids ==> FileName(id) in names
  {
    hide FileName;
  }

  class Book {
    const leaks: string -> bool
    const words: string -> set<string>
    const wording: string -> string
    var cases: Cases
    ghost var filed: seq<Filing>

    ghost predicate Valid()
      reads this
    {
      EdgeBlind(words) && Sound(cases, filed, leaks, words)
    }

    constructor (leaks: string -> bool, words: string -> set<string>, wording: string -> string)
      requires EdgeBlind(words)
      ensures Valid() && cases == map[] && filed == [] && Total(cases) == 0
    {
      this.leaks, this.words, this.wording := leaks, words, wording;
      cases, filed := map[], [];
    }

    function OverlapOf(diagnosis: string, id: string): real
      requires id in cases
      reads this
    {
      Overlap(words(diagnosis), words(cases[id].diagnosis))
    }

    /** The larger overlap first; of equal ones the first by file name. */
    predicate RanksBefore(diagnosis: string, a: string, b: string)
      requires a in cases && b in cases
      reads this
    {
      var x, y := Overlap(words(diagnosis), words(cases[a].diagnosis)), Overlap(words(diagnosis), words(cases[b].diagnosis));
      x > y || (x == y && a != b && Below(FileName(a), FileName(b)))
    }

    ghost predicate Ranked(diagnosis: string, ids: seq<string>)
      reads this
    {
      && (forall id :: id in ids ==> id in cases)
      && forall i, j :: 0 <= i < j < |ids| ==> RanksBefore(diagnosis, ids[i], ids[j])
    }

    lemma NoneRanked(diagnosis: string)
      ensures Ranked(diagnosis, [])
    {
    }

    /** All stored cases whose diagnosis is alike, best first. */
    method AllSimilar(diagnosis: string) returns (ids: seq<string>)
      ensures forall id :: id in ids <==> id in cases && Alike(words(diagnosis), words(cases[id].diagnosis))
      ensures Ranked(diagnosis, ids)
    {
      hide Alike, Overlap, FileName, Below, Ranked, InOrder;
      ids := [];
      NoneRanked(diagnosis);
      var mine := words(diagnosis);
      var names := Sorted(set id | id in cases :: FileName(id));
      for n := 0 to |names|
        invariant Ranked(diagnosis, ids)
        invariant forall id :: id in ids <==>
          FileName(id) in names[..n] && id in cases && Alike(mine, words(cases[id].diagnosis))
      {
        NextFile(cases.Keys, names, n);
        var id := names[n][..|names[n]| - |EXTENSION|];
        if Alike(mine, words(cases[id].diagnosis)) {
          ids := InsertRanked(diagnosis, ids, id);
        }
      }
      AllFiles(cases.Keys, names);
    }

    /** The new one goes after all that share as much. */
    method InsertRanked(diagnosis: string, ids: seq<string>, id: string) returns (more: seq<string>)
      requires id in cases && Ranked(diagnosis, ids)
      requires forall other :: other in ids ==> other != id && Below(FileName(other), FileName(id))
      ensures Ranked(diagnosis, more) && forall x :: x in more <==> x in ids || x == id
    {
      hide Below, FileName, Overlap;
      assert forall k :: 0 <= k < |ids| ==> ids[k] in ids;
      var at := |ids|;
      while at > 0 && OverlapOf(diagnosis, ids[at - 1]) < OverlapOf(diagnosis, id)
        invariant 0 <= at <= |ids|
        invariant forall k :: at <= k < |ids| ==> OverlapOf(diagnosis, ids[k]) < OverlapOf(diagnosis, id)
      {
        at := at - 1;
      }
      forall k | 0 <= k < at
        ensures RanksBefore(diagnosis, ids[k], id)
      {
        assert k == at - 1 || RanksBefore(diagnosis, ids[k], ids[at - 1]);
      }
      InsertedRanked(diagnosis, ids, id, at);
      more := ids[..at] + [id] + ids[at..];
    }

    lemma InsertedRanked(diagnosis: string, ids: seq<string>, id: string, at: nat)
      requires id in cases && Ranked(diagnosis, ids) && at <= |ids|
      requires forall k :: 0 <= k < |ids| ==> ids[k] in cases
      requires forall k :: 0 <= k < at ==> RanksBefore(diagnosis, ids[k], id)
      requires forall k :: at <= k < |ids| ==> RanksBefore(diagnosis, id, ids[k])
      ensures Ranked(diagnosis, ids[..at] + [id] + ids[at..])
      ensures forall x :: x in ids[..at] + [id] + ids[at..] <==> x in ids || x == id
    {
      hide RanksBefore;
      var more := ids[..at] + [id] + ids[at..];
      assert forall k :: 0 <= k < |more| ==> more[k] == if k < at then ids[k] else if k == at then id else ids[k - 1];
      forall x
        ensures x in more <==> x in ids || x == id
      {
        assert ids == ids[..at] + ids[at..];
      }
    }

    /** The three best look-alikes. */
    method Similar(diagnosis: string) returns (ids: seq<string>)
      ensures |ids| <= 3 && Ranked(diagnosis, ids)
      ensures forall id :: id in ids ==> id in cases && Alike(words(diagnosis), words(cases[id].diagnosis))
      ensures forall id :: id in cases && Alike(words(diagnosis), words(cases[id].diagnosis)) && id !in ids ==>
        |ids| == 3 && forall shown :: shown in ids ==> RanksBefore(diagnosis, shown, id)
      ensures ids == [] <==> !Known(diagnosis, cases, words)
    {
      hide Alike, Overlap, Below, FileName;
      var all := AllSimilar(diagnosis);
      ids := all[..if |all| < 3 then |all| else 3];
      assert all != [] ==> all[0] in all && all[0] in ids;
      assert forall k :: 0 <= k < |ids| ==> ids[k] == all[k] && all[k] in ids;
      forall id | id in all && id !in ids
        ensures |ids| == 3 && forall shown :: shown in ids ==> RanksBefore(diagnosis, shown, id)
      {
        var k :| 0 <= k < |all| && all[k] == id;
        forall shown | shown in ids
          ensures RanksBefore(diagnosis, shown, id)
        {
          var j :| 0 <= j < |ids| && ids[j] == shown;
          assert all[j] == shown;
        }
      }
    }

    /** One more episode of a stored case. */
    method Join(call: Call) returns (a: Answer)
      requires Valid()
      modifies this
      ensures Valid() && filed == old(filed)
      ensures a.NoCase? <==> call.into !in old(cases)
      ensures a.JoinedCase? <==> call.into in old(cases) && Fit(Joined(old(cases)[call.into], call), leaks)
      ensures a.JoinedCase? || a.NoCase? || a.Refused?
      ensures call.into in old(cases) ==> Answers(a, Joined(old(cases)[call.into], call), call.diagnosis, old(cases), leaks, words)
      ensures a.JoinedCase? ==> a.id == call.into && cases == old(cases)[a.id := Joined(old(cases)[a.id], call)]
      ensures a.JoinedCase? ==> OneMore(old(cases)[a.id], cases[a.id], call)
      ensures a.JoinedCase? ==> Total(cases) == old(Total(cases)) + 1
      ensures !a.JoinedCase? ==> cases == old(cases)
    {
      hide Fit, Alike, Total, AddTouches, Strip, OneMore;
      if call.into !in cases {
        return NoCase;
      }
      var joined := Joined(cases[call.into], call);
      var refused := Problems(joined, leaks);
      if refused != [] {
        return Refused(refused);
      }
      TotalStored(cases, joined);
      JoinedIsOneMore(cases[call.into], call);
      RewrittenStaysSound(cases, filed, joined, leaks, words);
      cases := cases[call.into := joined];
      return JoinedCase(call.into);
    }

    /** What becomes of a call for a case of its own, and the case it would file. */
    method Judge(call: Call) returns (a: Answer, newcomer: Case)
      requires Valid()
      ensures newcomer.id !in cases && newcomer == Fresh(newcomer.id, call)
      ensures a.Created? <==> Fit(newcomer, leaks) && (call.asNew || !Known(call.diagnosis, cases, words))
      ensures a.LooksLike? <==> Fit(newcomer, leaks) && !call.asNew && Known(call.diagnosis, cases, words)
      ensures a.Created? || a.LooksLike? || a.Refused?
      ensures a.Created? ==> a.id == newcomer.id
      ensures NewId(newcomer.id, wording(call.problem), cases.Keys)
      ensures Answers(a, newcomer, call.diagnosis, cases, leaks, words)
    {
      hide Fit, Alike, Total, Strip, Known, Sound, EdgeBlind, Numbered;
      var id := Slug(wording(call.problem), cases.Keys);
      newcomer := Fresh(id, call);
      var refused := Problems(newcomer, leaks);
      if refused != [] {
        return Refused(refused), newcomer;
      }
      if !call.asNew {
        var alike := Similar(call.diagnosis);
        if alike != [] {
          return LooksLike(alike), newcomer;
        }
      }
      return Created(id), newcomer;
    }

    /** A case of its own. */
    method File(call: Call) returns (a: Answer)
      requires Valid()
      modifies this
      ensures Valid()
      ensures a.Created? <==> Fit(Fresh("", call), leaks) && (call.asNew || !Known(call.diagnosis, old(cases), words))
      ensures a.LooksLike? <==> Fit(Fresh("", call), leaks) && !call.asNew && Known(call.diagnosis, old(cases), words)
      ensures a.Created? || a.LooksLike? || a.Refused?
      ensures Answers(a, Fresh("", call), call.diagnosis, old(cases), leaks, words)
      ensures a.Created? ==> NewId(a.id, wording(call.problem), old(cases).Keys)
      ensures a.Created? ==> a.id !in old(cases) && filed == old(filed) + [Filing(a.id, call.asNew)]
      ensures a.Created? ==> cases == old(cases)[a.id := Fresh(a.id, call)] && WordedAs(cases[a.id], call)
      ensures a.Created? ==> Total(cases) == old(Total(cases)) + 1
      ensures !a.Created? ==> cases == old(cases) && filed == old(filed)
    {
      var newcomer;
      a, newcomer := Judge(call);
      SameComplaints(newcomer, Fresh("", call), leaks);
      assert Fit(newcomer, leaks) == Fit(Fresh("", call), leaks);
      assert |newcomer.instances| == 1 && newcomer.diagnosis == Strip(call.diagnosis);
      hide Fit, Alike, Total, Strip, Known, Sound, Fresh, EdgeBlind;
      if a.Created? {
        StrippedIsAsKnown(call.diagnosis, cases, words);
        TotalStored(cases, newcomer);
        FiledStaysSound(cases, filed, newcomer, call.asNew, leaks, words);
        cases := cases[newcomer.id := newcomer];
        filed := filed + [Filing(newcomer.id, call.asNew)];
      }
    }

    /**
     Files a case of its own, or adds the episode to the case named. Whatever comes of it, the store stays valid:
     with the constructor this is an invariant of every store that calls of Add can reach.
     */
    method Add(call: Call) returns (a: Answer)
      requires Valid()
      modifies this
      ensures Valid()
      ensures a.NoCase? <==> call.into != "" && call.into !in old(cases)
      ensures a.JoinedCase? <==> call.into != "" && call.into in old(cases) && Fit(Joined(old(cases)[call.into], call), leaks)
      ensures a.JoinedCase? ==> filed == old(filed) && cases == old(cases)[call.into := Joined(old(cases)[call.into], call)]
      ensures a.JoinedCase? ==> OneMore(old(cases)[call.into], cases[call.into], call)
      ensures a.Created? <==> call.into == "" && Fit(Fresh("", call), leaks) && (call.asNew || !Known(call.diagnosis, old(cases), words))
      ensures a.Created? ==> NewId(a.id, wording(call.problem), old(cases).Keys)
      ensures call.into == "" ==> Answers(a, Fresh("", call), call.diagnosis, old(cases), leaks, words)
      ensures call.into in old(cases) && call.into != "" ==>
        Answers(a, Joined(old(cases)[call.into], call), call.diagnosis, old(cases), leaks, words)
      ensures a.Created? ==> a.id !in old(cases) && filed == old(filed) + [Filing(a.id, call.asNew)]
      ensures a.Created? ==> cases == old(cases)[a.id := Fresh(a.id, call)] && WordedAs(cases[a.id], call)
      ensures a.LooksLike? <==> call.into == "" && Fit(Fresh("", call), leaks) && !call.asNew && Known(call.diagnosis, old(cases), words)
      ensures Total(cases) == old(Total(cases)) + (if a.JoinedCase? || a.Created? then 1 else 0)
      ensures !a.JoinedCase? && !a.Created? ==> cases == old(cases) && filed == old(filed)
    {
      hide *;
      if call.into != "" {
        a := Join(call);
      } else {
        a := File(call);
      }
    }
  }
}
