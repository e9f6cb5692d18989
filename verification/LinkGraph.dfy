/**
 Directed graphs over ids, as the procedure library and the parent index use them: a map from an id to the
 ids it points at. An id that is not a key points at nothing, and a pointed-at id need not be a key.
 */
module LinkGraph {
  /** The name a procedure is stored under. */
  datatype Id = Id(name: string)

  type Graph = map<Id, set<Id>>

  predicate Edge(g: Graph, a: Id, b: Id) {
    a in g && b in g[a]
  }

  /** Every id of p points at the next one. */
  ghost predicate IsPath(g: Graph, p: seq<Id>) {
    |p| > 0 && forall i, j :: 0 <= i < |p| && 0 <= j < |p| && j == i + 1 ==> Edge(g, p[i], p[j])
  }

  /** p follows at least one link, from a to b. */
  ghost predicate Chain(g: Graph, a: Id, b: Id, p: seq<Id>) {
    |p| >= 2 && p[0] == a && p[|p| - 1] == b && IsPath(g, p)
  }

  ghost predicate Leads(g: Graph, a: Id, b: Id) {
    exists p :: Chain(g, a, b, p)
  }

  ghost predicate Acyclic(g: Graph) {
    forall a :: !Leads(g, a, a)
  }

  ghost predicate Distinct<T>(s: seq<T>) {
    forall i, j :: 0 <= i < j < |s| ==> s[i] != s[j]
  }

  /** Every id the graph mentions. */
  ghost function Nodes(g: Graph): set<Id> {
    g.Keys + set a, b | a in g && b in g[a] :: b
  }

  lemma ChainLeads(g: Graph, a: Id, b: Id, p: seq<Id>)
    requires Chain(g, a, b, p)
    ensures Leads(g, a, b)
  {
  }

  lemma EdgeLeads(g: Graph, a: Id, b: Id)
    requires Edge(g, a, b)
    ensures Leads(g, a, b)
  {
    assert Chain(g, a, b, [a, b]);
  }

  lemma PathPrefix(g: Graph, p: seq<Id>, n: nat)
    requires IsPath(g, p) && 0 < n <= |p|
    ensures IsPath(g, p[..n])
  {
  }

  lemma PathSuffix(g: Graph, p: seq<Id>, n: nat)
    requires IsPath(g, p) && n < |p|
    ensures IsPath(g, p[n..])
  {
    var q := p[n..];
    forall i, j | 0 <= i < |q| && 0 <= j < |q| && j == i + 1 ensures Edge(g, q[i], q[j]) {
      assert q[i] == p[n + i] && q[j] == p[n + j];
    }
  }

  lemma PathExtend(g: Graph, p: seq<Id>, b: Id)
    requires IsPath(g, p) && Edge(g, p[|p| - 1], b)
    ensures IsPath(g, p + [b])
  {
  }

  lemma LeadsTrans(g: Graph, a: Id, b: Id, c: Id)
    requires Leads(g, a, b) && Leads(g, b, c)
    ensures Leads(g, a, c)
  {
    var p :| Chain(g, a, b, p);
    var q :| Chain(g, b, c, q);
    var r := p + q[1..];
    forall i, j | 0 <= i < |r| && 0 <= j < |r| && j == i + 1 ensures Edge(g, r[i], r[j]) {
      if j >= |p| {
        assert r[j] == q[j - |p| + 1] && r[i] == q[i - |p| + 1];
      }
    }
    assert Chain(g, a, c, r);
  }

  /** A chain starts with a link and goes on from there. */
  lemma LeadsFirst(g: Graph, a: Id, b: Id) returns (c: Id)
    requires Leads(g, a, b)
    ensures Edge(g, a, c) && (c == b || Leads(g, c, b))
  {
    var p :| Chain(g, a, b, p);
    c := p[1];
    PathSuffix(g, p, 1);
    if |p| > 2 {
      assert Chain(g, c, b, p[1..]);
    }
  }

  /** A chain ends with a link. */
  lemma LeadsLast(g: Graph, a: Id, b: Id) returns (c: Id)
    requires Leads(g, a, b)
    ensures Edge(g, c, b) && (c == a || Leads(g, a, c))
  {
    var p :| Chain(g, a, b, p);
    c := p[|p| - 2];
    PathPrefix(g, p, |p| - 1);
    if |p| > 2 {
      assert Chain(g, a, c, p[..|p| - 1]);
    }
  }

  /** Nothing leads out of a set that every link out of a and out of the set stays in. */
  lemma {:induction false} ClosedHolds(g: Graph, a: Id, b: Id, closed: set<Id>, p: seq<Id>)
    requires Chain(g, a, b, p)
    requires forall y :: Edge(g, a, y) ==> y in closed
    requires forall x, y :: x in closed && Edge(g, x, y) ==> y in closed
    ensures b in closed
    decreases |p|
  {
    assert Edge(g, p[0], p[1]);
    if |p| > 2 {
      PathSuffix(g, p, 1);
      ClosedHolds(g, p[1], b, closed, p[1..]);
    }
  }

  /** Whatever leads somewhere leads there without meeting an id twice, the two ends aside. */
  lemma {:induction false} SimplePath(g: Graph, p: seq<Id>) returns (q: seq<Id>)
    requires IsPath(g, p)
    ensures IsPath(g, q) && Distinct(q) && q[0] == p[0] && q[|q| - 1] == p[|p| - 1]
    decreases |p|
  {
    if Distinct(p) {
      q := p;
    } else {
      var i, j :| 0 <= i < j < |p| && p[i] == p[j];
      var r := p[..i] + p[j..];
      forall k, m | 0 <= k < |r| && 0 <= m < |r| && m == k + 1 ensures Edge(g, r[k], r[m]) {
        if m >= i {
          assert r[m] == p[m - i + j];
          if k >= i {
            assert r[k] == p[k - i + j];
          } else {
            assert Edge(g, p[k], p[i]);
          }
        }
      }
      q := SimplePath(g, r);
    }
  }

  function WithEdge(g: Graph, a: Id, b: Id): Graph {
    g[a := (if a in g then g[a] else {}) + {b}]
  }

  /** The link from a to b lies on a circle. */
  ghost predicate OnCircle(g: Graph, a: Id, b: Id) {
    Edge(g, a, b) && (a == b || Leads(g, b, a))
  }

  /** h may differ from g only in where `owner` points. */
  ghost predicate SameElsewhere(g: Graph, h: Graph, owner: Id) {
    forall a, b :: a != owner ==> (Edge(g, a, b) <==> Edge(h, a, b))
  }

  /** What leads to the owner does so without the owner's own links. */
  lemma LeadsBackUnchanged(g: Graph, h: Graph, owner: Id, a: Id)
    requires SameElsewhere(g, h, owner) && a != owner && Leads(h, a, owner)
    ensures Leads(g, a, owner)
  {
    var p :| Chain(h, a, owner, p);
    var q := SimplePath(h, p);
    forall i, j | 0 <= i < |q| && 0 <= j < |q| && j == i + 1 ensures Edge(g, q[i], q[j]) {
      assert q[i] != q[|q| - 1];
    }
    assert Chain(g, a, owner, q);
  }

  /** A new link closes a circle exactly when it is a self-link or its end already leads back. */
  lemma NewLinkOnCircle(g: Graph, owner: Id, linked: Id)
    ensures OnCircle(WithEdge(g, owner, linked), owner, linked) <==> linked == owner || Leads(g, linked, owner)
  {
    var h := WithEdge(g, owner, linked);
    if linked != owner {
      if Leads(h, linked, owner) {
        LeadsBackUnchanged(g, h, owner, linked);
      }
      if Leads(g, linked, owner) {
        LeadsBackUnchanged(h, g, owner, linked);
      }
    }
  }

  /** A chain from a to a that meets `via` turns into one from `via` to `via`. */
  lemma RotateCycle(g: Graph, a: Id, p: seq<Id>, i: nat)
    requires Chain(g, a, a, p) && i < |p|
    ensures Leads(g, p[i], p[i])
  {
    if 0 < i < |p| - 1 {
      PathPrefix(g, p, i + 1);
      PathSuffix(g, p, i);
      assert Chain(g, a, p[i], p[..i + 1]) && Chain(g, p[i], a, p[i..]);
      LeadsTrans(g, p[i], a, p[i]);
    }
  }

  /**
   Several links of one owner, each checked against the graph as it was before any of them, keep an acyclic
   graph acyclic: no circle needs two of them.
   */
  lemma BatchKeepsAcyclic(g: Graph, h: Graph, owner: Id)
    requires Acyclic(g) && SameElsewhere(g, h, owner)
    requires forall b :: Edge(h, owner, b) ==> Edge(g, owner, b) || (b != owner && !Leads(g, b, owner))
    ensures Acyclic(h)
  {
    forall a ensures !Leads(h, a, a) {
      if Leads(h, a, a) {
        var p :| Chain(h, a, a, p);
        if i :| 0 <= i < |p| && p[i] == owner {
          RotateCycle(h, a, p, i);
          var c := LeadsFirst(h, owner, owner);
          if c == owner {
            EdgeLeads(g, owner, owner);
          } else {
            LeadsBackUnchanged(g, h, owner, c);
            EdgeLeads(g, owner, c);
            LeadsTrans(g, owner, c, owner);
          }
        } else {
          assert Chain(g, a, a, p) by {
            forall j, k | 0 <= j < |p| && 0 <= k < |p| && k == j + 1 ensures Edge(g, p[j], p[k]) {
              assert Edge(h, p[j], p[k]);
            }
          }
          assert Leads(g, a, a);
        }
      }
    }
  }
}
