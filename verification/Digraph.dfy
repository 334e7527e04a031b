/** Finite directed graphs with insertion-ordered successor lists, and reachability in them. */
module Digraph {

  /** Every node with the successors an edge iterator over it yields, in order. */
  type Adjacency = map<string, seq<string>>

  ghost predicate Distinct(s: seq<string>) {
    forall i, j :: 0 <= i < j < |s| ==> s[i] != s[j]
  }

  /** Successor lists are duplicate-free and stay inside the graph. */
  ghost predicate WellFormed(g: Adjacency) {
    forall u :: u in g ==> Distinct(g[u]) && forall v :: v in g[u] ==> v in g
  }

  ghost predicate Edge(g: Adjacency, u: string, v: string) {
    u in g && v in g[u]
  }

  ghost predicate ReachesIn(g: Adjacency, u: string, v: string, n: nat)
    decreases n
  {
    if n == 0 then u == v else exists w :: Edge(g, u, w) && ReachesIn(g, w, v, n - 1)
  }

  /** A path of zero or more edges leads from u to v. */
  ghost predicate Reaches(g: Adjacency, u: string, v: string) {
    exists n: nat :: ReachesIn(g, u, v, n)
  }

  ghost predicate Mutual(g: Adjacency, u: string, v: string) {
    Reaches(g, u, v) && Reaches(g, v, u)
  }

  /** A path of at least one edge leads from u to v. */
  ghost predicate ReachesProperly(g: Adjacency, u: string, v: string) {
    exists w :: Edge(g, u, w) && Reaches(g, w, v)
  }

  lemma Reflexive(g: Adjacency, u: string)
    ensures Reaches(g, u, u)
  {
    assert ReachesIn(g, u, u, 0);
  }

  lemma EdgeReaches(g: Adjacency, u: string, v: string)
    requires Edge(g, u, v)
    ensures Reaches(g, u, v)
  {
    assert ReachesIn(g, v, v, 0);
    assert ReachesIn(g, u, v, 1);
  }

  lemma {:induction false} Compose(g: Adjacency, u: string, v: string, w: string, m: nat, n: nat)
    requires ReachesIn(g, u, v, m) && ReachesIn(g, v, w, n)
    ensures ReachesIn(g, u, w, m + n)
    decreases m
  {
    if m != 0 {
      var x :| Edge(g, u, x) && ReachesIn(g, x, v, m - 1);
      Compose(g, x, v, w, m - 1, n);
    }
  }

  lemma Transitive(g: Adjacency, u: string, v: string, w: string)
    requires Reaches(g, u, v) && Reaches(g, v, w)
    ensures Reaches(g, u, w)
  {
    var m: nat :| ReachesIn(g, u, v, m);
    var n: nat :| ReachesIn(g, v, w, n);
    Compose(g, u, v, w, m, n);
  }

  /** A set that no edge leaves. */
  ghost predicate Closed(g: Adjacency, c: set<string>) {
    forall u, v :: u in c && Edge(g, u, v) ==> v in c
  }

  lemma {:induction false} ClosedIn(g: Adjacency, c: set<string>, u: string, v: string, n: nat)
    requires Closed(g, c) && u in c && ReachesIn(g, u, v, n)
    ensures v in c
    decreases n
  {
    if n != 0 {
      var w :| Edge(g, u, w) && ReachesIn(g, w, v, n - 1);
      ClosedIn(g, c, w, v, n - 1);
    }
  }

  /** No path leaves a closed set. */
  lemma ClosedReaches(g: Adjacency, c: set<string>, u: string, v: string)
    requires Closed(g, c) && u in c && Reaches(g, u, v)
    ensures v in c
  {
    var n: nat :| ReachesIn(g, u, v, n);
    ClosedIn(g, c, u, v, n);
  }

  /** Reachability as a set of pairs. */
  ghost function Reachability(g: Adjacency): iset<(string, string)> {
    iset u, v | Reaches(g, u, v) :: (u, v)
  }

  ghost predicate IsTransitive(r: iset<(string, string)>) {
    forall u, v, w :: (u, v) in r && (v, w) in r ==> (u, w) in r
  }

  lemma ReachabilityIsPreorder(g: Adjacency)
    ensures IsTransitive(Reachability(g))
    ensures forall u :: (u, u) in Reachability(g)
    ensures forall u, j :: u in g && 0 <= j < |g[u]| ==> (u, g[u][j]) in Reachability(g)
  {
    forall u, v, w | Reaches(g, u, v) && Reaches(g, v, w) ensures Reaches(g, u, w) {
      Transitive(g, u, v, w);
    }
    forall u ensures Reaches(g, u, u) {
      Reflexive(g, u);
    }
    forall u, j | u in g && 0 <= j < |g[u]| ensures Reaches(g, u, g[u][j]) {
      EdgeReaches(g, u, g[u][j]);
    }
  }

  lemma NoEscape(g: Adjacency, c: set<string>)
    requires Closed(g, c)
    ensures forall u, v :: u in c && (u, v) in Reachability(g) ==> v in c
  {
    forall u, v | u in c && Reaches(g, u, v) ensures v in c {
      ClosedReaches(g, c, u, v);
    }
  }
}
