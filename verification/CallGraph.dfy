/**
 Call graphs, reachability and the cycles a call graph holds: the vocabulary in which the
 result of the recursion check's component search is stated.
 */
module CallGraph {

  /** A function's symbol name. */
  datatype Symbol = Symbol(name: string)

  /** A function's name mapped to the functions it calls; a callee need not be a key. */
  type Graph = map<Symbol, set<Symbol>>

  /** A callee absent from the map calls nothing. */
  function Callees(g: Graph, v: Symbol): set<Symbol> {
    if v in g then g[v] else {}
  }

  ghost function Universe(g: Graph): set<Symbol> {
    g.Keys + set v, w | v in g && w in g[v] :: w
  }

  lemma CalleesInUniverse(g: Graph, v: Symbol)
    ensures Callees(g, v) <= Universe(g)
  {
  }

  ghost predicate IsPath(g: Graph, p: seq<Symbol>) {
    |p| > 0 && forall i :: 0 <= i < |p| - 1 ==> p[i + 1] in Callees(g, p[i])
  }

  ghost predicate Joins(g: Graph, p: seq<Symbol>, a: Symbol, b: Symbol) {
    IsPath(g, p) && p[0] == a && p[|p| - 1] == b
  }

  ghost predicate Reaches(g: Graph, a: Symbol, b: Symbol) {
    exists p :: Joins(g, p, a, b)
  }

  ghost predicate Mutual(g: Graph, a: Symbol, b: Symbol) {
    Reaches(g, a, b) && Reaches(g, b, a)
  }

  /** `c` lists the strongly connected component of each of its members, each member once. */
  ghost predicate IsComponent(g: Graph, c: seq<Symbol>) {
    && c != []
    && (forall i, j :: 0 <= i < j < |c| ==> c[i] != c[j])
    && (forall v, w :: v in c ==> (w in c <==> Mutual(g, v, w)))
  }

  /** A walk of at least one call leads from `v` back to `v`. */
  ghost predicate OnCycle(g: Graph, v: Symbol) {
    exists p :: Joins(g, p, v, v) && |p| > 1
  }

  lemma ReachesSelf(g: Graph, a: Symbol)
    ensures Reaches(g, a, a)
  {
    assert Joins(g, [a], a, a);
  }

  lemma ReachesCallee(g: Graph, a: Symbol, b: Symbol)
    requires b in Callees(g, a)
    ensures Reaches(g, a, b)
  {
    assert Joins(g, [a, b], a, b);
  }

  lemma JoinsTrans(g: Graph, p: seq<Symbol>, q: seq<Symbol>, a: Symbol, b: Symbol, c: Symbol)
    requires Joins(g, p, a, b) && Joins(g, q, b, c)
    ensures Joins(g, p + q[1..], a, c)
  {
    var r := p + q[1..];
    forall i | 0 <= i < |r| - 1
      ensures r[i + 1] in Callees(g, r[i])
    {
      if i >= |p| - 1 {
        assert r[i + 1] == q[i + 2 - |p|];
        assert r[i] == q[i + 1 - |p|];
      }
    }
  }

  lemma ReachesTrans(g: Graph, a: Symbol, b: Symbol, c: Symbol)
    requires Reaches(g, a, b) && Reaches(g, b, c)
    ensures Reaches(g, a, c)
  {
    var p :| Joins(g, p, a, b);
    var q :| Joins(g, q, b, c);
    JoinsTrans(g, p, q, a, b, c);
  }

  lemma MutualTrans(g: Graph, a: Symbol, b: Symbol, c: Symbol)
    requires Mutual(g, a, b) && Mutual(g, b, c)
    ensures Mutual(g, a, c) && Mutual(g, c, a)
  {
    ReachesTrans(g, a, b, c);
    ReachesTrans(g, c, b, a);
  }

  ghost predicate ClosedUnderCalls(g: Graph, s: set<Symbol>) {
    forall v, w :: v in s && w in Callees(g, v) ==> w in s
  }

  lemma PathStaysInClosed(g: Graph, s: set<Symbol>, p: seq<Symbol>, i: nat)
    requires ClosedUnderCalls(g, s) && IsPath(g, p) && p[0] in s && i < |p|
    ensures p[i] in s
  {
    if i > 0 {
      PathStaysInClosed(g, s, p, i - 1);
    }
  }

  lemma ClosedHoldsReached(g: Graph, s: set<Symbol>, a: Symbol, b: Symbol)
    requires ClosedUnderCalls(g, s) && a in s && Reaches(g, a, b)
    ensures b in s
  {
    var p :| Joins(g, p, a, b);
    PathStaysInClosed(g, s, p, |p| - 1);
  }

  lemma CycleLeavesItself(g: Graph, v: Symbol) returns (w: Symbol)
    requires OnCycle(g, v)
    ensures w in Callees(g, v) && Mutual(g, v, w)
  {
    var p :| Joins(g, p, v, v) && |p| > 1;
    w := p[1];
    ReachesCallee(g, v, w);
    assert Joins(g, p[1..], w, v);
  }

  lemma MutualMakesCycle(g: Graph, v: Symbol, w: Symbol)
    requires Mutual(g, v, w) && v != w
    ensures OnCycle(g, v)
  {
    var p :| Joins(g, p, v, w);
    var q :| Joins(g, q, w, v);
    JoinsTrans(g, p, q, v, w, v);
    assert |p + q[1..]| > 1;
  }

  /** A component is a cycle in the script's sense exactly when its members lie on one:
      more than one member, or a member that calls itself. */
  lemma {:induction false} CycleIffComponentCyclic(g: Graph, c: seq<Symbol>, v: Symbol)
    requires IsComponent(g, c) && v in c
    ensures OnCycle(g, v) <==> |c| > 1 || v in Callees(g, v)
  {
    hide OnCycle, Mutual;
    if OnCycle(g, v) {
      var w := CycleLeavesItself(g, v);
      assert w in c;
      assert |c| == 1 ==> w == c[0] && v == c[0];
    }
    if v in Callees(g, v) {
      SelfCallMakesCycle(g, v);
    }
    if |c| > 1 {
      var w := if c[0] == v then c[1] else c[0];
      assert w in c && w != v;
      MutualMakesCycle(g, v, w);
    }
  }

  lemma SelfCallMakesCycle(g: Graph, v: Symbol)
    requires v in Callees(g, v)
    ensures OnCycle(g, v)
  {
    assert Joins(g, [v, v], v, v);
  }
}
