/** Finite directed graphs over task or package names: an edge goes from a name
    to each name it depends on. */
module Graphs {
  import opened Wrappers

  type Node = string
  type Graph = map<Node, set<Node>>

  datatype Path = At(n: Node) | Via(n: Node, rest: Path)

  function Succ(g: Graph, n: Node): set<Node> {
    if n in g then g[n] else {}
  }

  function Last(p: Path): Node {
    match p
    case At(n) => n
    case Via(_, rest) => Last(rest)
  }

  ghost predicate ValidPath(g: Graph, p: Path) {
    match p
    case At(_) => true
    case Via(n, rest) => rest.n in Succ(g, n) && ValidPath(g, rest)
  }

  ghost predicate Connects(g: Graph, p: Path, a: Node, b: Node) {
    ValidPath(g, p) && p.n == a && Last(p) == b
  }

  // b can be reached from a in zero or more edges.
  ghost predicate Reach(g: Graph, a: Node, b: Node) {
    exists p :: Connects(g, p, a, b)
  }

  // b can be reached from a in one or more edges.
  ghost predicate ReachPlus(g: Graph, a: Node, b: Node) {
    exists d :: d in Succ(g, a) && Reach(g, d, b)
  }

  // Every name an edge leads to is itself a key.
  ghost predicate Closed(g: Graph) {
    forall n :: n in g ==> g[n] <= g.Keys
  }

  ghost predicate Acyclic(g: Graph) {
    forall n :: n in g ==> !ReachPlus(g, n, n)
  }

  lemma ReachRefl(g: Graph, a: Node)
    ensures Reach(g, a, a)
  {
    assert Connects(g, At(a), a, a);
  }

  lemma ReachCons(g: Graph, a: Node, d: Node, b: Node)
    requires d in Succ(g, a) && Reach(g, d, b)
    ensures Reach(g, a, b)
  {
    var p :| Connects(g, p, d, b);
    assert Connects(g, Via(a, p), a, b);
  }

  // A path is either empty or starts with an edge.
  lemma ReachCases(g: Graph, a: Node, b: Node)
    requires Reach(g, a, b)
    ensures a == b || ReachPlus(g, a, b)
  {
    var p :| Connects(g, p, a, b);
    match p
    case At(_) =>
    case Via(_, rest) => assert Connects(g, rest, rest.n, b);
  }

  lemma {:induction false} PathTrans(g: Graph, p: Path, a: Node, b: Node, c: Node)
    requires Connects(g, p, a, b) && Reach(g, b, c)
    ensures Reach(g, a, c)
    decreases p
  {
    match p
    case At(_) =>
    case Via(_, rest) =>
      PathTrans(g, rest, rest.n, b, c);
      ReachCons(g, a, rest.n, c);
  }

  lemma ReachTrans(g: Graph, a: Node, b: Node, c: Node)
    requires Reach(g, a, b) && Reach(g, b, c)
    ensures Reach(g, a, c)
  {
    var p :| Connects(g, p, a, b);
    PathTrans(g, p, a, b, c);
  }

  lemma ReachSnoc(g: Graph, a: Node, b: Node, c: Node)
    requires Reach(g, a, b) && c in Succ(g, b)
    ensures Reach(g, a, c) && ReachPlus(g, a, c)
  {
    ReachRefl(g, c);
    ReachCons(g, b, c, c);
    ReachTrans(g, a, b, c);
    if a != b {
      ReachCases(g, a, b);
      var d :| d in Succ(g, a) && Reach(g, d, b);
      ReachTrans(g, d, b, c);
    }
  }

  // A set closed under edges contains everything reachable from its members.
  lemma {:induction false} PathStaysIn(g: Graph, s: set<Node>, p: Path)
    requires ValidPath(g, p) && p.n in s
    requires forall n :: n in s ==> Succ(g, n) <= s
    ensures Last(p) in s
    decreases p
  {
    match p
    case At(_) =>
    case Via(_, rest) => PathStaysIn(g, s, rest);
  }

  lemma ReachStaysIn(g: Graph, s: set<Node>, a: Node, b: Node)
    requires a in s && Reach(g, a, b)
    requires forall n :: n in s ==> Succ(g, n) <= s
    ensures b in s
  {
    var p :| Connects(g, p, a, b);
    PathStaysIn(g, s, p);
  }

  // The proper descendants of a: finite, and strictly fewer along every edge of an
  // acyclic graph. Used as the termination measure of inductions over dependencies.
  ghost function Below(g: Graph, a: Node): set<Node> {
    set b | b in g && ReachPlus(g, a, b)
  }

  lemma BelowShrinks(g: Graph, a: Node, d: Node)
    requires d in Succ(g, a) && d in g && !ReachPlus(g, d, d)
    ensures |Below(g, d)| < |Below(g, a)|
  {
    ReachRefl(g, d);
    forall b | b in Below(g, d)
      ensures b in Below(g, a)
    {
      var e :| e in Succ(g, d) && Reach(g, e, b);
      ReachCons(g, d, e, b);
    }
    assert d in Below(g, a) && d !in Below(g, d);
    SubsetSize(Below(g, d), Below(g, a));
  }

  // Every non-empty set of nodes of an acyclic graph has a member with no edge into the set.
  lemma {:induction false} Minimal(g: Graph, s: set<Node>, x: Node) returns (m: Node)
    requires Closed(g) && Acyclic(g) && s <= g.Keys && x in s
    ensures m in s && g[m] !! s
    decreases |Below(g, x)|
  {
    if d :| d in g[x] && d in s {
      assert d in g && !ReachPlus(g, d, d);
      BelowShrinks(g, x, d);
      m := Minimal(g, s, d);
    } else {
      m := x;
    }
  }

  // r has the edges of g turned round.
  ghost predicate Reverses(r: Graph, g: Graph) {
    forall x, y :: y in Succ(r, x) <==> x in Succ(g, y)
  }

  lemma {:induction false} PathReversed(r: Graph, g: Graph, p: Path)
    requires Reverses(r, g) && ValidPath(r, p)
    ensures Reach(g, Last(p), p.n)
    decreases p
  {
    match p
    case At(n) => ReachRefl(g, n);
    case Via(n, rest) =>
      PathReversed(r, g, rest);
      ReachSnoc(g, Last(p), rest.n, n);
  }

  lemma ReverseReach(r: Graph, g: Graph, a: Node, b: Node)
    requires Reverses(r, g)
    ensures Reach(g, a, b) <==> Reach(r, b, a)
  {
    if Reach(g, a, b) {
      var p :| Connects(g, p, a, b);
      PathReversed(g, r, p);
    }
    if Reach(r, b, a) {
      var p :| Connects(r, p, b, a);
      PathReversed(r, g, p);
    }
  }

  // The same graph with every edge turned round, on the same nodes.
  function Reverse(g: Graph): Graph {
    map n | n in g :: set m | m in g && n in g[m]
  }

  lemma ReverseIs(g: Graph)
    requires Closed(g)
    ensures Reverses(Reverse(g), g)
  {
  }
}
