/** Choosing what to build: the dependency closure behind `--to`, and the packages
    affected by changed files. */
module Scoping {
  import opened Graphs

  type PathOf = seq<string>

  datatype Package = Package(name: string, path: PathOf, dependencies: seq<string>)

  // The workspace's packages by name. Building it rejects unknown dependencies and cycles.
  type Workspace = map<string, Package>

  function DepGraph(ws: Workspace): Graph {
    map n | n in ws :: set d | d in ws[n].dependencies
  }

  ghost function Universe(ws: Workspace, target: string): set<string> {
    {target} + set n, d | n in ws && d in ws[n].dependencies :: d
  }

  // Everything found so far is reachable, and what it leads to is found or queued.
  ghost predicate Exploring(g: Graph, start: string, found: set<string>, queue: seq<string>) {
    && (start in found || start in queue)
    && (forall n :: n in found ==> Reach(g, start, n))
    && (forall n :: n in queue ==> Reach(g, start, n))
    && (forall n, d :: n in found && d in Succ(g, n) ==> d in found || d in queue)
  }

  lemma Explored(g: Graph, start: string, found: set<string>)
    requires Exploring(g, start, found, [])
    ensures forall n :: n in found <==> Reach(g, start, n)
  {
    forall n | Reach(g, start, n)
      ensures n in found
    {
      ReachStaysIn(g, found, start, n);
    }
  }

  method TransitiveDepClosure(ws: Workspace, target: string) returns (closure: set<string>)
    ensures forall n :: n in closure <==> Reach(DepGraph(ws), target, n)
    ensures target in closure && ClosedUnder(ws, closure)
    ensures forall s :: target in s && ClosedUnder(ws, s) ==> closure <= s
  {
    ghost var g := DepGraph(ws);
    closure := {};
    var queue := [target];
    ReachRefl(g, target);
    while queue != []
      invariant Exploring(g, target, closure, queue)
      invariant closure <= Universe(ws, target) && forall n :: n in queue ==> n in Universe(ws, target)
      decreases Universe(ws, target) - closure, |queue|
    {
      var name := queue[0];
      ghost var before := queue;
      queue := queue[1..];
      assert before == [name] + queue;
      if name !in closure {
        ghost var found := closure;
        closure := closure + {name};
        if name in ws {
          var deps := ws[name].dependencies;
          ghost var rest := queue;
          for i := 0 to |deps|
            invariant rest <= queue
            invariant forall n :: n in queue ==> n in rest || n in deps[..i]
            invariant forall d :: d in deps[..i] ==> d in closure || d in queue
          {
            assert deps[..i + 1] == deps[..i] + [deps[i]];
            if deps[i] !in closure {
              queue := queue + [deps[i]];
            }
          }
          assert deps[..|deps|] == deps;
          assert forall n :: n in rest ==> n in queue;
          Expand(g, target, found, rest, name, queue);
        } else {
          Expand(g, target, found, queue, name, queue);
        }
      }
    }
    Explored(g, target, closure);
    Least(ws, target, closure);
  }

  // The set has all dependencies of the packages in it.
  ghost predicate ClosedUnder(ws: Workspace, s: set<string>) {
    forall n, d :: n in s && n in ws && d in ws[n].dependencies ==> d in s
  }

  // What can be reached is the least set closed under dependencies.
  lemma {:induction false} Least(ws: Workspace, target: string, closure: set<string>)
    requires forall n :: n in closure <==> Reach(DepGraph(ws), target, n)
    ensures target in closure && ClosedUnder(ws, closure)
    ensures forall s :: target in s && ClosedUnder(ws, s) ==> closure <= s
  {
    var g := DepGraph(ws);
    ReachRefl(g, target);
    forall n, d | n in closure && n in ws && d in ws[n].dependencies
      ensures d in closure
    {
      ReachSnoc(g, target, n, d);
    }
    forall s | target in s && ClosedUnder(ws, s)
      ensures closure <= s
    {
      forall n | n in closure
        ensures n in s
      {
        ReachStaysIn(g, s, target, n);
      }
    }
  }

  lemma Expand(g: Graph, start: string, found: set<string>, rest: seq<string>, n: string, queue: seq<string>)
    requires Exploring(g, start, found, [n] + rest)
    requires forall m :: m in rest ==> m in queue
    requires forall m :: m in queue ==> m in rest || m in Succ(g, n)
    requires forall d :: d in Succ(g, n) ==> d in found + {n} || d in queue
    ensures Exploring(g, start, found + {n}, queue)
  {
    assert n in [n] + rest;
    forall m | m in queue
      ensures Reach(g, start, m)
    {
      if m !in rest {
        ReachSnoc(g, start, n, m);
      } else {
        assert m in [n] + rest;
      }
    }
  }

  // Breadth-first search: nodes are marked when they are queued.
  method Bfs(g: Graph, start: string) returns (visited: set<string>)
    requires Closed(g) && start in g
    ensures forall n :: n in visited <==> Reach(g, start, n)
  {
    visited := {start};
    var queue := [start];
    ReachRefl(g, start);
    while queue != []
      invariant start in visited && visited <= g.Keys
      invariant forall n :: n in visited ==> Reach(g, start, n)
      invariant forall n :: n in queue ==> n in visited
      invariant forall n, d :: n in visited && n !in queue && d in Succ(g, n) ==> d in visited
      decreases g.Keys - visited, |queue|
    {
      var n := queue[0];
      ghost var rest := queue[1..];
      assert queue == [n] + rest;
      queue := queue[1..];
      var succ := g[n];
      ghost var before := visited;
      while succ != {}
        invariant succ <= g[n] && before <= visited <= g.Keys
        invariant forall m :: m in visited ==> Reach(g, start, m)
        invariant forall m :: m in rest ==> m in queue
        invariant forall m :: m in queue ==> m in visited
        invariant forall m :: m in visited ==> m in before || m in queue
        invariant forall d :: d in g[n] ==> d in succ || d in visited
        invariant queue == rest || before < visited
        decreases succ
      {
        var d :| d in succ;
        succ := succ - {d};
        if d !in visited {
          ReachSnoc(g, start, n, d);
          visited := visited + {d};
          queue := queue + [d];
        }
      }
    }
    forall n | Reach(g, start, n)
      ensures n in visited
    {
      ReachStaysIn(g, visited, start, n);
    }
  }

  // A changed file lies in the package's directory.
  predicate Touched(p: Package, changed: seq<PathOf>) {
    exists f | f in changed :: p.path <= f
  }

  function DirectlyAffected(packages: seq<Package>, changed: seq<PathOf>): seq<string> {
    if packages == [] then [] else
      (if Touched(packages[0], changed) then [packages[0].name] else []) + DirectlyAffected(packages[1..], changed)
  }

  // Some directly affected package of the workspace reaches q along reversed edges.
  ghost predicate IsAffected(ws: Workspace, direct: seq<string>, q: string) {
    exists p :: p in direct && p in ws && Reach(Reverse(DepGraph(ws)), p, q)
  }

  method AffectedPackages(packages: seq<Package>, ws: Workspace, changed: seq<PathOf>) returns (affected: set<string>)
    requires Closed(DepGraph(ws))
    ensures forall q :: q in affected <==> IsAffected(ws, DirectlyAffected(packages, changed), q)
  {
    var direct := DirectlyAffected(packages, changed);
    if direct == [] {
      return {};
    }
    var reversed := Reverse(DepGraph(ws));
    affected := {};
    for i := 0 to |direct|
      invariant forall q :: q in affected <==> IsAffected(ws, direct[..i], q)
    {
      assert direct[..i + 1] == direct[..i] + [direct[i]];
      ghost var before := affected;
      var visited := {};
      if direct[i] in ws {
        visited := Bfs(reversed, direct[i]);
        affected := affected + visited;
      }
      forall q
        ensures q in affected <==> IsAffected(ws, direct[..i + 1], q)
      {
        OneMore(ws, direct[..i], direct[i], q);
      }
    }
    assert direct[..|direct|] == direct;
  }

  lemma OneMore(ws: Workspace, direct: seq<string>, p: string, q: string)
    ensures IsAffected(ws, direct + [p], q) <==>
      IsAffected(ws, direct, q) || (p in ws && Reach(Reverse(DepGraph(ws)), p, q))
  {
    if IsAffected(ws, direct, q) {
      var r :| r in direct && r in ws && Reach(Reverse(DepGraph(ws)), r, q);
      assert r in direct + [p];
    }
    assert p in direct + [p];
  }

  lemma {:induction false} DirectExact(packages: seq<Package>, changed: seq<PathOf>, n: string)
    ensures n in DirectlyAffected(packages, changed) <==>
      exists i, f :: 0 <= i < |packages| && packages[i].name == n && f in changed && packages[i].path <= f
  {
    assert forall i :: 0 <= i < |packages| ==>
      (Touched(packages[i], changed) <==> exists f :: f in changed && packages[i].path <= f);
    if packages != [] {
      DirectExact(packages[1..], changed, n);
      if i :| 0 <= i < |packages[1..]| && packages[1..][i].name == n && Touched(packages[1..][i], changed) {
        assert packages[i + 1].name == n && Touched(packages[i + 1], changed);
      }
      if i :| 0 <= i < |packages| && packages[i].name == n && Touched(packages[i], changed) {
        if i > 0 {
          assert packages[1..][i - 1] == packages[i];
        }
      }
    }
  }

  // p is in the closure of t exactly when t is affected by a change in p alone.
  lemma ClosureDuality(ws: Workspace, t: string, p: string)
    requires Closed(DepGraph(ws)) && t in ws && p in ws
    ensures Reach(DepGraph(ws), t, p) <==> IsAffected(ws, [p], t)
  {
    ReverseIs(DepGraph(ws));
    ReverseReach(Reverse(DepGraph(ws)), DepGraph(ws), t, p);
  }

  // The packages affected by some changes are those whose closure holds a directly affected one.
  lemma AffectedExact(packages: seq<Package>, ws: Workspace, changed: seq<PathOf>, q: string)
    requires Closed(DepGraph(ws)) && q in ws
    ensures IsAffected(ws, DirectlyAffected(packages, changed), q) <==>
      exists i, f :: 0 <= i < |packages| && f in changed && packages[i].path <= f &&
        packages[i].name in ws && Reach(DepGraph(ws), q, packages[i].name)
  {
    var direct, g := DirectlyAffected(packages, changed), DepGraph(ws);
    ReverseIs(g);
    if IsAffected(ws, direct, q) {
      var p :| p in direct && p in ws && Reach(Reverse(DepGraph(ws)), p, q);
      ReverseReach(Reverse(g), g, q, p);
      DirectExact(packages, changed, p);
    }
    if i, f :| 0 <= i < |packages| && f in changed && packages[i].path <= f &&
               packages[i].name in ws && Reach(DepGraph(ws), q, packages[i].name) {
      ReverseReach(Reverse(g), g, q, packages[i].name);
      DirectExact(packages, changed, packages[i].name);
    }
  }
}
