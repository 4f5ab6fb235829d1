/** What waiting on the completion channels orders: a task starts after another in every run
    exactly when the wait lists lead to it; and when that covers the workspace's dependencies. */
module RunOrder {
  import opened Wrappers
  import opened Graphs
  import opened Runner

  // A pool from the moment its tasks are spawned.
  ghost predicate PoolRun(deps: DepLists, ok: set<string>, pa: bool, pools: seq<Pool>, steps: seq<PoolStep>) {
    && |pools| == |steps| + 1 && pools[0] == Spawned(deps)
    && forall i :: 0 <= i < |steps| ==> PoolNext(deps, ok, pa, pools[i], steps[i], pools[i + 1])
  }

  ghost predicate Reachable(deps: DepLists, ok: set<string>, pa: bool, p: Pool) {
    exists pools, steps :: PoolRun(deps, ok, pa, pools, steps) && pools[|steps|] == p
  }

  lemma {:induction false} PoolRunInv(deps: DepLists, ok: set<string>, pa: bool, pools: seq<Pool>,
                                      steps: seq<PoolStep>, i: nat)
    requires PoolRun(deps, ok, pa, pools, steps) && i < |pools|
    ensures PoolInv(deps, ok, pools[i])
    decreases i
  {
    hide PoolInv, PoolNext;
    if i == 0 {
      SpawnedInv(deps, ok);
    } else {
      PoolRunInv(deps, ok, pa, pools, steps, i - 1);
      PoolStepInv(deps, ok, pa, pools[i - 1], steps[i - 1], pools[i]);
    }
  }

  lemma OneStepMore(deps: DepLists, ok: set<string>, pa: bool, p: Pool, step: PoolStep, p': Pool)
    requires Reachable(deps, ok, pa, p) && PoolNext(deps, ok, pa, p, step, p')
    ensures Reachable(deps, ok, pa, p')
  {
    hide PoolNext;
    var pools, steps :| PoolRun(deps, ok, pa, pools, steps) && pools[|steps|] == p;
    var pools', steps' := pools + [p'], steps + [step];
    forall i | 0 <= i < |steps'|
      ensures PoolNext(deps, ok, pa, pools'[i], steps'[i], pools'[i + 1])
    {
      if i < |steps| {
        assert PoolNext(deps, ok, pa, pools[i], steps[i], pools[i + 1]);
      }
    }
    assert PoolRun(deps, ok, pa, pools', steps') && pools'[|steps'|] == p';
  }

  // Is x neither t nor below it?
  ghost predicate Apart(deps: DepLists, t: string, x: string) {
    x != t && !ReachPlus(DepGraph(deps), t, x)
  }

  // Only t, which still waits, and tasks below it have moved, and none went wrong.
  ghost predicate OnlyBelow(deps: DepLists, p: Pool, t: string) {
    && t in p.status && p.status[t].Waiting?
    && forall x :: x in p.status ==>
      && !p.status[x].Errored? && !p.status[x].Gone?
      && (Apart(deps, t, x) ==> p.status[x] == Waiting(0))
  }

  // With everything below it done, a task that has not gone wrong goes on.
  lemma GoesOn(deps: DepLists, ok: set<string>, pa: bool, p: Pool, m: string) returns (step: PoolStep, p': Pool)
    requires PoolInv(deps, ok, p) && m in p.status && !p.status[m].Final() && (p.status[m].Running? ==> m in ok)
    requires forall d :: d in deps[m] ==> d in p.status && p.status[d].Succeeded?
    ensures PoolNext(deps, ok, pa, p, step, p') && step.t == m
    ensures p'.status == p.status[m := p'.status[m]] && !p'.status[m].Errored? && !p'.status[m].Gone?
    ensures p.status[m].Waiting? ==> p'.status[m].Waiting? || p'.status[m].Running?
  {
    if p.status[m].Running? {
      step := Finish(m);
      p' := Set(p, m, Succeeded).(finished := p.finished + [m]);
    } else if p.status[m].next == |deps[m]| {
      step := Launch(m);
      p' := Set(p, m, Running);
    } else {
      var d := deps[m][p.status[m].next];
      assert d in deps[m] && LooksAt(deps, p, m, d);
      step := Advance(m);
      p' := Set(p, m, Waiting(p.status[m].next + 1));
    }
  }

  lemma StillBelow(deps: DepLists, p: Pool, t: string, m: string, p': Pool)
    requires OnlyBelow(deps, p, t) && m in p.status && !Apart(deps, t, m)
    requires m in p'.status && p'.status == p.status[m := p'.status[m]]
    requires !p'.status[m].Errored? && !p'.status[m].Gone?
    requires p.status[m].Waiting? ==> p'.status[m].Waiting? || p'.status[m].Running?
    ensures OnlyBelow(deps, p', t) || (m == t && p'.status[t].Running?)
    ensures forall x :: x in p.status && Apart(deps, t, x) ==> x in p'.status && p'.status[x] == Waiting(0)
  {
  }

  // What t waits for can all be run first, and nothing else.
  lemma {:induction false} RunsFirst(deps: DepLists, ok: set<string>, pa: bool, p: Pool, t: string) returns (q: Pool)
    requires Closed(DepGraph(deps)) && Acyclic(DepGraph(deps)) && Reachable(deps, ok, pa, p) && PoolInv(deps, ok, p)
    requires OnlyBelow(deps, p, t) && forall x :: ReachPlus(DepGraph(deps), t, x) ==> x in ok
    ensures Reachable(deps, ok, pa, q) && t in q.status && q.status[t].Running?
    ensures forall x :: x in deps && Apart(deps, t, x) ==> x in q.status && q.status[x] == Waiting(0)
    decreases Sum(Lefts(deps, p))
  {
    assert p.status.Keys == deps.Keys;
    var m := NextBelow(deps, ok, p, t);
    var step, p' := GoesOn(deps, ok, pa, p, m);
    hide PoolInv, PoolNext, Reachable, ReachPlus, OnlyBelow, Closed, Acyclic;
    OneStepMore(deps, ok, pa, p, step, p');
    PoolStepInv(deps, ok, pa, p, step, p');
    PoolStepCounts(deps, ok, pa, p, step, p');
    StillBelow(deps, p, t, m, p');
    if m == t && p'.status[t].Running? {
      q := p';
    } else {
      q := RunsFirst(deps, ok, pa, p', t);
    }
  }

  // The task to move: t, or one below it, with everything it waits for done.
  lemma NextBelow(deps: DepLists, ok: set<string>, p: Pool, t: string) returns (m: string)
    requires Closed(DepGraph(deps)) && Acyclic(DepGraph(deps)) && PoolInv(deps, ok, p) && OnlyBelow(deps, p, t)
    requires forall x :: ReachPlus(DepGraph(deps), t, x) ==> x in ok
    ensures m in p.status && !p.status[m].Final() && !Apart(deps, t, m)
    ensures p.status[m].Running? ==> m in ok
    ensures forall d :: d in deps[m] ==> d in p.status && p.status[d].Succeeded?
  {
    var g := DepGraph(deps);
    var open := set x | x in p.status && !p.status[x].Final() && Reach(g, t, x);
    ReachRefl(g, t);
    m := Minimal(g, open, t);
    ReachCases(g, t, m);
    forall d | d in deps[m]
      ensures d in p.status && p.status[d].Succeeded?
    {
      assert d in g[m];
      ReachSnoc(g, t, m, d);
    }
  }

  lemma SpawnedBelow(deps: DepLists, ok: set<string>, pa: bool, t: string)
    requires t in deps
    ensures Reachable(deps, ok, pa, Spawned(deps)) && PoolInv(deps, ok, Spawned(deps))
    ensures OnlyBelow(deps, Spawned(deps), t)
  {
    SpawnedInv(deps, ok);
    assert PoolRun(deps, ok, pa, [Spawned(deps)], []);
  }

  // When what t waits for succeeds, t starts after d in every run, whatever the interleaving,
  // exactly when the wait lists lead from t to d.
  lemma OrderedExactly(deps: DepLists, ok: set<string>, pa: bool, t: string, d: string)
    requires Closed(DepGraph(deps)) && Acyclic(DepGraph(deps)) && t in deps && d in deps
    requires forall x :: ReachPlus(DepGraph(deps), t, x) ==> x in ok
    ensures (forall p :: Reachable(deps, ok, pa, p) && t in p.status && p.status[t].Running? ==>
               d in p.status && p.status[d].Succeeded?) <==> ReachPlus(DepGraph(deps), t, d)
  {
    if ReachPlus(DepGraph(deps), t, d) {
      forall p | Reachable(deps, ok, pa, p) && t in p.status && p.status[t].Running?
        ensures d in p.status && p.status[d].Succeeded?
      {
        var pools, steps :| PoolRun(deps, ok, pa, pools, steps) && pools[|steps|] == p;
        PoolRunInv(deps, ok, pa, pools, steps, |steps|);
        DependenciesDone(deps, ok, p, t, d);
      }
    } else {
      SpawnedBelow(deps, ok, pa, t);
      var q := RunsFirst(deps, ok, pa, Spawned(deps), t);
      assert !q.status[d].Succeeded?;
    }
  }

  // ---- What a task sees of its dependencies ------------------------------------------------------

  // What the channel of task d shows in the first n states.
  function Shown(pools: seq<Pool>, d: string, n: nat): Looks
    requires n <= |pools| && forall p :: p in pools ==> d in p.status
  {
    seq(n, i requires 0 <= i < n => Channel(pools[i].status[d]))
  }

  // A task that has ended stays as it is.
  lemma {:induction false} EndsOnce(deps: DepLists, ok: set<string>, pa: bool, pools: seq<Pool>, steps: seq<PoolStep>,
                                    d: string, i: nat, j: nat)
    requires PoolRun(deps, ok, pa, pools, steps) && d in deps && i <= j < |pools|
    ensures d in pools[i].status && d in pools[j].status
    ensures pools[i].status[d].Final() ==> pools[j].status[d] == pools[i].status[d]
    decreases j
  {
    PoolRunInv(deps, ok, pa, pools, steps, i);
    PoolRunInv(deps, ok, pa, pools, steps, j);
    hide PoolNext, StartedAfterDeps, LinearExtension, Explained, JoinedRight;
    if i < j {
      EndsOnce(deps, ok, pa, pools, steps, d, i, j - 1);
      PoolRunInv(deps, ok, pa, pools, steps, j - 1);
      StepShape(deps, ok, pa, pools[j - 1], steps[j - 1], pools[j]);
    }
  }

  // Once d has ended, its channel tells of a failure just when d has not succeeded.
  lemma {:induction false} ShownEnd(deps: DepLists, ok: set<string>, pa: bool, pools: seq<Pool>, steps: seq<PoolStep>,
                                    d: string, i: nat, n: nat)
    requires PoolRun(deps, ok, pa, pools, steps) && d in deps && i < n <= |pools|
    requires d in pools[i].status && pools[i].status[d].Final()
    ensures forall p :: p in pools ==> d in p.status
    ensures EndsFailed(Shown(pools, d, n)) <==> !pools[i].status[d].Succeeded?
  {
    forall p | p in pools
      ensures d in p.status
    {
      var k :| 0 <= k < |pools| && pools[k] == p;
      EndsOnce(deps, ok, pa, pools, steps, d, k, k);
    }
    if i > 0 && pools[i - 1].status[d].Final() {
      EndsOnce(deps, ok, pa, pools, steps, d, i - 1, i);
      ShownEnd(deps, ok, pa, pools, steps, d, i - 1, n);
    } else {
      forall k | 0 <= k < i
        ensures Shown(pools, d, n)[k] == Pending
      {
        EndsOnce(deps, ok, pa, pools, steps, d, k, i - 1);
      }
      assert FirstSettled(Shown(pools, d, n), i);
      SettledOnce(Shown(pools, d, n), i);
    }
  }

  ghost predicate SawFailure(deps: DepLists, pools: seq<Pool>, t: string, n: nat)
    requires t in deps && n <= |pools|
  {
    exists d :: d in deps[t] && (forall p :: p in pools ==> d in p.status) && EndsFailed(Shown(pools, d, n))
  }

  // The machine agrees with the wait: a task that leaves its wait is skipped exactly when the
  // channel of some dependency - as shown so far, or up to any later state - tells of a failure.
  lemma {:induction false} AwaitDecides(deps: DepLists, ok: set<string>, pa: bool, pools: seq<Pool>,
                                        steps: seq<PoolStep>, i: nat, n: nat)
    requires PoolRun(deps, ok, pa, pools, steps) && i < |steps| && i < n <= |pools|
    requires steps[i].Skip? || steps[i].Launch?
    ensures steps[i].t in deps && (steps[i].Skip? <==> SawFailure(deps, pools, steps[i].t, n))
  {
    var t, p := steps[i].t, pools[i];
    assert PoolNext(deps, ok, pa, p, steps[i], pools[i + 1]);
    PoolRunInv(deps, ok, pa, pools, steps, i);
    if steps[i].Skip? {
      var d :| LooksAt(deps, p, t, d) && d in p.status && Channel(p.status[d]) == Failed;
      ShownEnd(deps, ok, pa, pools, steps, d, i, n);
      assert d in deps[t];
    } else {
      forall d | d in deps[t]
        ensures d in deps && d in p.status && p.status[d].Succeeded?
      {
        var k :| 0 <= k < |deps[t]| && deps[t][k] == d;
        assert DepsDone(deps, p.status, t, |deps[t]|);
      }
      forall d | d in deps[t] && (forall p :: p in pools ==> d in p.status)
        ensures !EndsFailed(Shown(pools, d, n))
      {
        ShownEnd(deps, ok, pa, pools, steps, d, i, n);
      }
    }
  }

  // A joined task that makes the main loop abort the others: one that returned an error or,
  // where panics abort too, one that is gone.
  ghost predicate CallsOff(p: Pool, pa: bool, t: string) {
    t in p.joined && t in p.status && (p.status[t].Errored? || (pa && p.status[t].Gone?))
  }

  // The others are aborted exactly from the first such join on: then each of them that has not
  // ended can be dropped at any moment, and before that none is.
  lemma {:induction false} AbortsExactly(deps: DepLists, ok: set<string>, pa: bool, pools: seq<Pool>,
                                         steps: seq<PoolStep>, i: nat, t: string)
    requires PoolRun(deps, ok, pa, pools, steps) && i < |pools| && t in deps
    ensures t in pools[i].status
    ensures (exists c :: CallsOff(pools[i], pa, c)) && !pools[i].status[t].Final() <==>
      PoolNext(deps, ok, pa, pools[i], Abort(t), Set(pools[i], t, Gone))
  {
    PoolRunInv(deps, ok, pa, pools, steps, i);
    CalledOff(deps, ok, pa, pools, steps, i);
  }

  lemma {:induction false} CalledOff(deps: DepLists, ok: set<string>, pa: bool, pools: seq<Pool>, steps: seq<PoolStep>,
                                     i: nat)
    requires PoolRun(deps, ok, pa, pools, steps) && i < |pools|
    ensures pools[i].aborting <==> exists c :: CallsOff(pools[i], pa, c)
    decreases i
  {
    if i > 0 {
      CalledOff(deps, ok, pa, pools, steps, i - 1);
      PoolRunInv(deps, ok, pa, pools, steps, i - 1);
      hide StartedAfterDeps, LinearExtension, Explained;
      OneMoreJoin(deps, ok, pa, pools[i - 1], steps[i - 1], pools[i]);
    }
  }

  lemma {:induction false} OneMoreJoin(deps: DepLists, ok: set<string>, pa: bool, p: Pool, step: PoolStep, p': Pool)
    requires PoolNext(deps, ok, pa, p, step, p') && JoinedRight(p)
    requires p.aborting <==> exists c :: CallsOff(p, pa, c)
    ensures p'.aborting <==> exists c :: CallsOff(p', pa, c)
  {
    StepShape(deps, ok, pa, p, step, p');
    if c :| CallsOff(p, pa, c) {
      assert CallsOff(p', pa, c);
    }
    if c :| CallsOff(p', pa, c) {
      if !CallsOff(p, pa, c) {
        assert step == Join(c);
      }
    }
    if step.Join? && CallsOff(p', pa, step.t) {
      assert p'.aborting;
    }
  }

  // ---- The workspace ------------------------------------------------------------------------

  // The wait lists built for tasks that name all dependencies of their packages.
  ghost predicate BuiltFrom(tasks: seq<PackageTask>, deps: DepLists, g: Graph) {
    && deps.Keys == Names(tasks)
    && (forall t :: t in tasks ==> deps[t.packageName] == Known(Names(tasks), t.depPackageNames))
    && (forall t, d :: t in tasks ==> (d in t.depPackageNames <==> d in Succ(g, t.packageName)))
  }

  // A package without a task that a task depends on leads only to tasks waited for anyway.
  ghost predicate Bridged(deps: DepLists, g: Graph) {
    forall t, x, d :: t in deps && x in Succ(g, t) && x !in deps && d in deps && Reach(g, x, d) ==>
      ReachPlus(DepGraph(deps), t, d)
  }

  ghost predicate Covers(deps: DepLists, g: Graph) {
    forall t, d :: t in deps && d in deps && ReachPlus(g, t, d) ==> ReachPlus(DepGraph(deps), t, d)
  }

  lemma BuiltEdges(tasks: seq<PackageTask>, deps: DepLists, g: Graph, t: string, x: string)
    requires BuiltFrom(tasks, deps, g) && t in deps && x in deps && x in Succ(g, t)
    ensures x in Succ(DepGraph(deps), t)
  {
    var k :| k in tasks && k.packageName == t;
    KnownElems(Names(tasks), k.depPackageNames);
  }

  // Waiting orders tasks by all dependencies of the workspace exactly then: a package that has
  // no task of the run must not be what links two tasks.
  lemma CoversExactly(tasks: seq<PackageTask>, deps: DepLists, g: Graph)
    requires BuiltFrom(tasks, deps, g)
    ensures Covers(deps, g) <==> Bridged(deps, g)
  {
    if Covers(deps, g) {
      forall t, x, d | t in deps && x in Succ(g, t) && x !in deps && d in deps && Reach(g, x, d)
        ensures ReachPlus(DepGraph(deps), t, d)
      {
        assert ReachPlus(g, t, d);
      }
    }
    if Bridged(deps, g) {
      forall t, d | t in deps && d in deps && ReachPlus(g, t, d)
        ensures ReachPlus(DepGraph(deps), t, d)
      {
        var x :| x in Succ(g, t) && Reach(g, x, d);
        var path :| Connects(g, path, x, d);
        WaitsAlong(tasks, deps, g, t, path);
      }
    }
  }

  lemma {:induction false} WaitsAlong(tasks: seq<PackageTask>, deps: DepLists, g: Graph, t: string, path: Path)
    requires BuiltFrom(tasks, deps, g) && Bridged(deps, g) && t in deps && Last(path) in deps
    requires ValidPath(g, path) && path.n in Succ(g, t)
    ensures ReachPlus(DepGraph(deps), t, Last(path))
    decreases path
  {
    var h, x := DepGraph(deps), path.n;
    if x in deps {
      BuiltEdges(tasks, deps, g, t, x);
      ReachRefl(h, x);
      if path.Via? {
        WaitsAlong(tasks, deps, g, x, path.rest);
        var y :| y in Succ(h, x) && Reach(h, y, Last(path));
        ReachCons(h, x, y, Last(path));
      }
    } else {
      assert Connects(g, path, x, Last(path));
    }
  }
}
