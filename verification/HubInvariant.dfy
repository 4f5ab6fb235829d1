/** The invariant of the hub's DAG, kept by every dispatch and every report of a
    dispatched task, and the exact reach of a failure. Ids are unique; dependencies may be
    missing from the list or circular. */
module HubInvariant {
  import opened Wrappers
  import opened Graphs
  import opened Hub

  ghost function Deps(tasks: map<TaskId, TaskNode>): Graph {
    map t | t in tasks :: set x | x in tasks[t].dependsOn
  }

  // The part of a DAG no operation changes.
  ghost predicate Static(d: Dag) {
    && d.states.Keys == d.tasks.Keys
    && (forall t :: t in d.tasks ==> d.tasks[t].taskId == t)
    && Reverses(d.rdeps, Deps(d.tasks))
  }

  ghost predicate QueueIsReady(q: seq<TaskId>, s: States) {
    NoDup(q) && forall t :: t in q <==> t in s && s[t].Ready?
  }

  predicate CompletedIn(s: States, t: TaskId) {
    t in s && s[t].Completed?
  }

  // A task that is ready, handed out or completed has only completed dependencies.
  ghost predicate StartedAfterDeps(g: Graph, s: States) {
    forall t, x :: t in s && x in Succ(g, t) && !s[t].Pending? && !s[t].Failed? ==> CompletedIn(s, x)
  }

  ghost predicate WaitsFor(g: Graph, s: States, t: TaskId, x: TaskId) {
    x in Succ(g, t) && !CompletedIn(s, x)
  }

  ghost predicate PendingIsBlocked(g: Graph, s: States) {
    forall t :: t in s && s[t].Pending? ==> exists x :: WaitsFor(g, s, t, x)
  }

  ghost predicate FailureSpread(g: Graph, s: States) {
    forall t, x :: t in s && x in Succ(g, t) && FailedIn(s, x) ==> s[t].Failed?
  }

  ghost predicate StatesInv(g: Graph, s: States) {
    StartedAfterDeps(g, s) && PendingIsBlocked(g, s) && FailureSpread(g, s)
  }

  ghost predicate Inv(d: Dag) {
    Static(d) && QueueIsReady(d.queue, d.states) && StatesInv(Deps(d.tasks), d.states)
  }

  lemma StaticKept(d: Dag, d': Dag)
    requires Static(d) && d'.tasks == d.tasks && d'.rdeps == d.rdeps && d'.states.Keys == d.states.Keys
    ensures Static(d')
  {
  }

  // ---- The initial state -----------------------------------------------------

  lemma {:induction false} AddRdepsExact(r: Graph, id: TaskId, deps: seq<TaskId>)
    ensures AddRdeps(r, id, deps).Keys == r.Keys + Elems(deps)
    ensures forall x :: Succ(AddRdeps(r, id, deps), x) == Succ(r, x) + if x in deps then {id} else {}
  {
    if deps != [] {
      var front, x := deps[..|deps| - 1], deps[|deps| - 1];
      AddRdepsExact(r, id, front);
      assert deps == front + [x];
    }
  }

  ghost predicate UniqueIds(nodes: seq<TaskNode>) {
    forall i, j :: 0 <= i < j < |nodes| ==> nodes[i].taskId != nodes[j].taskId
  }

  lemma SplitLast(nodes: seq<TaskNode>) returns (front: seq<TaskNode>, n: TaskNode)
    requires nodes != []
    ensures front == nodes[..|nodes| - 1] && n == nodes[|nodes| - 1]
    ensures forall m :: m in nodes <==> m in front || m == n
    ensures UniqueIds(nodes) ==> UniqueIds(front) && forall m :: m in front ==> m.taskId != n.taskId
  {
    front, n := nodes[..|nodes| - 1], nodes[|nodes| - 1];
    assert nodes == front + [n];
  }

  lemma {:induction false} TasksExact(nodes: seq<TaskNode>)
    requires UniqueIds(nodes)
    ensures forall t :: t in TasksOf(nodes) ==> TasksOf(nodes)[t] in nodes && TasksOf(nodes)[t].taskId == t
    ensures forall n :: n in nodes ==> n.taskId in TasksOf(nodes) && TasksOf(nodes)[n.taskId] == n
  {
    if nodes != [] {
      var front, n := SplitLast(nodes);
      TasksExact(front);
    }
  }

  lemma {:induction false} StatesExact(nodes: seq<TaskNode>)
    ensures StatesOf(nodes).Keys == TasksOf(nodes).Keys
    ensures forall t :: t in StatesOf(nodes) ==>
      StatesOf(nodes)[t] == if TasksOf(nodes)[t].dependsOn == [] then Ready else Pending
  {
    if nodes != [] {
      StatesExact(nodes[..|nodes| - 1]);
    }
  }

  ghost predicate Lists(nodes: seq<TaskNode>, t: TaskId, x: TaskId) {
    exists n :: n in nodes && n.taskId == t && x in n.dependsOn
  }

  lemma {:induction false} RdepsSucc(nodes: seq<TaskNode>, x: TaskId, t: TaskId)
    ensures t in Succ(RdepsOf(nodes), x) <==> Lists(nodes, t, x)
  {
    if nodes != [] {
      var front, n := SplitLast(nodes);
      RdepsSucc(front, x, t);
      var r := RdepsOf(front);
      AddRdepsExact(r[n.taskId := Succ(r, n.taskId)], n.taskId, n.dependsOn);
    }
  }

  ghost predicate IsRoot(nodes: seq<TaskNode>, t: TaskId) {
    exists n :: n in nodes && n.taskId == t && n.dependsOn == []
  }

  lemma {:induction false} RootsExact(nodes: seq<TaskNode>)
    requires UniqueIds(nodes)
    ensures NoDup(RootsOf(nodes))
    ensures forall t :: t in RootsOf(nodes) <==> IsRoot(nodes, t)
  {
    if nodes != [] {
      var front, n := SplitLast(nodes);
      RootsExact(front);
      assert forall t :: IsRoot(nodes, t) <==> IsRoot(front, t) || (n.taskId == t && n.dependsOn == []);
      NoDupConcat(RootsOf(front), if n.dependsOn == [] then [n.taskId] else []);
    }
  }

  // The reverse index is that of the dependencies, those outside the list included.
  lemma InitialStatic(nodes: seq<TaskNode>)
    requires UniqueIds(nodes)
    ensures Static(Initial(nodes))
  {
    var d := Initial(nodes);
    var g := Deps(d.tasks);
    TasksExact(nodes);
    StatesExact(nodes);
    forall x, t
      ensures t in Succ(d.rdeps, x) <==> x in Succ(g, t)
    {
      RdepsSucc(nodes, x, t);
      if t in g {
        assert d.tasks[t] in nodes;
      }
    }
  }

  lemma InitialInv(nodes: seq<TaskNode>)
    requires UniqueIds(nodes)
    ensures Inv(Initial(nodes))
  {
    var d := Initial(nodes);
    InitialStatic(nodes);
    TasksExact(nodes);
    StatesExact(nodes);
    RootsExact(nodes);
    var g := Deps(d.tasks);
    forall t | t in d.states
      ensures d.states[t].Ready? <==> IsRoot(nodes, t)
      ensures d.states[t].Ready? ==> Succ(g, t) == {}
      ensures d.states[t].Pending? ==> exists x :: WaitsFor(g, d.states, t, x)
    {
      var n := d.tasks[t];
      assert n in nodes;
      if d.states[t].Pending? {
        var x := n.dependsOn[0];
        assert x in g[t];
        assert WaitsFor(g, d.states, t, x);
      }
    }
  }

  // ---- Dispatch ----------------------------------------------------------------

  lemma DispatchInv(d: Dag, worker: string, r: Option<TaskNode>, d': Dag)
    requires Inv(d) && DispatchSpec(d, worker, r, d')
    ensures Inv(d')
    ensures d.queue == [] ==> r == None && d' == d
    ensures d.queue != [] ==>
      var id := d.queue[0];
      && d.states[id].Ready? && r.Some? && r.value.taskId == id && r.value == d.tasks[id]
      && d.queue == [id] + d'.queue && d'.states == d.states[id := Dispatched(worker)]
  {
    if d.queue != [] {
      var id := d.queue[0];
      assert id in d.queue;
      StaticKept(d, d');
      assert d.queue == [id] + d.queue[1..];
      assert forall x :: x in d.queue[1..] <==> x in d.queue && x != id;
      StartStates(Deps(d.tasks), d.states, id, worker);
    }
  }

  lemma StartStates(g: Graph, s: States, id: TaskId, worker: string)
    requires StatesInv(g, s) && id in s && s[id].Ready?
    ensures StatesInv(g, s[id := Dispatched(worker)])
  {
    var s' := s[id := Dispatched(worker)];
    assert forall x :: CompletedIn(s', x) <==> CompletedIn(s, x);
    assert forall x :: FailedIn(s', x) <==> FailedIn(s, x);
    assert forall x :: x in Succ(g, id) ==> CompletedIn(s, x);
    forall t | t in s' && s'[t].Pending?
      ensures exists x :: WaitsFor(g, s', t, x)
    {
      var x :| WaitsFor(g, s, t, x);
      assert WaitsFor(g, s', t, x);
    }
  }

  // ---- Completion --------------------------------------------------------------

  // A pending task whose last missing dependency is id.
  ghost predicate AwaitsOnly(g: Graph, s: States, id: TaskId, t: TaskId) {
    && t in s && s[t].Pending? && id in Succ(g, t)
    && forall x :: x in Succ(g, t) ==> x == id || CompletedIn(s, x)
  }

  lemma CompleteInv(d: Dag, id: TaskId, newly: seq<TaskId>, d': Dag)
    requires Inv(d) && id in d.states && d.states[id].Dispatched?
    requires CompleteSpec(d, id, newly, d')
    ensures Inv(d')
    ensures forall t :: t in newly <==> AwaitsOnly(Deps(d.tasks), d.states, id, t)
    ensures d'.queue == d.queue + newly && d'.states.Keys == d.states.Keys && d'.states[id].Completed?
    ensures forall t :: t in d.states && t != id ==> d'.states[t] == if t in newly then Ready else d.states[t]
  {
    var g := Deps(d.tasks);
    var s := d.states[id := Completed];
    forall t | t in d.states
      ensures t in newly <==> AwaitsOnly(g, d.states, id, t)
    {
      assert forall x :: x in Succ(g, t) <==> x in d.tasks[t].dependsOn;
      assert t in Succ(d.rdeps, id) <==> id in Succ(g, t);
      assert Unblocked(d, s, id, t) <==> AwaitsOnly(g, d.states, id, t);
    }
    StaticKept(d, d');
    assert forall i :: 0 <= i < |newly| ==> newly[i] in newly;
    NoDupConcat(d.queue, newly);
    FinishStates(g, d.states, id, d'.states);
  }

  lemma FinishStates(g: Graph, s: States, id: TaskId, s': States)
    requires StatesInv(g, s) && id in s && s[id].Dispatched?
    requires s'.Keys == s.Keys && s'[id].Completed?
    requires forall t :: t in s && t != id ==> s'[t] == if AwaitsOnly(g, s, id, t) then Ready else s[t]
    ensures StatesInv(g, s')
  {
    assert forall x :: CompletedIn(s', x) <==> CompletedIn(s, x) || x == id;
    assert forall x :: FailedIn(s', x) <==> FailedIn(s, x);
    assert forall x :: x in Succ(g, id) ==> CompletedIn(s, x);
    assert forall t, x :: AwaitsOnly(g, s, id, t) && x in Succ(g, t) ==> !FailedIn(s, x);
    forall t | t in s' && s'[t].Pending?
      ensures exists x :: WaitsFor(g, s', t, x)
    {
      var x :| WaitsFor(g, s, t, x);
      if x == id {
        var y :| y in Succ(g, t) && !(y == id || CompletedIn(s, y));
        assert WaitsFor(g, s', t, y);
      } else {
        assert WaitsFor(g, s', t, x);
      }
    }
  }

  // ---- Failure -----------------------------------------------------------------

  lemma {:induction false} DropNothing(q: seq<TaskId>, s: States)
    requires forall t :: t in q ==> !FailedIn(s, t)
    ensures DropFailed(q, s) == q
  {
    if q != [] {
      DropNothing(q[1..], s);
    }
  }

  // A dependent of a task that did not complete is pending or failed.
  lemma DependentOfUnfinished(d: Dag, c: TaskId, t: TaskId)
    requires Inv(d) && c in d.states && !d.states[c].Completed? && t in Succ(d.rdeps, c)
    ensures t in d.states && c in Succ(Deps(d.tasks), t)
    ensures d.states[t].Pending? || d.states[t].Failed?
    ensures d.states[c].Failed? ==> d.states[t].Failed?
  {
    assert c in Succ(Deps(d.tasks), t);
    assert !CompletedIn(d.states, c);
    assert d.states[c].Failed? ==> FailedIn(d.states, c);
  }

  // Everything a cascade visits was waiting, because it has a dependency that did not complete.
  lemma {:induction false} CascadePathPending(d: Dag, s: States, p: Path)
    requires Inv(d) && ValidPath(CascadeGraph(d.rdeps, s), p) && p.n in d.states && !d.states[p.n].Completed?
    requires forall t :: t in d.states && d.states[t].Failed? ==> SettledIn(s, t)
    ensures Last(p) in d.states && (p.Via? ==> d.states[Last(p)].Pending?)
    ensures !d.states[Last(p)].Completed?
    decreases p
  {
    match p
    case At(_) =>
    case Via(c, rest) =>
      DependentOfUnfinished(d, c, rest.n);
      CascadePathPending(d, s, rest);
  }

  // Failure is closed under dependents.
  lemma {:induction false} FailureClosed(d: Dag, p: Path)
    requires Inv(d) && ValidPath(d.rdeps, p) && FailedIn(d.states, p.n)
    ensures FailedIn(d.states, Last(p))
    decreases p
  {
    match p
    case At(_) =>
    case Via(c, rest) =>
      DependentOfUnfinished(d, c, rest.n);
      FailureClosed(d, rest);
  }

  // A chain of dependents ending in a task that has not failed is one the cascade follows.
  lemma {:induction false} CascadeFollows(d: Dag, s: States, p: Path)
    requires Inv(d) && ValidPath(d.rdeps, p) && p.n in d.states && !d.states[p.n].Completed?
    requires !FailedIn(d.states, Last(p))
    requires forall t :: t in d.states && d.states[t].Pending? ==> !SettledIn(s, t)
    ensures ValidPath(CascadeGraph(d.rdeps, s), p)
    decreases p
  {
    match p
    case At(_) =>
    case Via(c, rest) =>
      DependentOfUnfinished(d, c, rest.n);
      if FailedIn(d.states, rest.n) {
        FailureClosed(d, rest);
      }
      CascadeFollows(d, s, rest);
  }

  lemma {:induction false} SubPath(rdeps: Graph, s: States, p: Path)
    requires ValidPath(CascadeGraph(rdeps, s), p)
    ensures ValidPath(rdeps, p)
    decreases p
  {
    match p
    case At(_) =>
    case Via(_, rest) => SubPath(rdeps, s, rest);
  }

  lemma CascadeSound(d: Dag, s: States, id: TaskId, t: TaskId)
    requires Inv(d) && id in d.states && d.states[id].Dispatched?
    requires s.Keys == d.states.Keys && forall x :: x in s && x != id ==> s[x] == d.states[x]
    requires Cascades(d.rdeps, s, id, t)
    ensures t in d.states && d.states[t].Pending? && ReachPlus(d.rdeps, id, t)
  {
    var h := CascadeGraph(d.rdeps, s);
    var e :| e in Succ(h, id) && Reach(h, e, t);
    var p :| Connects(h, p, e, t);
    CascadePathPending(d, s, Via(id, p));
    SubPath(d.rdeps, s, p);
    assert e in Succ(d.rdeps, id) && Connects(d.rdeps, p, e, t);
  }

  lemma CascadeTotal(d: Dag, s: States, id: TaskId, t: TaskId)
    requires Inv(d) && id in d.states && d.states[id].Dispatched?
    requires s.Keys == d.states.Keys && forall x :: x in s && x != id ==> s[x] == d.states[x]
    requires ReachPlus(d.rdeps, id, t) && !FailedIn(d.states, t)
    ensures Cascades(d.rdeps, s, id, t)
  {
    var h := CascadeGraph(d.rdeps, s);
    var e :| e in Succ(d.rdeps, id) && Reach(d.rdeps, e, t);
    var p :| Connects(d.rdeps, p, e, t);
    CascadeFollows(d, s, Via(id, p));
    assert Connects(h, p, e, t);
  }

  // The reach of a failure: a dispatched task that fails takes with it exactly its
  // transitive dependents that had not failed before; every one of them was pending,
  // and the ready queue and every other task's state are left as they were.
  lemma CascadeReach(d: Dag, id: TaskId, err: string, newly: seq<TaskId>, d': Dag)
    requires Inv(d) && id in d.states && d.states[id].Dispatched?
    requires FailSpec(d, id, err, newly, d')
    ensures forall t :: t in newly <==> ReachPlus(d.rdeps, id, t) && !FailedIn(d.states, t)
    ensures forall t :: t in newly ==> t in d.states && d.states[t].Pending? && d'.states[t].Failed?
    ensures d'.queue == d.queue
    ensures d'.states.Keys == d.states.Keys && d'.states[id] == Failed(err)
    ensures forall t :: t in d.states && t != id && t !in newly ==> d'.states[t] == d.states[t]
  {
    var s := d.states[id := Failed(err)];
    CascadeExact(d, s, id);
    FailOutcome(d, id, err, newly, d');
    QueueUntouched(d, id, newly, d'.states);
  }

  // Each of them is told of one dependency that failed with it or caused it all.
  lemma {:induction false} BlameExact(d: Dag, id: TaskId, err: string, newly: seq<TaskId>, d': Dag, t: TaskId)
    requires Static(d) && FailSpec(d, id, err, newly, d') && t in newly && t in d.states
    ensures exists c ::
      (c == id || c in newly) && c in d.tasks[t].dependsOn && d'.states[t] == Failed("dependency " + c + " failed")
  {
    hide Cascades;
    assert BlamedOnOne(d.rdeps, id, newly, t, d'.states[t]);
    var c :| (c == id || c in newly) && t in Succ(d.rdeps, c) && d'.states[t] == Blame(c);
    assert c in Succ(Deps(d.tasks), t);
  }

  lemma CascadeExact(d: Dag, s: States, id: TaskId)
    requires Inv(d) && id in d.states && d.states[id].Dispatched?
    requires s.Keys == d.states.Keys && forall x :: x in s && x != id ==> s[x] == d.states[x]
    ensures forall t :: Cascades(d.rdeps, s, id, t) <==> ReachPlus(d.rdeps, id, t) && !FailedIn(d.states, t)
    ensures forall t :: Cascades(d.rdeps, s, id, t) ==> t in d.states && d.states[t].Pending?
  {
    hide Inv, Cascades, ReachPlus;
    forall t
      ensures Cascades(d.rdeps, s, id, t) <==> ReachPlus(d.rdeps, id, t) && !FailedIn(d.states, t)
      ensures Cascades(d.rdeps, s, id, t) ==> t in d.states && d.states[t].Pending?
    {
      if Cascades(d.rdeps, s, id, t) {
        CascadeSound(d, s, id, t);
      } else if ReachPlus(d.rdeps, id, t) && !FailedIn(d.states, t) {
        CascadeTotal(d, s, id, t);
      }
    }
  }

  // What a failure writes, once it is known to reach only pending tasks.
  lemma FailOutcome(d: Dag, id: TaskId, err: string, newly: seq<TaskId>, d': Dag)
    requires FailSpec(d, id, err, newly, d') && id in d.states
    requires forall t :: t in newly ==> t in d.states && t != id
    ensures d'.states.Keys == d.states.Keys && d'.states[id] == Failed(err)
    ensures forall t :: t in newly ==> d'.states[t].Failed?
    ensures forall t :: t in d.states && t != id && t !in newly ==> d'.states[t] == d.states[t]
  {
    hide Cascades;
    forall t | t in newly
      ensures d'.states[t].Failed?
    {
      assert BlamedOnOne(d.rdeps, id, newly, t, d'.states[t]);
    }
  }

  lemma QueueUntouched(d: Dag, id: TaskId, newly: seq<TaskId>, s': States)
    requires QueueIsReady(d.queue, d.states) && id in d.states && d.states[id].Dispatched?
    requires s'.Keys == d.states.Keys
    requires forall t :: t in newly ==> t in d.states && d.states[t].Pending?
    requires forall t :: t in d.states && t != id && t !in newly ==> s'[t] == d.states[t]
    ensures DropFailed(d.queue, s') == d.queue
    ensures QueueIsReady(d.queue, s') || exists t :: t in newly + [id] && s'[t].Ready?
  {
    DropNothing(d.queue, s');
    if !QueueIsReady(d.queue, s') {
      var t :| t in s' && s'[t].Ready? && t !in d.queue;
      assert t in newly + [id];
    }
  }

  lemma FailInv(d: Dag, id: TaskId, err: string, newly: seq<TaskId>, d': Dag)
    requires Inv(d) && id in d.states && d.states[id].Dispatched?
    requires FailSpec(d, id, err, newly, d')
    ensures Inv(d')
  {
    var g := Deps(d.tasks);
    CascadeReach(d, id, err, newly, d');
    FailFrame(d, id, err, newly, d');
    hide Static, StatesInv, FailSpec, QueueIsReady, ReachPlus, Succ, Deps, FailedIn;
    forall t, x | t in d.states && x in Succ(g, t) && (x == id || x in newly)
      ensures t in newly || FailedIn(d.states, t)
    {
      DependentsCovered(d, id, newly, t, x);
    }
    FailStates(g, d.states, id, Elems(newly), d'.states);
  }

  lemma FailFrame(d: Dag, id: TaskId, err: string, newly: seq<TaskId>, d': Dag)
    requires Inv(d) && id in d.states && d.states[id].Dispatched?
    requires FailSpec(d, id, err, newly, d')
    ensures Static(d') && d'.tasks == d.tasks && QueueIsReady(d'.queue, d'.states)
  {
    CascadeReach(d, id, err, newly, d');
    StaticKept(d, d');
    QueueUntouched(d, id, newly, d'.states);
  }

  lemma DependentsCovered(d: Dag, id: TaskId, newly: seq<TaskId>, t: TaskId, x: TaskId)
    requires Static(d) && t in d.states && x in Succ(Deps(d.tasks), t) && (x == id || x in newly)
    requires forall t :: t in newly <==> ReachPlus(d.rdeps, id, t) && !FailedIn(d.states, t)
    ensures t in newly || FailedIn(d.states, t)
  {
    assert t in Succ(d.rdeps, x);
    ReachRefl(d.rdeps, t);
    if x in newly {
      var e :| e in Succ(d.rdeps, id) && Reach(d.rdeps, e, x);
      ReachSnoc(d.rdeps, e, x, t);
    }
    assert ReachPlus(d.rdeps, id, t);
  }

  lemma FailStates(g: Graph, s: States, id: TaskId, n: set<TaskId>, s': States)
    requires StatesInv(g, s) && id in s && s[id].Dispatched? && n <= s.Keys
    requires s'.Keys == s.Keys && s'[id].Failed?
    requires forall t :: t in n ==> s[t].Pending? && s'[t].Failed?
    requires forall t :: t in s && t != id && t !in n ==> s'[t] == s[t]
    requires forall t, x :: t in s && x in Succ(g, t) && (x == id || x in n) ==> t in n || FailedIn(s, t)
    ensures StatesInv(g, s')
  {
    assert forall x :: CompletedIn(s', x) <==> CompletedIn(s, x);
    assert forall x :: FailedIn(s', x) <==> FailedIn(s, x) || x == id || x in n;
    forall t, x | t in s' && x in Succ(g, t) && FailedIn(s', x)
      ensures s'[t].Failed?
    {
      if FailedIn(s, x) {
        assert s[t].Failed?;
      }
    }
    forall t | t in s' && s'[t].Pending?
      ensures exists x :: WaitsFor(g, s', t, x)
    {
      var x :| WaitsFor(g, s, t, x);
      assert WaitsFor(g, s', t, x);
    }
  }
}
