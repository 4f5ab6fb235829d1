/** Which task lists the hub can build, for any list with unique ids and any set of commands
    that succeed: a run can reach the end exactly when every task that depends on something
    missing or circular also depends on a task that is run and fails. */
module HubLimits {
  import opened Wrappers
  import opened Graphs
  import opened Hub
  import opened HubInvariant
  import opened HubProtocol

  // A run after which the hub is done.
  ghost predicate Finishes(ok: set<TaskId>, nodes: seq<TaskNode>, states: seq<HubState>, steps: seq<Step>) {
    Run(ok, nodes, states, steps) && IsDone(states[|steps|].dag)
  }

  // Dependencies were handed out before their dependents.
  ghost predicate InOrder(g: Graph, handed: seq<TaskId>) {
    forall i, x :: 0 <= i < |handed| && x in Succ(g, handed[i]) ==> x in handed[..i]
  }

  lemma OrderGrows(g: Graph, handed: seq<TaskId>, id: TaskId)
    requires InOrder(g, handed) && forall x :: x in Succ(g, id) ==> x in handed
    ensures InOrder(g, handed + [id])
  {
    var handed' := handed + [id];
    forall i, x | 0 <= i < |handed'| && x in Succ(g, handed'[i])
      ensures x in handed'[..i]
    {
      if i < |handed| {
        assert handed'[i] == handed[i] && handed'[..i] == handed[..i];
      } else {
        assert handed'[..i] == handed;
      }
    }
  }

  lemma StepInOrder(ok: set<TaskId>, h: HubState, step: Step, h': HubState)
    requires HubInv(ok, h) && HubInv(ok, h') && Next(ok, h, step, h') && h'.dag.tasks == h.dag.tasks
    requires InOrder(Deps(h.dag.tasks), h.handed)
    ensures InOrder(Deps(h.dag.tasks), h'.handed)
  {
    hide HubInv, InOrder, DispatchSpec, CompleteSpec, FailSpec;
    if step.Poll? && step.r.Some? {
      var id := step.r.value.taskId;
      assert h'.handed == h.handed + [id] && id in h'.handed;
      forall x | x in Succ(Deps(h.dag.tasks), id)
        ensures x in h.handed
      {
        HandedOut(ok, h, step, h', id, x);
      }
      OrderGrows(Deps(h.dag.tasks), h.handed, id);
    } else {
      assert h'.handed == h.handed;
    }
  }

  lemma HandedOut(ok: set<TaskId>, h: HubState, step: Step, h': HubState, id: TaskId, x: TaskId)
    requires HubInv(ok, h) && HubInv(ok, h') && Next(ok, h, step, h') && h'.dag.tasks == h.dag.tasks && step.Poll?
    requires id in h'.handed && x in Succ(Deps(h.dag.tasks), id)
    ensures x in h.handed
  {
    assert CompletedIn(h'.dag.states, x);
    assert CompletedIn(h.dag.states, x);
  }

  lemma {:induction false} RunInOrder(ok: set<TaskId>, nodes: seq<TaskNode>, states: seq<HubState>, steps: seq<Step>,
                                      i: nat)
    requires UniqueIds(nodes) && Run(ok, nodes, states, steps) && i < |states|
    ensures InOrder(Deps(TasksOf(nodes)), states[i].handed)
    decreases i
  {
    hide HubInv, Next, UniqueIds, InOrder;
    if i == 0 {
      NothingHanded(Deps(TasksOf(nodes)));
    } else {
      RunInOrder(ok, nodes, states, steps, i - 1);
      RunInv(ok, nodes, states, steps, i - 1);
      RunInv(ok, nodes, states, steps, i);
      StepInOrder(ok, states[i - 1], steps[i - 1], states[i]);
    }
  }

  lemma NothingHanded(g: Graph)
    ensures InOrder(g, [])
  {
  }

  // In a list handed out in order, a chain of dependencies leads to ever earlier tasks.
  lemma {:induction false} ChainsGoBack(g: Graph, handed: seq<TaskId>, p: Path, i: nat)
    requires InOrder(g, handed) && ValidPath(g, p) && i < |handed| && p.n == handed[i]
    ensures if p.Via? then Last(p) in handed[..i] else Last(p) == handed[i]
    decreases p
  {
    match p
    case At(_) =>
    case Via(_, rest) =>
      assert rest.n in handed[..i];
      var j :| 0 <= j < i && handed[j] == rest.n;
      ChainsGoBack(g, handed, rest, j);
      assert handed[..j] <= handed[..i];
  }

  lemma HandedIsAcyclic(g: Graph, handed: seq<TaskId>, t: TaskId)
    requires InOrder(g, handed) && NoDup(handed) && t in handed
    ensures !ReachPlus(g, t, t)
  {
    var i :| 0 <= i < |handed| && handed[i] == t;
    forall e, p | e in Succ(g, t)
      ensures !Connects(g, p, e, t)
    {
      if Connects(g, p, e, t) {
        ChainsGoBack(g, handed, Via(t, p), i);
        assert false;
      }
    }
  }

  // A completed task could complete.
  lemma CompletedCould(ok: set<TaskId>, h: HubState, t: TaskId)
    requires HubInv(ok, h) && InOrder(Deps(h.dag.tasks), h.handed) && CompletedIn(h.dag.states, t)
    ensures CanComplete(Deps(h.dag.tasks), ok, t)
  {
    var g := Deps(h.dag.tasks);
    forall x | Reach(g, t, x)
      ensures x in g && x in ok && !ReachPlus(g, x, x)
    {
      var p :| Connects(g, p, t, x);
      CompletedDown(ok, h, p);
      HandedIsAcyclic(g, h.handed, x);
    }
  }

  lemma {:induction false} CompletedDown(ok: set<TaskId>, h: HubState, p: Path)
    requires HubInv(ok, h) && ValidPath(Deps(h.dag.tasks), p) && CompletedIn(h.dag.states, p.n)
    ensures CompletedIn(h.dag.states, Last(p)) && Last(p) in ok && Last(p) in h.handed
    decreases p
  {
    match p
    case At(_) =>
    case Via(_, rest) => CompletedDown(ok, h, rest);
  }

  lemma FailedWould(ok: set<TaskId>, h: HubState, t: TaskId)
    requires HubInv(ok, h) && InOrder(Deps(h.dag.tasks), h.handed) && FailedIn(h.dag.states, t)
    ensures Doomed(Deps(h.dag.tasks), ok, t)
  {
    var g := Deps(h.dag.tasks);
    var x :| Culprit(ok, g, h.handed, t, x);
    forall y | y in g[x]
      ensures CanComplete(g, ok, y)
    {
      CompletedCould(ok, h, y);
    }
    assert WillFail(g, ok, x);
  }

  lemma FinishedIsFinishable(ok: set<TaskId>, nodes: seq<TaskNode>, states: seq<HubState>, steps: seq<Step>)
    requires UniqueIds(nodes) && Finishes(ok, nodes, states, steps)
    ensures Finishable(Deps(TasksOf(nodes)), ok)
  {
    var g, h := Deps(TasksOf(nodes)), states[|steps|];
    RunInv(ok, nodes, states, steps, |steps|);
    RunInOrder(ok, nodes, states, steps, |steps|);
    forall t | t in g
      ensures CanComplete(g, ok, t) || Doomed(g, ok, t)
    {
      assert h.dag.states[t].Settled();
      if CompletedIn(h.dag.states, t) {
        CompletedCould(ok, h, t);
      } else {
        FailedWould(ok, h, t);
      }
    }
  }

  // Some run gets done, and with a spoke connected every run can be carried on until it is,
  // exactly for these lists.
  lemma FinishesExactly(ok: set<TaskId>, nodes: seq<TaskNode>)
    requires UniqueIds(nodes)
    ensures (exists states, steps :: Finishes(ok, nodes, states, steps)) <==> Finishable(Deps(TasksOf(nodes)), ok)
  {
    if states, steps :| Finishes(ok, nodes, states, steps) {
      FinishedIsFinishable(ok, nodes, states, steps);
    }
    if Finishable(Deps(TasksOf(nodes)), ok) {
      var h := Start(nodes);
      var h' := h.(spokes := map[0 := Spoke("", [], None)]);
      var step := Connect(0, "");
      assert Run(ok, nodes, [h], []);
      assert Next(ok, h, step, h');
      ExtendRun(ok, nodes, [h], [], step, h');
      assert [h] + [h'] == [h, h'] && [] + [step] == [step];
      var states, steps := CanFinish(ok, nodes, [h, h'], [step], 0);
      assert Finishes(ok, nodes, states, steps);
    }
  }

  // ---- Lists without such dependencies -----------------------------------------------------

  // Every dependency is in the list and none is circular.
  ghost predicate WellFormed(nodes: seq<TaskNode>) {
    Closed(Deps(TasksOf(nodes))) && Acyclic(Deps(TasksOf(nodes)))
  }

  // In such a list every task can complete, or depends on one that is run and fails.
  lemma {:induction false} SettlesEither(g: Graph, ok: set<TaskId>, t: TaskId)
    requires Closed(g) && Acyclic(g) && t in g
    ensures CanComplete(g, ok, t) || Doomed(g, ok, t)
    decreases |Below(g, t)|
  {
    ReachRefl(g, t);
    if d :| d in g[t] && !CanComplete(g, ok, d) {
      BelowShrinks(g, t, d);
      SettlesEither(g, ok, d);
      var x :| Reach(g, d, x) && WillFail(g, ok, x);
      ReachCons(g, t, d, x);
    } else if t !in ok {
      assert WillFail(g, ok, t);
    } else {
      forall x | Reach(g, t, x)
        ensures x in g && x in ok && !ReachPlus(g, x, x)
      {
        ReachCases(g, t, x);
      }
    }
  }

  // So such a list can be built whichever commands fail; and if none does, only such a list.
  lemma WellFormedFinishes(ok: set<TaskId>, nodes: seq<TaskNode>)
    requires UniqueIds(nodes)
    ensures WellFormed(nodes) ==> Finishable(Deps(TasksOf(nodes)), ok)
    ensures TasksOf(nodes).Keys <= ok ==> (Finishable(Deps(TasksOf(nodes)), ok) <==> WellFormed(nodes))
  {
    var g := Deps(TasksOf(nodes));
    if WellFormed(nodes) {
      forall t | t in g
        ensures CanComplete(g, ok, t) || Doomed(g, ok, t)
      {
        SettlesEither(g, ok, t);
      }
    }
    if TasksOf(nodes).Keys <= ok && Finishable(g, ok) {
      forall t | t in g
        ensures g[t] <= g.Keys && !ReachPlus(g, t, t)
      {
        assert CanComplete(g, ok, t);
        ReachRefl(g, t);
        forall d | d in g[t]
          ensures d in g
        {
          CanCompleteBelow(g, ok, t, d);
        }
      }
    }
  }
}
