/** The hub's in-memory task DAG: one class whose methods change task states, the
    reverse-dependency index and the ready queue in place. Each method is proved
    against a relation between the value of the DAG before and after the call.
    The reverse dependencies come out of a hash set in no fixed order, so the
    relations fix the contents of every result and leave that order open. */
module Hub {
  import opened Wrappers
  import opened Graphs

  type TaskId = string

  datatype TaskState =
    | Pending
    | Ready
    | Dispatched(worker: string)
    | Completed
    | Failed(error: string)
  {
    predicate Settled() { Completed? || Failed? }
  }

  datatype TaskNode = TaskNode(
    taskId: TaskId,
    packageName: string,
    scriptName: string,
    command: string,
    packagePath: string,
    dependsOn: seq<TaskId>)

  datatype DagStats = DagStats(pending: nat, ready: nat, dispatched: nat, completed: nat, failed: nat)

  type States = map<TaskId, TaskState>

  // The value of a HubDag object.
  datatype Dag = Dag(tasks: map<TaskId, TaskNode>, states: States, rdeps: Graph, queue: seq<TaskId>)

  // ---- Building a DAG from a task list -------------------------------------

  function AddRdeps(r: Graph, id: TaskId, deps: seq<TaskId>): Graph {
    if deps == [] then r else
      var r', x := AddRdeps(r, id, deps[..|deps| - 1]), deps[|deps| - 1];
      r'[x := Succ(r', x) + {id}]
  }

  function RdepsOf(nodes: seq<TaskNode>): Graph {
    if nodes == [] then map[] else
      var r, t := RdepsOf(nodes[..|nodes| - 1]), nodes[|nodes| - 1];
      AddRdeps(r[t.taskId := Succ(r, t.taskId)], t.taskId, t.dependsOn)
  }

  function TasksOf(nodes: seq<TaskNode>): map<TaskId, TaskNode> {
    if nodes == [] then map[] else
      var t := nodes[|nodes| - 1];
      TasksOf(nodes[..|nodes| - 1])[t.taskId := t]
  }

  function StatesOf(nodes: seq<TaskNode>): States {
    if nodes == [] then map[] else
      var t := nodes[|nodes| - 1];
      StatesOf(nodes[..|nodes| - 1])[t.taskId := if t.dependsOn == [] then Ready else Pending]
  }

  function RootsOf(nodes: seq<TaskNode>): seq<TaskId> {
    if nodes == [] then [] else
      var t := nodes[|nodes| - 1];
      RootsOf(nodes[..|nodes| - 1]) + if t.dependsOn == [] then [t.taskId] else []
  }

  function Initial(nodes: seq<TaskNode>): Dag {
    Dag(TasksOf(nodes), StatesOf(nodes), RdepsOf(nodes), RootsOf(nodes))
  }

  // ---- What each operation does ---------------------------------------------

  ghost predicate DispatchSpec(d: Dag, worker: string, r: Option<TaskNode>, d': Dag) {
    if d.queue == [] then
      d' == d && r == None
    else
      var id := d.queue[0];
      && d' == d.(queue := d.queue[1..], states := d.states[id := Dispatched(worker)])
      && r == if id in d.tasks then Some(d.tasks[id]) else None
  }

  predicate AllCompleted(states: States, deps: seq<TaskId>) {
    forall x | x in deps :: x in states && states[x].Completed?
  }

  predicate Unblocked(d: Dag, s: States, id: TaskId, t: TaskId) {
    && t in Succ(d.rdeps, id)
    && t in s && s[t].Pending?
    && t in d.tasks && AllCompleted(s, d.tasks[t].dependsOn)
  }

  ghost predicate CompleteSpec(d: Dag, id: TaskId, newly: seq<TaskId>, d': Dag) {
    var s := d.states[id := Completed];
    && NoDup(newly)
    && (forall t :: t in newly <==> Unblocked(d, s, id, t))
    && d' == d.(queue := d.queue + newly, states := map t | t in s :: if t in newly then Ready else s[t])
  }

  predicate SettledIn(s: States, t: TaskId) {
    t in s && s[t].Settled()
  }

  // The edges a failure travels along: to dependents that have not settled yet.
  ghost function CascadeGraph(rdeps: Graph, s: States): Graph {
    map c | c in rdeps :: set t | t in rdeps[c] && !SettledIn(s, t)
  }

  ghost predicate Cascades(rdeps: Graph, s: States, id: TaskId, t: TaskId) {
    ReachPlus(CascadeGraph(rdeps, s), id, t)
  }

  function Blame(c: TaskId): TaskState {
    Failed("dependency " + c + " failed")
  }

  ghost predicate BlamedOnOne(rdeps: Graph, id: TaskId, newly: seq<TaskId>, t: TaskId, st: TaskState) {
    exists c :: (c == id || c in newly) && t in Succ(rdeps, c) && st == Blame(c)
  }

  predicate FailedIn(s: States, t: TaskId) {
    t in s && s[t].Failed?
  }

  function DropFailed(q: seq<TaskId>, s: States): seq<TaskId> {
    if q == [] then [] else
      (if FailedIn(s, q[0]) then [] else [q[0]]) + DropFailed(q[1..], s)
  }

  ghost predicate FailSpec(d: Dag, id: TaskId, err: string, newly: seq<TaskId>, d': Dag) {
    var s := d.states[id := Failed(err)];
    && NoDup(newly)
    && (forall t :: t in newly <==> Cascades(d.rdeps, s, id, t))
    && d'.tasks == d.tasks && d'.rdeps == d.rdeps
    && d'.states.Keys == s.Keys + Elems(newly)
    && (forall t :: t in d'.states && t !in newly ==> d'.states[t] == s[t])
    && (forall t :: t in newly ==> BlamedOnOne(d.rdeps, id, newly, t, d'.states[t]))
    && d'.queue == DropFailed(d.queue, d'.states)
  }

  predicate IsDone(d: Dag) {
    forall t | t in d.states :: d.states[t].Settled()
  }

  // ---- The class -------------------------------------------------------------

  class HubDag {
    var tasks: map<TaskId, TaskNode>
    var states: States
    var rdeps: Graph
    var readyQueue: seq<TaskId>

    ghost function View(): Dag
      reads this
    {
      Dag(tasks, states, rdeps, readyQueue)
    }

    constructor (nodes: seq<TaskNode>)
      ensures View() == Initial(nodes)
    {
      var rd: Graph := map[];
      for i := 0 to |nodes|
        invariant rd == RdepsOf(nodes[..i])
      {
        var t := nodes[i];
        ghost var base := rd[t.taskId := Succ(rd, t.taskId)];
        rd := rd[t.taskId := Succ(rd, t.taskId)];
        for j := 0 to |t.dependsOn|
          invariant rd == AddRdeps(base, t.taskId, t.dependsOn[..j])
        {
          var dep := t.dependsOn[j];
          rd := rd[dep := Succ(rd, dep) + {t.taskId}];
          assert t.dependsOn[..j + 1][..j] == t.dependsOn[..j];
        }
        assert t.dependsOn[..|t.dependsOn|] == t.dependsOn;
        assert nodes[..i + 1][..i] == nodes[..i];
      }
      var sts: States, tks: map<TaskId, TaskNode>, ready: seq<TaskId> := map[], map[], [];
      for i := 0 to |nodes|
        invariant sts == StatesOf(nodes[..i]) && tks == TasksOf(nodes[..i]) && ready == RootsOf(nodes[..i])
      {
        var t := nodes[i];
        if t.dependsOn == [] {
          ready := ready + [t.taskId];
        }
        sts := sts[t.taskId := if t.dependsOn == [] then Ready else Pending];
        tks := tks[t.taskId := t];
        assert nodes[..i + 1][..i] == nodes[..i];
      }
      assert nodes[..|nodes|] == nodes;
      tasks, states, rdeps, readyQueue := tks, sts, rd, ready;
    }

    method DispatchNext(worker: string) returns (r: Option<TaskNode>)
      modifies this
      ensures DispatchSpec(old(View()), worker, r, View())
    {
      if readyQueue == [] {
        return None;
      }
      var id := readyQueue[0];
      readyQueue := readyQueue[1..];
      states := states[id := Dispatched(worker)];
      return if id in tasks then Some(tasks[id]) else None;
    }

    method MarkComplete(id: TaskId) returns (newly: seq<TaskId>)
      modifies this
      ensures CompleteSpec(old(View()), id, newly, View())
    {
      states := states[id := Completed];
      newly := UnblockDependents(id);
    }

    method UnblockDependents(id: TaskId) returns (newly: seq<TaskId>)
      modifies this
      ensures NoDup(newly)
      ensures forall t :: t in newly <==> Unblocked(old(View()), old(states), id, t)
      ensures View() == old(View()).(queue := old(readyQueue) + newly,
                                     states := map t | t in old(states) :: if t in newly then Ready else old(states)[t])
    {
      newly := [];
      var dependents := Succ(rdeps, id);
      ghost var s := states;
      while dependents != {}
        invariant dependents <= Succ(rdeps, id)
        invariant NoDup(newly)
        invariant forall t :: t in newly <==> Unblocked(old(View()), s, id, t) && t !in dependents
        invariant tasks == old(tasks) && rdeps == old(rdeps) && readyQueue == old(readyQueue) + newly
        invariant states == map t | t in s :: if t in newly then Ready else s[t]
        decreases dependents
      {
        var t :| t in dependents;
        dependents := dependents - {t};
        if !(t in states && states[t] == Pending) || t !in tasks {
          continue;
        }
        var allDone := AllCompleted(states, tasks[t].dependsOn);
        assert allDone == AllCompleted(s, tasks[t].dependsOn);
        if allDone {
          states := states[t := Ready];
          readyQueue := readyQueue + [t];
          newly := newly + [t];
        }
      }
    }

    // Every dependent of `current` that has not settled fails.
    method FailDependents(current: TaskId) returns (added: seq<TaskId>)
      modifies this`states
      ensures NoDup(added)
      ensures forall t :: t in added <==> t in Succ(rdeps, current) && !SettledIn(old(states), t)
      ensures states == Blamed(old(states), added, current)
    {
      added := [];
      var dependents := Succ(rdeps, current);
      ghost var s := states;
      while dependents != {}
        invariant dependents <= Succ(rdeps, current)
        invariant NoDup(added)
        invariant forall t :: t in added <==> t in Succ(rdeps, current) && !SettledIn(s, t) && t !in dependents
        invariant states == Blamed(s, added, current)
        decreases dependents
      {
        var t :| t in dependents;
        dependents := dependents - {t};
        if t in states && states[t].Settled() {
          continue;
        }
        states := states[t := Blame(current)];
        added := added + [t];
      }
    }

    // One turn of the worklist: the newly failed tasks join the end of the frontier.
    method CascadeTurn(id: TaskId, newly: seq<TaskId>, frontier: seq<TaskId>, ghost s: States)
      returns (newly': seq<TaskId>, frontier': seq<TaskId>)
      requires frontier != []
      requires CascadeState(rdeps, id, s, newly, frontier, states)
      modifies this`states
      ensures CascadeState(rdeps, id, s, newly', frontier', states)
      ensures
        || Unsettled(rdeps, states) < Unsettled(rdeps, old(states))
        || (Unsettled(rdeps, states) == Unsettled(rdeps, old(states)) && |frontier'| < |frontier|)
    {
      var current, rest := frontier[0], frontier[1..];
      assert frontier == [current] + rest;
      ghost var before := states;
      var added := FailDependents(current);
      CascadeRound(rdeps, id, s, newly, current, rest, before, added);
      UnsettledShrinks(rdeps, current, before, added);
      newly', frontier' := newly + added, rest + added;
    }

    method Cascade(id: TaskId) returns (newly: seq<TaskId>)
      modifies this`states
      ensures CascadeState(rdeps, id, old(states), newly, [], states)
    {
      newly := [];
      var frontier := [id];
      while frontier != []
        invariant CascadeState(rdeps, id, old(states), newly, frontier, states)
        decreases Unsettled(rdeps, states), |frontier|
      {
        newly, frontier := CascadeTurn(id, newly, frontier, old(states));
      }
    }

    method MarkFailed(id: TaskId, err: string) returns (newly: seq<TaskId>)
      modifies this
      ensures FailSpec(old(View()), id, err, newly, View())
    {
      states := states[id := Failed(err)];
      ghost var s := states;
      newly := Cascade(id);
      CascadeComplete(rdeps, id, s, newly);
      readyQueue := Retain(readyQueue, states);
    }

    method IsDoneNow() returns (r: bool)
      ensures r == IsDone(View())
      ensures r <==> forall t :: t in states ==> states[t].Completed? || states[t].Failed?
    {
      var todo := states.Keys;
      while todo != {}
        invariant todo <= states.Keys
        invariant forall t :: t in states && t !in todo ==> states[t].Settled()
        decreases todo
      {
        var t :| t in todo;
        if !states[t].Settled() {
          return false;
        }
        todo := todo - {t};
      }
      return true;
    }

    // The error of some failed task, if there is one.
    method FirstFailure() returns (r: Option<(TaskId, string)>)
      ensures r == None <==> forall t :: t in states ==> !states[t].Failed?
      ensures r.Some? ==> r.value.0 in states && states[r.value.0] == Failed(r.value.1)
    {
      var todo := states.Keys;
      while todo != {}
        invariant todo <= states.Keys
        invariant forall t :: t in states && t !in todo ==> !states[t].Failed?
        decreases todo
      {
        var t :| t in todo;
        if states[t].Failed? {
          return Some((t, states[t].error));
        }
        todo := todo - {t};
      }
      return None;
    }

    method Stats() returns (r: DagStats)
      ensures r == Tally(states)
    {
      hide Tally, Bump;
      r := DagStats(0, 0, 0, 0, 0);
      var todo := states.Keys;
      ghost var seen: States := map[];
      TallyNone();
      while todo != {}
        invariant seen.Keys + todo == states.Keys && seen.Keys !! todo
        invariant forall t :: t in seen ==> seen[t] == states[t]
        invariant r == Tally(seen)
        decreases todo
      {
        var t :| t in todo;
        todo := todo - {t};
        TallyOneMore(seen, t, states[t]);
        seen := seen[t := states[t]];
        r := Bump(r, states[t]);
      }
      assert seen == states;
    }
  }

  // ---- Counting states -------------------------------------------------------

  datatype Kind = KPending | KReady | KDispatched | KCompleted | KFailed

  function KindOf(st: TaskState): Kind {
    match st
    case Pending => KPending
    case Ready => KReady
    case Dispatched(_) => KDispatched
    case Completed => KCompleted
    case Failed(_) => KFailed
  }

  ghost function InKind(s: States, k: Kind): set<TaskId> {
    set t | t in s && KindOf(s[t]) == k
  }

  ghost function Count(s: States, k: Kind): nat {
    |InKind(s, k)|
  }

  ghost function Tally(s: States): DagStats {
    DagStats(Count(s, KPending), Count(s, KReady), Count(s, KDispatched), Count(s, KCompleted), Count(s, KFailed))
  }

  // Each counter is the number of tasks in its state.
  lemma {:induction false} TallyExact(s: States)
    ensures Tally(s).pending == |set t | t in s && s[t].Pending?|
    ensures Tally(s).ready == |set t | t in s && s[t].Ready?|
    ensures Tally(s).dispatched == |set t | t in s && s[t].Dispatched?|
    ensures Tally(s).completed == |set t | t in s && s[t].Completed?|
    ensures Tally(s).failed == |set t | t in s && s[t].Failed?|
  {
    assert InKind(s, KPending) == set t | t in s && s[t].Pending?;
    assert InKind(s, KReady) == set t | t in s && s[t].Ready?;
    assert InKind(s, KDispatched) == set t | t in s && s[t].Dispatched?;
    assert InKind(s, KCompleted) == set t | t in s && s[t].Completed?;
    assert InKind(s, KFailed) == set t | t in s && s[t].Failed?;
  }

  lemma {:induction false} CountOneMore(s: States, t: TaskId, st: TaskState, k: Kind)
    requires t !in s
    ensures Count(s[t := st], k) == Count(s, k) + if KindOf(st) == k then 1 else 0
  {
    assert InKind(s[t := st], k) == if KindOf(st) == k then InKind(s, k) + {t} else InKind(s, k);
  }

  function Bump(r: DagStats, st: TaskState): DagStats {
    match st
    case Pending => r.(pending := r.pending + 1)
    case Ready => r.(ready := r.ready + 1)
    case Dispatched(_) => r.(dispatched := r.dispatched + 1)
    case Completed => r.(completed := r.completed + 1)
    case Failed(_) => r.(failed := r.failed + 1)
  }

  lemma {:induction false} TallyNone()
    ensures Tally(map[]) == DagStats(0, 0, 0, 0, 0)
  {
    assert forall k :: InKind(map[], k) == {};
  }

  lemma {:induction false} TallyOneMore(s: States, t: TaskId, st: TaskState)
    requires t !in s
    ensures Tally(s[t := st]) == Bump(Tally(s), st)
  {
    CountOneMore(s, t, st, KPending);
    CountOneMore(s, t, st, KReady);
    CountOneMore(s, t, st, KDispatched);
    CountOneMore(s, t, st, KCompleted);
    CountOneMore(s, t, st, KFailed);
  }

  // ---- The failure cascade ---------------------------------------------------

  function Blamed(s: States, added: seq<TaskId>, c: TaskId): States {
    map t | t in s.Keys + Elems(added) :: if t in added then Blame(c) else s[t]
  }

  // What the cascade's worklist keeps: the failed tasks are reachable, and the ones
  // that have left the frontier have no dependent left to fail.
  ghost predicate CascadeInv(rdeps: Graph, id: TaskId, s: States, newly: seq<TaskId>, frontier: seq<TaskId>) {
    && NoDup(newly)
    && (forall t :: t in newly ==> Cascades(rdeps, s, id, t))
    && (forall c :: c in frontier ==> c == id || c in newly)
    && (forall c, t ::
         (c == id || c in newly) && c !in frontier && t in Succ(rdeps, c) && !SettledIn(s, t) ==> t in newly)
  }

  ghost function Targets(rdeps: Graph): set<TaskId> {
    set c, t | c in rdeps && t in rdeps[c] :: t
  }

  // The dependents that have not settled: what is left for a cascade to visit.
  ghost function Unsettled(rdeps: Graph, s: States): set<TaskId> {
    set t | t in Targets(rdeps) && !SettledIn(s, t)
  }

  // `now` is `s` with the tasks of `newly` failed, each blamed on a failed dependency.
  ghost predicate Overlay(rdeps: Graph, id: TaskId, s: States, newly: seq<TaskId>, now: States) {
    && now.Keys == s.Keys + Elems(newly)
    && (forall t :: t in now && t !in newly ==> now[t] == s[t])
    && (forall t :: t in newly ==> BlamedOnOne(rdeps, id, newly, t, now[t]))
  }

  ghost predicate CascadeState(rdeps: Graph, id: TaskId, s: States, newly: seq<TaskId>, frontier: seq<TaskId>,
                               now: States)
  {
    CascadeInv(rdeps, id, s, newly, frontier) && Overlay(rdeps, id, s, newly, now)
  }

  lemma CascadeRound(rdeps: Graph, id: TaskId, s: States, newly: seq<TaskId>, current: TaskId, rest: seq<TaskId>,
                     now: States, added: seq<TaskId>)
    requires CascadeState(rdeps, id, s, newly, [current] + rest, now)
    requires NoDup(added) && forall t :: t in added <==> t in Succ(rdeps, current) && !SettledIn(now, t)
    ensures CascadeState(rdeps, id, s, newly + added, rest + added, Blamed(now, added, current))
  {
    FrontierRound(rdeps, id, s, newly, current, rest, now, added);
    OverlayRound(rdeps, id, s, newly, current, now, added);
  }

  lemma FrontierRound(rdeps: Graph, id: TaskId, s: States, newly: seq<TaskId>, current: TaskId, rest: seq<TaskId>,
                      now: States, added: seq<TaskId>)
    requires CascadeInv(rdeps, id, s, newly, [current] + rest) && Overlay(rdeps, id, s, newly, now)
    requires NoDup(added) && forall t :: t in added <==> t in Succ(rdeps, current) && !SettledIn(now, t)
    ensures CascadeInv(rdeps, id, s, newly + added, rest + added)
  {
    var g := CascadeGraph(rdeps, s);
    assert current in [current] + rest;
    ReachRefl(g, id);
    assert Reach(g, id, current) by {
      if current in newly {
        var e :| e in Succ(g, id) && Reach(g, e, current);
        ReachCons(g, id, e, current);
      }
    }
    forall t | t in added
      ensures Cascades(rdeps, s, id, t) && t !in newly
    {
      ReachSnoc(g, id, current, t);
    }
    assert forall i :: 0 <= i < |added| ==> added[i] in added;
    NoDupConcat(newly, added);
    forall c, t | (c == id || c in newly + added) && c !in rest + added && t in Succ(rdeps, c) && !SettledIn(s, t)
      ensures t in newly + added
    {
      if c != current {
        assert c !in [current] + rest;
      }
    }
  }

  lemma UnsettledShrinks(rdeps: Graph, current: TaskId, now: States, added: seq<TaskId>)
    requires forall t :: t in added <==> t in Succ(rdeps, current) && !SettledIn(now, t)
    ensures Unsettled(rdeps, Blamed(now, added, current)) <= Unsettled(rdeps, now)
    ensures added == [] || Unsettled(rdeps, Blamed(now, added, current)) < Unsettled(rdeps, now)
  {
    if added != [] {
      var t := added[0];
      assert t in added && t in rdeps[current];
      assert t in Targets(rdeps);
      assert t in Unsettled(rdeps, now) && t !in Unsettled(rdeps, Blamed(now, added, current));
    }
  }

  lemma OverlayRound(rdeps: Graph, id: TaskId, s: States, newly: seq<TaskId>, current: TaskId, now: States,
                     added: seq<TaskId>)
    requires Overlay(rdeps, id, s, newly, now) && (current == id || current in newly)
    requires forall t :: t in added ==> t in Succ(rdeps, current) && t !in newly
    ensures Overlay(rdeps, id, s, newly + added, Blamed(now, added, current))
  {
    var newly', now' := newly + added, Blamed(now, added, current);
    assert Elems(newly') == Elems(newly) + Elems(added);
    assert now'.Keys == now.Keys + Elems(added);
    assert forall x :: x in newly' <==> x in Elems(newly');
    assert current == id || current in newly';
    forall x | x in newly'
      ensures BlamedOnOne(rdeps, id, newly', x, now'[x])
    {
      if x in added {
        assert now'[x] == Blame(current);
      } else {
        assert BlamedOnOne(rdeps, id, newly, x, now[x]);
        BlameKept(rdeps, id, newly, newly', x, now[x]);
      }
    }
  }

  lemma BlameKept(rdeps: Graph, id: TaskId, newly: seq<TaskId>, newly': seq<TaskId>, t: TaskId, st: TaskState)
    requires BlamedOnOne(rdeps, id, newly, t, st) && newly <= newly'
    ensures BlamedOnOne(rdeps, id, newly', t, st)
  {
    var c :| (c == id || c in newly) && t in Succ(rdeps, c) && st == Blame(c);
    assert c == id || c in newly';
  }

  // With the frontier empty, everything a cascade can reach has failed.
  lemma CascadeComplete(rdeps: Graph, id: TaskId, s: States, newly: seq<TaskId>)
    requires CascadeInv(rdeps, id, s, newly, [])
    ensures forall t :: t in newly <==> Cascades(rdeps, s, id, t)
  {
    var g := CascadeGraph(rdeps, s);
    forall t | Cascades(rdeps, s, id, t)
      ensures t in newly
    {
      var e :| e in Succ(g, id) && Reach(g, e, t);
      ReachStaysIn(g, Elems(newly), e, t);
    }
  }

  // Only failed tasks leave the queue, and the others keep their order.
  lemma {:induction false} DropFailedExact(q: seq<TaskId>, x: TaskId, s: States)
    ensures DropFailed([], s) == []
    ensures DropFailed(q + [x], s) == DropFailed(q, s) + if x in s && s[x].Failed? then [] else [x]
  {
    var kept := if x in s && s[x].Failed? then [] else [x];
    if q == [] {
      assert q + [x] == [x] && [x][1..] == [];
      assert DropFailed([x], s) == kept + DropFailed([], s);
    } else {
      DropFailedExact(q[1..], x, s);
      assert (q + [x])[0] == q[0] && (q + [x])[1..] == q[1..] + [x];
      var first := if FailedIn(s, q[0]) then [] else [q[0]];
      var rest := DropFailed(q[1..], s);
      assert DropFailed(q + [x], s) == first + (rest + kept);
      assert DropFailed(q, s) == first + rest;
      hide DropFailed;
      assert first + (rest + kept) == (first + rest) + kept;
    }
  }

  method Retain(q: seq<TaskId>, s: States) returns (r: seq<TaskId>)
    ensures r == DropFailed(q, s)
  {
    r := [];
    for i := |q| downto 0
      invariant r == DropFailed(q[i..], s)
    {
      assert q[i..][1..] == q[i + 1..];
      r := (if FailedIn(s, q[i]) then [] else [q[i]]) + r;
    }
  }
}
