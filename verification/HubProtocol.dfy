/** Any number of spokes driving one hub. A step is one turn of a subscription
    stream (which takes the hub's lock and hands out at most one task), one item
    taken from a stream by its spoke, or one completion report. The steps use the
    relations HubDag's methods are proved against. */
module HubProtocol {
  import opened Wrappers
  import opened Graphs
  import opened Hub
  import opened HubInvariant

  // A connected spoke: items sent down its stream but not yet taken, and the one it is running.
  datatype Spoke = Spoke(worker: string, inbox: seq<TaskId>, hand: Option<TaskId>)
  {
    function Holding(): seq<TaskId> {
      (if hand.Some? then [hand.value] else []) + inbox
    }
  }

  // `handed`, `taken` and `reported` log the ids sent by the hub, picked up by spokes and reported back.
  datatype HubState = HubState(dag: Dag, spokes: map<nat, Spoke>,
                               handed: seq<TaskId>, taken: seq<TaskId>, reported: seq<TaskId>)

  datatype Step =
    | Connect(c: nat, worker: string)
    | Poll(c: nat, r: Option<TaskNode>)
    | Take(c: nat)
    | Report(c: nat, err: string, newly: seq<TaskId>)

  function Start(nodes: seq<TaskNode>): HubState {
    HubState(Initial(nodes), map[], [], [], [])
  }

  // `ok` is the set of tasks whose commands succeed when run.
  ghost predicate Next(ok: set<TaskId>, h: HubState, step: Step, h': HubState) {
    match step
    case Connect(c, worker) =>
      c !in h.spokes && h' == h.(spokes := h.spokes[c := Spoke(worker, [], None)])
    case Poll(c, r) =>
      && c in h.spokes && !IsDone(h.dag)
      && var sp := h.spokes[c];
      && DispatchSpec(h.dag, sp.worker, r, h'.dag)
      && h' == (if r.None? then h else
          h.(spokes := h.spokes[c := sp.(inbox := sp.inbox + [r.value.taskId])], handed := h.handed + [r.value.taskId]))
        .(dag := h'.dag)
    case Take(c) =>
      && c in h.spokes
      && var sp := h.spokes[c];
      && sp.hand.None? && sp.inbox != []
      && h' == h.(spokes := h.spokes[c := sp.(hand := Some(sp.inbox[0]), inbox := sp.inbox[1..])],
                  taken := h.taken + [sp.inbox[0]])
    case Report(c, err, newly) =>
      && c in h.spokes
      && var sp := h.spokes[c];
      && sp.hand.Some?
      && var t := sp.hand.value;
      && h'.spokes == h.spokes[c := sp.(hand := None)]
      && h'.handed == h.handed && h'.taken == h.taken && h'.reported == h.reported + [t]
      && if t in ok then CompleteSpec(h.dag, t, newly, h'.dag) else FailSpec(h.dag, t, err, newly, h'.dag)
  }

  // A run: states joined by steps.
  ghost predicate Run(ok: set<TaskId>, nodes: seq<TaskNode>, states: seq<HubState>, steps: seq<Step>) {
    && |states| == |steps| + 1
    && states[0] == Start(nodes)
    && forall i :: 0 <= i < |steps| ==> Next(ok, states[i], steps[i], states[i + 1])
  }

  // ---- Invariant ---------------------------------------------------------------

  // No task is held twice, by one spoke or by two.
  ghost predicate HeldOnce(spokes: map<nat, Spoke>) {
    && (forall c :: c in spokes ==> NoDup(spokes[c].Holding()))
    && (forall b, c, t :: b in spokes && c in spokes && t in spokes[b].Holding() && t in spokes[c].Holding() ==> b == c)
  }

  // The hub knows which worker has each task in flight.
  ghost predicate HeldIsDispatched(s: States, spokes: map<nat, Spoke>) {
    forall c, t :: c in spokes && t in spokes[c].Holding() ==> t in s && s[t] == Dispatched(spokes[c].worker)
  }

  ghost predicate DispatchedIsHeld(s: States, spokes: map<nat, Spoke>) {
    forall t :: t in s && s[t].Dispatched? ==> HeldBySome(spokes, t)
  }

  ghost predicate InFlight(s: States, spokes: map<nat, Spoke>) {
    HeldOnce(spokes) && HeldIsDispatched(s, spokes) && DispatchedIsHeld(s, spokes)
  }

  ghost predicate HeldBySome(spokes: map<nat, Spoke>, t: TaskId) {
    exists c :: c in spokes && t in spokes[c].Holding()
  }

  // Handing out, picking up and reporting happen once per task, in that order.
  ghost predicate Logged(s: States, handed: seq<TaskId>, taken: seq<TaskId>, reported: seq<TaskId>) {
    && NoDup(handed) && NoDup(taken) && NoDup(reported)
    && (forall t :: t in reported ==> t in taken)
    && (forall t :: t in taken ==> t in handed)
    && (forall t :: t in handed ==> t in s && !s[t].Pending? && !s[t].Ready?)
    && (forall t :: t in s && (s[t].Dispatched? || s[t].Completed?) ==> t in handed)
    && (forall t :: t in handed ==> (t in reported <==> !s[t].Dispatched?))
  }

  ghost predicate HandsLogged(spokes: map<nat, Spoke>, taken: seq<TaskId>) {
    && (forall c, t :: c in spokes && t in spokes[c].inbox ==> t !in taken)
    && (forall c :: c in spokes && spokes[c].hand.Some? ==> spokes[c].hand.value in taken)
  }

  // t depends on x, or is x, and the command of x was run and fails.
  ghost predicate Culprit(ok: set<TaskId>, g: Graph, handed: seq<TaskId>, t: TaskId, x: TaskId) {
    Reach(g, t, x) && x in handed && x !in ok
  }

  // Why each settled task settled.
  ghost predicate Justified(ok: set<TaskId>, g: Graph, s: States, handed: seq<TaskId>) {
    && (forall t :: CompletedIn(s, t) ==> t in ok)
    && (forall t :: FailedIn(s, t) ==> exists x :: Culprit(ok, g, handed, t, x))
    && (forall t, x :: t in handed && x in Succ(g, t) ==> CompletedIn(s, x))
  }

  ghost predicate HubInv(ok: set<TaskId>, h: HubState) {
    && Inv(h.dag)
    && InFlight(h.dag.states, h.spokes)
    && Logged(h.dag.states, h.handed, h.taken, h.reported)
    && HandsLogged(h.spokes, h.taken)
    && Justified(ok, Deps(h.dag.tasks), h.dag.states, h.handed)
  }

  lemma StartInv(ok: set<TaskId>, nodes: seq<TaskNode>)
    requires UniqueIds(nodes)
    ensures HubInv(ok, Start(nodes))
  {
    InitialInv(nodes);
    StatesExact(nodes);
  }

  lemma PollInv(ok: set<TaskId>, h: HubState, c: nat, r: Option<TaskNode>, h': HubState)
    requires HubInv(ok, h) && Next(ok, h, Poll(c, r), h')
    ensures HubInv(ok, h') && h'.dag.tasks == h.dag.tasks
  {
    DispatchInv(h.dag, h.spokes[c].worker, r, h'.dag);
    if r.Some? {
      var t := r.value.taskId;
      HoldMore(h.dag.states, h.spokes, c, t, h'.dag.states);
      HandsWait(h.dag.states, h.spokes, h.handed, h.taken, h.reported, c, t);
      DispatchLogs(ok, Deps(h.dag.tasks), h.dag.states, t, h.spokes[c].worker, h.handed, h.taken, h.reported);
    }
  }

  lemma DispatchLogs(ok: set<TaskId>, g: Graph, s: States, t: TaskId, worker: string,
                     handed: seq<TaskId>, taken: seq<TaskId>, reported: seq<TaskId>)
    requires StatesInv(g, s) && Logged(s, handed, taken, reported) && Justified(ok, g, s, handed)
    requires t in s && s[t].Ready?
    ensures Logged(s[t := Dispatched(worker)], handed + [t], taken, reported)
    ensures Justified(ok, g, s[t := Dispatched(worker)], handed + [t])
  {
    var s' := s[t := Dispatched(worker)];
    NoDupConcat(handed, [t]);
    assert forall x :: CompletedIn(s', x) <==> CompletedIn(s, x);
    assert forall x :: FailedIn(s', x) <==> FailedIn(s, x);
    assert forall x, y :: Culprit(ok, g, handed, x, y) ==> Culprit(ok, g, handed + [t], x, y);
    assert forall x :: x in Succ(g, t) ==> CompletedIn(s, x);
  }

  lemma HandsWait(s: States, spokes: map<nat, Spoke>, handed: seq<TaskId>, taken: seq<TaskId>, reported: seq<TaskId>,
                  c: nat, t: TaskId)
    requires Logged(s, handed, taken, reported) && HandsLogged(spokes, taken)
    requires c in spokes && t in s && s[t].Ready?
    ensures HandsLogged(spokes[c := spokes[c].(inbox := spokes[c].inbox + [t])], taken)
  {
    assert t !in handed;
  }

  lemma HoldMore(s: States, spokes: map<nat, Spoke>, c: nat, t: TaskId, s': States)
    requires InFlight(s, spokes) && c in spokes && t in s && s[t].Ready?
    requires s' == s[t := Dispatched(spokes[c].worker)]
    ensures InFlight(s', spokes[c := spokes[c].(inbox := spokes[c].inbox + [t])])
  {
    var sp := spokes[c];
    var sp' := sp.(inbox := sp.inbox + [t]);
    var spokes' := spokes[c := sp'];
    assert sp'.Holding() == sp.Holding() + [t];
    NoDupConcat(sp.Holding(), [t]);
    forall x | x in s' && s'[x].Dispatched?
      ensures HeldBySome(spokes', x)
    {
      if x != t {
        var b :| b in spokes && x in spokes[b].Holding();
        assert x in spokes'[b].Holding();
      } else {
        assert x in spokes'[c].Holding();
      }
    }
  }

  lemma TakeKeeps(s: States, spokes: map<nat, Spoke>, c: nat)
    requires InFlight(s, spokes) && c in spokes && spokes[c].hand.None? && spokes[c].inbox != []
    ensures InFlight(s, spokes[c := spokes[c].(hand := Some(spokes[c].inbox[0]), inbox := spokes[c].inbox[1..])])
  {
    var sp := spokes[c];
    var sp' := sp.(hand := Some(sp.inbox[0]), inbox := sp.inbox[1..]);
    var spokes' := spokes[c := sp'];
    assert sp'.Holding() == sp.Holding();
    forall x | x in s && s[x].Dispatched?
      ensures HeldBySome(spokes', x)
    {
      var b :| b in spokes && x in spokes[b].Holding();
      assert x in spokes'[b].Holding();
    }
  }

  lemma TakeLogs(spokes: map<nat, Spoke>, taken: seq<TaskId>, c: nat)
    requires HeldOnce(spokes) && HandsLogged(spokes, taken)
    requires c in spokes && spokes[c].hand.None? && spokes[c].inbox != []
    ensures HandsLogged(spokes[c := spokes[c].(hand := Some(spokes[c].inbox[0]), inbox := spokes[c].inbox[1..])],
                        taken + [spokes[c].inbox[0]])
  {
    var sp := spokes[c];
    var t, rest := sp.inbox[0], sp.inbox[1..];
    assert sp.Holding() == [t] + rest;
    NoDupTail(t, rest);
    var spokes' := spokes[c := sp.(hand := Some(t), inbox := rest)];
    forall b, x | b in spokes' && x in spokes'[b].inbox
      ensures x !in taken + [t]
    {
      assert x in spokes[b].inbox && x in spokes[b].Holding();
      assert t in spokes[c].Holding();
    }
  }

  lemma TakeInv(ok: set<TaskId>, h: HubState, c: nat, h': HubState)
    requires HubInv(ok, h) && Next(ok, h, Take(c), h')
    ensures HubInv(ok, h') && h'.dag == h.dag
  {
    hide Inv, Justified, HeldOnce, HeldIsDispatched;
    var sp := h.spokes[c];
    var t := sp.inbox[0];
    TakeKeeps(h.dag.states, h.spokes, c);
    TakeLogs(h.spokes, h.taken, c);
    HeldDispatched(h.dag.states, h.spokes, c, t);
    NoDupConcat(h.taken, [t]);
  }

  lemma HeldDispatched(s: States, spokes: map<nat, Spoke>, c: nat, t: TaskId)
    requires HeldIsDispatched(s, spokes) && c in spokes && t in spokes[c].inbox
    ensures t in s && s[t].Dispatched?
  {
    assert t in spokes[c].Holding();
  }

  // A report empties the reporter's hand; every other task in flight stays where it is.
  lemma ReleaseOne(s: States, spokes: map<nat, Spoke>, c: nat, s': States)
    requires InFlight(s, spokes) && c in spokes && spokes[c].hand.Some?
    requires s'.Keys == s.Keys && !s'[spokes[c].hand.value].Dispatched?
    requires forall x :: x in s && x != spokes[c].hand.value && s[x].Dispatched? ==> s'[x] == s[x]
    requires forall x :: x in s && s'[x].Dispatched? ==> s[x].Dispatched?
    ensures InFlight(s', spokes[c := spokes[c].(hand := None)])
  {
    ReleaseHand(spokes, c);
    OthersStay(s, spokes, c, s', spokes[c := spokes[c].(hand := None)]);
  }

  lemma OthersStay(s: States, spokes: map<nat, Spoke>, c: nat, s': States, spokes': map<nat, Spoke>)
    requires HeldIsDispatched(s, spokes) && DispatchedIsHeld(s, spokes) && c in spokes && spokes[c].hand.Some?
    requires spokes'.Keys == spokes.Keys && forall b :: b in spokes ==> spokes'[b].worker == spokes[b].worker
    requires forall b, x :: b in spokes ==>
      (x in spokes'[b].Holding() <==> x in spokes[b].Holding() && x != spokes[c].hand.value)
    requires s'.Keys == s.Keys && (spokes[c].hand.value in s' ==> !s'[spokes[c].hand.value].Dispatched?)
    requires forall x :: x in s && x != spokes[c].hand.value && s[x].Dispatched? ==> s'[x] == s[x]
    requires forall x :: x in s && s'[x].Dispatched? ==> s[x].Dispatched?
    ensures HeldIsDispatched(s', spokes') && DispatchedIsHeld(s', spokes')
  {
    hide Spoke.Holding;
    forall x | x in s' && s'[x].Dispatched?
      ensures HeldBySome(spokes', x)
    {
      assert HeldBySome(spokes, x);
    }
  }

  lemma ReleaseHand(spokes: map<nat, Spoke>, c: nat)
    requires HeldOnce(spokes) && c in spokes && spokes[c].hand.Some?
    ensures var spokes' := spokes[c := spokes[c].(hand := None)];
      && HeldOnce(spokes')
      && forall b, x :: b in spokes ==>
        (x in spokes'[b].Holding() <==> x in spokes[b].Holding() && x != spokes[c].hand.value)
  {
    var spokes' := spokes[c := spokes[c].(hand := None)];
    HandedBack(spokes[c]);
    forall b, x | b in spokes
      ensures x in spokes'[b].Holding() <==> x in spokes[b].Holding() && x != spokes[c].hand.value
    {
      if b != c {
        assert spokes'[b] == spokes[b];
        assert spokes[c].hand.value in spokes[c].Holding();
      }
    }
  }

  lemma HandedBack(sp: Spoke)
    requires sp.hand.Some? && NoDup(sp.Holding())
    ensures NoDup(sp.(hand := None).Holding()) && sp.hand.value in sp.Holding()
    ensures forall x :: x in sp.(hand := None).Holding() <==> x in sp.Holding() && x != sp.hand.value
  {
    assert sp.Holding() == [sp.hand.value] + sp.inbox && sp.(hand := None).Holding() == sp.inbox;
    NoDupTail(sp.hand.value, sp.inbox);
  }

  lemma ReportInv(ok: set<TaskId>, h: HubState, c: nat, err: string, newly: seq<TaskId>, h': HubState)
    requires HubInv(ok, h) && Next(ok, h, Report(c, err, newly), h')
    ensures HubInv(ok, h') && h'.dag.tasks == h.dag.tasks
  {
    var t := h.spokes[c].hand.value;
    HandedBack(h.spokes[c]);
    assert t in h.spokes[c].Holding() && t in h.dag.states && h.dag.states[t].Dispatched?;
    assert HandsLogged(h'.spokes, h'.taken);
    hide Inv, InFlight, Logged, HandsLogged, Justified, CompleteSpec, FailSpec;
    if t in ok {
      ReportSuccess(ok, h, t, newly, h');
    } else {
      ReportFailure(ok, h, t, err, newly, h');
    }
    ReleaseOne(h.dag.states, h.spokes, c, h'.dag.states);
  }

  lemma ReportSuccess(ok: set<TaskId>, h: HubState, t: TaskId, newly: seq<TaskId>, h': HubState)
    requires HubInv(ok, h) && t in h.dag.states && h.dag.states[t].Dispatched? && t in ok && t in h.taken
    requires CompleteSpec(h.dag, t, newly, h'.dag)
    ensures Inv(h'.dag) && h'.dag.states.Keys == h.dag.states.Keys && h'.dag.states[t].Completed?
    ensures forall x :: x in h.dag.states && x != t ==>
      h'.dag.states[x] == h.dag.states[x] || (h.dag.states[x].Pending? && h'.dag.states[x].Ready?)
    ensures Logged(h'.dag.states, h.handed, h.taken, h.reported + [t])
    ensures Justified(ok, Deps(h.dag.tasks), h'.dag.states, h.handed)
  {
    CompleteInv(h.dag, t, newly, h'.dag);
    SuccessLogs(ok, Deps(h.dag.tasks), h.dag.states, t, h'.dag.states, h.handed, h.taken, h.reported);
  }

  lemma ReportFailure(ok: set<TaskId>, h: HubState, t: TaskId, err: string, newly: seq<TaskId>, h': HubState)
    requires HubInv(ok, h) && t in h.dag.states && h.dag.states[t].Dispatched? && t !in ok && t in h.taken
    requires FailSpec(h.dag, t, err, newly, h'.dag)
    ensures Inv(h'.dag) && h'.dag.states.Keys == h.dag.states.Keys && h'.dag.states[t].Failed?
    ensures forall x :: x in h.dag.states && x != t ==>
      h'.dag.states[x] == h.dag.states[x] || (h.dag.states[x].Pending? && h'.dag.states[x].Failed?)
    ensures Logged(h'.dag.states, h.handed, h.taken, h.reported + [t])
    ensures Justified(ok, Deps(h.dag.tasks), h'.dag.states, h.handed)
  {
    var g, s' := Deps(h.dag.tasks), h'.dag.states;
    CascadeReach(h.dag, t, err, newly, h'.dag);
    FailInv(h.dag, t, err, newly, h'.dag);
    forall x | x in newly
      ensures Reach(g, x, t)
    {
      var e :| e in Succ(h.dag.rdeps, t) && Reach(h.dag.rdeps, e, x);
      ReachCons(h.dag.rdeps, t, e, x);
      ReverseReach(h.dag.rdeps, g, x, t);
    }
    FailureLogs(ok, g, h.dag.states, t, newly, s', h.handed, h.taken, h.reported);
  }

  lemma SuccessLogs(ok: set<TaskId>, g: Graph, s: States, t: TaskId, s': States,
                    handed: seq<TaskId>, taken: seq<TaskId>, reported: seq<TaskId>)
    requires Logged(s, handed, taken, reported) && Justified(ok, g, s, handed)
    requires t in s && s[t].Dispatched? && t in ok && t in taken
    requires s'.Keys == s.Keys && s'[t].Completed?
    requires forall x :: x in s && x != t ==> s'[x] == s[x] || (s[x].Pending? && s'[x].Ready?)
    ensures Logged(s', handed, taken, reported + [t]) && Justified(ok, g, s', handed)
  {
    NoDupConcat(reported, [t]);
    assert forall x :: CompletedIn(s', x) <==> CompletedIn(s, x) || x == t;
    assert forall x :: FailedIn(s', x) <==> FailedIn(s, x);
  }

  lemma FailureLogs(ok: set<TaskId>, g: Graph, s: States, t: TaskId, newly: seq<TaskId>, s': States,
                    handed: seq<TaskId>, taken: seq<TaskId>, reported: seq<TaskId>)
    requires Logged(s, handed, taken, reported) && Justified(ok, g, s, handed)
    requires t in s && s[t].Dispatched? && t !in ok && t in taken
    requires s'.Keys == s.Keys && s'[t].Failed?
    requires forall x :: x in s && x != t && x !in newly ==> s'[x] == s[x]
    requires forall x :: x in newly ==> x in s && s[x].Pending? && s'[x].Failed?
    requires forall x :: x in newly ==> Reach(g, x, t)
    ensures Logged(s', handed, taken, reported + [t]) && Justified(ok, g, s', handed)
  {
    NoDupConcat(reported, [t]);
    assert forall x :: CompletedIn(s', x) <==> CompletedIn(s, x);
    assert forall x :: FailedIn(s', x) <==> FailedIn(s, x) || x == t || x in newly;
    ReachRefl(g, t);
    forall x | x == t || x in newly
      ensures Culprit(ok, g, handed, x, t)
    {
    }
  }

  // Every step of every spoke keeps the whole invariant.
  lemma StepInv(ok: set<TaskId>, h: HubState, step: Step, h': HubState)
    requires HubInv(ok, h) && Next(ok, h, step, h')
    ensures HubInv(ok, h') && h'.dag.tasks == h.dag.tasks
  {
    hide Inv, InFlight, Logged, HandsLogged, Justified;
    match step
    case Connect(c, worker) => ConnectInv(ok, h, c, worker, h');
    case Poll(c, r) => PollInv(ok, h, c, r, h');
    case Take(c) => TakeInv(ok, h, c, h');
    case Report(c, err, newly) => ReportInv(ok, h, c, err, newly, h');
  }

  lemma ConnectInv(ok: set<TaskId>, h: HubState, c: nat, worker: string, h': HubState)
    requires HubInv(ok, h) && Next(ok, h, Connect(c, worker), h')
    ensures HubInv(ok, h')
  {
    hide Inv, Logged, Justified;
    ConnectKeeps(h.dag.states, h.spokes, c, worker);
  }

  lemma ConnectKeeps(s: States, spokes: map<nat, Spoke>, c: nat, worker: string)
    requires InFlight(s, spokes) && c !in spokes
    ensures InFlight(s, spokes[c := Spoke(worker, [], None)])
  {
    var spokes' := spokes[c := Spoke(worker, [], None)];
    assert spokes'[c].Holding() == [];
    forall x | x in s && s[x].Dispatched?
      ensures HeldBySome(spokes', x)
    {
      var b :| b in spokes && x in spokes[b].Holding();
      assert x in spokes'[b].Holding();
    }
  }

  lemma {:induction false} RunInv(ok: set<TaskId>, nodes: seq<TaskNode>, states: seq<HubState>, steps: seq<Step>,
                                  i: nat)
    requires UniqueIds(nodes) && Run(ok, nodes, states, steps) && i < |states|
    ensures HubInv(ok, states[i]) && states[i].dag.tasks == TasksOf(nodes)
    decreases i
  {
    hide HubInv, Next, UniqueIds;
    if i == 0 {
      StartInv(ok, nodes);
    } else {
      RunInv(ok, nodes, states, steps, i - 1);
      StepInv(ok, states[i - 1], steps[i - 1], states[i]);
    }
  }

  // An item handed to a spoke is a task of the list, as listed, and the spoke is recorded for it.
  lemma {:induction false} ItemAsListed(ok: set<TaskId>, nodes: seq<TaskNode>, states: seq<HubState>, steps: seq<Step>,
                                        i: nat)
    requires UniqueIds(nodes) && Run(ok, nodes, states, steps) && i < |steps|
    requires steps[i].Poll? && steps[i].r.Some?
    ensures steps[i].r.value in nodes && steps[i].c in states[i].spokes
    ensures var t := steps[i].r.value.taskId;
      t in states[i + 1].dag.states &&
      states[i + 1].dag.states[t] == Dispatched(states[i].spokes[steps[i].c].worker)
  {
    assert Next(ok, states[i], steps[i], states[i + 1]);
    RunInv(ok, nodes, states, steps, i);
    TasksExact(nodes);
    hide InFlight, Logged, HandsLogged, Justified, UniqueIds, Run;
    DispatchInv(states[i].dag, states[i].spokes[steps[i].c].worker, steps[i].r, states[i + 1].dag);
  }

  // ---- Confluence --------------------------------------------------------------

  // t and everything it depends on, directly or not, would succeed.
  ghost predicate AllSucceed(g: Graph, ok: set<TaskId>, t: TaskId) {
    forall x :: Reach(g, t, x) ==> x in ok
  }

  // A completed task and all its dependencies succeeded.
  lemma {:induction false} CompletedPath(ok: set<TaskId>, h: HubState, p: Path)
    requires HubInv(ok, h) && ValidPath(Deps(h.dag.tasks), p) && CompletedIn(h.dag.states, p.n)
    ensures Last(p) in ok
    decreases p
  {
    match p
    case At(_) =>
    case Via(_, rest) => CompletedPath(ok, h, rest);
  }

  // Once the hub is done, the outcome of every task is a function of the task list - any
  // list with unique ids - and of which commands succeed: neither the spokes nor the order of dispatches and
  // reports has any say in it.
  lemma Confluence(ok: set<TaskId>, nodes: seq<TaskNode>, states: seq<HubState>, steps: seq<Step>, t: TaskId)
    requires UniqueIds(nodes) && Run(ok, nodes, states, steps)
    requires IsDone(states[|steps|].dag) && t in TasksOf(nodes)
    ensures CompletedIn(states[|steps|].dag.states, t) <==> AllSucceed(Deps(TasksOf(nodes)), ok, t)
    ensures FailedIn(states[|steps|].dag.states, t) <==> !AllSucceed(Deps(TasksOf(nodes)), ok, t)
  {
    var h := states[|steps|];
    var g := Deps(TasksOf(nodes));
    RunInv(ok, nodes, states, steps, |steps|);
    assert h.dag.states[t].Settled();
    if CompletedIn(h.dag.states, t) {
      forall x | Reach(g, t, x)
        ensures x in ok
      {
        var p :| Connects(g, p, t, x);
        CompletedPath(ok, h, p);
      }
    } else {
      assert FailedIn(h.dag.states, t);
      var x :| Culprit(ok, g, h.handed, t, x);
      NotAllSucceed(g, ok, t, x);
    }
  }

  lemma NotAllSucceed(g: Graph, ok: set<TaskId>, t: TaskId, x: TaskId)
    requires Reach(g, t, x) && x !in ok
    ensures !AllSucceed(g, ok, t)
  {
  }

  // A task's command is run, at one spoke and once, exactly when all it depends on succeeds.
  lemma RunsExactlyOnce(ok: set<TaskId>, nodes: seq<TaskNode>, states: seq<HubState>, steps: seq<Step>, t: TaskId)
    requires UniqueIds(nodes) && Run(ok, nodes, states, steps)
    requires IsDone(states[|steps|].dag) && t in TasksOf(nodes)
    ensures NoDup(states[|steps|].handed) && Elems(states[|steps|].handed) == Elems(states[|steps|].reported)
    ensures t in states[|steps|].handed <==>
      forall x :: x in Deps(TasksOf(nodes))[t] ==> AllSucceed(Deps(TasksOf(nodes)), ok, x)
  {
    var h := states[|steps|];
    var g := Deps(TasksOf(nodes));
    RunInv(ok, nodes, states, steps, |steps|);
    hide UniqueIds, Run, AllSucceed, InFlight, HandsLogged, Reach;
    forall x | x in h.handed
      ensures x in h.reported
    {
      assert h.dag.states[x].Settled();
    }
    if t in h.handed {
      forall x | x in g[t]
        ensures AllSucceed(g, ok, x)
      {
        assert CompletedIn(h.dag.states, x);
        Confluence(ok, nodes, states, steps, x);
      }
    } else {
      assert h.dag.states[t].Settled() && FailedIn(h.dag.states, t);
      var x :| Culprit(ok, g, h.handed, t, x);
      ReachCases(g, t, x);
      var y :| y in Succ(g, t) && Reach(g, y, x);
      NotAllSucceed(g, ok, y, x);
    }
  }

  // ---- Progress and bound --------------------------------------------------------

  // t, all it depends on is in the list and succeeds, and none of it is circular.
  ghost predicate CanComplete(g: Graph, ok: set<TaskId>, t: TaskId) {
    forall x :: Reach(g, t, x) ==> x in g && x in ok && !ReachPlus(g, x, x)
  }

  // x will be run, and fails.
  ghost predicate WillFail(g: Graph, ok: set<TaskId>, x: TaskId) {
    x in g && x !in ok && forall y :: y in g[x] ==> CanComplete(g, ok, y)
  }

  ghost predicate Doomed(g: Graph, ok: set<TaskId>, t: TaskId) {
    exists x :: Reach(g, t, x) && WillFail(g, ok, x)
  }

  // Every task that depends on something missing or circular also depends on a task
  // that is run and fails.
  ghost predicate Finishable(g: Graph, ok: set<TaskId>) {
    forall t :: t in g ==> CanComplete(g, ok, t) || Doomed(g, ok, t)
  }

  ghost predicate Idle(s: States) {
    forall t :: t in s ==> !s[t].Ready? && !s[t].Dispatched?
  }

  lemma CanCompleteBelow(g: Graph, ok: set<TaskId>, t: TaskId, d: TaskId)
    requires CanComplete(g, ok, t) && d in Succ(g, t)
    ensures CanComplete(g, ok, d) && d in g && !ReachPlus(g, d, d)
  {
    ReachRefl(g, d);
    ReachCons(g, t, d, d);
    forall x | Reach(g, d, x)
      ensures Reach(g, t, x)
    {
      ReachCons(g, t, d, x);
    }
  }

  // With nothing ready or in flight, everything that can complete has.
  lemma {:induction false} IdleCompleted(ok: set<TaskId>, h: HubState, t: TaskId)
    requires HubInv(ok, h) && Idle(h.dag.states) && CanComplete(Deps(h.dag.tasks), ok, t)
    ensures CompletedIn(h.dag.states, t)
    decreases |Below(Deps(h.dag.tasks), t)|
  {
    var g, s := Deps(h.dag.tasks), h.dag.states;
    ReachRefl(g, t);
    assert t in s;
    forall d | d in Succ(g, t)
      ensures CompletedIn(s, d)
    {
      CanCompleteBelow(g, ok, t, d);
      BelowShrinks(g, t, d);
      IdleCompleted(ok, h, d);
    }
    assert forall x :: !WaitsFor(g, s, t, x) && !Culprit(ok, g, h.handed, t, x);
    assert !FailedIn(s, t);
  }

  // Failure is closed under dependents.
  lemma {:induction false} FailureReaches(g: Graph, s: States, p: Path)
    requires FailureSpread(g, s) && s.Keys == g.Keys && ValidPath(g, p) && FailedIn(s, Last(p))
    ensures FailedIn(s, p.n)
    decreases p
  {
    match p
    case At(_) =>
    case Via(_, rest) => FailureReaches(g, s, rest);
  }

  lemma IdleFailed(ok: set<TaskId>, h: HubState, t: TaskId)
    requires HubInv(ok, h) && Idle(h.dag.states) && Doomed(Deps(h.dag.tasks), ok, t)
    ensures FailedIn(h.dag.states, t)
  {
    var g, s := Deps(h.dag.tasks), h.dag.states;
    var x :| Reach(g, t, x) && WillFail(g, ok, x);
    forall y | y in g[x]
      ensures CompletedIn(s, y)
    {
      IdleCompleted(ok, h, y);
    }
    assert x in s && !CompletedIn(s, x);
    assert forall y :: !WaitsFor(g, s, x, y);
    var p :| Connects(g, p, t, x);
    FailureReaches(g, s, p);
  }

  // Unless the hub is done, some task is ready or out at a spoke.
  lemma NoDeadlock(ok: set<TaskId>, h: HubState)
    requires HubInv(ok, h) && Finishable(Deps(h.dag.tasks), ok) && !IsDone(h.dag)
    ensures !Idle(h.dag.states)
  {
    var g := Deps(h.dag.tasks);
    var t :| t in h.dag.states && !h.dag.states[t].Settled();
    assert t in g;
    if Idle(h.dag.states) {
      if CanComplete(g, ok, t) {
        IdleCompleted(ok, h, t);
      } else {
        IdleFailed(ok, h, t);
      }
      assert false;
    }
  }

  // Is a step one that moves the hub or an item, rather than an idle poll?
  predicate Moves(step: Step) {
    match step
    case Connect(_, _) => false
    case Poll(_, r) => r.Some?
    case Take(_) => true
    case Report(_, _, _) => true
  }

  lemma {:induction false} CascadePred(g: Graph, p: Path, a: TaskId) returns (c: TaskId)
    requires ValidPath(g, p) && p.n in Succ(g, a)
    ensures Last(p) in Succ(g, c) && (c == a || ReachPlus(g, a, c))
    decreases p
  {
    match p
    case At(_) => c := a;
    case Via(n, rest) =>
      c := CascadePred(g, rest, n);
      ReachRefl(g, n);
      if c != n {
        var e :| e in Succ(g, n) && Reach(g, e, c);
        ReachCons(g, n, e, c);
      }
      assert Reach(g, n, c);
  }

  ghost predicate Blames(rdeps: Graph, s: States, id: TaskId, t: TaskId, c: TaskId) {
    (c == id || Cascades(rdeps, s, id, c)) && t in Succ(rdeps, c)
  }

  // Whatever the outcome of a report, the hub can process it.
  lemma ReportEnabled(ok: set<TaskId>, d: Dag, id: TaskId, err: string) returns (newly: seq<TaskId>, d': Dag)
    ensures if id in ok then CompleteSpec(d, id, newly, d') else FailSpec(d, id, err, newly, d')
  {
    if id in ok {
      var s := d.states[id := Completed];
      newly := Enumerate(set t | t in s && Unblocked(d, s, id, t));
      d' := d.(queue := d.queue + newly, states := map t | t in s :: if t in newly then Ready else s[t]);
      forall t
        ensures t in newly <==> Unblocked(d, s, id, t)
      {
        assert t in newly <==> t in Elems(newly);
      }
    } else {
      var s := d.states[id := Failed(err)];
      var g := CascadeGraph(d.rdeps, s);
      forall t | Cascades(d.rdeps, s, id, t)
        ensures t in Targets(d.rdeps) && exists c :: Blames(d.rdeps, s, id, t, c)
      {
        var e :| e in Succ(g, id) && Reach(g, e, t);
        var p :| Connects(g, p, e, t);
        var c := CascadePred(g, p, id);
        assert c in d.rdeps && t in d.rdeps[c];
        assert Blames(d.rdeps, s, id, t, c);
      }
      newly := Enumerate(set t | t in Targets(d.rdeps) && Cascades(d.rdeps, s, id, t));
      forall t
        ensures t in newly <==> Cascades(d.rdeps, s, id, t)
      {
        assert t in newly <==> t in Elems(newly);
      }
      var s' := map t | t in s.Keys + Elems(newly) ::
        if t in newly then (var c :| Blames(d.rdeps, s, id, t, c); Blame(c)) else s[t];
      d' := Dag(d.tasks, s', d.rdeps, DropFailed(d.queue, s'));
      forall t | t in newly
        ensures BlamedOnOne(d.rdeps, id, newly, t, s'[t])
      {
        var c :| Blames(d.rdeps, s, id, t, c) && s'[t] == Blame(c);
      }
    }
  }

  lemma DispatchEnabled(ok: set<TaskId>, h: HubState, c: nat) returns (step: Step, h': HubState)
    requires Inv(h.dag) && !IsDone(h.dag) && c in h.spokes && h.dag.queue != []
    ensures Moves(step) && Next(ok, h, step, h')
  {
    var sp, id := h.spokes[c], h.dag.queue[0];
    assert id in h.dag.queue;
    var r := Some(h.dag.tasks[id]);
    assert r.value.taskId == id;
    step := Poll(c, r);
    h' := HubState(h.dag.(queue := h.dag.queue[1..], states := h.dag.states[id := Dispatched(sp.worker)]),
                   h.spokes[c := sp.(inbox := sp.inbox + [id])], h.handed + [id], h.taken, h.reported);
  }

  lemma SpokeEnabled(ok: set<TaskId>, h: HubState, c: nat) returns (step: Step, h': HubState)
    requires c in h.spokes && h.spokes[c].Holding() != []
    ensures Moves(step) && Next(ok, h, step, h')
  {
    var sp := h.spokes[c];
    if sp.hand.None? {
      step := Take(c);
      h' := h.(spokes := h.spokes[c := sp.(hand := Some(sp.inbox[0]), inbox := sp.inbox[1..])],
               taken := h.taken + [sp.inbox[0]]);
    } else {
      var newly, d' := ReportEnabled(ok, h.dag, sp.hand.value, "");
      step := Report(c, "", newly);
      h' := h.(dag := d', spokes := h.spokes[c := sp.(hand := None)], reported := h.reported + [sp.hand.value]);
    }
  }

  // With a spoke connected, a hub that is not done can always move.
  lemma CanMove(ok: set<TaskId>, h: HubState, c: nat) returns (step: Step, h': HubState)
    requires HubInv(ok, h) && Finishable(Deps(h.dag.tasks), ok) && !IsDone(h.dag) && c in h.spokes
    ensures Moves(step) && Next(ok, h, step, h')
  {
    NoDeadlock(ok, h);
    var t :| t in h.dag.states && (h.dag.states[t].Ready? || h.dag.states[t].Dispatched?);
    if h.dag.states[t].Ready? {
      assert t in h.dag.queue;
      step, h' := DispatchEnabled(ok, h, c);
    } else {
      assert HeldBySome(h.spokes, t);
      var b :| b in h.spokes && t in h.spokes[b].Holding();
      step, h' := SpokeEnabled(ok, h, b);
    }
  }

  function Moved(steps: seq<Step>): nat {
    if steps == [] then 0 else
      Moved(steps[..|steps| - 1]) + if Moves(steps[|steps| - 1]) then 1 else 0
  }

  // A run makes at most three moves per task: one dispatch, one pick-up and one report.
  lemma {:induction false} MovesLogged(ok: set<TaskId>, nodes: seq<TaskNode>, states: seq<HubState>, steps: seq<Step>)
    requires Run(ok, nodes, states, steps)
    ensures Moved(steps) == |states[|steps|].handed| + |states[|steps|].taken| + |states[|steps|].reported|
    decreases |steps|
  {
    hide DispatchSpec, CompleteSpec, FailSpec, IsDone;
    if steps != [] {
      var n := |steps| - 1;
      MovesLogged(ok, nodes, states[..|states| - 1], steps[..n]);
      assert Next(ok, states[n], steps[n], states[n + 1]);
    }
  }

  lemma MovesBounded(ok: set<TaskId>, nodes: seq<TaskNode>, states: seq<HubState>, steps: seq<Step>)
    requires UniqueIds(nodes) && Run(ok, nodes, states, steps)
    ensures |states[|steps|].handed| <= |TasksOf(nodes)|
    ensures |states[|steps|].taken| <= |TasksOf(nodes)|
    ensures |states[|steps|].reported| <= |TasksOf(nodes)|
    ensures Moved(steps) <= 3 * |TasksOf(nodes)|
  {
    var h := states[|steps|];
    RunInv(ok, nodes, states, steps, |steps|);
    MovesLogged(ok, nodes, states, steps);
    var u := TasksOf(nodes).Keys;
    NoDupWithin(h.handed, u);
    NoDupWithin(h.taken, u);
    NoDupWithin(h.reported, u);
  }

  lemma ExtendRun(ok: set<TaskId>, nodes: seq<TaskNode>, states: seq<HubState>, steps: seq<Step>, step: Step,
                  h: HubState)
    requires Run(ok, nodes, states, steps) && Next(ok, states[|steps|], step, h)
    ensures Run(ok, nodes, states + [h], steps + [step])
    ensures Moved(steps + [step]) == Moved(steps) + if Moves(step) then 1 else 0
  {
    hide Next;
    var states', steps' := states + [h], steps + [step];
    assert steps'[..|steps|] == steps;
    forall i | 0 <= i < |steps'|
      ensures Next(ok, states'[i], steps'[i], states'[i + 1])
    {
      if i < |steps| {
        assert Next(ok, states[i], steps[i], states[i + 1]);
      }
    }
  }

  // Every run with a spoke connected can be carried on until the hub is done.
  lemma {:induction false} CanFinish(ok: set<TaskId>, nodes: seq<TaskNode>, states: seq<HubState>, steps: seq<Step>,
                                     c: nat)
    returns (states': seq<HubState>, steps': seq<Step>)
    requires UniqueIds(nodes) && Finishable(Deps(TasksOf(nodes)), ok)
    requires Run(ok, nodes, states, steps) && c in states[|steps|].spokes
    ensures Run(ok, nodes, states', steps') && states <= states' && steps <= steps'
    ensures IsDone(states'[|steps'|].dag)
    decreases 3 * |TasksOf(nodes)| - Moved(steps)
  {
    hide Next, HubInv, IsDone, Moved, Moves, UniqueIds, Finishable;
    var h := states[|steps|];
    if IsDone(h.dag) {
      states', steps' := states, steps;
    } else {
      RunInv(ok, nodes, states, steps, |steps|);
      var step, h' := CanMove(ok, h, c);
      ExtendRun(ok, nodes, states, steps, step, h');
      MovesBounded(ok, nodes, states + [h'], steps + [step]);
      SpokesStay(ok, h, step, h', c);
      states', steps' := CanFinish(ok, nodes, states + [h'], steps + [step], c);
    }
  }

  lemma SpokesStay(ok: set<TaskId>, h: HubState, step: Step, h': HubState, c: nat)
    requires Next(ok, h, step, h') && c in h.spokes
    ensures c in h'.spokes
  {
    hide DispatchSpec, CompleteSpec, FailSpec, IsDone;
  }
}
