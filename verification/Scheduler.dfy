/** A whole run: root tasks first, then package tasks that wait for their dependencies and, unless
    the cache has their result, pass the gates before their subprocess runs. A composed step is
    a step of the runner or of the gates, so what is proved of either machine holds here too. */
module Scheduler {
  import opened Wrappers
  import R = Runner
  import G = Gates
  import Graphs

  // `hits` are the package tasks whose lookup hits: they succeed without passing the gates.
  // Root tasks do not pass them either.
  datatype Setup = Setup(tasks: R.Plan, hits: set<string>, config: G.Config)
  {
    // What the run is of: here a panic aborts the other tasks, like an error.
    function Plan(): R.Plan { tasks.(ok := tasks.ok + hits, panicAborts := true) }
  }

  datatype State = State(run: R.RunState, gates: G.System)

  datatype Move = RunMove(step: R.RunStep) | GateMove(pass: G.Step)

  function Start(u: Setup): State {
    State(R.Begin(u.Plan()), G.Start(u.config, {}))
  }

  // A started task is at its gates from then on.
  function Enters(g: G.System, t: string): G.System {
    g.(phases := g.phases[t := G.Queued])
  }

  // The result is there: from the cache, or from a subprocess that is over.
  predicate ResultReady(u: Setup, g: G.System, t: string) {
    t in g.phases && (g.phases[t].Finished? || (t in u.hits && g.phases[t].Queued?))
  }

  // A task that is gone has dropped its permit and its guard.
  ghost predicate Dropped(g: G.System, t: string, g': G.System) {
    if t in g.phases && !g.phases[t].Finished? then G.Next(g, G.Abort(t), g') else g' == g
  }

  // What a step of the package tasks does at the gates.
  ghost predicate AtGates(u: Setup, g: G.System, step: R.PoolStep, g': G.System) {
    match step
    case Launch(t) => g' == Enters(g, t)
    case Finish(t) => ResultReady(u, g, t) && g' == g
    case Panic(t) => Dropped(g, t, g')
    case Abort(t) => Dropped(g, t, g')
    case _ => g' == g
  }

  ghost predicate Next(u: Setup, s: State, m: Move, s': State) {
    match m
    case RunMove(step) =>
      && R.Next(u.Plan(), s.run, step, s'.run)
      && if step.PackageStep? then AtGates(u, s.gates, step.s, s'.gates) else s'.gates == s.gates
    case GateMove(pass) =>
      && s.run.phase.InPackages? && !pass.Abort? && s'.run == s.run && G.Next(s.gates, pass, s'.gates)
      && pass.t in s.run.packages.status && s.run.packages.status[pass.t].Running? && pass.t !in u.hits
  }

  ghost predicate Run(u: Setup, states: seq<State>, moves: seq<Move>) {
    && |states| == |moves| + 1 && states[0] == Start(u)
    && forall i :: 0 <= i < |moves| ==> Next(u, states[i], moves[i], states[i + 1])
  }

  // ---- Invariant ---------------------------------------------------------------------------

  // Tasks are at the gates from the start of their turn; only running ones hold anything there.
  ghost predicate Linked(u: Setup, p: R.Pool, g: G.System) {
    && (forall t :: t in g.phases ==> t in p.status && !p.status[t].Waiting?)
    && (forall t :: t in p.status && p.status[t].Running? ==> t in g.phases)
    && (forall t :: t in g.phases && G.HasPermit(g.phases[t]) ==> p.status[t].Running? && t !in u.hits)
  }

  ghost predicate Inv(u: Setup, s: State) {
    R.RunInvariant(u.Plan(), s.run) && G.GateInv(u.config, s.gates) && Linked(u, s.run.packages, s.gates)
  }

  lemma EntersInv(c: G.Config, g: G.System, t: string)
    requires G.GateInv(c, g) && t !in g.phases
    ensures G.GateInv(c, Enters(g, t))
  {
    var g' := Enters(g, t);
    assert G.PermitHolders(g') == G.PermitHolders(g) && G.ColdRunners(g') == G.ColdRunners(g);
    assert G.LiveMemory(g') == G.LiveMemory(g);
  }

  ghost predicate Steps(u: Setup, p: R.Pool, step: R.PoolStep, p': R.Pool) {
    R.PoolNext(u.Plan().deps, u.Plan().ok, true, p, step, p')
  }

  // What a step of the pool does to its task's status.
  lemma StatusAfter(u: Setup, p: R.Pool, step: R.PoolStep, p': R.Pool)
    requires Steps(u, p, step, p')
    ensures step.t in p.status && p'.status == p.status[step.t := p'.status[step.t]]
    ensures step.Advance? ==> p.status[step.t].Waiting? && p'.status[step.t].Waiting?
    ensures step.Skip? ==> p.status[step.t].Waiting? && p'.status[step.t].Errored?
    ensures step.Launch? ==> p.status[step.t].Waiting? && p'.status[step.t].Running?
    ensures step.Finish? ==> p.status[step.t].Running? && p'.status[step.t].Final()
    ensures step.Panic? || step.Abort? ==> p'.status[step.t].Gone?
    ensures step.Join? ==> p'.status == p.status
  {
    R.StepShape(u.Plan().deps, u.Plan().ok, true, p, step, p');
  }

  // What a step of the gates does to the phases.
  lemma PassShape(g: G.System, pass: G.Step, g': G.System)
    requires G.Next(g, pass, g')
    ensures pass.t in g.phases && g'.phases == g.phases[pass.t := g'.phases[pass.t]]
    ensures pass.Abort? ==> g'.phases[pass.t].Finished?
  {
  }

  lemma GatesKept(u: Setup, p: R.Pool, g: G.System, step: R.PoolStep, p': R.Pool, g': G.System)
    requires G.GateInv(u.config, g) && Linked(u, p, g) && Steps(u, p, step, p') && AtGates(u, g, step, g')
    ensures G.GateInv(u.config, g')
  {
    hide G.GateInv, G.Next, Steps;
    if step.Launch? {
      StatusAfter(u, p, step, p');
      EntersInv(u.config, g, step.t);
    } else if g' != g {
      G.StepInv(u.config, g, G.Abort(step.t), g');
    }
  }

  lemma LinkedKept(u: Setup, p: R.Pool, g: G.System, step: R.PoolStep, p': R.Pool, g': G.System)
    requires Linked(u, p, g) && Steps(u, p, step, p') && AtGates(u, g, step, g')
    ensures Linked(u, p', g')
  {
    hide Steps, G.Next;
    StatusAfter(u, p, step, p');
    if (step.Panic? || step.Abort?) && step.t in g.phases && !g.phases[step.t].Finished? {
      PassShape(g, G.Abort(step.t), g');
    }
  }

  lemma PassLinked(u: Setup, p: R.Pool, g: G.System, pass: G.Step, g': G.System)
    requires Linked(u, p, g) && G.Next(g, pass, g')
    requires pass.t in p.status && p.status[pass.t].Running? && pass.t !in u.hits
    ensures Linked(u, p, g')
  {
    PassShape(g, pass, g');
    hide G.Next;
  }

  // A step of the run that is not one of the package tasks leaves them alone.
  lemma OtherSteps(u: Setup, r: R.RunState, step: R.RunStep, r': R.RunState)
    requires R.Next(u.Plan(), r, step, r')
    ensures if step.PackageStep? then Steps(u, r.packages, step.s, r'.packages) else r'.packages == r.packages
  {
  }

  lemma StepInv(u: Setup, s: State, m: Move, s': State)
    requires Inv(u, s) && Next(u, s, m, s')
    ensures Inv(u, s')
  {
    hide R.RunInvariant, G.GateInv, Linked, R.Next, G.Next, Steps, AtGates;
    match m
    case RunMove(step) =>
      OtherSteps(u, s.run, step, s'.run);
      R.RunStepInv(u.Plan(), s.run, step, s'.run);
      if step.PackageStep? {
        GatesKept(u, s.run.packages, s.gates, step.s, s'.run.packages, s'.gates);
        LinkedKept(u, s.run.packages, s.gates, step.s, s'.run.packages, s'.gates);
      }
    case GateMove(pass) =>
      G.StepInv(u.config, s.gates, pass, s'.gates);
      PassLinked(u, s.run.packages, s.gates, pass, s'.gates);
  }

  lemma StartInv(u: Setup)
    ensures Inv(u, Start(u))
  {
    R.SpawnedInv(R.RootDeps(u.Plan()), u.Plan().rootsOk);
    R.SpawnedInv(u.Plan().deps, u.Plan().ok);
    G.StartInv(u.config, {});
    hide R.PoolInv, G.GateInv;
  }

  lemma {:induction false} RunInv(u: Setup, states: seq<State>, moves: seq<Move>, i: nat)
    requires Run(u, states, moves) && i < |states|
    ensures Inv(u, states[i])
    decreases i
  {
    hide Inv, Next;
    if i == 0 {
      StartInv(u);
    } else {
      RunInv(u, states, moves, i - 1);
      StepInv(u, states[i - 1], moves[i - 1], states[i]);
    }
  }

  // In every state of every run: a subprocess runs only after every root task has succeeded,
  // all it depends on through the wait lists has sent Done and its own lookup missed, and no
  // more of them run than there are process slots.
  lemma SubprocessSafety(u: Setup, states: seq<State>, moves: seq<Move>, i: nat, t: string, d: string)
    requires Run(u, states, moves) && i < |states|
    requires t in states[i].gates.phases && states[i].gates.phases[t].Running?
    ensures t in u.tasks.deps && t !in u.hits && R.AllSucceeded(states[i].run.roots)
    ensures Graphs.ReachPlus(R.DepGraph(u.tasks.deps), t, d) ==>
      d in states[i].run.packages.status && R.Channel(states[i].run.packages.status[d]) == R.Done
    ensures d in u.tasks.deps[t] ==>
      d in states[i].run.packages.status && states[i].run.packages.status[d].Succeeded?
    ensures |G.PermitHolders(states[i].gates)| <= u.config.processSlots
  {
    var s := states[i];
    var r, plan := s.run, u.Plan();
    RunInv(u, states, moves, i);
    assert r.packages.status[t].Running?;
    R.JoinedVerdict(R.RootDeps(plan), plan.rootsOk, r.roots);
    if d in plan.deps[t] {
      Graphs.ReachRefl(R.DepGraph(plan.deps), d);
    }
    if Graphs.ReachPlus(R.DepGraph(plan.deps), t, d) {
      R.DependenciesDone(plan.deps, plan.ok, r.packages, t, d);
    }
  }

  predicate LetsPass(m: Move, t: string) {
    m == GateMove(G.PassMemory(t)) || m == GateMove(G.PassCold(t))
  }

  // Did one of the first k moves let t past the memory gate or the cold-start gate?
  ghost predicate Passed(moves: seq<Move>, t: string, k: nat) {
    exists j :: 0 <= j < k && j < |moves| && LetsPass(moves[j], t)
  }

  lemma {:induction false} PassedBefore(u: Setup, states: seq<State>, moves: seq<Move>, k: nat, t: string)
    requires Run(u, states, moves) && k < |states| && t in states[k].gates.phases
    requires !states[k].gates.phases[t].Queued? && !states[k].gates.phases[t].AtGate?
    requires t in states[k].run.packages.status && states[k].run.packages.status[t].Running?
    ensures Passed(moves, t, k)
    decreases k
  {
    hide Next;
    if k > 0 {
      var s, m, s' := states[k - 1], moves[k - 1], states[k];
      if !LetsPass(m, t) {
        SamePhase(u, s, m, s', t);
        PassedBefore(u, states, moves, k - 1, t);
      }
    }
  }

  // A move that does not let t pass does not take a running task beyond the gates.
  lemma {:induction false} SamePhase(u: Setup, s: State, m: Move, s': State, t: string)
    requires Next(u, s, m, s') && t in s'.gates.phases
    requires !s'.gates.phases[t].Queued? && !s'.gates.phases[t].AtGate?
    requires t in s'.run.packages.status && s'.run.packages.status[t].Running?
    requires !LetsPass(m, t)
    ensures t in s.run.packages.status && s.run.packages.status[t].Running?
    ensures t in s.gates.phases && !s.gates.phases[t].Queued? && !s.gates.phases[t].AtGate?
  {
    match m
    case RunMove(step) =>
      OtherSteps(u, s.run, step, s'.run);
      if step.PackageStep? {
        hide R.Next;
        StatusAfter(u, s.run.packages, step.s, s'.run.packages);
        if (step.s.Panic? || step.s.Abort?) && s'.gates != s.gates {
          PassShape(s.gates, G.Abort(step.s.t), s'.gates);
        }
        hide Steps, G.Next;
      }
    case GateMove(pass) => PassShape(s.gates, pass, s'.gates);
  }

  // No result out of nothing: a package task ends with its own verdict only when its lookup hit
  // or its subprocess was let past the gates before.
  lemma {:induction false} ResultComesFirst(u: Setup, states: seq<State>, moves: seq<Move>, i: nat, t: string)
    requires Run(u, states, moves) && i < |moves| && moves[i] == RunMove(R.PackageStep(R.Finish(t)))
    ensures t in u.hits || Passed(moves, t, i)
  {
    assert Next(u, states[i], moves[i], states[i + 1]);
    OtherSteps(u, states[i].run, moves[i].step, states[i + 1].run);
    if t !in u.hits {
      PassedBefore(u, states, moves, i, t);
    }
  }

  // Every package task once, after its dependencies.
  ghost predicate Finished(u: Setup, order: seq<string>) {
    NoDup(order) && Elems(order) == u.tasks.deps.Keys && R.DepsFirst(u.tasks.deps, order)
  }

  // The verdict: a run that has returned is Ok exactly when every task is Done; without panics,
  // when the command of every root task and of every package task whose lookup missed succeeds.
  lemma Verdict(u: Setup, states: seq<State>, moves: seq<Move>)
    requires Run(u, states, moves) && states[|moves|].run.phase.Returned?
    ensures var r := states[|moves|].run; r.phase.ok <==> R.AllSucceeded(r.roots) && R.AllSucceeded(r.packages)
    ensures var r := states[|moves|].run; r.phase.ok ==> Finished(u, r.packages.finished)
    ensures var r := states[|moves|].run; !r.roots.crashed && !r.packages.crashed ==>
      (r.phase.ok <==> u.tasks.roots <= u.tasks.rootsOk && u.tasks.deps.Keys <= u.tasks.ok + u.hits)
  {
    RunInv(u, states, moves, |moves|);
    R.ReturnedVerdict(u.Plan(), states[|moves|].run);
  }

  // ---- Progress ----------------------------------------------------------------------------

  predicate Ordinary(m: Move) {
    m.RunMove? && (m.step.RootStep? || m.step.PackageStep?) ==> R.Ordinary(m.step.s)
  }

  // A task that holds a permit and proceeds has a step of its own.
  lemma PassesOn(c: G.Config, g: G.System, x: string) returns (pass: G.Step, g': G.System)
    requires G.GateInv(c, g) && c.processSlots < 0x1_0000_0000 && G.Proceeds(g, x) && G.HasPermit(g.phases[x])
    ensures pass.t == x && !pass.Abort? && G.Next(g, pass, g')
  {
    pass := match g.phases[x]
      case AtGate(_) => G.Admission(x, g.phases[x])
      case Running(_) => G.ReleaseGuard(x)
      case _ => G.ReleasePermit(x);
    g' := G.EnabledStep(c, g, pass);
  }

  // A task waiting for its result, or one that holds it up, can take a step at the gates.
  lemma GateOpens(c: G.Config, g: G.System, t: string) returns (pass: G.Step, g': G.System)
    requires G.GateInv(c, g) && 0 < c.processSlots < 0x1_0000_0000 && c.coldSlots > 0
    requires t in g.phases && !g.phases[t].Finished?
    ensures !pass.Abort? && G.Next(g, pass, g') && pass.t in g.phases
    ensures pass.t == t || G.HasPermit(g.phases[pass.t])
  {
    if g.phases[t].Queued? && g.permits > 0 {
      pass := G.TakePermit(t, None);
      g' := G.EnabledStep(c, g, pass);
    } else {
      var x := SomeHolder(c, g, t);
      pass, g' := PassesOn(c, g, x);
    }
  }

  lemma SomeHolder(c: G.Config, g: G.System, t: string) returns (x: string)
    requires G.GateInv(c, g) && c.processSlots > 0 && c.coldSlots > 0
    requires t in g.phases && !g.phases[t].Finished? && (g.phases[t].Queued? ==> g.permits == 0)
    ensures G.Proceeds(g, x) && G.HasPermit(g.phases[x])
  {
    x := t;
    if g.phases[t].Queued? {
      x :| x in G.PermitHolders(g);
    }
    if g.phases[x].AtGate? {
      G.GateProgress(c, g, x);
      x :| G.Proceeds(g, x) && G.HasPermit(g.phases[x]);
    }
  }

  // No reachable state of a run is stuck, whatever waits on dependencies, permits, memory or
  // cold slots: until it has returned it can move without a panic or an abort.
  lemma Progress(u: Setup, s: State) returns (m: Move, s': State)
    requires Inv(u, s) && !s.run.phase.Returned?
    requires Graphs.Closed(R.DepGraph(u.tasks.deps)) && Graphs.Acyclic(R.DepGraph(u.tasks.deps))
    requires 0 < u.config.processSlots < 0x1_0000_0000 && u.config.coldSlots > 0
    ensures Ordinary(m) && Next(u, s, m, s')
  {
    var step, r' := R.RunProgress(u.Plan(), s.run);
    OtherSteps(u, s.run, step, r');
    InPhase(u, s.run, step, r');
    hide R.RunInvariant, G.GateInv, R.Next, G.Next, Steps;
    if step.PackageStep? {
      StatusAfter(u, s.run.packages, step.s, r'.packages);
      var t := step.s.t;
      if step.s.Finish? && !ResultReady(u, s.gates, t) {
        var pass, g' := GateOpens(u.config, s.gates, t);
        m, s' := GateMove(pass), State(s.run, g');
      } else {
        m := RunMove(step);
        s' := State(r', if step.s.Launch? then Enters(s.gates, t) else s.gates);
      }
    } else {
      m, s' := RunMove(step), State(r', s.gates);
    }
  }

  lemma InPhase(u: Setup, r: R.RunState, step: R.RunStep, r': R.RunState)
    requires R.Next(u.Plan(), r, step, r')
    ensures step.PackageStep? ==> r.phase.InPackages?
  {
  }

  // ---- Bound -------------------------------------------------------------------------------

  // The steps left at the gates: at most four per task.
  ghost function GateLeft(g: G.System): map<string, nat> {
    map t | t in g.phases :: 4 - G.Rank(g.phases[t])
  }

  // A task that starts has four steps at the gates before it.
  ghost function Left(u: Setup, s: State): nat
    requires R.RunInvariant(u.Plan(), s.run)
  {
    5 * R.Budget(u.Plan(), s.run) + Sum(GateLeft(s.gates))
  }

  lemma PassCounts(g: G.System, pass: G.Step, g': G.System)
    requires G.Next(g, pass, g')
    ensures Sum(GateLeft(g')) < Sum(GateLeft(g))
  {
    G.StepAdvances(g, pass, g');
    PassShape(g, pass, g');
    var t := pass.t;
    assert GateLeft(g') == GateLeft(g)[t := GateLeft(g')[t]];
    SumUpdate(GateLeft(g), t, GateLeft(g')[t]);
  }

  lemma EntersCounts(g: G.System, t: string)
    requires t !in g.phases
    ensures Sum(GateLeft(Enters(g, t))) == Sum(GateLeft(g)) + 4
  {
    assert GateLeft(Enters(g, t)) == GateLeft(g)[t := 4];
    SumWith(GateLeft(g), t, 4);
  }

  // At the gates a step of the package tasks adds at most what one starting task has before it.
  lemma GateCounts(u: Setup, p: R.Pool, g: G.System, step: R.PoolStep, p': R.Pool, g': G.System)
    requires Linked(u, p, g) && Steps(u, p, step, p') && AtGates(u, g, step, g')
    ensures Sum(GateLeft(g')) <= Sum(GateLeft(g)) + 4
  {
    hide Steps, G.Next;
    if step.Launch? {
      StatusAfter(u, p, step, p');
      EntersCounts(g, step.t);
    } else if g' != g {
      PassCounts(g, G.Abort(step.t), g');
    }
  }

  lemma StepCounts(u: Setup, s: State, m: Move, s': State)
    requires Inv(u, s) && Next(u, s, m, s')
    ensures R.RunInvariant(u.Plan(), s.run) && R.RunInvariant(u.Plan(), s'.run)
    ensures Left(u, s') < Left(u, s)
  {
    hide R.RunInvariant, G.GateInv, R.Next, G.Next, R.Budget, Steps, AtGates;
    match m
    case RunMove(step) =>
      OtherSteps(u, s.run, step, s'.run);
      R.RunStepCounts(u.Plan(), s.run, step, s'.run);
      if step.PackageStep? {
        GateCounts(u, s.run.packages, s.gates, step.s, s'.run.packages, s'.gates);
      }
    case GateMove(pass) => PassCounts(s.gates, pass, s'.gates);
  }

  // Every run is bounded by the task list; by Progress it ends only when it has returned.
  lemma {:induction false} RunIsFinite(u: Setup, states: seq<State>, moves: seq<Move>, i: nat)
    requires Run(u, states, moves) && i < |states|
    ensures R.RunInvariant(u.Plan(), states[0].run) && R.RunInvariant(u.Plan(), states[i].run)
    ensures i + Left(u, states[i]) <= Left(u, states[0])
    decreases i
  {
    hide Inv, Next, Left, R.RunInvariant;
    RunInv(u, states, moves, 0);
    RunInv(u, states, moves, i);
    RunnerInv(u, states[0]);
    RunnerInv(u, states[i]);
    if i > 0 {
      RunIsFinite(u, states, moves, i - 1);
      RunInv(u, states, moves, i - 1);
      StepCounts(u, states[i - 1], moves[i - 1], states[i]);
    }
  }

  lemma RunnerInv(u: Setup, s: State)
    requires Inv(u, s)
    ensures R.RunInvariant(u.Plan(), s.run)
  {
  }
}
