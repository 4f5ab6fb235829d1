/** The gates in front of every subprocess, as a state machine over any number of tasks:
    first a process permit, then either a memory reservation or a cold-start slot. Waiters
    at a gate try again whenever something is released. */
module Gates {
  import opened Wrappers
  import opened ResourceBudget

  type TaskId = string

  datatype Phase =
    | Queued                      // waiting for a process permit
    | AtGate(estimate: Option<u64>)  // has a permit; waits for memory, or for a cold slot when None
    | Running(held: Option<u64>)  // past both gates
    | Draining                    // guard released, permit still held
    | Finished

  datatype System = System(phases: map<TaskId, Phase>, permits: nat, budget: BudgetState, coldFree: nat)

  datatype Config = Config(processSlots: nat, coldSlots: nat, capacity: u64)

  predicate HasPermit(p: Phase) {
    p.AtGate? || p.Running? || p.Draining?
  }

  ghost function PermitHolders(s: System): set<TaskId> {
    set t | t in s.phases && HasPermit(s.phases[t])
  }

  ghost function ColdRunners(s: System): set<TaskId> {
    set t | t in s.phases && s.phases[t] == Running(None)
  }

  predicate HoldsMemory(p: Phase) {
    p.Running? && p.held.Some?
  }

  ghost function LiveMemory(s: System): map<TaskId, u64> {
    map t | t in s.phases && HoldsMemory(s.phases[t]) :: s.phases[t].held.value
  }

  ghost predicate GateInv(c: Config, s: System) {
    && s.permits + |PermitHolders(s)| == c.processSlots
    && s.coldFree + |ColdRunners(s)| == c.coldSlots
    && s.budget.capacity == c.capacity
    && Accounts(s.budget, LiveMemory(s))
  }

  datatype Step =
    | TakePermit(t: TaskId, estimate: Option<u64>)
    | PassMemory(t: TaskId)
    | PassCold(t: TaskId)
    | ReleaseGuard(t: TaskId)
    | ReleasePermit(t: TaskId)
    | Abort(t: TaskId)  // the task is dropped wherever it is, and so is all it holds

  function Moved(s: System, t: TaskId, p: Phase): System {
    s.(phases := s.phases[t := p])
  }

  ghost predicate Enabled(s: System, step: Step) {
    && step.t in s.phases
    && var p := s.phases[step.t];
    match step
    case TakePermit(_, _) => p.Queued? && s.permits > 0
    case PassMemory(_) => p.AtGate? && p.estimate.Some? && CanProceed(s.budget, p.estimate.value)
    case PassCold(_) => p.AtGate? && p.estimate.None? && s.coldFree > 0
    case ReleaseGuard(_) => p.Running?
    case ReleasePermit(_) => p.Draining?
    case Abort(_) => !p.Finished?
  }

  // The budget without what phase p holds.
  ghost predicate GaveBack(s: System, p: Phase, s': System) {
    && Freed(s.budget, if p.Running? then p.held else None, s'.budget)
    && s'.coldFree == s.coldFree + if p == Running(None) then 1 else 0
  }

  ghost predicate Next(s: System, step: Step, s': System) {
    && Enabled(s, step)
    && var t := step.t;
    && var p := s.phases[t];
    match step
    case TakePermit(_, e) => s' == Moved(s, t, AtGate(e)).(permits := s.permits - 1)
    case PassMemory(_) =>
      && s'.phases == s.phases[t := Running(p.estimate)] && s'.permits == s.permits && s'.coldFree == s.coldFree
      && s'.budget.capacity == s.budget.capacity
      && s'.budget.committed == s.budget.committed + p.estimate.value && s'.budget.active == s.budget.active + 1
    case PassCold(_) => s' == Moved(s, t, Running(None)).(coldFree := s.coldFree - 1)
    case ReleaseGuard(_) => s'.phases == s.phases[t := Draining] && s'.permits == s.permits && GaveBack(s, p, s')
    case ReleasePermit(_) => s' == Moved(s, t, Finished).(permits := s.permits + 1)
    case Abort(_) =>
      && s'.phases == s.phases[t := Finished] && GaveBack(s, p, s')
      && s'.permits == s.permits + if HasPermit(p) then 1 else 0
  }

  function Start(c: Config, tasks: set<TaskId>): System {
    System(map t | t in tasks :: Queued, c.processSlots, BudgetState(c.capacity, 0, 0), c.coldSlots)
  }

  lemma StartInv(c: Config, tasks: set<TaskId>)
    ensures GateInv(c, Start(c, tasks))
  {
    var s := Start(c, tasks);
    assert PermitHolders(s) == {} && ColdRunners(s) == {} && LiveMemory(s) == map[];
  }

  // How one task's change of phase shows in the three counts.
  lemma PermitCount(s: System, s': System, t: TaskId, p: Phase)
    requires t in s.phases && s'.phases == s.phases[t := p]
    ensures |PermitHolders(s')| ==
      |PermitHolders(s)| + (if HasPermit(p) then 1 else 0) - (if HasPermit(s.phases[t]) then 1 else 0)
  {
    var rest := PermitHolders(s) - {t};
    assert PermitHolders(s) == if HasPermit(s.phases[t]) then rest + {t} else rest;
    assert PermitHolders(s') == if HasPermit(p) then rest + {t} else rest;
  }

  lemma ColdCount(s: System, s': System, t: TaskId, p: Phase)
    requires t in s.phases && s'.phases == s.phases[t := p]
    ensures |ColdRunners(s')| ==
      |ColdRunners(s)| + (if p == Running(None) then 1 else 0) - (if s.phases[t] == Running(None) then 1 else 0)
  {
    var rest := ColdRunners(s) - {t};
    assert ColdRunners(s) == if s.phases[t] == Running(None) then rest + {t} else rest;
    assert ColdRunners(s') == if p == Running(None) then rest + {t} else rest;
  }

  lemma LiveChange(s: System, s': System, t: TaskId, p: Phase)
    requires t in s.phases && s'.phases == s.phases[t := p]
    ensures HoldsMemory(p) ==> LiveMemory(s') == LiveMemory(s)[t := p.held.value]
    ensures !HoldsMemory(p) ==> LiveMemory(s') == LiveMemory(s) - {t}
    ensures t in LiveMemory(s) <==> HoldsMemory(s.phases[t])
  {
  }

  lemma LiveFewer(s: System)
    ensures |LiveMemory(s)| <= |PermitHolders(s)|
  {
    SubsetSize(LiveMemory(s).Keys, PermitHolders(s));
  }

  // Every step of every task keeps the permits, the slots and the budget in balance.
  lemma StepInv(c: Config, s: System, step: Step, s': System)
    requires GateInv(c, s) && Next(s, step, s')
    ensures GateInv(c, s')
  {
    var t := step.t;
    var p, p' := s.phases[t], s'.phases[t];
    assert s'.phases == s.phases[t := p'];
    PermitCount(s, s', t, p');
    ColdCount(s, s', t, p');
    LiveChange(s, s', t, p');
    BudgetKept(s, step, s');
  }

  lemma BudgetKept(s: System, step: Step, s': System)
    requires Next(s, step, s') && Accounts(s.budget, LiveMemory(s))
    ensures Accounts(s'.budget, LiveMemory(s')) && s'.budget.capacity == s.budget.capacity
  {
    var t := step.t;
    var p := s.phases[t];
    LiveChange(s, s', t, s'.phases[t]);
    hide Accounts, LiveMemory;
    if step.PassMemory? {
      AdmitKeeps(s.budget, LiveMemory(s), t, p.estimate.value);
      assert s'.budget == Admitted(s.budget, p.estimate.value);
    } else if (step.ReleaseGuard? || step.Abort?) && HoldsMemory(p) {
      LiveValue(s, t);
      ReleaseKeeps(s.budget, LiveMemory(s), t);
      assert s'.budget == s.budget.(committed := s.budget.committed - p.held.value, active := s.budget.active - 1);
    } else {
      assert s'.budget == s.budget;
      assert LiveMemory(s) - {t} == LiveMemory(s);
    }
  }

  lemma LiveValue(s: System, t: TaskId)
    requires t in s.phases && HoldsMemory(s.phases[t])
    ensures t in LiveMemory(s) && LiveMemory(s)[t] == s.phases[t].held.value
  {
  }

  ghost predicate Run(c: Config, tasks: set<TaskId>, states: seq<System>, steps: seq<Step>) {
    && |states| == |steps| + 1 && states[0] == Start(c, tasks)
    && forall i :: 0 <= i < |steps| ==> Next(states[i], steps[i], states[i + 1])
  }

  lemma {:induction false} RunInv(c: Config, tasks: set<TaskId>, states: seq<System>, steps: seq<Step>, i: nat)
    requires Run(c, tasks, states, steps) && i < |states|
    ensures GateInv(c, states[i]) && states[i].phases.Keys == tasks
    decreases i
  {
    hide GateInv;
    if i == 0 {
      StartInv(c, tasks);
    } else {
      RunInv(c, tasks, states, steps, i - 1);
      assert Next(states[i - 1], steps[i - 1], states[i]);
      StepInv(c, states[i - 1], steps[i - 1], states[i]);
    }
  }

  // In every reachable state both semaphores bound what runs, and so the counter of active
  // reservations; and committed memory is bounded.
  lemma RunBounds(c: Config, tasks: set<TaskId>, states: seq<System>, steps: seq<Step>, i: nat)
    requires Run(c, tasks, states, steps) && i < |states|
    ensures |PermitHolders(states[i])| <= c.processSlots && |ColdRunners(states[i])| <= c.coldSlots
    ensures states[i].budget.active <= c.processSlots
    ensures states[i].budget.committed <= c.capacity ||
      exists t :: t in states[i].phases && HoldsMemory(states[i].phases[t])
        && states[i].budget.committed == states[i].phases[t].held.value
        && forall u :: u in states[i].phases && HoldsMemory(states[i].phases[u]) && u != t ==>
             states[i].phases[u].held.value == 0
  {
    var s := states[i];
    RunInv(c, tasks, states, steps, i);
    LiveFewer(s);
    CommittedBound(s.budget, LiveMemory(s));
    if s.budget.committed > c.capacity {
      var t :| t in LiveMemory(s) && Alone(LiveMemory(s), t) && s.budget.committed == LiveMemory(s)[t];
      forall u | u in s.phases && HoldsMemory(s.phases[u]) && u != t
        ensures s.phases[u].held.value == 0
      {
        LiveValue(s, u);
      }
    }
  }

  predicate Blocked(p: Phase) {
    p.Queued? || p.AtGate?
  }

  // The step that would let a blocked task through its gate.
  function Admission(t: TaskId, p: Phase): Step
    requires Blocked(p)
  {
    if p.Queued? then TakePermit(t, None)
    else if p.estimate.Some? then PassMemory(t)
    else PassCold(t)
  }

  predicate PastGates(p: Phase) {
    p.Running? || p.Draining?
  }

  ghost predicate NoReservation(s: System) {
    forall u :: u in s.phases ==> !HoldsMemory(s.phases[u])
  }

  // Who may pass: at the memory gate a task whose estimate fits beside what the others hold, or
  // that asks for nothing, or that finds no reservation live; elsewhere, while a slot is free.
  lemma {:induction false} GatesOpen(c: Config, s: System, t: TaskId, e: Option<u64>)
    requires GateInv(c, s) && t in s.phases
    ensures s.phases[t] == AtGate(e) && e.Some? ==>
      (Enabled(s, PassMemory(t)) <==>
       Sum(LiveMemory(s)) + e.value <= c.capacity || e.value == 0 || NoReservation(s))
    ensures s.phases[t] == AtGate(None) ==> (Enabled(s, PassCold(t)) <==> |ColdRunners(s)| < c.coldSlots)
    ensures s.phases[t].Queued? ==> (Enabled(s, TakePermit(t, e)) <==> |PermitHolders(s)| < c.processSlots)
  {
    assert NoReservation(s) <==> LiveMemory(s) == map[] by {
      assert forall u :: u in LiveMemory(s) <==> u in s.phases && HoldsMemory(s.phases[u]);
    }
    assert s.budget.active == 0 <==> LiveMemory(s) == map[];
  }

  // Past all gates, or able to pass the one it is at.
  ghost predicate Proceeds(s: System, u: TaskId) {
    && u in s.phases
    && (PastGates(s.phases[u]) || (Blocked(s.phases[u]) && Enabled(s, Admission(u, s.phases[u]))))
  }

  // Whenever a task is blocked at a gate, some task is past all gates, or one can be admitted.
  lemma AdmissionProgress(c: Config, s: System, t: TaskId)
    requires GateInv(c, s) && c.processSlots > 0 && c.coldSlots > 0
    requires t in s.phases && Blocked(s.phases[t])
    ensures exists u :: Proceeds(s, u)
  {
    if s.phases[t].Queued? {
      if s.permits == 0 {
        var u :| u in PermitHolders(s);
        if s.phases[u].AtGate? {
          GateProgress(c, s, u);
        } else {
          assert Proceeds(s, u);
        }
      } else {
        assert Proceeds(s, t);
      }
    } else {
      GateProgress(c, s, t);
    }
  }

  // An enabled step can be taken: with fewer than 2^32 permits no counter overflows.
  lemma EnabledStep(c: Config, s: System, step: Step) returns (s': System)
    requires GateInv(c, s) && Enabled(s, step) && c.processSlots < 0x1_0000_0000
    ensures Next(s, step, s')
  {
    var t := step.t;
    var p := s.phases[t];
    match step
    case TakePermit(_, e) => s' := Moved(s, t, AtGate(e)).(permits := s.permits - 1);
    case PassMemory(_) =>
      LiveFewer(s);
      assert t in PermitHolders(s) && t !in LiveMemory(s);
      SubsetSize(LiveMemory(s).Keys + {t}, PermitHolders(s));
      AdmitKeeps(s.budget, LiveMemory(s), t, p.estimate.value);
      s' := Moved(s, t, Running(p.estimate)).(budget := s.budget.(
        committed := s.budget.committed + p.estimate.value, active := s.budget.active + 1));
    case PassCold(_) => s' := Moved(s, t, Running(None)).(coldFree := s.coldFree - 1);
    case ReleaseGuard(_) =>
      s' := DropHeld(s, t, Draining);
    case ReleasePermit(_) => s' := Moved(s, t, Finished).(permits := s.permits + 1);
    case Abort(_) =>
      s' := DropHeld(s, t, Finished).(permits := s.permits + if HasPermit(p) then 1 else 0);
  }

  lemma HeldFits(s: System, t: TaskId)
    requires Accounts(s.budget, LiveMemory(s)) && t in s.phases && HoldsMemory(s.phases[t])
    ensures s.phases[t].held.value <= s.budget.committed && s.budget.active >= 1
  {
    LiveValue(s, t);
    ReleaseKeeps(s.budget, LiveMemory(s), t);
  }

  ghost function DropHeld(s: System, t: TaskId, next: Phase): (s': System)
    requires Accounts(s.budget, LiveMemory(s)) && t in s.phases
    ensures s'.phases == s.phases[t := next] && s'.permits == s.permits && GaveBack(s, s.phases[t], s')
  {
    var p := s.phases[t];
    var budget := if HoldsMemory(p) then
        HeldFits(s, t);
        s.budget.(committed := s.budget.committed - p.held.value, active := s.budget.active - 1)
      else s.budget;
    System(s.phases[t := next], s.permits, budget, s.coldFree + if p == Running(None) then 1 else 0)
  }

  // A task with a permit is held up only by one that is past both gates, itself with a permit.
  lemma GateProgress(c: Config, s: System, t: TaskId)
    requires GateInv(c, s) && c.coldSlots > 0 && t in s.phases && s.phases[t].AtGate?
    ensures exists u :: Proceeds(s, u) && HasPermit(s.phases[u])
  {
    if s.phases[t].estimate.Some? {
      if s.budget.active > 0 {
        assert LiveMemory(s) != map[];
        var u :| u in LiveMemory(s);
        assert Proceeds(s, u);
      } else {
        assert Proceeds(s, t);
      }
    } else if s.coldFree == 0 {
      var u :| u in ColdRunners(s);
      assert Proceeds(s, u);
    } else {
      assert Proceeds(s, t);
    }
  }

  // How far a task has come.
  function Rank(p: Phase): nat {
    match p
    case Queued => 0
    case AtGate(_) => 1
    case Running(_) => 2
    case Draining => 3
    case Finished => 4
  }

  ghost function Ranks(s: System): map<TaskId, nat> {
    map t | t in s.phases :: Rank(s.phases[t])
  }

  // Every step takes one task further, so at most four steps per task are ever made, and by
  // AdmissionProgress the steps only stop when no task is left.
  lemma StepAdvances(s: System, step: Step, s': System)
    requires Next(s, step, s')
    ensures s'.phases.Keys == s.phases.Keys
    ensures Rank(s'.phases[step.t]) > Rank(s.phases[step.t])
    ensures forall u :: u in s.phases && u != step.t ==> s'.phases[u] == s.phases[u]
  {
  }

  lemma {:induction false} StepsCounted(c: Config, tasks: set<TaskId>, states: seq<System>, steps: seq<Step>, i: nat)
    requires Run(c, tasks, states, steps) && i < |states|
    ensures states[i].phases.Keys == tasks && Sum(Ranks(states[i])) >= i
    decreases i
  {
    hide GateInv, Next, Rank;
    RunInv(c, tasks, states, steps, i);
    if i > 0 {
      var s, step, s' := states[i - 1], steps[i - 1], states[i];
      StepsCounted(c, tasks, states, steps, i - 1);
      assert Next(s, step, s');
      RanksGrow(s, step, s');
    }
  }

  lemma RanksGrow(s: System, step: Step, s': System)
    requires Next(s, step, s')
    ensures Sum(Ranks(s')) > Sum(Ranks(s))
  {
    StepAdvances(s, step, s');
    var t := step.t;
    assert Ranks(s') == Ranks(s)[t := Rank(s'.phases[t])];
    SumUpdate(Ranks(s), t, Rank(s'.phases[t]));
  }

  // No run makes more than four steps per task.
  lemma RunIsFinite(c: Config, tasks: set<TaskId>, states: seq<System>, steps: seq<Step>)
    requires Run(c, tasks, states, steps)
    ensures |steps| <= 4 * |tasks|
  {
    StepsCounted(c, tasks, states, steps, |steps|);
    var r := Ranks(states[|steps|]);
    SumBounded(r, 4);
    assert r.Keys == tasks;
    assert |r| == |tasks|;
  }
}
