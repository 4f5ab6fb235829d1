/** The local scheduler: every task is spawned up front and waits on one completion channel
    per dependency; a main loop joins results and, at the first error, aborts the rest.
    Root tasks form a barrier in front of the package tasks. */
module Runner {
  import opened Wrappers
  import opened Graphs

  // What a task's completion channel shows. It changes at most once; a channel whose
  // sender is gone without sending counts as failed.
  datatype DepState = Pending | Done | Failed

  datatype Status =
    | Waiting(next: nat)   // in the loop over its dependencies, at this one
    | Running              // its subprocess has started
    | Succeeded
    | Errored              // its command failed, or it was skipped
    | Gone                 // it was aborted or it panicked
  {
    predicate Final() { Succeeded? || Errored? || Gone? }
  }

  function Channel(st: Status): DepState {
    match st
    case Waiting(_) => Pending
    case Running => Pending
    case Succeeded => Done
    case Errored => Failed
    case Gone => Failed
  }

  // The waited-for dependencies of each task of a run.
  type DepLists = map<string, seq<string>>

  // ---- Setting up the channels ---------------------------------------------------------------

  datatype PackageTask = PackageTask(packageName: string, depPackageNames: seq<string>)

  ghost predicate UniqueNames(tasks: seq<PackageTask>) {
    forall i, j :: 0 <= i < j < |tasks| ==> tasks[i].packageName != tasks[j].packageName
  }

  // The dependencies that are built in this run; the others are ignored.
  function Known(receivers: set<string>, ds: seq<string>): seq<string> {
    if ds == [] then [] else
      Known(receivers, ds[..|ds| - 1]) + if ds[|ds| - 1] in receivers then [ds[|ds| - 1]] else []
  }

  function Names(tasks: seq<PackageTask>): set<string> {
    set t | t in tasks :: t.packageName
  }

  method WaitLists(tasks: seq<PackageTask>) returns (deps: DepLists)
    requires UniqueNames(tasks)
    ensures deps.Keys == Names(tasks)
    ensures forall t :: t in tasks ==> deps[t.packageName] == Known(Names(tasks), t.depPackageNames)
  {
    var receivers: set<string> := {};
    for i := 0 to |tasks|
      invariant receivers == Names(tasks[..i])
    {
      assert tasks[..i + 1] == tasks[..i] + [tasks[i]];
      receivers := receivers + {tasks[i].packageName};
    }
    assert tasks[..|tasks|] == tasks;
    deps := map[];
    for i := 0 to |tasks|
      invariant deps.Keys == Names(tasks[..i])
      invariant forall t :: t in tasks[..i] ==> deps[t.packageName] == Known(receivers, t.depPackageNames)
    {
      assert tasks[..i + 1] == tasks[..i] + [tasks[i]];
      var waits: seq<string>, ds := [], tasks[i].depPackageNames;
      for j := 0 to |ds|
        invariant waits == Known(receivers, ds[..j])
      {
        assert ds[..j + 1][..j] == ds[..j];
        if ds[j] in receivers {
          waits := waits + [ds[j]];
        }
      }
      assert ds[..|ds|] == ds;
      deps := deps[tasks[i].packageName := waits];
    }
  }

  lemma {:induction false} KnownElems(receivers: set<string>, ds: seq<string>)
    ensures forall d :: d in Known(receivers, ds) <==> d in ds && d in receivers
  {
    if ds != [] {
      KnownElems(receivers, ds[..|ds| - 1]);
      assert ds == ds[..|ds| - 1] + [ds[|ds| - 1]];
    }
  }

  // ... in the order given, as often as given.
  lemma {:induction false} KnownSplit(receivers: set<string>, a: seq<string>, b: seq<string>)
    ensures Known(receivers, a + b) == Known(receivers, a) + Known(receivers, b)
    decreases |b|
  {
    if b == [] {
      assert a + b == a;
    } else {
      KnownSplit(receivers, a, b[..|b| - 1]);
      assert (a + b)[..|a + b| - 1] == a + b[..|b| - 1];
    }
  }

  lemma {:induction false} KnownOne(receivers: set<string>, d: string)
    ensures Known(receivers, [d]) == if d in receivers then [d] else []
  {
    assert [d][..0] == [] && Known(receivers, []) == [];
  }

  // The wait lists lead only to tasks of the run, and along edges of the workspace; so a
  // workspace without cycles gives wait lists without cycles.
  lemma WaitListsSound(tasks: seq<PackageTask>, deps: DepLists, g: Graph)
    requires deps.Keys == Names(tasks)
    requires forall t :: t in tasks ==> deps[t.packageName] == Known(Names(tasks), t.depPackageNames)
    requires forall t, d :: t in tasks && d in t.depPackageNames ==> d in Succ(g, t.packageName)
    requires Acyclic(g)
    ensures Closed(DepGraph(deps)) && Acyclic(DepGraph(deps))
  {
    var h := DepGraph(deps);
    forall n, d | d in Succ(h, n)
      ensures d in Succ(g, n)
    {
      WaitEdge(tasks, deps, n, d);
    }
    forall n | n in h
      ensures h[n] <= h.Keys
    {
      forall d | d in h[n]
        ensures d in h
      {
        WaitEdge(tasks, deps, n, d);
      }
    }
    SubgraphAcyclic(h, g);
  }

  lemma WaitEdge(tasks: seq<PackageTask>, deps: DepLists, n: string, d: string)
    requires deps.Keys == Names(tasks)
    requires forall t :: t in tasks ==> deps[t.packageName] == Known(Names(tasks), t.depPackageNames)
    requires d in Succ(DepGraph(deps), n)
    ensures d in deps && exists t :: t in tasks && t.packageName == n && d in t.depPackageNames
  {
    var t :| t in tasks && t.packageName == n;
    KnownElems(Names(tasks), t.depPackageNames);
  }

  lemma SubgraphAcyclic(h: Graph, g: Graph)
    requires Acyclic(g) && forall n, d :: d in Succ(h, n) ==> d in Succ(g, n)
    ensures Acyclic(h)
  {
    forall n | n in h
      ensures !ReachPlus(h, n, n)
    {
      if ReachPlus(h, n, n) {
        SubgraphReach(h, g, n);
      }
    }
  }

  lemma SubgraphReach(h: Graph, g: Graph, n: string)
    requires ReachPlus(h, n, n) && forall n, d :: d in Succ(h, n) ==> d in Succ(g, n)
    ensures n in g && ReachPlus(g, n, n)
  {
    var d :| d in Succ(h, n) && Reach(h, d, n);
    var p :| Connects(h, p, d, n);
    SubgraphPath(h, g, p);
    assert d in Succ(g, n) && Connects(g, p, d, n);
  }

  lemma {:induction false} SubgraphPath(h: Graph, g: Graph, p: Path)
    requires ValidPath(h, p) && forall n, d :: d in Succ(h, n) ==> d in Succ(g, n)
    ensures ValidPath(g, p)
    decreases p
  {
    match p
    case At(_) =>
    case Via(_, rest) => SubgraphPath(h, g, rest);
  }

  // ---- Waiting -------------------------------------------------------------------------------

  // What a receiver would show at successive looks, up to the moment its sender is gone.
  type Looks = seq<DepState>

  // A receiver tells of a failure when the first state it shows other than Pending is Failed, or
  // when it shows nothing but Pending until its sender is gone.
  ghost predicate EndsFailed(looks: Looks) {
    || (forall i :: 0 <= i < |looks| ==> looks[i] == Pending)
    || exists k :: FirstSettled(looks, k) && looks[k] == Failed
  }

  ghost predicate FirstSettled(looks: Looks, k: int) {
    0 <= k < |looks| && looks[k] != Pending && forall i :: 0 <= i < k ==> looks[i] == Pending
  }

  // There is at most one first look that is not Pending.
  lemma {:induction false} SettledOnce(looks: Looks, k: int)
    requires FirstSettled(looks, k)
    ensures EndsFailed(looks) <==> looks[k] == Failed
  {
    forall j | FirstSettled(looks, j)
      ensures j == k
    {
    }
  }

  method AwaitDeps(receivers: seq<Looks>) returns (anyFailed: bool)
    ensures anyFailed <==> exists i :: 0 <= i < |receivers| && EndsFailed(receivers[i])
  {
    for i := 0 to |receivers|
      invariant forall j :: 0 <= j < i ==> !EndsFailed(receivers[j])
    {
      var rx := receivers[i];
      ghost var seen := 0;
      var looking := true;
      while looking
        invariant looking ==> seen <= |receivers[i]| && rx == receivers[i][seen..]
        invariant looking ==> forall j :: 0 <= j < seen ==> receivers[i][j] == Pending
        invariant !looking ==> !EndsFailed(receivers[i])
        decreases looking, |rx|
      {
        if rx == [] {
          assert EndsFailed(receivers[i]);
          return true;
        }
        var state := rx[0];
        if state != Pending {
          SettledOnce(receivers[i], seen);
          if state == Failed {
            return true;
          }
          looking := false;
        } else {
          rx := rx[1..];
          seen := seen + 1;
        }
      }
    }
    return false;
  }

  // ---- One JoinSet ---------------------------------------------------------------------------

  // One JoinSet: the tasks, the joined ones, whether an error was seen and the rest aborted.
  // `finished` logs the tasks in the order they sent Done; `crashed` records any panic.
  datatype Pool = Pool(status: map<string, Status>, joined: set<string>, failed: bool, aborting: bool,
                       finished: seq<string>, crashed: bool)

  datatype PoolStep =
    | Advance(t: string)
    | Skip(t: string)
    | Launch(t: string)
    | Finish(t: string)
    | Panic(t: string)
    | Abort(t: string)
    | Join(t: string)

  function Spawned(deps: DepLists): Pool {
    Pool(map t | t in deps :: Waiting(0), {}, false, false, [], false)
  }

  function Set(p: Pool, t: string, st: Status): Pool {
    p.(status := p.status[t := st])
  }

  // The dependency a waiting task looks at next.
  ghost predicate LooksAt(deps: DepLists, p: Pool, t: string, d: string) {
    t in p.status && t in deps && p.status[t].Waiting? && p.status[t].next < |deps[t]| && deps[t][p.status[t].next] == d
  }

  // `ok` is the set of tasks that succeed when run. The two runners differ in whether a
  // panic also aborts the other tasks.
  ghost predicate PoolNext(deps: DepLists, ok: set<string>, panicAborts: bool, p: Pool, step: PoolStep, p': Pool) {
    && step.t in p.status && step.t in deps
    && var t := step.t;
    && var st := p.status[t];
    match step
    case Advance(_) =>
      && (exists d :: LooksAt(deps, p, t, d) && d in p.status && Channel(p.status[d]) == Done)
      && p' == Set(p, t, Waiting(st.next + 1))
    case Skip(_) =>
      && (exists d :: LooksAt(deps, p, t, d) && d in p.status && Channel(p.status[d]) == Failed)
      && p' == Set(p, t, Errored)
    case Launch(_) => st == Waiting(|deps[t]|) && p' == Set(p, t, Running)
    case Finish(_) =>
      && st.Running?
      && p' == if t in ok then Set(p, t, Succeeded).(finished := p.finished + [t]) else Set(p, t, Errored)
    case Panic(_) => !st.Final() && p' == Set(p, t, Gone).(crashed := true)
    case Abort(_) => p.aborting && !st.Final() && p' == Set(p, t, Gone)
    case Join(_) =>
      && st.Final() && t !in p.joined
      && p' == p.(joined := p.joined + {t},
                  failed := p.failed || !st.Succeeded?,
                  aborting := p.aborting || st.Errored? || (st.Gone? && panicAborts))
  }

  // ---- Invariant ---------------------------------------------------------------------------

  predicate DepsDone(deps: DepLists, status: map<string, Status>, t: string, n: nat)
    requires t in deps && n <= |deps[t]|
  {
    forall i | 0 <= i < n :: deps[t][i] in status && status[deps[t][i]].Succeeded?
  }

  // A task that waits has seen its earlier dependencies done; one that started has seen all.
  ghost predicate StartedAfterDeps(deps: DepLists, status: map<string, Status>) {
    && (forall t :: t in status && t in deps && status[t].Waiting? ==>
         status[t].next <= |deps[t]| && DepsDone(deps, status, t, status[t].next))
    && (forall t :: t in status && t in deps && (status[t].Running? || status[t].Succeeded?) ==>
         DepsDone(deps, status, t, |deps[t]|))
  }

  ghost predicate DepsFirst(deps: DepLists, finished: seq<string>) {
    forall i, d :: 0 <= i < |finished| && finished[i] in deps && d in deps[finished[i]] ==> d in finished[..i]
  }

  // `finished` lists the successes, each after its dependencies.
  ghost predicate LinearExtension(deps: DepLists, status: map<string, Status>, finished: seq<string>) {
    && NoDup(finished)
    && (forall t :: t in finished <==> t in status && status[t].Succeeded?)
    && DepsFirst(deps, finished)
  }

  predicate Culprit(ok: set<string>, status: map<string, Status>, c: string) {
    c in status && status[c].Errored? && c !in ok
  }

  // Why anything went wrong: some command failed, or something panicked.
  ghost predicate Explained(ok: set<string>, p: Pool) {
    (exists t :: t in p.status && (p.status[t].Errored? || p.status[t].Gone?)) || p.aborting ==>
      p.crashed || exists c :: Culprit(ok, p.status, c)
  }

  ghost predicate Spoiled(p: Pool, t: string) {
    t in p.joined && t in p.status && !p.status[t].Succeeded?
  }

  ghost predicate JoinedRight(p: Pool) {
    && (forall t :: t in p.joined ==> t in p.status && p.status[t].Final())
    && (p.failed <==> exists t :: Spoiled(p, t))
  }

  ghost predicate PoolInv(deps: DepLists, ok: set<string>, p: Pool) {
    && p.status.Keys == deps.Keys
    && StartedAfterDeps(deps, p.status)
    && LinearExtension(deps, p.status, p.finished)
    && (forall t :: t in p.status && p.status[t].Succeeded? ==> t in ok)
    && Explained(ok, p)
    && JoinedRight(p)
  }

  lemma SpawnedInv(deps: DepLists, ok: set<string>)
    ensures PoolInv(deps, ok, Spawned(deps))
  {
  }

  // A step changes one task's status, and never one that is final.
  lemma StepShape(deps: DepLists, ok: set<string>, pa: bool, p: Pool, step: PoolStep, p': Pool)
    requires PoolNext(deps, ok, pa, p, step, p')
    ensures p'.status.Keys == p.status.Keys
    ensures forall t :: t in p.status && t != step.t ==> p'.status[t] == p.status[t]
    ensures forall t :: t in p.status && p.status[t].Final() ==> p'.status[t] == p.status[t]
  {
  }

  lemma StartedKept(deps: DepLists, ok: set<string>, pa: bool, p: Pool, step: PoolStep, p': Pool)
    requires PoolNext(deps, ok, pa, p, step, p') && p.status.Keys == deps.Keys && StartedAfterDeps(deps, p.status)
    ensures StartedAfterDeps(deps, p'.status)
  {
    StepShape(deps, ok, pa, p, step, p');
    forall t, n: nat | t in p.status && n <= |deps[t]| && DepsDone(deps, p.status, t, n)
      ensures DepsDone(deps, p'.status, t, n)
    {
      forall i | 0 <= i < n
        ensures p'.status[deps[t][i]].Succeeded?
      {
        assert p.status[deps[t][i]].Succeeded?;
      }
    }
    var t := step.t;
    if step.Advance? {
      assert DepsDone(deps, p.status, t, p.status[t].next + 1);
    }
  }

  lemma FinishedKept(deps: DepLists, ok: set<string>, pa: bool, p: Pool, step: PoolStep, p': Pool)
    requires PoolNext(deps, ok, pa, p, step, p') && p.status.Keys == deps.Keys
    requires StartedAfterDeps(deps, p.status) && LinearExtension(deps, p.status, p.finished)
    ensures LinearExtension(deps, p'.status, p'.finished)
  {
    StepShape(deps, ok, pa, p, step, p');
    if step.Finish? && step.t in ok {
      var t := step.t;
      NoDupConcat(p.finished, [t]);
      assert DepsDone(deps, p.status, t, |deps[t]|);
      assert p'.finished[..|p.finished|] == p.finished;
      forall i, d | 0 <= i < |p'.finished| && p'.finished[i] in deps && d in deps[p'.finished[i]]
        ensures d in p'.finished[..i]
      {
        if i < |p.finished| {
          assert p'.finished[..i] == p.finished[..i];
        }
      }
    } else {
      assert p'.finished == p.finished;
    }
  }

  lemma ExplainedKept(deps: DepLists, ok: set<string>, pa: bool, p: Pool, step: PoolStep, p': Pool)
    requires PoolNext(deps, ok, pa, p, step, p') && Explained(ok, p)
    ensures Explained(ok, p')
  {
    StepShape(deps, ok, pa, p, step, p');
    forall c | Culprit(ok, p.status, c)
      ensures Culprit(ok, p'.status, c)
    {
    }
    if step.Finish? && step.t !in ok {
      assert Culprit(ok, p'.status, step.t);
    }
  }

  lemma JoinedKept(deps: DepLists, ok: set<string>, pa: bool, p: Pool, step: PoolStep, p': Pool)
    requires PoolNext(deps, ok, pa, p, step, p') && JoinedRight(p)
    ensures JoinedRight(p')
  {
    StepShape(deps, ok, pa, p, step, p');
    forall t | Spoiled(p, t)
      ensures Spoiled(p', t)
    {
    }
    if step.Join? && !p.status[step.t].Succeeded? {
      assert Spoiled(p', step.t);
    }
    if t :| Spoiled(p', t) {
      assert Spoiled(p, t) || (step.Join? && t == step.t);
    }
  }

  lemma PoolStepInv(deps: DepLists, ok: set<string>, pa: bool, p: Pool, step: PoolStep, p': Pool)
    requires PoolInv(deps, ok, p) && PoolNext(deps, ok, pa, p, step, p')
    ensures PoolInv(deps, ok, p')
  {
    StepShape(deps, ok, pa, p, step, p');
    StartedKept(deps, ok, pa, p, step, p');
    FinishedKept(deps, ok, pa, p, step, p');
    ExplainedKept(deps, ok, pa, p, step, p');
    JoinedKept(deps, ok, pa, p, step, p');
    hide StartedAfterDeps, LinearExtension, Explained, JoinedRight;
  }

  // ---- Progress ----------------------------------------------------------------------------

  ghost function DepGraph(deps: DepLists): Graph {
    map t | t in deps :: set d | d in deps[t]
  }

  // Steps that need neither a panic nor an abort.
  predicate Ordinary(step: PoolStep) {
    !step.Panic? && !step.Abort?
  }

  predicate AllJoined(p: Pool) {
    forall t | t in p.status :: t in p.joined
  }

  // No reachable pool has all its unresolved tasks waiting on each other.
  lemma PoolProgress(deps: DepLists, ok: set<string>, pa: bool, p: Pool) returns (step: PoolStep, p': Pool)
    requires PoolInv(deps, ok, p) && Closed(DepGraph(deps)) && Acyclic(DepGraph(deps))
    requires !AllJoined(p)
    ensures Ordinary(step) && PoolNext(deps, ok, pa, p, step, p')
  {
    var g := DepGraph(deps);
    var t0 :| t0 in p.status && t0 !in p.joined;
    var open := set t | t in p.status && !p.status[t].Final();
    if !p.status[t0].Final() {
      var m := Minimal(g, open, t0);
      step, p' := Resolve(deps, ok, pa, p, m);
    } else {
      step := Join(t0);
      var st := p.status[t0];
      p' := p.(joined := p.joined + {t0}, failed := p.failed || !st.Succeeded?,
               aborting := p.aborting || st.Errored? || (st.Gone? && pa));
    }
  }

  // An unresolved task whose dependencies are all resolved can take its next step.
  lemma Resolve(deps: DepLists, ok: set<string>, pa: bool, p: Pool, m: string) returns (step: PoolStep, p': Pool)
    requires PoolInv(deps, ok, p) && Closed(DepGraph(deps)) && m in p.status && !p.status[m].Final()
    requires forall d :: d in DepGraph(deps)[m] && d in p.status ==> p.status[d].Final()
    ensures Ordinary(step) && PoolNext(deps, ok, pa, p, step, p')
  {
    if p.status[m].Running? {
      step := Finish(m);
      p' := if m in ok then Set(p, m, Succeeded).(finished := p.finished + [m]) else Set(p, m, Errored);
    } else if p.status[m].next == |deps[m]| {
      step := Launch(m);
      p' := Set(p, m, Running);
    } else {
      var d := deps[m][p.status[m].next];
      assert d in DepGraph(deps)[m] && LooksAt(deps, p, m, d);
      if p.status[d].Succeeded? {
        step := Advance(m);
        p' := Set(p, m, Waiting(p.status[m].next + 1));
      } else {
        step := Skip(m);
        p' := Set(p, m, Errored);
      }
    }
  }

  // The steps a task has left: one per dependency, then start, finish and join.
  function Left(deps: DepLists, p: Pool, t: string): nat
    requires t in p.status && t in deps
  {
    if t in p.joined then 0
    else match p.status[t]
      case Waiting(n) => (if n <= |deps[t]| then |deps[t]| - n else 0) + 3
      case Running => 2
      case _ => 1
  }

  ghost function Lefts(deps: DepLists, p: Pool): map<string, nat>
    requires p.status.Keys == deps.Keys
  {
    map t | t in p.status :: Left(deps, p, t)
  }

  lemma LeftShrinks(deps: DepLists, ok: set<string>, pa: bool, p: Pool, step: PoolStep, p': Pool)
    requires p.status.Keys == deps.Keys && JoinedRight(p) && PoolNext(deps, ok, pa, p, step, p')
    ensures p'.status.Keys == deps.Keys && Left(deps, p', step.t) < Left(deps, p, step.t)
    ensures forall t :: t in p.status && t != step.t ==> Left(deps, p', t) == Left(deps, p, t)
  {
    StepShape(deps, ok, pa, p, step, p');
    assert step.t !in p.joined;
  }

  // Every step uses up at least one of them.
  lemma PoolStepCounts(deps: DepLists, ok: set<string>, pa: bool, p: Pool, step: PoolStep, p': Pool)
    requires PoolInv(deps, ok, p) && PoolNext(deps, ok, pa, p, step, p')
    ensures p'.status.Keys == deps.Keys && Sum(Lefts(deps, p')) < Sum(Lefts(deps, p))
  {
    LeftShrinks(deps, ok, pa, p, step, p');
    assert step.t in deps;
    hide PoolNext, StartedAfterDeps, LinearExtension, Explained, JoinedRight, Left;
    var t := step.t;
    var m, m' := Lefts(deps, p), Lefts(deps, p');
    assert m' == m[t := m'[t]];
    SumUpdate(m, t, m'[t]);
  }

  // A started task has everything below it done.
  lemma DependenciesDone(deps: DepLists, ok: set<string>, p: Pool, t: string, d: string)
    requires PoolInv(deps, ok, p) && t in p.status && (p.status[t].Running? || p.status[t].Succeeded?)
    requires ReachPlus(DepGraph(deps), t, d)
    ensures d in p.status && p.status[d].Succeeded?
  {
    var g := DepGraph(deps);
    var e :| e in Succ(g, t) && Reach(g, e, d);
    var path :| Connects(g, path, e, d);
    DoneBelow(deps, p, Via(t, path));
  }

  lemma {:induction false} DoneBelow(deps: DepLists, p: Pool, path: Path)
    requires p.status.Keys == deps.Keys && StartedAfterDeps(deps, p.status)
    requires ValidPath(DepGraph(deps), path) && path.n in p.status
    requires p.status[path.n].Succeeded? || (path.Via? && p.status[path.n].Running?)
    ensures Last(path) in p.status && p.status[Last(path)].Succeeded?
    decreases path
  {
    match path
    case At(_) =>
    case Via(n, rest) =>
      assert DepsDone(deps, p.status, n, |deps[n]|) && rest.n in deps[n];
      DoneBelow(deps, p, rest);
  }

  // ---- What a joined pool tells ---------------------------------------------------------------

  predicate AllSucceeded(p: Pool) {
    forall t | t in p.status :: p.status[t].Succeeded?
  }

  lemma JoinedVerdict(deps: DepLists, ok: set<string>, p: Pool)
    requires PoolInv(deps, ok, p) && AllJoined(p)
    ensures !p.failed <==> AllSucceeded(p)
    ensures !p.crashed ==> (!p.failed <==> deps.Keys <= ok)
  {
    if p.failed {
      var t :| Spoiled(p, t);
    } else {
      forall t | t in p.status
        ensures p.status[t].Succeeded?
      {
        assert !Spoiled(p, t);
      }
    }
    if p.failed && !p.crashed {
      var t :| Spoiled(p, t);
      assert p.status[t].Errored? || p.status[t].Gone?;
      var c :| Culprit(ok, p.status, c);
    }
  }

  // ---- The whole run: root tasks, then package tasks ------------------------------------------

  datatype Phase = InRoots | InPackages | Returned(ok: bool)

  datatype RunState = RunState(phase: Phase, roots: Pool, packages: Pool)

  // The tasks of a run, with the dependencies each package task waits for.
  datatype Plan = Plan(roots: set<string>, deps: DepLists, rootsOk: set<string>, ok: set<string>, panicAborts: bool)

  function RootDeps(plan: Plan): DepLists {
    map r | r in plan.roots :: []
  }

  datatype RunStep = RootStep(s: PoolStep) | PackageStep(s: PoolStep) | EndRoots | EndPackages

  function Begin(plan: Plan): RunState {
    RunState(InRoots, Spawned(RootDeps(plan)), Spawned(plan.deps))
  }

  ghost predicate Next(plan: Plan, r: RunState, step: RunStep, r': RunState) {
    match step
    case RootStep(s) =>
      && r.phase.InRoots? && r' == r.(roots := r'.roots)
      && PoolNext(RootDeps(plan), plan.rootsOk, plan.panicAborts, r.roots, s, r'.roots)
    case EndRoots =>
      && r.phase.InRoots? && AllJoined(r.roots)
      && r' == r.(phase := if r.roots.failed then Returned(false) else InPackages)
    case PackageStep(s) =>
      && r.phase.InPackages? && r' == r.(packages := r'.packages)
      && PoolNext(plan.deps, plan.ok, plan.panicAborts, r.packages, s, r'.packages)
    case EndPackages =>
      && r.phase.InPackages? && AllJoined(r.packages)
      && r' == r.(phase := Returned(!r.packages.failed))
  }

  ghost predicate Run(plan: Plan, states: seq<RunState>, steps: seq<RunStep>) {
    && |states| == |steps| + 1 && states[0] == Begin(plan)
    && forall i :: 0 <= i < |steps| ==> Next(plan, states[i], steps[i], states[i + 1])
  }

  ghost predicate RunInvariant(plan: Plan, r: RunState) {
    && PoolInv(RootDeps(plan), plan.rootsOk, r.roots)
    && PoolInv(plan.deps, plan.ok, r.packages)
    && (r.phase.InRoots? ==> r.packages == Spawned(plan.deps))
    && (r.phase.InPackages? ==> AllJoined(r.roots) && !r.roots.failed)
    && (r.phase.Returned? ==> AllJoined(r.roots))
    && (r.phase.Returned? && r.roots.failed ==> !r.phase.ok && r.packages == Spawned(plan.deps))
    && (r.phase.Returned? && !r.roots.failed ==> AllJoined(r.packages) && r.phase.ok == !r.packages.failed)
  }

  lemma RunStepInv(plan: Plan, r: RunState, step: RunStep, r': RunState)
    requires RunInvariant(plan, r) && Next(plan, r, step, r')
    ensures RunInvariant(plan, r')
  {
    match step
    case RootStep(s) => PoolStepInv(RootDeps(plan), plan.rootsOk, plan.panicAborts, r.roots, s, r'.roots);
    case PackageStep(s) => PoolStepInv(plan.deps, plan.ok, plan.panicAborts, r.packages, s, r'.packages);
    case EndRoots =>
    case EndPackages =>
  }

  lemma {:induction false} RunInv(plan: Plan, states: seq<RunState>, steps: seq<RunStep>, i: nat)
    requires Run(plan, states, steps) && i < |states|
    ensures RunInvariant(plan, states[i])
    decreases i
  {
    if i == 0 {
      SpawnedInv(RootDeps(plan), plan.rootsOk);
      SpawnedInv(plan.deps, plan.ok);
    } else {
      RunInv(plan, states, steps, i - 1);
      assert Next(plan, states[i - 1], steps[i - 1], states[i]);
      hide RunInvariant, Next;
      RunStepInv(plan, states[i - 1], steps[i - 1], states[i]);
    }
  }

  // Safety, in every state of every run: a package task's subprocess starts only after all it
  // depends on through the wait lists has sent Done and every root task has succeeded.
  lemma SubprocessSafety(plan: Plan, states: seq<RunState>, steps: seq<RunStep>, i: nat, t: string, d: string)
    requires Run(plan, states, steps) && i < |states|
    requires t in states[i].packages.status
    requires states[i].packages.status[t].Running? || states[i].packages.status[t].Succeeded?
    ensures AllSucceeded(states[i].roots)
    ensures ReachPlus(DepGraph(plan.deps), t, d) ==>
      d in states[i].packages.status && Channel(states[i].packages.status[d]) == Done
    ensures t in plan.deps && (d in plan.deps[t] ==>
      d in states[i].packages.status && states[i].packages.status[d].Succeeded?)
  {
    var r := states[i];
    RunInv(plan, states, steps, i);
    JoinedVerdict(RootDeps(plan), plan.rootsOk, r.roots);
    assert t in plan.deps;
    if d in plan.deps[t] {
      ReachRefl(DepGraph(plan.deps), d);
    }
    if ReachPlus(DepGraph(plan.deps), t, d) {
      DependenciesDone(plan.deps, plan.ok, r.packages, t, d);
    }
  }

  // A run that has returned is Ok exactly when every task is Done, and then the order in which
  // the tasks finished lists each of them once, after its dependencies. If nothing panics, that
  // is exactly when every task's command succeeds.
  lemma ReturnedVerdict(plan: Plan, r: RunState)
    requires RunInvariant(plan, r) && r.phase.Returned?
    ensures r.phase.ok <==> AllSucceeded(r.roots) && AllSucceeded(r.packages)
    ensures r.phase.ok ==>
      && NoDup(r.packages.finished) && Elems(r.packages.finished) == plan.deps.Keys
      && DepsFirst(plan.deps, r.packages.finished)
    ensures !r.roots.crashed && !r.packages.crashed ==>
      (r.phase.ok <==> plan.roots <= plan.rootsOk && plan.deps.Keys <= plan.ok)
  {
    assert RootDeps(plan).Keys == plan.roots;
    JoinedVerdict(RootDeps(plan), plan.rootsOk, r.roots);
    if !r.roots.failed {
      JoinedVerdict(plan.deps, plan.ok, r.packages);
    }
  }

  lemma RunVerdict(plan: Plan, states: seq<RunState>, steps: seq<RunStep>)
    requires Run(plan, states, steps) && states[|steps|].phase.Returned?
    ensures states[|steps|].phase.ok <==> AllSucceeded(states[|steps|].roots) && AllSucceeded(states[|steps|].packages)
    ensures states[|steps|].phase.ok ==>
      && NoDup(states[|steps|].packages.finished) && Elems(states[|steps|].packages.finished) == plan.deps.Keys
      && DepsFirst(plan.deps, states[|steps|].packages.finished)
    ensures !states[|steps|].roots.crashed && !states[|steps|].packages.crashed ==>
      (states[|steps|].phase.ok <==> plan.roots <= plan.rootsOk && plan.deps.Keys <= plan.ok)
  {
    RunInv(plan, states, steps, |steps|);
    hide RunInvariant, Run, AllSucceeded, DepsFirst;
    ReturnedVerdict(plan, states[|steps|]);
  }

  // A run that has not returned can go on without a panic or an abort.
  lemma RunProgress(plan: Plan, r: RunState) returns (step: RunStep, r': RunState)
    requires RunInvariant(plan, r) && !r.phase.Returned?
    requires Closed(DepGraph(plan.deps)) && Acyclic(DepGraph(plan.deps))
    ensures Next(plan, r, step, r')
    ensures step.RootStep? || step.PackageStep? ==> Ordinary(step.s)
  {
    if r.phase.InRoots? {
      if AllJoined(r.roots) {
        step := EndRoots;
        r' := r.(phase := if r.roots.failed then Returned(false) else InPackages);
      } else {
        NoEdges(plan);
        var s, p' := PoolProgress(RootDeps(plan), plan.rootsOk, plan.panicAborts, r.roots);
        step, r' := RootStep(s), r.(roots := p');
      }
    } else {
      if AllJoined(r.packages) {
        step := EndPackages;
        r' := r.(phase := Returned(!r.packages.failed));
      } else {
        var s, p' := PoolProgress(plan.deps, plan.ok, plan.panicAborts, r.packages);
        step, r' := PackageStep(s), r.(packages := p');
      }
    }
  }

  lemma NoEdges(plan: Plan)
    ensures Closed(DepGraph(RootDeps(plan))) && Acyclic(DepGraph(RootDeps(plan)))
  {
  }

  ghost function Budget(plan: Plan, r: RunState): nat
    requires RunInvariant(plan, r)
  {
    Sum(Lefts(RootDeps(plan), r.roots)) + Sum(Lefts(plan.deps, r.packages)) +
    match r.phase case InRoots => 2 case InPackages => 1 case Returned(_) => 0
  }

  // Every step of a run uses up some of a budget fixed at its start, so every run returns.
  lemma RunStepCounts(plan: Plan, r: RunState, step: RunStep, r': RunState)
    requires RunInvariant(plan, r) && Next(plan, r, step, r')
    ensures RunInvariant(plan, r') && Budget(plan, r') < Budget(plan, r)
  {
    RunStepInv(plan, r, step, r');
    match step
    case RootStep(s) => PoolStepCounts(RootDeps(plan), plan.rootsOk, plan.panicAborts, r.roots, s, r'.roots);
    case PackageStep(s) => PoolStepCounts(plan.deps, plan.ok, plan.panicAborts, r.packages, s, r'.packages);
    case EndRoots =>
    case EndPackages =>
  }

  lemma {:induction false} RunIsFinite(plan: Plan, states: seq<RunState>, steps: seq<RunStep>, i: nat)
    requires Run(plan, states, steps) && i < |states|
    ensures RunInvariant(plan, states[i]) && RunInvariant(plan, states[0])
    ensures i + Budget(plan, states[i]) <= Budget(plan, states[0])
    decreases i
  {
    hide RunInvariant, Next, Budget;
    RunInv(plan, states, steps, 0);
    RunInv(plan, states, steps, i);
    if i > 0 {
      RunIsFinite(plan, states, steps, i - 1);
      RunStepCounts(plan, states[i - 1], steps[i - 1], states[i]);
    }
  }
}
