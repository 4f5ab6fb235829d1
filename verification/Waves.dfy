/** The wave form of the scheduler: tasks grouped into levels that run one after another,
    compared with per-dependency waiting. */
module Waves {
  import opened Wrappers
  import opened Graphs
  import opened Sorting

  datatype Task = Task(packageName: string, scriptName: string, command: string, isRoot: bool)

  // The dependencies of each package of the workspace.
  type Packages = map<string, seq<string>>

  // A topological order of the workspace: every package once, dependencies first.
  ghost predicate TopoOrder(packages: Packages, order: seq<string>) {
    && NoDup(order) && Elems(order) == packages.Keys
    && forall i, d :: 0 <= i < |order| && d in packages[order[i]] ==> d in order[..i]
  }

  function TaskMap(tasks: seq<Task>): map<string, Task> {
    if tasks == [] then map[] else
      var t := tasks[|tasks| - 1];
      var m := TaskMap(tasks[..|tasks| - 1]);
      if t.isRoot then m else m[t.packageName := t]
  }

  function RootTasks(tasks: seq<Task>): seq<Task> {
    if tasks == [] then [] else
      var t := tasks[|tasks| - 1];
      RootTasks(tasks[..|tasks| - 1]) + if t.isRoot then [t] else []
  }

  // The dependencies that take part in this run.
  function InRun(packages: Packages, tmap: map<string, Task>): Graph {
    map n | n in tmap && n in packages :: set d | d in packages[n] && d in tmap
  }

  predicate NameLe(a: Task, b: Task) {
    StrLe(a.packageName, b.packageName)
  }

  function SortByName(ts: seq<Task>): seq<Task> {
    Sort(NameLe, ts)
  }

  // ---- Levels ------------------------------------------------------------------------------

  function Len(p: Path): nat {
    match p
    case At(_) => 0
    case Via(_, rest) => 1 + Len(rest)
  }

  // k is the length of the longest chain of dependencies below n.
  ghost predicate IsLevel(g: Graph, n: string, k: nat) {
    && (exists p :: ValidPath(g, p) && p.n == n && Len(p) == k)
    && (forall p :: ValidPath(g, p) && p.n == n ==> Len(p) <= k)
  }

  lemma LevelUnique(g: Graph, n: string, j: nat, k: nat)
    requires IsLevel(g, n, j) && IsLevel(g, n, k)
    ensures j == k
  {
    var p :| ValidPath(g, p) && p.n == n && Len(p) == j;
    var q :| ValidPath(g, q) && q.n == n && Len(q) == k;
  }

  // One more than the highest level among the dependencies, or 0 when there are none.
  ghost predicate OneAbove(g: Graph, levelOf: map<string, nat>, n: string, k: nat) {
    && (forall d :: d in Succ(g, n) ==> d in levelOf && levelOf[d] < k)
    && (k > 0 ==> exists d :: d in Succ(g, n) && d in levelOf && levelOf[d] + 1 == k)
  }

  lemma LevelStep(g: Graph, levelOf: map<string, nat>, n: string, k: nat)
    requires OneAbove(g, levelOf, n, k)
    requires forall d :: d in Succ(g, n) ==> IsLevel(g, d, levelOf[d])
    ensures IsLevel(g, n, k)
  {
    if k == 0 {
      assert ValidPath(g, At(n)) && Len(At(n)) == 0;
    } else {
      var d :| d in Succ(g, n) && d in levelOf && levelOf[d] + 1 == k;
      var p :| ValidPath(g, p) && p.n == d && Len(p) == levelOf[d];
      assert ValidPath(g, Via(n, p)) && Len(Via(n, p)) == k;
    }
    forall p | ValidPath(g, p) && p.n == n
      ensures Len(p) <= k
    {
      match p
      case At(_) =>
      case Via(_, rest) => assert rest.n in Succ(g, n) && Len(rest) <= levelOf[rest.n];
    }
  }

  // ---- The algorithm -----------------------------------------------------------------------

  predicate Listed(tmap: map<string, Task>, t: Task) {
    t.packageName in tmap && tmap[t.packageName] == t
  }

  // The waves of package tasks: wave l holds the tasks of level l, by name; none is empty.
  ghost predicate Levelled(g: Graph, tmap: map<string, Task>, waves: seq<seq<Task>>) {
    && (forall l, t :: 0 <= l < |waves| ==>
         (t in waves[l] <==> t.packageName in g && Listed(tmap, t) && IsLevel(g, t.packageName, l)))
    && (forall l :: 0 <= l < |waves| ==> waves[l] != [] && NoDup(waves[l]) && Sorted(NameLe, waves[l]))
    && (forall n :: n in g ==> exists l :: 0 <= l < |waves| && IsLevel(g, n, l))
  }

  // The levels after a prefix of the order has been placed.
  ghost predicate Placed(g: Graph, tmap: map<string, Task>, done: seq<string>, levelOf: map<string, nat>,
                         waves: seq<seq<Task>>)
  {
    && (forall n :: n in levelOf <==> n in done && n in g)
    && (forall n :: n in levelOf ==> n in tmap && IsLevel(g, n, levelOf[n]) && levelOf[n] < |waves|)
    && (forall l, t :: 0 <= l < |waves| ==>
         (t in waves[l] <==> t.packageName in levelOf && Listed(tmap, t) && levelOf[t.packageName] == l))
    && (forall l :: 0 <= l < |waves| ==> waves[l] != [] && NoDup(waves[l]))
  }

  method LevelFor(packages: Packages, tmap: map<string, Task>, n: string, levelOf: map<string, nat>)
    returns (level: nat)
    requires n in packages && forall d :: d in packages[n] && d in tmap ==> d in levelOf
    ensures forall d :: d in packages[n] && d in tmap ==> levelOf[d] < level
    ensures level > 0 ==> exists d :: d in packages[n] && d in tmap && d in levelOf && levelOf[d] + 1 == level
  {
    var deps := packages[n];
    level := 0;
    for i := 0 to |deps|
      invariant forall d :: d in deps[..i] && d in tmap ==> levelOf[d] < level
      invariant level > 0 ==> exists d :: d in deps[..i] && d in tmap && d in levelOf && levelOf[d] + 1 == level
    {
      assert deps[..i + 1] == deps[..i] + [deps[i]];
      var d := deps[i];
      if d in tmap && d in levelOf && levelOf[d] >= level {
        level := levelOf[d] + 1;
        assert d in deps[..i + 1];
      }
    }
    assert deps[..|deps|] == deps;
  }

  lemma Place(g: Graph, tmap: map<string, Task>, done: seq<string>, levelOf: map<string, nat>, waves: seq<seq<Task>>,
              n: string, level: nat, waves': seq<seq<Task>>)
    requires Placed(g, tmap, done, levelOf, waves)
    requires n in g && n in tmap && n !in done && tmap[n].packageName == n
    requires OneAbove(g, levelOf, n, level)
    requires waves' == (if level < |waves| then waves else waves + [[]])
    ensures level < |waves'| && level <= |waves|
    ensures Placed(g, tmap, done + [n], levelOf[n := level], waves'[level := waves'[level] + [tmap[n]]])
  {
    LevelStep(g, levelOf, n, level);
    hide IsLevel, OneAbove, ValidPath;
    PutInWave(tmap, levelOf, waves, n, level, waves');
    var w := waves'[level := waves'[level] + [tmap[n]]];
    assert |w| == |waves'| >= |waves|;
  }

  lemma PutInWave(tmap: map<string, Task>, levelOf: map<string, nat>, waves: seq<seq<Task>>,
                  n: string, level: nat, waves': seq<seq<Task>>)
    requires forall l, t :: 0 <= l < |waves| ==>
      (t in waves[l] <==> t.packageName in levelOf && Listed(tmap, t) && levelOf[t.packageName] == l)
    requires forall l :: 0 <= l < |waves| ==> waves[l] != [] && NoDup(waves[l])
    requires forall m :: m in levelOf ==> levelOf[m] < |waves|
    requires n in tmap && n !in levelOf && tmap[n].packageName == n && level <= |waves|
    requires waves' == (if level < |waves| then waves else waves + [[]])
    ensures var w := waves'[level := waves'[level] + [tmap[n]]];
      && (forall l, t :: 0 <= l < |w| ==>
           (t in w[l] <==>
            t.packageName in levelOf[n := level] && Listed(tmap, t) && levelOf[n := level][t.packageName] == l))
      && (forall l :: 0 <= l < |w| ==> w[l] != [] && NoDup(w[l]))
  {
    var w := waves'[level := waves'[level] + [tmap[n]]];
    if level < |waves| {
      assert tmap[n] !in waves[level];
      NoDupConcat(waves[level], [tmap[n]]);
    }
    assert forall t :: t in w[level] <==> t in waves'[level] || t == tmap[n];
  }

  method PlaceAll(packages: Packages, order: seq<string>, tmap: map<string, Task>) returns (waves: seq<seq<Task>>)
    requires TopoOrder(packages, order)
    requires forall n :: n in tmap ==> tmap[n].packageName == n
    ensures exists levelOf :: Placed(InRun(packages, tmap), tmap, order, levelOf, waves)
  {
    ghost var g := InRun(packages, tmap);
    var levelOf: map<string, nat> := map[];
    waves := [];
    for i := 0 to |order|
      invariant Placed(g, tmap, order[..i], levelOf, waves)
    {
      var n := order[i];
      assert order[..i + 1] == order[..i] + [n];
      assert n !in order[..i];
      assert n in order && n in Elems(order);
      if n !in tmap || n !in packages {
        continue;
      }
      var level := LevelFor(packages, tmap, n, levelOf);
      ghost var before := waves;
      if level >= |waves| {
        waves := waves + [[]];
      }
      assert OneAbove(g, levelOf, n, level);
      Place(g, tmap, order[..i], levelOf, before, n, level, waves);
      levelOf := levelOf[n := level];
      waves := waves[level := waves[level] + [tmap[n]]];
    }
    assert order[..|order|] == order;
    assert Placed(g, tmap, order, levelOf, waves);
  }

  method SplitTasks(tasks: seq<Task>) returns (roots: seq<Task>, tmap: map<string, Task>)
    ensures roots == RootTasks(tasks) && tmap == TaskMap(tasks)
    ensures forall n :: n in tmap ==> tmap[n].packageName == n
  {
    roots, tmap := [], map[];
    for i := 0 to |tasks|
      invariant roots == RootTasks(tasks[..i]) && tmap == TaskMap(tasks[..i])
      invariant forall n :: n in tmap ==> tmap[n].packageName == n
    {
      var t := tasks[i];
      assert tasks[..i + 1][..i] == tasks[..i];
      if t.isRoot {
        roots := roots + [t];
      } else {
        tmap := tmap[t.packageName := t];
      }
    }
    assert tasks[..|tasks|] == tasks;
  }

  method ComputeTaskLevels(packages: Packages, order: seq<string>, tasks: seq<Task>) returns (levels: seq<seq<Task>>)
    requires TopoOrder(packages, order)
    ensures exists waves ::
      && Levelled(InRun(packages, TaskMap(tasks)), TaskMap(tasks), waves) && ByDepth(packages, tasks, waves)
      && levels == (if RootTasks(tasks) == [] then [] else [SortByName(RootTasks(tasks))]) + waves
    ensures RootsFirst(tasks, levels) && (forall k :: 0 <= k < |levels| ==> ByName(levels[k]))
  {
    hide Levelled, ByDepth, RootsFirst, ByName, Placed;
    var roots, tmap := SplitTasks(tasks);
    var waves := PlaceAll(packages, order, tmap);
    ghost var g := InRun(packages, tmap);
    ghost var levelOf :| Placed(g, tmap, order, levelOf, waves);
    ghost var placed := waves;
    for l := 0 to |waves|
      invariant |waves| == |placed|
      invariant forall k :: 0 <= k < l ==> waves[k] == SortByName(placed[k])
      invariant forall k :: l <= k < |waves| ==> waves[k] == placed[k]
    {
      waves := waves[l := SortByName(waves[l])];
    }
    SortedWaves(packages, order, g, tmap, levelOf, placed, waves);
    LevelsAreDepths(packages, tasks, waves);
    WavesByName(g, tmap, waves);
    RootsInFront(packages, tasks, waves);
    RootWave(tasks);
    if roots == [] {
      levels := waves;
      assert levels == [] + waves;
    } else {
      levels := [SortByName(roots)] + waves;
    }
  }

  // ---- The waves, from the packages and the tasks alone ---------------------------------------

  predicate HasTask(tasks: seq<Task>, n: string) {
    exists t :: t in tasks && !t.isRoot && t.packageName == n
  }

  // Names of package tasks, each package listing the next name among its dependencies.
  ghost predicate Chain(packages: Packages, tasks: seq<Task>, c: seq<string>) {
    && (forall i :: 0 <= i < |c| ==> HasTask(tasks, c[i]))
    && forall i :: 0 <= i < |c| - 1 ==> c[i] in packages && c[i + 1] in packages[c[i]]
  }

  // The longest chain that starts with n has k names after it.
  ghost predicate Depth(packages: Packages, tasks: seq<Task>, n: string, k: nat) {
    && (exists c :: Chain(packages, tasks, c) && |c| == k + 1 && c[0] == n)
    && forall c :: Chain(packages, tasks, c) && c != [] && c[0] == n ==> |c| <= k + 1
  }

  // A task of wave k is a package task of the run, at depth k.
  ghost predicate ByDepth(packages: Packages, tasks: seq<Task>, waves: seq<seq<Task>>) {
    forall k, t :: 0 <= k < |waves| && t in waves[k] ==>
      t in tasks && !t.isRoot && Depth(packages, tasks, t.packageName, k)
  }

  predicate ByName(wave: seq<Task>) {
    forall i, j :: 0 <= i < j < |wave| ==> StrLe(wave[i].packageName, wave[j].packageName)
  }

  // With root tasks, the first wave holds just those, as often as they are given; and no
  // other wave holds any.
  ghost predicate RootsFirst(tasks: seq<Task>, levels: seq<seq<Task>>) {
    && (forall t :: t in tasks && t.isRoot ==> levels != [] && multiset(levels[0])[t] == multiset(tasks)[t])
    && ((exists t :: t in tasks && t.isRoot) && levels != [] ==>
         forall t :: t in levels[0] ==> t in tasks && t.isRoot)
    && (forall k, t :: 0 < k < |levels| && t in levels[k] ==> !t.isRoot)
  }

  // One task for each name a package task has: the last one of that name.
  lemma {:induction false} TaskMapLast(tasks: seq<Task>, n: string)
    ensures n in TaskMap(tasks) <==> HasTask(tasks, n)
    ensures n in TaskMap(tasks) ==> exists i :: LastNamed(tasks, n, TaskMap(tasks)[n], i)
  {
    if tasks != [] {
      var front, last := tasks[..|tasks| - 1], tasks[|tasks| - 1];
      TaskMapLast(front, n);
      assert tasks == front + [last];
      if !last.isRoot && last.packageName == n {
        assert last in tasks && LastNamed(tasks, n, last, |tasks| - 1);
      } else {
        assert HasTask(tasks, n) <==> HasTask(front, n);
        if n in TaskMap(front) {
          var i :| LastNamed(front, n, TaskMap(front)[n], i);
          assert LastNamed(tasks, n, TaskMap(tasks)[n], i);
        }
      }
    }
  }

  ghost predicate LastNamed(tasks: seq<Task>, n: string, t: Task, i: int) {
    && 0 <= i < |tasks| && tasks[i] == t && !t.isRoot && t.packageName == n
    && forall j :: i < j < |tasks| && !tasks[j].isRoot ==> tasks[j].packageName != n
  }

  lemma {:induction false} RunEdge(packages: Packages, tasks: seq<Task>, n: string, d: string)
    ensures d in Succ(InRun(packages, TaskMap(tasks)), n) <==>
      HasTask(tasks, n) && HasTask(tasks, d) && n in packages && d in packages[n]
  {
    TaskMapLast(tasks, n);
    TaskMapLast(tasks, d);
  }

  lemma {:induction false} ChainOfPath(packages: Packages, tasks: seq<Task>, p: Path) returns (c: seq<string>)
    requires ValidPath(InRun(packages, TaskMap(tasks)), p) && HasTask(tasks, p.n)
    ensures Chain(packages, tasks, c) && |c| == Len(p) + 1 && c[0] == p.n
    decreases p
  {
    hide HasTask;
    match p
    case At(n) => c := [n];
    case Via(n, rest) =>
      RunEdge(packages, tasks, n, rest.n);
      var d := ChainOfPath(packages, tasks, rest);
      c := [n] + d;
  }

  lemma {:induction false} PathOfChain(packages: Packages, tasks: seq<Task>, c: seq<string>) returns (p: Path)
    requires Chain(packages, tasks, c) && c != []
    ensures ValidPath(InRun(packages, TaskMap(tasks)), p) && |c| == Len(p) + 1 && c[0] == p.n
    decreases |c|
  {
    hide HasTask;
    if |c| == 1 {
      p := At(c[0]);
    } else {
      RunEdge(packages, tasks, c[0], c[1]);
      var q := PathOfChain(packages, tasks, c[1..]);
      p := Via(c[0], q);
    }
  }

  lemma {:induction false} LevelIsDepth(packages: Packages, tasks: seq<Task>, n: string, k: nat)
    requires HasTask(tasks, n) && IsLevel(InRun(packages, TaskMap(tasks)), n, k)
    ensures Depth(packages, tasks, n, k)
  {
    hide HasTask, Chain;
    var p :| ValidPath(InRun(packages, TaskMap(tasks)), p) && p.n == n && Len(p) == k;
    var c := ChainOfPath(packages, tasks, p);
    forall c | Chain(packages, tasks, c) && c != [] && c[0] == n
      ensures |c| <= k + 1
    {
      var q := PathOfChain(packages, tasks, c);
    }
  }

  lemma {:induction false} LevelsAreDepths(packages: Packages, tasks: seq<Task>, waves: seq<seq<Task>>)
    requires Levelled(InRun(packages, TaskMap(tasks)), TaskMap(tasks), waves)
    ensures ByDepth(packages, tasks, waves)
  {
    hide IsLevel, Depth, Sorted, NoDup;
    forall k, t | 0 <= k < |waves| && t in waves[k]
      ensures t in tasks && !t.isRoot && Depth(packages, tasks, t.packageName, k)
    {
      TaskMapLast(tasks, t.packageName);
      LevelIsDepth(packages, tasks, t.packageName, k);
    }
  }

  lemma {:induction false} RootsExact(tasks: seq<Task>, t: Task)
    ensures multiset(RootTasks(tasks))[t] == if t.isRoot then multiset(tasks)[t] else 0
    ensures t in RootTasks(tasks) <==> t in tasks && t.isRoot
  {
    if tasks != [] {
      RootsExact(tasks[..|tasks| - 1], t);
      assert tasks == tasks[..|tasks| - 1] + [tasks[|tasks| - 1]];
    }
  }

  lemma {:induction false} RootWave(tasks: seq<Task>)
    ensures ByName(SortByName(RootTasks(tasks)))
    ensures forall t :: multiset(SortByName(RootTasks(tasks)))[t] == if t.isRoot then multiset(tasks)[t] else 0
  {
    StrOrder();
    SortSorted(NameLe, RootTasks(tasks));
    assert ByName(SortByName(RootTasks(tasks)));
    hide Sorted, ByName;
    forall t
      ensures multiset(SortByName(RootTasks(tasks)))[t] == if t.isRoot then multiset(tasks)[t] else 0
    {
      RootsExact(tasks, t);
    }
  }

  lemma {:induction false} WavesByName(g: Graph, tmap: map<string, Task>, waves: seq<seq<Task>>)
    requires Levelled(g, tmap, waves)
    ensures forall k :: 0 <= k < |waves| ==> ByName(waves[k])
  {
    hide IsLevel;
  }

  lemma {:induction false} RootsInFront(packages: Packages, tasks: seq<Task>, waves: seq<seq<Task>>)
    requires ByDepth(packages, tasks, waves)
    ensures RootsFirst(tasks, (if RootTasks(tasks) == [] then [] else [SortByName(RootTasks(tasks))]) + waves)
  {
    RootWave(tasks);
    var roots := SortByName(RootTasks(tasks));
    hide Depth, SortByName, RootTasks;
    forall t
      ensures t in RootTasks(tasks) <==> t in tasks && t.isRoot
      ensures t in roots <==> t in tasks && t.isRoot
    {
      RootsExact(tasks, t);
      assert t in roots <==> multiset(roots)[t] > 0;
    }
    assert RootTasks(tasks) != [] ==> RootTasks(tasks)[0] in RootTasks(tasks);
  }

  lemma SortWave(ts: seq<Task>)
    requires NoDup(ts) && ts != []
    ensures SortByName(ts) != [] && NoDup(SortByName(ts)) && Sorted(NameLe, SortByName(ts))
    ensures forall t :: t in SortByName(ts) <==> t in ts
  {
    StrOrder();
    SortSorted(NameLe, ts);
    NoDupPermuted(ts, SortByName(ts));
    assert ts[0] in ts;
  }

  lemma SortedWaves(packages: Packages, order: seq<string>, g: Graph, tmap: map<string, Task>,
                    levelOf: map<string, nat>,
                    placed: seq<seq<Task>>, waves: seq<seq<Task>>)
    requires TopoOrder(packages, order) && g == InRun(packages, tmap)
    requires Placed(g, tmap, order, levelOf, placed) && |waves| == |placed|
    requires forall l :: 0 <= l < |waves| ==> waves[l] == SortByName(placed[l])
    ensures Levelled(g, tmap, waves)
  {
    hide IsLevel, Sorted, NoDup;
    forall l | 0 <= l < |waves|
      ensures waves[l] != [] && NoDup(waves[l]) && Sorted(NameLe, waves[l])
      ensures forall t :: t in waves[l] <==> t in placed[l]
    {
      SortWave(placed[l]);
    }
    forall n | n in g
      ensures n in levelOf && IsLevel(g, n, levelOf[n])
    {
      assert n in Elems(order);
    }
    forall l, t | 0 <= l < |waves|
      ensures t in waves[l] <==> t.packageName in g && Listed(tmap, t) && IsLevel(g, t.packageName, l)
    {
      if t.packageName in g && IsLevel(g, t.packageName, l) {
        LevelUnique(g, t.packageName, l, levelOf[t.packageName]);
      }
    }
  }

  // ---- What the waves are good for -----------------------------------------------------------

  ghost predicate UniqueNames(tasks: seq<Task>) {
    forall i, j :: 0 <= i < j < |tasks| && !tasks[i].isRoot && !tasks[j].isRoot ==>
      tasks[i].packageName != tasks[j].packageName
  }

  lemma {:induction false} TaskMapExact(tasks: seq<Task>)
    requires UniqueNames(tasks)
    ensures forall t :: t in tasks && !t.isRoot <==> Listed(TaskMap(tasks), t)
  {
    if tasks != [] {
      var front, last := tasks[..|tasks| - 1], tasks[|tasks| - 1];
      TaskMapExact(front);
      assert tasks == front + [last];
      assert forall i :: 0 <= i < |front| && !front[i].isRoot && !last.isRoot ==>
        front[i].packageName != last.packageName;
    }
  }

  // Partition: with unique names known to the workspace, every package task is in exactly one
  // wave, and every dependency of a task is in a strictly earlier wave.
  lemma WavesPartition(packages: Packages, tasks: seq<Task>, waves: seq<seq<Task>>, t: Task)
    requires UniqueNames(tasks) && Levelled(InRun(packages, TaskMap(tasks)), TaskMap(tasks), waves)
    requires forall u :: u in tasks && !u.isRoot ==> u.packageName in packages
    ensures t in tasks && !t.isRoot <==> exists l :: 0 <= l < |waves| && t in waves[l]
    ensures forall k, l :: 0 <= k < |waves| && 0 <= l < |waves| && t in waves[k] && t in waves[l] ==> k == l
  {
    var tmap := TaskMap(tasks);
    var g := InRun(packages, tmap);
    TaskMapExact(tasks);
    if t in tasks && !t.isRoot {
      assert t.packageName in g;
      var l :| 0 <= l < |waves| && IsLevel(g, t.packageName, l);
      assert t in waves[l];
    }
    forall k, l | 0 <= k < |waves| && 0 <= l < |waves| && t in waves[k] && t in waves[l]
      ensures k == l
    {
      LevelUnique(g, t.packageName, k, l);
    }
  }

  lemma LevelEarlier(g: Graph, n: string, d: string, k: nat, l: nat)
    requires IsLevel(g, n, k) && IsLevel(g, d, l) && d in Succ(g, n)
    ensures l < k
  {
    var p :| ValidPath(g, p) && p.n == d && Len(p) == l;
    assert ValidPath(g, Via(n, p)) && Len(Via(n, p)) == l + 1;
  }

  // Whatever a package lists among its dependencies, and the run builds, is in an earlier wave.
  lemma {:induction false} DependenciesEarlier(packages: Packages, tasks: seq<Task>, waves: seq<seq<Task>>,
                                               k: nat, l: nat, t: Task, u: Task)
    requires ByDepth(packages, tasks, waves) && k < |waves| && l < |waves| && t in waves[k] && u in waves[l]
    requires t.packageName in packages && u.packageName in packages[t.packageName]
    ensures l < k
  {
    assert Depth(packages, tasks, u.packageName, l);
    assert Depth(packages, tasks, t.packageName, k);
    var c :| Chain(packages, tasks, c) && |c| == l + 1 && c[0] == u.packageName;
    assert Chain(packages, tasks, [t.packageName] + c);
  }

  // Waves a task may be put in: after all its dependencies.
  ghost predicate ValidWaves(g: Graph, w: map<string, nat>) {
    w.Keys == g.Keys && forall n, d :: n in g && d in g[n] ==> d in w && w[d] < w[n]
  }

  ghost function PathWaves(w: map<string, nat>, p: Path): set<nat> {
    (if p.n in w then {w[p.n]} else {}) + match p case At(_) => {} case Via(_, rest) => PathWaves(w, rest)
  }

  lemma {:induction false} ChainUsesWaves(g: Graph, w: map<string, nat>, p: Path)
    requires ValidWaves(g, w) && ValidPath(g, p) && p.n in g
    ensures |PathWaves(w, p)| == Len(p) + 1 && PathWaves(w, p) <= w.Values
    ensures forall x :: x in PathWaves(w, p) ==> x <= w[p.n]
    decreases p
  {
    match p
    case At(n) => assert PathWaves(w, p) == {w[n]};
    case Via(n, rest) =>
      ChainUsesWaves(g, w, rest);
      assert w[n] !in PathWaves(w, rest);
      assert PathWaves(w, p) == {w[n]} + PathWaves(w, rest);
  }

  // Optimality: no valid assignment of the tasks to waves uses fewer of them.
  lemma WavesMinimal(g: Graph, tmap: map<string, Task>, waves: seq<seq<Task>>, w: map<string, nat>)
    requires Levelled(g, tmap, waves) && ValidWaves(g, w)
    ensures |waves| <= |w.Values|
  {
    if waves != [] {
      var l := |waves| - 1;
      var t := waves[l][0];
      assert t in waves[l];
      var p :| ValidPath(g, p) && p.n == t.packageName && Len(p) == l;
      hide Levelled;
      ChainUsesWaves(g, w, p);
      SubsetSize(PathWaves(w, p), w.Values);
    }
  }

  // ---- Waves against per-dependency waiting ----------------------------------------------------

  // Finish times when a task starts the moment its last in-run dependency is done.
  ghost predicate Continuous(g: Graph, dur: string -> real, finish: map<string, real>) {
    && finish.Keys == g.Keys
    && forall n :: n in g ==> StartsOnTime(g, dur, finish, n)
  }

  ghost predicate StartsOnTime(g: Graph, dur: string -> real, finish: map<string, real>, n: string)
    requires n in g && n in finish
  {
    || (g[n] == {} && finish[n] == dur(n))
    || exists d :: d in g[n] && d in finish && finish[n] == finish[d] + dur(n) &&
         forall e :: e in g[n] && e in finish ==> finish[e] <= finish[d]
  }

  // Start times of waves run one after another: a wave starts when all the one before is done.
  ghost predicate Barriers(waves: seq<seq<Task>>, dur: string -> real, start: seq<real>) {
    && |start| == |waves|
    && (start != [] ==> start[0] == 0.0)
    && forall l, t :: 0 <= l < |waves| - 1 && t in waves[l] ==> start[l] + dur(t.packageName) <= start[l + 1]
  }

  lemma {:induction false} BarriersGrow(waves: seq<seq<Task>>, dur: string -> real, start: seq<real>, k: nat, l: nat)
    requires Barriers(waves, dur, start) && (forall n :: dur(n) >= 0.0) && k <= l < |waves|
    requires forall l :: 0 <= l < |waves| ==> waves[l] != []
    ensures start[k] <= start[l]
    decreases l - k
  {
    if k < l {
      BarriersGrow(waves, dur, start, k, l - 1);
      var t := waves[l - 1][0];
      assert t in waves[l - 1] && dur(t.packageName) >= 0.0;
    }
  }

  // The start times, as seen from the levels.
  ghost predicate LevelStarts(g: Graph, dur: string -> real, start: seq<real>) {
    && (forall n :: n in g ==> exists k :: 0 <= k < |start| && IsLevel(g, n, k))
    && (forall n, k :: n in g && 0 <= k < |start| - 1 && IsLevel(g, n, k) ==> start[k] + dur(n) <= start[k + 1])
    && (forall k, l :: 0 <= k <= l < |start| ==> start[k] <= start[l])
    && (start != [] ==> start[0] == 0.0)
  }

  lemma StartsOfWaves(g: Graph, tmap: map<string, Task>, waves: seq<seq<Task>>, dur: string -> real, start: seq<real>)
    requires Levelled(g, tmap, waves) && (forall n :: n in g ==> n in tmap && tmap[n].packageName == n)
    requires (forall n :: dur(n) >= 0.0) && Barriers(waves, dur, start)
    ensures LevelStarts(g, dur, start)
  {
    hide IsLevel, Sorted, NoDup;
    forall n, k | n in g && 0 <= k < |start| - 1 && IsLevel(g, n, k)
      ensures start[k] + dur(n) <= start[k + 1]
    {
      assert tmap[n] in waves[k];
    }
    forall k, l | 0 <= k <= l < |start|
      ensures start[k] <= start[l]
    {
      BarriersGrow(waves, dur, start, k, l);
    }
  }

  lemma {:induction false} FinishByLevel(g: Graph, dur: string -> real, finish: map<string, real>, start: seq<real>,
                                         n: string, l: nat)
    requires Closed(g) && Continuous(g, dur, finish) && LevelStarts(g, dur, start)
    requires n in g && l < |start| && IsLevel(g, n, l)
    ensures finish[n] <= start[l] + dur(n)
    decreases l
  {
    hide IsLevel;
    assert StartsOnTime(g, dur, finish, n);
    if g[n] == {} {
      assert start[0] <= start[l];
    } else {
      var d :| d in g[n] && d in finish && finish[n] == finish[d] + dur(n);
      var k :| 0 <= k < |start| && IsLevel(g, d, k);
      LevelEarlier(g, n, d, l, k);
      FinishByLevel(g, dur, finish, start, d, k);
      assert start[k] + dur(d) <= start[k + 1] <= start[l];
    }
  }

  // With no limit on slots, per-dependency waiting never finishes a task later than the waves do.
  lemma ContinuousNoLater(g: Graph, tmap: map<string, Task>, waves: seq<seq<Task>>, dur: string -> real,
                          finish: map<string, real>, start: seq<real>, l: nat, t: Task)
    requires Levelled(g, tmap, waves) && Closed(g) && (forall n :: n in g ==> n in tmap && tmap[n].packageName == n)
    requires (forall n :: dur(n) >= 0.0) && Continuous(g, dur, finish) && Barriers(waves, dur, start)
    requires l < |waves| && t in waves[l]
    ensures finish[t.packageName] <= start[l] + dur(t.packageName)
  {
    StartsOfWaves(g, tmap, waves, dur, start);
    FinishByLevel(g, dur, finish, start, t.packageName, l);
  }

  // The run's dependencies stay within the run.
  lemma InRunClosed(packages: Packages, order: seq<string>, tmap: map<string, Task>)
    requires TopoOrder(packages, order)
    ensures Closed(InRun(packages, tmap))
  {
    var g := InRun(packages, tmap);
    forall n, d | n in g && d in g[n]
      ensures d in g
    {
      assert n in Elems(order);
      var i :| 0 <= i < |order| && order[i] == n;
      assert d in order[..i];
      assert d in order && d in Elems(order);
    }
  }

  lemma {:induction false} Latest(finish: map<string, real>, s: set<string>) returns (d: string)
    requires s != {} && s <= finish.Keys
    ensures d in s && forall e :: e in s ==> finish[e] <= finish[d]
    decreases |s|
  {
    d :| d in s;
    if s != {d} {
      var m := Latest(finish, s - {d});
      if finish[m] > finish[d] {
        d := m;
      }
    }
  }

  ghost predicate OnTime(g: Graph, dur: string -> real, finish: map<string, real>) {
    && finish.Keys <= g.Keys
    && (forall n :: n in finish ==> g[n] <= finish.Keys)
    && (forall n :: n in finish ==> StartsOnTime(g, dur, finish, n))
  }

  lemma {:induction false} OneMoreOnTime(g: Graph, dur: string -> real, before: map<string, real>, n: string)
    returns (finish: map<string, real>)
    requires OnTime(g, dur, before) && n in g && n !in before && g[n] <= before.Keys
    ensures OnTime(g, dur, finish) && finish.Keys == before.Keys + {n}
  {
    var at := dur(n);
    if g[n] != {} {
      var d := Latest(before, g[n]);
      at := before[d] + dur(n);
    }
    finish := before[n := at];
    assert StartsOnTime(g, dur, finish, n);
    forall m | m in before
      ensures StartsOnTime(g, dur, finish, m)
    {
      StillOnTime(g, dur, before, finish, m);
    }
  }

  ghost predicate CoversPrefix(g: Graph, done: seq<string>, finish: map<string, real>) {
    forall n :: n in finish <==> n in done && n in g
  }

  lemma NextInOrder(packages: Packages, order: seq<string>, tmap: map<string, Task>, finish: map<string, real>, i: nat)
    requires TopoOrder(packages, order) && i < |order| && CoversPrefix(InRun(packages, tmap), order[..i], finish)
    ensures order[i] !in finish
    ensures order[i] in InRun(packages, tmap) ==> InRun(packages, tmap)[order[i]] <= finish.Keys
  {
    InRunClosed(packages, order, tmap);
  }

  lemma {:induction false} OnTimePrefix(packages: Packages, order: seq<string>, tmap: map<string, Task>,
                                        dur: string -> real, i: nat)
    returns (finish: map<string, real>)
    requires TopoOrder(packages, order) && i <= |order|
    ensures OnTime(InRun(packages, tmap), dur, finish) && CoversPrefix(InRun(packages, tmap), order[..i], finish)
  {
    hide TopoOrder, OnTime;
    if i == 0 {
      finish := map[];
      NothingOnTime(InRun(packages, tmap), dur);
    } else {
      var before := OnTimePrefix(packages, order, tmap, dur, i - 1);
      NextInOrder(packages, order, tmap, before, i - 1);
      assert order[..i] == order[..i - 1] + [order[i - 1]];
      finish := before;
      if order[i - 1] in InRun(packages, tmap) {
        finish := OneMoreOnTime(InRun(packages, tmap), dur, before, order[i - 1]);
      }
    }
  }

  lemma NothingOnTime(g: Graph, dur: string -> real)
    ensures OnTime(g, dur, map[])
  {
  }

  // Per-dependency waiting gives every task of a run a finish time.
  lemma ContinuousExists(packages: Packages, order: seq<string>, tmap: map<string, Task>, dur: string -> real)
    returns (finish: map<string, real>)
    requires TopoOrder(packages, order)
    ensures Continuous(InRun(packages, tmap), dur, finish)
  {
    hide StartsOnTime;
    finish := OnTimePrefix(packages, order, tmap, dur, |order|);
    AllPlaced(packages, order, tmap);
    assert order[..|order|] == order;
  }

  lemma AllPlaced(packages: Packages, order: seq<string>, tmap: map<string, Task>)
    requires TopoOrder(packages, order)
    ensures forall n :: n in InRun(packages, tmap) ==> n in order
  {
    assert forall n :: n in packages ==> n in Elems(order);
  }

  lemma StillOnTime(g: Graph, dur: string -> real, before: map<string, real>, finish: map<string, real>, m: string)
    requires m in g && m in before && m in finish && finish[m] == before[m] && StartsOnTime(g, dur, before, m)
    requires g[m] <= before.Keys <= finish.Keys
    requires forall e :: e in before ==> finish[e] == before[e]
    ensures StartsOnTime(g, dur, finish, m)
  {
    if g[m] != {} {
      var d :| d in g[m] && d in before && before[m] == before[d] + dur(m) &&
               forall e :: e in g[m] && e in before ==> before[e] <= before[d];
      assert finish[m] == finish[d] + dur(m);
    }
  }
}
