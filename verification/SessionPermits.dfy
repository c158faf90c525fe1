/**
 The whole program around its limit on SNMP sessions: 800 permits shared by the collection
 workers of every configuration, old and new, and by the threads that load host tables. The
 loader, which is the main thread while it initialises a configuration, waits for a permit
 itself and hands it to the thread it creates, which returns it when it is done. Configurations
 and their pools are those of `ReloadHandover`; every pool sees the shared counter as its own.
 */
module SessionPermits {
  import opened Options
  import opened Sums
  import Pool = PollingPool
  import PollingSafety
  import PollingShutdown
  import Reload = ReloadHandover
  import ReloadTheorems

  const PERMITS: nat := 800

  datatype Loader = Resting | AtWait(next: nat) | Spawning(next: nat) | Joining(next: nat)

  datatype Walker = Unborn | Walking | Finished

  datatype State = State(free: nat, program: Reload.State, loader: Loader, walkers: seq<Walker>)

  datatype Action =
    | Program(move: Reload.Action)
    | PoolStep(g: nat, c: nat, step: Pool.Action)
    | LoadTables(hosts: nat)
    | LoaderStep
    | WalkerEnds(h: nat)

  function Init(workers: nat): State { State(PERMITS, Reload.Init(workers), Resting, []) }

  predicate HasPool(p: Reload.State, g: nat, c: nat) { g < |p.pools| && c < |p.pools[g]| }

  /** Class `c` of generation `g` with the shared counter as its permits. */
  function View(s: State, g: nat, c: nat): Pool.State
    requires HasPool(s.program, g, c)
  {
    s.program.pools[g][c].(permits := s.free)
  }

  /** A configuration is being initialised, which is when host tables are loaded. */
  predicate InInit(p: Reload.State) { p.main == Reload.FirstInit || p.main.Initialising? }

  /** None of its classes has been started yet. */
  predicate BeforeClasses(p: Reload.State)
    requires InInit(p)
  {
    var a := Reload.Starting(p);
    a in p.heap && p.heap[a].generation < |p.pools| && p.pools[p.heap[a].generation] == []
  }

  predicate Enabled(s: State, a: Action) {
    match a
    case Program(move) =>
      && !move.PoolStep? && Reload.Enabled(s.program, move)
      && (move.StartClass? || move.Succeed? || move.Fail? ==> s.loader == Resting)
    case PoolStep(g, c, step) =>
      HasPool(s.program, g, c) && !step.Others? && !step.FinalizerStep? && Pool.Enabled(View(s, g, c), step)
    case LoadTables(_) => s.loader == Resting && InInit(s.program) && BeforeClasses(s.program)
    case LoaderStep =>
      (match s.loader
       case Resting => false
       case AtWait(i) => i >= |s.walkers| || s.free > 0
       case Spawning(i) => i < |s.walkers|
       case Joining(i) => i >= |s.walkers| || s.walkers[i] == Finished)
    case WalkerEnds(h) => h < |s.walkers| && s.walkers[h] == Walking
  }

  function Next(s: State, a: Action): State
    requires Enabled(s, a)
  {
    match a
    case Program(move) => s.(program := Reload.Next(s.program, move))
    case PoolStep(g, c, step) =>
      var next := Pool.Next(View(s, g, c), step);
      s.(free := next.permits, program := Reload.SetPool(s.program, g, c, next))
    case LoadTables(hosts) => s.(loader := AtWait(0), walkers := seq(hosts, _ => Unborn))
    case LoaderStep =>
      (match s.loader
       case AtWait(i) =>
         if i < |s.walkers| then s.(free := s.free - 1, loader := Spawning(i)) else s.(loader := Joining(0))
       case Spawning(i) => s.(walkers := s.walkers[i := Walking], loader := AtWait(i + 1))
       case Joining(i) => s.(loader := if i < |s.walkers| then Joining(i + 1) else Resting))
    case WalkerEnds(h) => s.(free := s.free + 1, walkers := s.walkers[h := Finished])
  }

  predicate Runs(s: State, schedule: seq<Action>)
    decreases |schedule|
  {
    schedule == [] || (Enabled(s, schedule[0]) && Runs(Next(s, schedule[0]), schedule[1..]))
  }

  function After(s: State, schedule: seq<Action>): State
    requires Runs(s, schedule)
    decreases |schedule|
  {
    if schedule == [] then s else After(Next(s, schedule[0]), schedule[1..])
  }

  ghost predicate Reachable(s: State) {
    exists workers: nat, schedule :: Runs(Init(workers), schedule) && After(Init(workers), schedule) == s
  }

  // ----- the configurations live as they do on their own

  lemma {:induction false} SetTwice(p: Reload.State, g: nat, c: nat, first: Pool.State, second: Pool.State)
    requires HasPool(p, g, c)
    ensures Reload.SetPool(Reload.SetPool(p, g, c, first), g, c, second) == Reload.SetPool(p, g, c, second)
  {
    var classes := p.pools[g];
    assert classes[c := first][c := second] == classes[c := second];
    assert p.pools[g := classes[c := first]][g := classes[c := second]] == p.pools[g := classes[c := second]];
  }

  lemma {:induction false} PoolStepKeepsReachable(s: State, g: nat, c: nat, step: Pool.Action)
    requires Reload.Reachable(s.program) && Enabled(s, PoolStep(g, c, step))
    ensures Reload.Reachable(Next(s, PoolStep(g, c, step)).program)
  {
    var v := View(s, g, c);
    var t := ReloadTheorems.Go(s.program, Reload.PoolStep(g, c, Pool.Others(s.free)));
    assert t == Reload.SetPool(s.program, g, c, v) && t.pools[g][c] == v;
    var u := ReloadTheorems.Go(t, Reload.PoolStep(g, c, step));
    SetTwice(s.program, g, c, v, Pool.Next(v, step));
  }

  /** A step of a pool is, to the handover, other threads' use of permits and then the step. */
  lemma {:induction false} StepKeepsReachable(s: State, a: Action)
    requires Reload.Reachable(s.program) && Enabled(s, a)
    ensures Reload.Reachable(Next(s, a).program)
  {
    match a
    case Program(move) => var t := ReloadTheorems.Go(s.program, move);
    case PoolStep(g, c, step) => PoolStepKeepsReachable(s, g, c, step);
    case _ =>
  }

  lemma {:induction false} RunKeepsReachable(s: State, schedule: seq<Action>)
    requires Reload.Reachable(s.program) && Runs(s, schedule)
    ensures Reload.Reachable(After(s, schedule).program)
    decreases |schedule|
  {
    if schedule != [] {
      StepKeepsReachable(s, schedule[0]);
      RunKeepsReachable(Next(s, schedule[0]), schedule[1..]);
    }
  }

  /** All that is proved of the handover holds of the configurations of the program. */
  lemma {:induction false} ProgramReachable(s: State)
    requires Reachable(s)
    ensures Reload.Reachable(s.program)
  {
    var workers: nat, schedule :| Runs(Init(workers), schedule) && After(Init(workers), schedule) == s;
    assert Reload.Runs(Reload.Init(workers), []) && Reload.After(Reload.Init(workers), []) == Reload.Init(workers);
    RunKeepsReachable(Init(workers), schedule);
  }

  /** The configuration under deletion, if any. */
  function UnderDeletion(p: Reload.State): Option<Reload.Address> {
    match p.main
    case Deleting(_) => Some(p.current)
    case Dropping(incoming) => Some(incoming)
    case Terminating => Some(p.current)
    case _ => None
  }

  /** The move is a step of `finalize` of that class. */
  predicate Finalizes(p: Reload.State, move: Reload.Action, g: nat, c: nat) {
    && move.MainStep? && UnderDeletion(p).Some?
    && var a := UnderDeletion(p).value;
       && a in p.heap && p.heap[a].generation == g && p.heap[a].destroyed == c
       && HasPool(p, g, c) && p.pools[g][c].finalizer != Pool.Returned
  }

  lemma {:induction false} ProgramKeepsPools(p: Reload.State, move: Reload.Action, g: nat, c: nat)
    requires Reload.Enabled(p, move) && !move.PoolStep? && HasPool(p, g, c)
    ensures var q := Reload.Next(p, move);
      && HasPool(q, g, c)
      && if Finalizes(p, move, g, c)
         then Pool.FinalizerCanStep(p.pools[g][c]) && q.pools[g][c] == Pool.FinalizerNext(p.pools[g][c])
         else q.pools[g][c] == p.pools[g][c]
  {
  }

  // ----- who holds a permit

  function WorkerHolds(w: Pool.Worker): nat { if w.Collecting? then 1 else 0 }

  ghost function PoolHolds(p: Pool.State): nat { Sum(p.workers, WorkerHolds) }

  function WalkerHolds(w: Walker): nat { if w == Walking then 1 else 0 }

  ghost function ClassesHold(classes: seq<Pool.State>): nat { Sum(classes, p => PoolHolds(p)) }

  ghost function HeldByPools(pools: seq<seq<Pool.State>>): nat { Sum(pools, classes => ClassesHold(classes)) }

  ghost function HeldByLoader(l: Loader, walkers: seq<Walker>): nat {
    Sum(walkers, WalkerHolds) + (if l.Spawning? then 1 else 0)
  }

  ghost function Held(s: State): nat { HeldByPools(s.program.pools) + HeldByLoader(s.loader, s.walkers) }

  /** Walkers start in order and are joined in order. */
  ghost predicate LoaderInv(l: Loader, walkers: seq<Walker>) {
    match l
    case Resting => forall h :: 0 <= h < |walkers| ==> walkers[h] == Finished
    case AtWait(i) => i <= |walkers| && StartedBelow(walkers, i)
    case Spawning(i) => i < |walkers| && StartedBelow(walkers, i)
    case Joining(i) =>
      && i <= |walkers| && StartedBelow(walkers, |walkers|)
      && forall h :: 0 <= h < i ==> walkers[h] == Finished
  }

  ghost predicate StartedBelow(walkers: seq<Walker>, i: nat) {
    forall h :: 0 <= h < |walkers| ==> (walkers[h] == Unborn <==> h >= i)
  }

  ghost predicate Inv(s: State) {
    && s.free + Held(s) == PERMITS
    && LoaderInv(s.loader, s.walkers)
    && (s.loader != Resting ==> InInit(s.program))
  }

  /** A pool's own step moves permits between the counter and its collecting workers. */
  lemma {:induction false} PoolKeepsPermits(p: Pool.State, step: Pool.Action)
    requires !step.Others? && Pool.Enabled(p, step)
    ensures Pool.Next(p, step).permits + PoolHolds(Pool.Next(p, step)) == p.permits + PoolHolds(p)
  {
    var next := Pool.Next(p, step);
    if step.WorkerStep? {
      WorkerMovesPermit(p, step.w);
      SumUpdate(p.workers, step.w, next.workers[step.w], WorkerHolds);
      SumAtLeast(p.workers, step.w, WorkerHolds);
    } else {
      assert next.workers == p.workers && next.permits == p.permits;
    }
  }

  lemma {:induction false} WorkerMovesPermit(p: Pool.State, w: nat)
    requires Pool.WorkerCanStep(p, w)
    ensures var next := Pool.WorkerNext(p, w);
      && w < |next.workers| && next.workers == p.workers[w := next.workers[w]]
      && next.permits + WorkerHolds(next.workers[w]) == p.permits + WorkerHolds(p.workers[w])
  {
  }

  lemma {:induction false} SetPoolHeld(pools: seq<seq<Pool.State>>, g: nat, c: nat, p: Pool.State)
    requires g < |pools| && c < |pools[g]|
    ensures HeldByPools(pools[g := pools[g][c := p]]) + PoolHolds(pools[g][c]) == HeldByPools(pools) + PoolHolds(p)
  {
    SumUpdate(pools[g], c, p, q => PoolHolds(q));
    SumUpdate(pools, g, pools[g][c := p], classes => ClassesHold(classes));
  }

  lemma {:induction false} PoolStepKeepsHeld(s: State, g: nat, c: nat, step: Pool.Action)
    requires Enabled(s, PoolStep(g, c, step))
    ensures var t := Next(s, PoolStep(g, c, step)); t.free + Held(t) == s.free + Held(s)
  {
    var v := View(s, g, c);
    PoolKeepsPermits(v, step);
    SetPoolHeld(s.program.pools, g, c, Pool.Next(v, step));
    assert v.workers == s.program.pools[g][c].workers;
  }

  lemma {:induction false} NewClassHoldsNothing(classes: seq<Pool.State>, hosts: nat, permits: nat)
    ensures ClassesHold(classes + [Pool.Init(hosts, permits)]) == ClassesHold(classes)
  {
    var p := Pool.Init(hosts, permits);
    assert (classes + [p])[..|classes|] == classes;
    SumConstant(p.workers, WorkerHolds, 0);
  }

  lemma {:induction false} NewGenerationHoldsNothing(pools: seq<seq<Pool.State>>)
    ensures HeldByPools(pools + [[]]) == HeldByPools(pools)
  {
    assert (pools + [[]])[..|pools|] == pools;
  }

  lemma {:induction false} DestroyKeepsHeld(p: Reload.State, a: Reload.Address)
    requires Reload.CanDestroy(p, a)
    ensures HeldByPools(Reload.Destroy(p, a).pools) == HeldByPools(p.pools)
  {
    var g, c := p.heap[a].generation, p.heap[a].destroyed;
    if HasPool(p, g, c) && p.pools[g][c].finalizer != Pool.Returned {
      var next := Pool.FinalizerNext(p.pools[g][c]);
      assert next.workers == p.pools[g][c].workers;
      SetPoolHeld(p.pools, g, c, next);
    }
  }

  lemma {:induction false} ProgramKeepsHeld(p: Reload.State, move: Reload.Action)
    requires Reload.Enabled(p, move) && !move.PoolStep?
    ensures HeldByPools(Reload.Next(p, move).pools) == HeldByPools(p.pools)
  {
    match move
    case Wake(_) => NewGenerationHoldsNothing(p.pools);
    case StartClass(hosts, permits) =>
      var g := p.heap[Reload.Starting(p)].generation;
      NewClassHoldsNothing(p.pools[g], hosts, permits);
      SumUpdate(p.pools, g, p.pools[g] + [Pool.Init(hosts, permits)], classes => ClassesHold(classes));
    case MainStep =>
      if UnderDeletion(p).Some? && UnderDeletion(p).value in p.heap { DestroyKeepsHeld(p, UnderDeletion(p).value); }
    case _ =>
  }

  lemma {:induction false} LoaderKeepsHeld(s: State, a: Action)
    requires Inv(s) && Enabled(s, a) && (a.LoadTables? || a.LoaderStep? || a.WalkerEnds?)
    ensures var t := Next(s, a);
      && t.program == s.program
      && t.free + HeldByLoader(t.loader, t.walkers) == s.free + HeldByLoader(s.loader, s.walkers)
  {
    match a
    case LoadTables(hosts) =>
      SumConstant(s.walkers, WalkerHolds, 0);
      SumConstant(Next(s, a).walkers, WalkerHolds, 0);
    case LoaderStep =>
      if s.loader.Spawning? { SumUpdate(s.walkers, s.loader.next, Walking, WalkerHolds); }
    case WalkerEnds(h) => SumUpdate(s.walkers, h, Finished, WalkerHolds);
  }

  lemma {:induction false} StepKeepsHeld(s: State, a: Action)
    requires Inv(s) && Enabled(s, a)
    ensures Next(s, a).free + Held(Next(s, a)) == PERMITS
  {
    match a
    case Program(move) => ProgramKeepsHeld(s.program, move);
    case PoolStep(g, c, step) => PoolStepKeepsHeld(s, g, c, step);
    case _ => LoaderKeepsHeld(s, a);
  }

  lemma {:induction false} StepKeepsLoader(s: State, a: Action)
    requires LoaderInv(s.loader, s.walkers) && (s.loader != Resting ==> InInit(s.program)) && Enabled(s, a)
    ensures var t := Next(s, a); LoaderInv(t.loader, t.walkers) && (t.loader != Resting ==> InInit(t.program))
  {
  }

  lemma {:induction false} StepKeepsInv(s: State, a: Action)
    requires Inv(s) && Enabled(s, a)
    ensures Inv(Next(s, a))
  {
    StepKeepsHeld(s, a);
    StepKeepsLoader(s, a);
  }

  lemma {:induction false} RunKeepsInv(s: State, schedule: seq<Action>)
    requires Inv(s) && Runs(s, schedule)
    ensures Inv(After(s, schedule))
    decreases |schedule|
  {
    if schedule != [] {
      StepKeepsInv(s, schedule[0]);
      RunKeepsInv(Next(s, schedule[0]), schedule[1..]);
    }
  }

  lemma {:induction false} ReachableInv(s: State)
    requires Reachable(s)
    ensures Inv(s)
  {
    var workers: nat, schedule :| Runs(Init(workers), schedule) && After(Init(workers), schedule) == s;
    RunKeepsInv(Init(workers), schedule);
  }

  /** Free permits and holders always make up 800; when the loader has joined, none of them is its own. */
  lemma {:induction false} PermitsConserved(s: State)
    requires Reachable(s)
    ensures s.free + Held(s) == 800
    ensures s.loader == Resting ==> s.free + HeldByPools(s.program.pools) == 800
  {
    ReachableInv(s);
    if s.loader == Resting { SumConstant(s.walkers, WalkerHolds, 0); }
  }

  // ----- each pool as it sees the program

  /** What a step of the program is to class `c` of generation `g`. */
  function Seen(s: State, a: Action, g: nat, c: nat): Pool.Action
    requires Enabled(s, a)
  {
    if a.PoolStep? && a.g == g && a.c == c then a.step
    else if a.Program? && Finalizes(s.program, a.move, g, c) then Pool.FinalizerStep
    else Pool.Others(Next(s, a).free)
  }

  /** What a run of the program is to that class: its own steps, and other threads' use of the permits. */
  function Project(s: State, schedule: seq<Action>, g: nat, c: nat): seq<Pool.Action>
    requires Runs(s, schedule)
    decreases |schedule|
  {
    if schedule == [] then []
    else [Seen(s, schedule[0], g, c)] + Project(Next(s, schedule[0]), schedule[1..], g, c)
  }

  lemma {:induction false} StepProjects(s: State, a: Action, g: nat, c: nat)
    requires Enabled(s, a) && HasPool(s.program, g, c)
    ensures HasPool(Next(s, a).program, g, c)
    ensures var step := Seen(s, a, g, c);
      Pool.Enabled(View(s, g, c), step) && Pool.Next(View(s, g, c), step) == View(Next(s, a), g, c)
  {
    if a.Program? { ProgramKeepsPools(s.program, a.move, g, c); }
  }

  /** Every run of the program is a run of each of its pools. */
  lemma {:induction false} RunProjects(s: State, schedule: seq<Action>, g: nat, c: nat)
    requires Runs(s, schedule) && HasPool(s.program, g, c)
    ensures HasPool(After(s, schedule).program, g, c)
    ensures Pool.Runs(View(s, g, c), Project(s, schedule, g, c))
    ensures Pool.After(View(s, g, c), Project(s, schedule, g, c)) == View(After(s, schedule), g, c)
    decreases |schedule|
  {
    if schedule != [] {
      var t := Next(s, schedule[0]);
      StepProjects(s, schedule[0], g, c);
      RunProjects(t, schedule[1..], g, c);
      var steps := Project(s, schedule, g, c);
      assert steps[1..] == Project(t, schedule[1..], g, c);
    }
  }

  /** A class that was not there before the step has just been initialised. */
  lemma {:induction false} NewPool(s: State, a: Action, g: nat, c: nat) returns (hosts: nat)
    requires Enabled(s, a) && !HasPool(s.program, g, c) && HasPool(Next(s, a).program, g, c)
    ensures View(Next(s, a), g, c) == Pool.Init(hosts, s.free)
  {
    hosts := a.move.hosts;
  }

  /** A class the program has started is in a state it could have reached on its own. */
  lemma {:induction false} ViewReachable(s: State, schedule: seq<Action>, g: nat, c: nat)
    requires Runs(s, schedule) && !HasPool(s.program, g, c) && HasPool(After(s, schedule).program, g, c)
    ensures Pool.Reachable(View(After(s, schedule), g, c))
    decreases |schedule|
  {
    var t := Next(s, schedule[0]);
    if HasPool(t.program, g, c) {
      var hosts := NewPool(s, schedule[0], g, c);
      RunProjects(t, schedule[1..], g, c);
      assert Pool.Runs(Pool.Init(hosts, s.free), Project(t, schedule[1..], g, c));
    } else {
      ViewReachable(t, schedule[1..], g, c);
    }
  }

  lemma {:induction false} PoolReachable(s: State, g: nat, c: nat)
    requires Reachable(s) && HasPool(s.program, g, c)
    ensures Pool.Reachable(View(s, g, c))
  {
    var workers: nat, schedule :| Runs(Init(workers), schedule) && After(Init(workers), schedule) == s;
    ViewReachable(Init(workers), schedule, g, c);
  }

  // ----- a table load on its own

  function AllFinished(n: nat): seq<Walker> { seq(n, _ => Finished) }

  lemma {:induction false} RunCons(s: State, a: Action, rest: seq<Action>) returns (schedule: seq<Action>)
    requires Enabled(s, a) && Runs(Next(s, a), rest)
    ensures schedule == [a] + rest && Runs(s, schedule) && After(s, schedule) == After(Next(s, a), rest)
  {
    schedule := [a] + rest;
    assert schedule[1..] == rest;
  }

  lemma {:induction false} JoinRest(s: State, i: nat) returns (schedule: seq<Action>)
    requires s.loader == Joining(i) && i <= |s.walkers| && s.walkers == AllFinished(|s.walkers|)
    ensures Runs(s, schedule) && After(s, schedule) == s.(loader := Resting)
    decreases |s.walkers| - i
  {
    schedule := [];
    if i < |s.walkers| { schedule := JoinRest(Next(s, LoaderStep), i + 1); }
    schedule := RunCons(s, LoaderStep, schedule);
  }

  /** One permit is enough: each walk in turn takes it and gives it back. */
  lemma {:induction false} LoadRest(s: State, i: nat) returns (schedule: seq<Action>)
    requires s.loader == AtWait(i) && i <= |s.walkers| && s.free > 0
    requires forall h :: 0 <= h < |s.walkers| ==> s.walkers[h] == if h < i then Finished else Unborn
    ensures Runs(s, schedule)
    ensures After(s, schedule) == s.(loader := Resting, walkers := AllFinished(|s.walkers|))
    decreases |s.walkers| - i
  {
    var t := Next(s, LoaderStep);
    if i < |s.walkers| {
      var u := Next(t, LoaderStep);
      var v := Next(u, WalkerEnds(i));
      schedule := LoadRest(v, i + 1);
      schedule := RunCons(u, WalkerEnds(i), schedule);
      schedule := RunCons(t, LoaderStep, schedule);
    } else {
      assert s.walkers == AllFinished(|s.walkers|);
      schedule := JoinRest(t, 0);
    }
    schedule := RunCons(s, LoaderStep, schedule);
  }

  /**
     A table load that meets one free permit walks every host, joins every walk, and leaves the
     permits as they were.
   */
  lemma {:induction false} TablesLoad(s: State, hosts: nat) returns (schedule: seq<Action>)
    requires Enabled(s, LoadTables(hosts)) && s.free > 0
    ensures Runs(s, schedule) && After(s, schedule) == s.(loader := Resting, walkers := AllFinished(hosts))
  {
    schedule := LoadRest(Next(s, LoadTables(hosts)), 0);
    schedule := RunCons(s, LoadTables(hosts), schedule);
  }

  // ----- no wait for a permit is for ever

  /** The step gives a permit back, or is the loader's handing of one to the thread that will. */
  predicate Releases(s: State, a: Action) {
    Enabled(s, a) && (Next(s, a).free == s.free + 1 || (s.loader.Spawning? && a == LoaderStep))
  }

  lemma {:induction false} CollectorMoves(s: State) returns (a: Action)
    requires HeldByPools(s.program.pools) > 0
    ensures a.PoolStep? && Releases(s, a)
  {
    var g := SumWitness(s.program.pools, classes => ClassesHold(classes));
    var c := SumWitness(s.program.pools[g], p => PoolHolds(p));
    var w := SumWitness(s.program.pools[g][c].workers, WorkerHolds);
    a := PoolStep(g, c, Pool.WorkerStep(w));
  }

  /** When all permits are taken some holder can move on: it does not wait for anything. */
  lemma {:induction false} SomeHolderMoves(s: State) returns (a: Action)
    requires Reachable(s) && s.free == 0
    ensures Releases(s, a)
    ensures s.loader == Resting ==> a.PoolStep?
  {
    ReachableInv(s);
    PermitsConserved(s);
    if HeldByPools(s.program.pools) > 0 {
      a := CollectorMoves(s);
    } else if s.loader.Spawning? {
      a := LoaderStep;
    } else {
      var h := SumWitness(s.walkers, WalkerHolds);
      a := WalkerEnds(h);
    }
  }

  /** The class whose turn it is can move, its deleter's steps aside, unless it waits for a permit. */
  lemma {:induction false} ClassMoves(s: State, g: nat, c: nat) returns (a: Action)
    requires Reachable(s) && HasPool(s.program, g, c) && !PollingShutdown.AwaitsPermit(View(s, g, c))
    requires s.program.pools[g][c].finalizer != Pool.Returned && !Pool.FinalizerCanStep(s.program.pools[g][c])
    ensures Enabled(s, a) && a.PoolStep? && a.g == g && a.c == c
  {
    PoolReachable(s, g, c);
    var v := View(s, g, c);
    PollingSafety.ReachableInv(v);
    var step;
    if Pool.Posted(v) { step := PollingShutdown.NeverStuck(v); } else { step := PollingShutdown.OwnerMoves(v); }
    a := PoolStep(g, c, step);
  }

  /**
   While a configuration is being deleted, the deleting thread or a thread of the class it is
   at can move, or all 800 permits are taken and a worker of some configuration can give one
   back. The table loader holds none of them then: it is the deleting thread.
   */
  lemma {:induction false} DeletionNeverStuck(s: State) returns (a: Action)
    requires Reachable(s) && UnderDeletion(s.program).Some? && UnderDeletion(s.program).value in s.program.heap
    ensures Enabled(s, a)
    ensures var config := s.program.heap[UnderDeletion(s.program).value];
      || a == Program(Reload.MainStep)
      || (a.PoolStep? && a.g == config.generation && a.c == config.destroyed)
      || (s.free == 0 && s.loader == Resting && a.PoolStep? && Releases(s, a))
  {
    ReachableInv(s);
    ProgramReachable(s);
    ReloadTheorems.ReachableInv(s.program);
    var address := UnderDeletion(s.program).value;
    var g, c := s.program.heap[address].generation, s.program.heap[address].destroyed;
    assert ReloadTheorems.ConfigInv(s.program.heap[address], s.program.pools);
    if Reload.CanDestroy(s.program, address) {
      a := Program(Reload.MainStep);
    } else if PollingShutdown.AwaitsPermit(View(s, g, c)) {
      a := SomeHolderMoves(s);
    } else {
      a := ClassMoves(s, g, c);
    }
  }

  /** However the program runs on, a pool whose pills are posted makes no more than `Remaining` steps of its own. */
  lemma {:induction false} ShutdownBoundedInProgram(s: State, schedule: seq<Action>, g: nat, c: nat)
    requires Reachable(s) && HasPool(s.program, g, c) && Pool.Posted(s.program.pools[g][c]) && Runs(s, schedule)
    ensures PollingShutdown.OwnSteps(Project(s, schedule, g, c)) <= PollingShutdown.Remaining(View(s, g, c))
  {
    PoolReachable(s, g, c);
    RunProjects(s, schedule, g, c);
    PollingShutdown.ShutdownReturns(View(s, g, c), Project(s, schedule, g, c));
  }
}
