/** What the handover promises over every run of the main loop, the control workers and the pools. */
module ReloadTheorems {
  import opened Options
  import opened ReloadHandover
  import Pool = PollingPool
  import PollingSafety
  import PollingShutdown

  predicate Replacing(m: Main) {
    m.Loading? || m.Initialising? || m.WantMutex? || m.Deleting? || m.Assigning?
  }

  predicate Gone(m: Main) { m.Terminating? || m.Ended? }

  predicate MainInside(m: Main) { m.Deleting? || m.Assigning? || m.Unlocking? }

  predicate ControlInside(c: Control) { c.InStatus? || c.InFirstRead? || c.InPoll? }

  // ----- memory and threads

  /** `finalize` of the first `n` classes has returned. */
  ghost predicate Retired(classes: seq<Pool.State>, n: nat) {
    n <= |classes| && forall c :: 0 <= c < n ==> classes[c].finalizer == Pool.Returned
  }

  ghost predicate ConfigInv(c: Config, pools: seq<seq<Pool.State>>) {
    && c.generation < |pools|
    && Retired(pools[c.generation], c.destroyed)
    && (!c.hostsLive ==> c.destroyed == |pools[c.generation]|)
  }

  ghost predicate InMemory(heap: map<Address, Config>, g: nat) {
    exists a :: a in heap && heap[a].generation == g
  }

  ghost predicate HeapInv(heap: map<Address, Config>, pools: seq<seq<Pool.State>>) {
    && (forall a :: a in heap ==> ConfigInv(heap[a], pools))
    && (forall a, b :: a in heap && b in heap && a != b ==> heap[a].generation != heap[b].generation)
    && (forall g: nat :: g < |pools| && !InMemory(heap, g) ==> Retired(pools[g], |pools[g]|))
  }

  /** Every pool behaves as a pool on its own would. */
  ghost predicate PoolsInv(pools: seq<seq<Pool.State>>) {
    forall g, c :: 0 <= g < |pools| && 0 <= c < |pools[g]| ==> Pool.Inv(pools[g][c])
  }

  ghost predicate PointerInv(s: State) {
    && (!s.main.Deleting? && !s.main.Assigning? && !Gone(s.main) ==> Intact(s.heap, s.current))
    && (Replacing(s.main) ==> s.main.incoming != s.current && Intact(s.heap, s.main.incoming))
    && (s.main.Dropping? ==> s.main.incoming != s.current)
    && (s.main.Assigning? ==> s.current !in s.heap)
  }

  ghost predicate MutexInv(main: Main, mutex: Owner, controls: seq<Control>) {
    && (mutex == ByMain <==> MainInside(main))
    && (mutex.ByControl? ==> mutex.w < |controls|)
    && forall w: nat :: w < |controls| ==> (mutex == ByControl(w) <==> ControlInside(controls[w]))
  }

  /** The generation of the configuration that is to replace the current one. */
  function Incoming(heap: map<Address, Config>, m: Main): nat {
    if Replacing(m) && m.incoming in heap then heap[m.incoming].generation else 0
  }

  /** The load in progress, if any, is that of the main loop, and has come as far. */
  ghost predicate CycleInv(log: seq<Event>, m: Main, g: nat) {
    && InProgress(log) == (if Replacing(m) then Some(g) else None)
    && (m.Loading? ==> Progress(log) == 0)
    && (m.Initialising? ==> Progress(log) == 1)
    && (m.WantMutex? || m.Deleting? || m.Assigning? ==> Progress(log) == 2)
  }

  ghost predicate LogInv(log: seq<Event>, current: Address, generations: nat, m: Main, g: nat) {
    GoodLog(log) && AllBelow(log, generations) && Pointer(log) == current && CycleInv(log, m, g)
  }

  ghost predicate HistoryInv(s: State) { LogInv(s.log, s.current, |s.pools|, s.main, Incoming(s.heap, s.main)) }

  /** What a poller captured is the pointer of its first look; its answer compares it with that of its last. */
  ghost predicate PollInv(log: seq<Event>, c: Control) {
    match c
    case AtSignal(captured, since) => since <= |log| && captured == Pointer(log[..since])
    case AtPoll(captured, since, _) => since <= |log| && captured == Pointer(log[..since])
    case InPoll(captured, since, _) => since <= |log| && captured == Pointer(log[..since])
    case Answered(ok, since, until) =>
      since <= until <= |log| && (ok <==> Pointer(log[..until]) != Pointer(log[..since]))
    case _ => true
  }

  ghost predicate PollsInv(log: seq<Event>, controls: seq<Control>) {
    forall w :: 0 <= w < |controls| ==> PollInv(log, controls[w])
  }

  ghost predicate Inv(s: State) {
    && HeapInv(s.heap, s.pools)
    && PoolsInv(s.pools)
    && PointerInv(s)
    && MutexInv(s.main, s.mutex, s.controls)
    && HistoryInv(s)
    && PollsInv(s.log, s.controls)
    && (!Gone(s.main) ==> !s.fault)
  }

  lemma {:induction false} InitInv(workers: nat)
    ensures Inv(Init(workers))
  {
    var s := Init(workers);
    assert s.heap[0].generation == 0 && InMemory(s.heap, 0);
  }

  // ----- every step keeps the heap and the pools in order

  lemma {:induction false} StillInMemory(heap: map<Address, Config>, next: map<Address, Config>, g: nat)
    requires InMemory(heap, g) && forall a :: a in heap ==> a in next && next[a].generation == heap[a].generation
    ensures InMemory(next, g)
  {
    var a :| a in heap && heap[a].generation == g;
    assert a in next;
  }

  /** Steps of workers and dispatchers leave what `finalize` has reached alone. */
  lemma {:induction false} PoolStepKeepsHeap(heap: map<Address, Config>, pools: seq<seq<Pool.State>>, g: nat, c: nat,
                                             p: Pool.State)
    requires HeapInv(heap, pools) && g < |pools| && c < |pools[g]| && p.finalizer == pools[g][c].finalizer
    ensures HeapInv(heap, pools[g := pools[g][c := p]])
  {
    var next := pools[g := pools[g][c := p]];
    forall a | a in heap ensures ConfigInv(heap[a], next) {
      assert ConfigInv(heap[a], pools);
    }
  }

  /** One step of `finalize` in the class whose turn it is. */
  lemma {:induction false} FinalizeKeepsHeap(heap: map<Address, Config>, pools: seq<seq<Pool.State>>, a: Address,
                                             p: Pool.State)
    requires HeapInv(heap, pools) && a in heap && heap[a].destroyed < |pools[heap[a].generation]|
    ensures HeapInv(heap, pools[heap[a].generation := pools[heap[a].generation][heap[a].destroyed := p]])
  {
    var g := heap[a].generation;
    var next := pools[g := pools[g][heap[a].destroyed := p]];
    assert InMemory(heap, g);
    forall b | b in heap ensures ConfigInv(heap[b], next) {
      assert ConfigInv(heap[b], pools);
    }
  }

  lemma {:induction false} ConfigChangeKeepsHeap(heap: map<Address, Config>, pools: seq<seq<Pool.State>>, a: Address,
                                                 c: Config)
    requires HeapInv(heap, pools) && a in heap && c.generation == heap[a].generation && ConfigInv(c, pools)
    ensures HeapInv(heap[a := c], pools)
  {
    forall g: nat | g < |pools| && InMemory(heap, g) ensures InMemory(heap[a := c], g) {
      StillInMemory(heap, heap[a := c], g);
    }
  }

  lemma {:induction false} FreeKeepsHeap(heap: map<Address, Config>, pools: seq<seq<Pool.State>>, a: Address)
    requires HeapInv(heap, pools) && a in heap && heap[a].destroyed == |pools[heap[a].generation]|
    ensures HeapInv(heap - {a}, pools)
  {
    forall g: nat | g < |pools| && !InMemory(heap - {a}, g) ensures Retired(pools[g], |pools[g]|) {
      assert ConfigInv(heap[a], pools);
      if InMemory(heap, g) {
        var b :| b in heap && heap[b].generation == g;
        assert b in heap - {a} || b == a;
      }
    }
  }

  lemma {:induction false} OneMoreRetired(c: Config, pools: seq<seq<Pool.State>>)
    requires ConfigInv(c, pools) && c.destroyed < |pools[c.generation]|
    requires pools[c.generation][c.destroyed].finalizer == Pool.Returned
    ensures ConfigInv(c.(destroyed := c.destroyed + 1), pools)
  {
  }

  lemma {:induction false} DestroyClassKeepsHeap(s: State, a: Address)
    requires HeapInv(s.heap, s.pools) && CanDestroy(s, a) && s.heap[a].destroyed < |s.pools[s.heap[a].generation]|
    ensures HeapInv(Destroy(s, a).heap, Destroy(s, a).pools)
  {
    var c := s.heap[a];
    var p := s.pools[c.generation][c.destroyed];
    if p.finalizer == Pool.Returned {
      var next := c.(destroyed := c.destroyed + 1);
      OneMoreRetired(c, s.pools);
      ConfigChangeKeepsHeap(s.heap, s.pools, a, next);
      assert Destroy(s, a) == s.(heap := s.heap[a := next]);
    } else {
      var next := Pool.FinalizerNext(p);
      FinalizeKeepsHeap(s.heap, s.pools, a, next);
      assert Destroy(s, a) == SetPool(s, c.generation, c.destroyed, next);
    }
  }

  lemma {:induction false} DestroyKeepsHeap(s: State, a: Address)
    requires HeapInv(s.heap, s.pools) && CanDestroy(s, a)
    ensures HeapInv(Destroy(s, a).heap, Destroy(s, a).pools)
  {
    var c := s.heap[a];
    var classes := s.pools[c.generation];
    assert ConfigInv(c, s.pools);
    if c.destroyed < |classes| {
      DestroyClassKeepsHeap(s, a);
    } else if c.hostsLive {
      ConfigChangeKeepsHeap(s.heap, s.pools, a, c.(hostsLive := false));
    } else {
      FreeKeepsHeap(s.heap, s.pools, a);
    }
  }

  lemma {:induction false} DestroyFrame(s: State, a: Address)
    requires CanDestroy(s, a)
    ensures var t := Destroy(s, a); t == s.(heap := t.heap, pools := t.pools) && |t.pools| == |s.pools|
  {
  }

  /** Deleting one configuration does not touch another, nor its threads. */
  lemma {:induction false} DestroyElsewhere(s: State, a: Address, b: Address)
    requires HeapInv(s.heap, s.pools) && CanDestroy(s, a) && b in s.heap && b != a
    ensures var t := Destroy(s, a);
      && b in t.heap && t.heap[b] == s.heap[b]
      && s.heap[b].generation < |t.pools|
      && t.pools[s.heap[b].generation] == s.pools[s.heap[b].generation]
  {
    assert ConfigInv(s.heap[b], s.pools);
  }

  lemma {:induction false} WakeKeepsHeap(heap: map<Address, Config>, pools: seq<seq<Pool.State>>, a: Address)
    requires HeapInv(heap, pools) && a !in heap
    ensures HeapInv(heap[a := Config(|pools|, 0, true)], pools + [[]])
  {
    var next := heap[a := Config(|pools|, 0, true)];
    forall b | b in next ensures ConfigInv(next[b], pools + [[]]) {
      if b != a { assert ConfigInv(heap[b], pools); }
    }
    forall g: nat | g < |pools| && InMemory(heap, g) ensures InMemory(next, g) {
      StillInMemory(heap, next, g);
    }
  }

  lemma {:induction false} StartKeepsHeap(heap: map<Address, Config>, pools: seq<seq<Pool.State>>, a: Address,
                                          p: Pool.State)
    requires HeapInv(heap, pools) && Intact(heap, a)
    ensures var g := heap[a].generation; g < |pools| && HeapInv(heap, pools[g := pools[g] + [p]])
  {
    var g := heap[a].generation;
    assert ConfigInv(heap[a], pools) && InMemory(heap, g);
    forall b | b in heap ensures ConfigInv(heap[b], pools[g := pools[g] + [p]]) {
      assert ConfigInv(heap[b], pools);
    }
  }

  lemma {:induction false} SetKeepsPools(pools: seq<seq<Pool.State>>, g: nat, c: nat, p: Pool.State)
    requires PoolsInv(pools) && g < |pools| && c < |pools[g]| && Pool.Inv(p)
    ensures PoolsInv(pools[g := pools[g][c := p]])
  {
  }

  lemma {:induction false} DestroyKeepsPools(s: State, a: Address)
    requires PoolsInv(s.pools) && CanDestroy(s, a)
    ensures PoolsInv(Destroy(s, a).pools)
  {
    var c := s.heap[a];
    var classes := s.pools[c.generation];
    if c.destroyed < |classes| && classes[c.destroyed].finalizer != Pool.Returned {
      PollingSafety.FinalizerKeepsInv(classes[c.destroyed]);
      SetKeepsPools(s.pools, c.generation, c.destroyed, Pool.FinalizerNext(classes[c.destroyed]));
    }
  }

  lemma {:induction false} MainKeepsMemory(s: State)
    requires HeapInv(s.heap, s.pools) && PoolsInv(s.pools) && Enabled(s, MainStep)
    ensures HeapInv(MainNext(s).heap, MainNext(s).pools) && PoolsInv(MainNext(s).pools)
  {
    var a := if s.main.Dropping? then s.main.incoming else s.current;
    if (s.main.Deleting? || s.main.Dropping? || s.main.Terminating?) && a in s.heap {
      DestroyKeepsHeap(s, a);
      DestroyKeepsPools(s, a);
    }
  }

  lemma {:induction false} StepKeepsHeap(s: State, a: Action)
    requires HeapInv(s.heap, s.pools) && PoolsInv(s.pools) && PointerInv(s) && Enabled(s, a)
    ensures HeapInv(Next(s, a).heap, Next(s, a).pools)
  {
    match a
    case Wake(incoming) => WakeKeepsHeap(s.heap, s.pools, incoming);
    case StartClass(hosts, permits) => StartKeepsHeap(s.heap, s.pools, Starting(s), Pool.Init(hosts, permits));
    case PoolStep(g, c, step) => PoolStepKeepsHeap(s.heap, s.pools, g, c, Pool.Next(s.pools[g][c], step));
    case MainStep => MainKeepsMemory(s);
    case _ =>
  }

  lemma {:induction false} StepKeepsPools(s: State, a: Action)
    requires HeapInv(s.heap, s.pools) && PoolsInv(s.pools) && Enabled(s, a)
    ensures PoolsInv(Next(s, a).pools)
  {
    match a
    case StartClass(hosts, permits) => PollingSafety.InitInv(hosts, permits);
    case PoolStep(g, c, step) =>
      PollingSafety.StepKeepsInv(s.pools[g][c], step);
      SetKeepsPools(s.pools, g, c, Pool.Next(s.pools[g][c], step));
    case MainStep => MainKeepsMemory(s);
    case _ =>
  }

  // ----- and the pointer, the mutex, the history and the pollers

  lemma {:induction false} MainKeepsPointer(s: State)
    requires HeapInv(s.heap, s.pools) && PointerInv(s) && Enabled(s, MainStep)
    ensures PointerInv(MainNext(s))
  {
    match s.main
    case Deleting(incoming) => if s.current in s.heap { DestroyElsewhere(s, s.current, incoming); }
    case Dropping(incoming) => if incoming in s.heap { DestroyElsewhere(s, incoming, s.current); }
    case _ =>
  }

  lemma {:induction false} StepKeepsPointer(s: State, a: Action)
    requires HeapInv(s.heap, s.pools) && PointerInv(s) && Enabled(s, a)
    ensures PointerInv(Next(s, a))
  {
    if a.MainStep? { MainKeepsPointer(s); }
  }

  lemma {:induction false} ControlKeepsMutex(s: State, w: nat)
    requires MutexInv(s.main, s.mutex, s.controls) && Enabled(s, ControlStep(w))
    ensures var t := ControlNext(s, w); t.main == s.main && MutexInv(t.main, t.mutex, t.controls)
  {
    var t := ControlNext(s, w);
    assert t.controls == s.controls[w := t.controls[w]];
  }

  lemma {:induction false} MainKeepsMutex(s: State)
    requires MutexInv(s.main, s.mutex, s.controls) && Enabled(s, MainStep)
    ensures var t := MainNext(s); MutexInv(t.main, t.mutex, t.controls)
  {
    assert MainNext(s).controls == s.controls;
  }

  lemma {:induction false} StepKeepsMutex(s: State, a: Action)
    requires MutexInv(s.main, s.mutex, s.controls) && Enabled(s, a)
    ensures var t := Next(s, a); MutexInv(t.main, t.mutex, t.controls)
  {
    match a
    case MainStep => MainKeepsMutex(s);
    case ControlStep(w) => ControlKeepsMutex(s, w);
    case _ => assert Next(s, a).mutex == s.mutex;
  }

  lemma {:induction false} SwapKeepsLog(log: seq<Event>, current: Address, generations: nat, incoming: Address, g: nat)
    requires LogInv(log, current, generations, Assigning(incoming), g) && incoming != current && g < generations
    ensures LogInv(log + [Swapped(g, incoming)], incoming, generations, Unlocking, 0)
  {
    GoodLogAppend(log, Swapped(g, incoming));
  }

  lemma {:induction false} WakeKeepsLog(log: seq<Event>, current: Address, generations: nat, incoming: Address)
    requires LogInv(log, current, generations, Waiting, 0)
    ensures LogInv(log + [LoadStarted(generations)], current, generations + 1, Loading(incoming), generations)
  {
    GoodLogAppend(log, LoadStarted(generations));
  }

  /** Loading and initialising, well or not. */
  lemma {:induction false} StageKeepsLog(log: seq<Event>, current: Address, generations: nat, incoming: Address, g: nat)
    requires g < generations
    ensures LogInv(log, current, generations, Loading(incoming), g) ==>
              LogInv(log + [LoadDone(g)], current, generations, Initialising(incoming), g)
    ensures LogInv(log, current, generations, Initialising(incoming), g) ==>
              LogInv(log + [InitDone(g)], current, generations, WantMutex(incoming), g)
    ensures LogInv(log, current, generations, Loading(incoming), g)
            || LogInv(log, current, generations, Initialising(incoming), g)
            ==> LogInv(log + [Dropped(g)], current, generations, Dropping(incoming), 0)
  {
    if LogInv(log, current, generations, Loading(incoming), g) { GoodLogAppend(log, LoadDone(g)); }
    if LogInv(log, current, generations, Initialising(incoming), g) { GoodLogAppend(log, InitDone(g)); }
    if GoodLog(log) && InProgress(log) == Some(g) { GoodLogAppend(log, Dropped(g)); }
  }

  lemma {:induction false} MainKeepsLog(s: State)
    requires HeapInv(s.heap, s.pools) && PointerInv(s) && HistoryInv(s) && Enabled(s, MainStep)
    ensures HistoryInv(MainNext(s))
  {
    match s.main
    case Assigning(incoming) =>
      assert ConfigInv(s.heap[incoming], s.pools);
      SwapKeepsLog(s.log, s.current, |s.pools|, incoming, s.heap[incoming].generation);
    case Deleting(incoming) => DeletingKeepsLog(s);
    case Dropping(incoming) => if incoming in s.heap { DestroyFrame(s, incoming); }
    case Terminating => if s.current in s.heap { DestroyFrame(s, s.current); }
    case _ =>
  }

  lemma {:induction false} DeletingKeepsLog(s: State)
    requires HeapInv(s.heap, s.pools) && PointerInv(s) && HistoryInv(s) && s.main.Deleting? && Enabled(s, MainStep)
    ensures HistoryInv(MainNext(s))
  {
    if s.current in s.heap {
      DestroyFrame(s, s.current);
      DestroyElsewhere(s, s.current, s.main.incoming);
    }
  }

  lemma {:induction false} StepKeepsLog(s: State, a: Action)
    requires HeapInv(s.heap, s.pools) && PointerInv(s) && HistoryInv(s) && Enabled(s, a)
    ensures HistoryInv(Next(s, a))
  {
    if s.main.Loading? || s.main.Initialising? {
      assert ConfigInv(s.heap[s.main.incoming], s.pools);
      StageKeepsLog(s.log, s.current, |s.pools|, s.main.incoming, s.heap[s.main.incoming].generation);
    }
    match a
    case Wake(incoming) => WakeKeepsLog(s.log, s.current, |s.pools|, incoming);
    case MainStep => MainKeepsLog(s);
    case _ =>
  }

  lemma {:induction false} HistoryGrows(s: State, a: Action)
    requires Enabled(s, a)
    ensures s.log <= Next(s, a).log
  {
  }

  lemma {:induction false} LongerLogKeepsPoll(log: seq<Event>, longer: seq<Event>, c: Control)
    requires PollInv(log, c) && log <= longer
    ensures PollInv(longer, c)
  {
    assert forall n :: 0 <= n <= |log| ==> longer[..n] == log[..n];
  }

  lemma {:induction false} StepKeepsPolls(s: State, a: Action, w: nat)
    requires Enabled(s, a) && Pointer(s.log) == s.current && w < |s.controls| && PollInv(s.log, s.controls[w])
    ensures w < |Next(s, a).controls| && PollInv(Next(s, a).log, Next(s, a).controls[w])
  {
    var t := Next(s, a);
    HistoryGrows(s, a);
    LongerLogKeepsPoll(s.log, t.log, s.controls[w]);
    assert s.log[..|s.log|] == s.log;
  }

  lemma {:induction false} SameControls(s: State, a: Action)
    requires Enabled(s, a)
    ensures |Next(s, a).controls| == |s.controls|
  {
  }

  lemma {:induction false} StepKeepsAllPolls(s: State, a: Action)
    requires Enabled(s, a) && Pointer(s.log) == s.current && PollsInv(s.log, s.controls)
    ensures PollsInv(Next(s, a).log, Next(s, a).controls)
  {
    SameControls(s, a);
    forall w: nat | w < |s.controls| ensures PollInv(Next(s, a).log, Next(s, a).controls[w]) {
      StepKeepsPolls(s, a, w);
    }
  }

  lemma {:induction false} StepKeepsFault(s: State, a: Action)
    requires PointerInv(s) && MutexInv(s.main, s.mutex, s.controls) && (!Gone(s.main) ==> !s.fault) && Enabled(s, a)
    ensures !Gone(Next(s, a).main) ==> !Next(s, a).fault
  {
    if a.ControlStep? && s.controls[a.w].InStatus? {
      assert s.mutex == ByControl(a.w);
    }
  }

  lemma {:induction false} StepKeepsInv(s: State, a: Action)
    requires Inv(s) && Enabled(s, a)
    ensures Inv(Next(s, a))
  {
    StepKeepsHeap(s, a);
    StepKeepsPools(s, a);
    StepKeepsPointer(s, a);
    StepKeepsMutex(s, a);
    StepKeepsLog(s, a);
    StepKeepsFault(s, a);
    StepKeepsAllPolls(s, a);
  }

  lemma {:induction false} RunKeepsInv(s: State, schedule: seq<Action>)
    requires Inv(s) && Runs(s, schedule)
    ensures Inv(After(s, schedule))
    decreases |schedule|
  {
    if schedule != [] {
      StepKeepsInv(s, schedule[0]);
      RunKeepsInv(Next(s, schedule[0]), schedule[1..]);
    }
  }

  lemma {:induction false} ReachableInv(s: State)
    requires Reachable(s)
    ensures Inv(s)
  {
    var workers: nat, schedule :| Runs(Init(workers), schedule) && After(Init(workers), schedule) == s;
    InitInv(workers);
    RunKeepsInv(Init(workers), schedule);
  }

  // ----- the promises

  /**
   Until the program is told to terminate, a control worker inside the mutex sees a whole
   configuration, none of whose classes nor the host table has been destroyed.
   */
  lemma {:induction false} ReadersSeeLiveConfig(s: State, w: nat)
    requires Reachable(s) && !Gone(s.main)
    ensures !s.fault
    ensures w < |s.controls| && ControlInside(s.controls[w]) ==> Intact(s.heap, s.current)
  {
    ReachableInv(s);
  }

  /**
   A worker that has not exited, of whichever class of whichever generation, has its class
   and its host table in memory: every deletion, also the last one, joins first.
   */
  lemma {:induction false} WorkersBeforeHosts(s: State, g: nat, c: nat, w: nat) returns (a: Address)
    requires Reachable(s) && g < |s.pools| && c < |s.pools[g]| && w < |s.pools[g][c].workers|
    requires s.pools[g][c].workers[w] != Pool.Exited
    ensures a in s.heap && s.heap[a].generation == g && s.heap[a].hostsLive && s.heap[a].destroyed <= c
  {
    ReachableInv(s);
    assert Pool.Inv(s.pools[g][c]);
    assert s.pools[g][c].finalizer != Pool.Returned;
    assert InMemory(s.heap, g);
    a :| a in s.heap && s.heap[a].generation == g;
    assert ConfigInv(s.heap[a], s.pools);
  }

  /** The classes of a configuration under deletion never bring the deleting thread to a halt by themselves. */
  lemma {:induction false} DeletionMoves(s: State, a: Address) returns (next: Option<Pool.Action>)
    requires Reachable(s) && a in s.heap
    ensures s.heap[a].generation < |s.pools|
    ensures var g := s.heap[a].generation;
      var c := s.heap[a].destroyed;
      c < |s.pools[g]| && !PollingShutdown.AwaitsPermit(s.pools[g][c]) ==>
        if next.None? then CanDestroy(s, a) else Enabled(s, PoolStep(g, c, next.value)) && !next.value.Others?
  {
    ReachableInv(s);
    assert ConfigInv(s.heap[a], s.pools);
    var g, c := s.heap[a].generation, s.heap[a].destroyed;
    next := None;
    if c < |s.pools[g]| && !PollingShutdown.AwaitsPermit(s.pools[g][c]) && !CanDestroy(s, a) {
      var p := s.pools[g][c];
      assert Pool.Inv(p);
      var step;
      if Pool.Posted(p) { step := PollingShutdown.NeverStuck(p); } else { step := PollingShutdown.OwnerMoves(p); }
      next := Some(step);
    }
  }

  /** Only the swap, never a failed load or init, touches the current configuration, its pointer or its classes. */
  lemma {:induction false} FailureKeepsCurrent(s: State, a: Action)
    requires Reachable(s) && Enabled(s, a) && !Gone(s.main) && !s.main.FirstInit?
    requires !(a.MainStep? && (s.main.Deleting? || s.main.Assigning?))
    ensures var t := Next(s, a);
      && t.current == s.current
      && (s.current in s.heap ==>
            && s.current in t.heap && t.heap[s.current] == s.heap[s.current]
            && s.heap[s.current].generation < |s.pools| <= |t.pools|
            && (!a.PoolStep? ==> t.pools[s.heap[s.current].generation] == s.pools[s.heap[s.current].generation]))
  {
    ReachableInv(s);
    if s.current in s.heap {
      assert ConfigInv(s.heap[s.current], s.pools);
      if a.MainStep? && s.main.Dropping? && s.main.incoming in s.heap {
        DestroyElsewhere(s, s.main.incoming, s.current);
      }
    }
  }

  // ----- when a poller notices

  lemma {:induction false} PointerStep(log: seq<Event>, n: nat)
    requires GoodLog(log) && n < |log|
    ensures Swaps(log[..n + 1]) == Swaps(log[..n]) + (if log[n].Swapped? then 1 else 0)
    ensures Pointer(log[..n + 1]) == if log[n].Swapped? then log[n].at else Pointer(log[..n])
    ensures log[n].Swapped? ==> log[n].at != Pointer(log[..n])
  {
    assert log[..n + 1][..n] == log[..n];
    assert GoodEvent(log[..n], log[n]);
  }

  /** Position `last` is that of the last swap before `to`. */
  ghost predicate LastSwap(log: seq<Event>, last: nat, to: nat) {
    last < to <= |log| && log[last].Swapped? && forall k :: last < k < to ==> !log[k].Swapped?
  }

  /** Without a swap the pointer stays, one swap moves it, and after more it is where the last one put it. */
  ghost predicate Moved(log: seq<Event>, from: nat, to: nat, last: nat, swaps: int, was: Address, now: Address) {
    && swaps >= 0
    && (swaps == 0 ==> now == was)
    && (swaps == 1 ==> now != was)
    && (swaps > 0 ==> from <= last && LastSwap(log, last, to) && now == log[last].at)
  }

  lemma {:induction false} MovedStep(log: seq<Event>, from: nat, to: nat, last: nat, swaps: int, was: Address,
                                     now: Address)
    requires Moved(log, from, to, last, swaps, was, now) && from <= to < |log|
        && (log[to].Swapped? ==> log[to].at != now)
    ensures
      if log[to].Swapped? then Moved(log, from, to + 1, to, swaps + 1, was, log[to].at)
      else Moved(log, from, to + 1, last, swaps, was, now)
  {
  }

  lemma {:induction false} PointerMoves(log: seq<Event>, from: nat, to: nat) returns (last: nat)
    requires GoodLog(log) && from <= to <= |log|
    ensures Moved(log, from, to, last, Swaps(log[..to]) - Swaps(log[..from]), Pointer(log[..from]), Pointer(log[..to]))
  {
    var n, swaps, was := from, Swaps(log[..from]), Pointer(log[..from]);
    last := 0;
    while n < to
      invariant from <= n <= to
      invariant Moved(log, from, n, last, Swaps(log[..n]) - swaps, was, Pointer(log[..n]))
    {
      PointerStep(log, n);
      MovedStep(log, from, n, last, Swaps(log[..n]) - swaps, was, Pointer(log[..n]));
      if log[n].Swapped? { last := n; }
      n := n + 1;
    }
  }

  /**
   The answer to a reload, "200" or "550", for every number of swaps between the first look
   and the last: none is never reported, a single one always, and of several the last
   decides: they go unnoticed exactly if it put the captured address back.
   */
  lemma {:induction false} AnswerCompares(s: State, w: nat) returns (last: nat)
    requires Reachable(s) && w < |s.controls| && s.controls[w].Answered?
    ensures var c := s.controls[w]; c.since <= c.until <= |s.log|
    ensures var c := s.controls[w];
      var before, after := Swaps(s.log[..c.since]), Swaps(s.log[..c.until]);
      && (after == before ==> !c.ok)
      && (after == before + 1 ==> c.ok)
      && (after > before ==>
            c.since <= last && LastSwap(s.log, last, c.until)
                && (c.ok <==> s.log[last].at != Pointer(s.log[..c.since])))
      && before <= after
  {
    ReachableInv(s);
    assert PollInv(s.log, s.controls[w]);
    last := PointerMoves(s.log, s.controls[w].since, s.controls[w].until);
  }

  predicate Polling(c: Control) { c.AtSignal? || c.AtPoll? || c.InPoll? }

  /** The same for a worker that still polls: what it would see at its next look. */
  lemma {:induction false} PollSees(s: State, w: nat) returns (last: nat)
    requires Reachable(s) && w < |s.controls| && Polling(s.controls[w])
    ensures s.controls[w].since <= |s.log|
    ensures var c := s.controls[w];
      var before, now := Swaps(s.log[..c.since]), Swaps(s.log);
      && (now == before ==> s.current == c.captured)
      && (now == before + 1 ==> s.current != c.captured)
      && (now > before ==>
            c.since <= last && LastSwap(s.log, last, |s.log|)
                && (s.current == c.captured <==> s.log[last].at == c.captured))
      && before <= now
  {
    ReachableInv(s);
    assert PollInv(s.log, s.controls[w]);
    assert s.log[..|s.log|] == s.log;
    last := PointerMoves(s.log, s.controls[w].since, |s.log|);
  }

  // ----- what a positive answer means

  /** A load in progress began, was loaded and initialised, in this order, and was in progress all the time since. */
  lemma {:induction false} CycleBefore(log: seq<Event>, n: nat, g: nat) returns (i: nat, l: nat, m: nat)
    requires GoodLog(log) && n <= |log| && InProgress(log[..n]) == Some(g)
    ensures i < n && log[i] == LoadStarted(g)
    ensures forall k :: i < k <= n ==> InProgress(log[..k]) == Some(g)
    ensures Progress(log[..n]) >= 1 ==> i < l < n && log[l] == LoadDone(g)
    ensures Progress(log[..n]) == 2 ==> l < m < n && log[m] == InitDone(g)
  {
    var last := log[n - 1];
    assert log[..n][..n - 1] == log[..n - 1];
    assert GoodEvent(log[..n - 1], last);
    if last.LoadStarted? {
      i, l, m := n - 1, 0, 0;
    } else {
      i, l, m := CycleBefore(log, n - 1, g);
      if last.LoadDone? { l := n - 1; }
      if last.InitDone? { m := n - 1; }
    }
  }

  /** Every load has a generation of its own. */
  lemma {:induction false} LaterLoad(log: seq<Event>, i: nat, j: nat)
    requires GoodLog(log) && i < j < |log| && log[j].LoadStarted?
    ensures log[i].g < log[j].g
  {
    assert GoodEvent(log[..j], log[j]);
    assert log[..j][i] == log[i];
  }

  /**
   Behind every swap there is a whole cycle of the same generation, and it began after a
   given moment if and only if that generation was not being loaded at that moment.
   */
  lemma {:induction false} SwapCycle(log: seq<Event>, since: nat, j: nat) returns (i: nat, l: nat, m: nat)
    requires GoodLog(log) && since <= j < |log| && log[j].Swapped?
    ensures i < l < m < j
    ensures var g := log[j].g; log[i] == LoadStarted(g) && log[l] == LoadDone(g) && log[m] == InitDone(g)
    ensures since <= i <==> InProgress(log[..since]) != Some(log[j].g)
  {
    assert GoodEvent(log[..j], log[j]);
    var g := log[j].g;
    i, l, m := CycleBefore(log, j, g);
    if InProgress(log[..since]) == Some(g) {
      var i', l', m' := CycleBefore(log, since, g);
      if i' < i { LaterLoad(log, i', i); }
    }
  }

  /**
   A "200" answer: since the first look a fully loaded and initialised configuration was swapped
   in, and its whole cycle happened since then exactly if it was not the one under way at that
   moment.
   */
  lemma {:induction false} PositiveAnswer(s: State, w: nat) returns (i: nat, l: nat, m: nat, j: nat)
    requires Reachable(s) && w < |s.controls| && s.controls[w].Answered? && s.controls[w].ok
    ensures i < l < m < j < |s.log| && s.controls[w].since <= j && s.log[j].Swapped?
    ensures var g := s.log[j].g; s.log[i] == LoadStarted(g) && s.log[l] == LoadDone(g) && s.log[m] == InitDone(g)
    ensures s.controls[w].since <= i <==> InProgress(s.log[..s.controls[w].since]) != Some(s.log[j].g)
  {
    ReachableInv(s);
    j := AnswerCompares(s, w);
    i, l, m := SwapCycle(s.log, s.controls[w].since, j);
  }

  // ----- what it does not mean

  lemma {:induction false} RunThenStep(s: State, schedule: seq<Action>, a: Action)
    requires Runs(s, schedule) && Enabled(After(s, schedule), a)
    ensures Runs(s, schedule + [a]) && After(s, schedule + [a]) == Next(After(s, schedule), a)
    decreases |schedule|
  {
    if schedule == [] {
      assert [a][1..] == [] && Runs(Next(s, a), []);
    } else {
      RunThenStep(Next(s, schedule[0]), schedule[1..], a);
      assert (schedule + [a])[1..] == schedule[1..] + [a];
    }
  }

  lemma {:induction false} Go(s: State, a: Action) returns (t: State)
    requires Reachable(s) && Enabled(s, a)
    ensures t == Next(s, a) && Reachable(t)
  {
    var workers: nat, schedule :| Runs(Init(workers), schedule) && After(Init(workers), schedule) == s;
    RunThenStep(Init(workers), schedule, a);
    assert Runs(Init(workers), schedule + [a]);
    t := Next(s, a);
  }

  /** A load, without classes, up to the point where the new configuration waits for the mutex. */
  lemma {:induction false} LoadNew(s: State, incoming: Address) returns (t: State)
    requires Reachable(s) && s.main == Waiting && incoming !in s.heap
    ensures Reachable(t) && t.main == WantMutex(incoming)
    ensures t.current == s.current && t.mutex == s.mutex && t.controls == s.controls
    ensures t.heap == s.heap[incoming := Config(|s.pools|, 0, true)] && t.pools == s.pools + [[]]
    ensures var g := |s.pools|; t.log == s.log + [LoadStarted(g), LoadDone(g), InitDone(g)]
  {
    t := Go(s, Wake(incoming));
    t := Go(t, Succeed);
    t := Go(t, Succeed);
  }

  /** Deleting an old configuration without classes and swapping the new one in. */
  lemma {:induction false} SwapIn(s: State) returns (t: State)
    requires Reachable(s) && s.main.WantMutex? && s.mutex == Nobody && s.main.incoming in s.heap
    requires s.main.incoming != s.current && Intact(s.heap, s.current)
    requires s.heap[s.current].generation < |s.pools| && s.pools[s.heap[s.current].generation] == []
    ensures Reachable(t) && t.main == Waiting && t.mutex == Nobody && t.controls == s.controls
    ensures t.current == s.main.incoming && t.heap == s.heap - {s.current} && t.pools == s.pools
    ensures t.log == s.log + [Swapped(s.heap[s.main.incoming].generation, s.main.incoming)]
  {
    t := Go(s, MainStep);
    t := Go(t, MainStep);
    t := Go(t, MainStep);
    assert s.current !in t.heap;
    t := Go(t, MainStep);
    t := Go(t, MainStep);
    t := Go(t, MainStep);
  }

  /** A control worker captures the current pointer and signals the main loop. */
  lemma {:induction false} Ask(s: State) returns (t: State)
    requires Reachable(s) && s.mutex == Nobody && |s.controls| == 1 && s.controls[0] == Idle
    ensures Reachable(t) && t == s.(controls := [AtPoll(s.current, |s.log|, 0)])
  {
    t := Go(s, Begin(0, true));
    t := Go(t, ControlStep(0));
    t := Go(t, ControlStep(0));
    t := Go(t, ControlStep(0));
  }

  /** Its next look finds another configuration. */
  lemma {:induction false} Notice(s: State) returns (t: State)
    requires Reachable(s) && s.mutex == Nobody && |s.controls| == 1
    requires s.controls[0].AtPoll? && s.controls[0].captured != s.current
    ensures Reachable(t) && t == s.(controls := [Answered(true, s.controls[0].since, |s.log|)])
  {
    t := Go(s, ControlStep(0));
    t := Go(t, ControlStep(0));
  }

  /** It polls for as long as it does, and the pointer is the captured one every time. */
  lemma {:induction false} PollInVain(s: State) returns (t: State)
    requires Reachable(s) && s.mutex == Nobody && |s.controls| == 1
    requires s.controls[0].AtPoll? && s.controls[0].captured == s.current && s.controls[0].polls < WAIT_SECS
    ensures Reachable(t) && t == s.(controls := [Answered(false, s.controls[0].since, |s.log|)])
    decreases WAIT_SECS - s.controls[0].polls
  {
    t := Go(s, ControlStep(0));
    t := Go(t, ControlStep(0));
    if s.controls[0].polls + 1 < WAIT_SECS { t := PollInVain(t); }
  }

  lemma {:induction false} Started() returns (s: State)
    ensures Reachable(s) && s.main == Waiting && s.mutex == Nobody && s.controls == [Idle] && s.log == []
    ensures s.current == 0 && s.heap == map[0 := Config(0, 0, true)] && s.pools == [[]]
  {
    s := Init(1);
    assert Runs(s, []) && After(s, []) == s;
    assert Reachable(s);
    s := Go(s, Succeed);
  }

  /** A request that arrives during a load is answered "200" although no load began after it. */
  lemma {:induction false} LoadBeganBeforeRequest() returns (s: State)
    ensures Reachable(s) && s.controls == [Answered(true, 3, 4)]
    ensures forall i :: 3 <= i < |s.log| ==> !s.log[i].LoadStarted?
  {
    s := Started();
    s := LoadNew(s, 1);
    s := Ask(s);
    s := SwapIn(s);
    s := Notice(s);
  }

  /** Two reloads between two polls bring back the captured address, and the answer is "550". */
  lemma {:induction false} AddressReused() returns (s: State)
    ensures Reachable(s) && s.controls == [Answered(false, 0, |s.log|)] && Swaps(s.log) == 2
    ensures s.current in s.heap && s.heap[s.current].generation == 2
  {
    s := Started();
    s := Ask(s);
    s := LoadNew(s, 1);
    s := SwapIn(s);
    assert s.heap == map[1 := Config(1, 0, true)];
    s := LoadNew(s, 0);
    s := SwapIn(s);
    TwoSwaps(s.log);
    s := PollInVain(s);
  }

  lemma {:induction false} TwoSwaps(log: seq<Event>)
    requires |log| == 8 && forall i :: 0 <= i < 8 ==> (log[i].Swapped? <==> i == 3 || i == 7)
    ensures Swaps(log) == 2
  {
    var n := 0;
    while n < 8
      invariant n <= 8 && Swaps(log[..n]) == if n < 4 then 0 else if n < 8 then 1 else 2
    {
      assert log[..n + 1][..n] == log[..n];
      n := n + 1;
    }
    assert log[..8] == log;
  }
}
