/** Every step of every thread keeps the pool's invariant, so every interleaving is safe. */
module PollingSafety {
  import opened Sums
  import opened PollingPool

  lemma {:induction false} InitInv(hosts: nat, permits: nat)
    ensures Inv(Init(hosts, permits))
  {
    var s := Init(hosts, permits);
    SumConstant(s.workers, Holding, 0);
    SumConstant(s.workers, Unpilled, 1);
  }

  /** How one worker's move shows in the two counts. */
  lemma {:induction false} CountsAfter(s: State, w: nat)
    requires WorkerCanStep(s, w)
    ensures var t := WorkerNext(s, w);
      && NumHolding(t) + Holding(s.workers[w]) == NumHolding(s) + Holding(t.workers[w])
      && NumUnpilled(t) + Unpilled(s.workers[w]) == NumUnpilled(s) + Unpilled(t.workers[w])
      && Holding(s.workers[w]) <= NumHolding(s) && Unpilled(s.workers[w]) <= NumUnpilled(s)
  {
    var t := WorkerNext(s, w);
    assert t.workers == s.workers[w := t.workers[w]];
    SumUpdate(s.workers, w, t.workers[w], Holding);
    SumUpdate(s.workers, w, t.workers[w], Unpilled);
    SumAtLeast(s.workers, w, Holding);
    SumAtLeast(s.workers, w, Unpilled);
  }

  /** A worker at the queue always finds something: a host while the pool runs, its pill afterwards. */
  lemma {:induction false} PopFindsItem(s: State, w: nat)
    requires Inv(s) && w < |s.workers| && s.workers[w] == InCritical
    ensures s.queue != []
    ensures Running(s) ==> IsHost(s, s.queue[0]) && !s.dispatcher.Pushing? && !s.dispatcher.Posting?
    ensures !Running(s) ==> ShutDown(s) && s.queue[0] == PILL && NumUnpilled(s) > 0
  {
    SumAtLeast(s.workers, w, Holding);
    SumAtLeast(s.workers, w, Unpilled);
    assert WorkerShape(s, w);
  }

  lemma {:induction false} WorkerKeepsShapeOf(s: State, w: nat, v: nat)
    requires WorkerCanStep(s, w) && v < |s.workers| && WorkerShape(s, v) && WorkerShape(s, w)
    requires s.workers[w] == InCritical ==> s.queue != [] && (s.queue[0] == PILL || IsHost(s, s.queue[0]))
    ensures WorkerShape(WorkerNext(s, w), v)
  {
  }

  lemma {:induction false} WorkerKeepsShape(s: State, w: nat)
    requires Inv(s) && WorkerCanStep(s, w)
    ensures Shape(WorkerNext(s, w))
  {
    if s.workers[w] == InCritical { PopFindsItem(s, w); }
    var t := WorkerNext(s, w);
    assert WorkerShape(s, w);
    forall v: nat | v < |t.workers| ensures WorkerShape(t, v) {
      assert WorkerShape(s, v);
      WorkerKeepsShapeOf(s, w, v);
    }
  }

  /** Taking the head of the pending round keeps the turn counts in step. */
  lemma {:induction false} PopKeepsRound(s: State, w: nat)
    requires Inv(s) && Running(s) && WorkerCanStep(s, w) && s.workers[w] == InCritical
    ensures var t := WorkerNext(s, w); RoundInv(t.hosts, t.queue, t.dispatcher, t.log)
  {
    PopFindsItem(s, w);
    assert WorkerShape(s, w);
    var t := WorkerNext(s, w);
    forall h ensures Served(t.log, h) == Served(s.log, h) + (if h == s.queue[0] then 1 else 0) {
      ServedAppend(s.log, Popped(w, s.queue[0]), h);
    }
    assert s.queue[0] == s.hosts - |s.queue|;
  }

  lemma {:induction false} PopKeepsQueue(s: State, w: nat)
    requires Inv(s) && WorkerCanStep(s, w) && s.workers[w] == InCritical
    ensures QueueInv(WorkerNext(s, w))
  {
    CountsAfter(s, w);
    PopFindsItem(s, w);
    DiscardsAppend(s.log, Popped(w, s.queue[0]));
    if Running(s) {
      PopKeepsRound(s, w);
    } else {
      assert Pills(NumUnpilled(s))[1..] == Pills(NumUnpilled(s) - 1);
    }
  }

  /** Moves away from the queue leave tokens and holders together as they were. */
  lemma {:induction false} WorkerKeepsQueue(s: State, w: nat)
    requires Shape(s) && QueueInv(s) && WorkerCanStep(s, w) && s.workers[w] != InCritical
    ensures QueueInv(WorkerNext(s, w))
  {
    AwayFromQueue(s, w);
    var t := WorkerNext(s, w);
    if s.workers[w].Collecting? {
      CollectedKeepsBalance(s.hosts, s.queue, s.dispatcher, s.finalizer, s.log, |s.workers|,
                            s.tokens + NumHolding(s), NumUnpilled(s), w, s.workers[w].host);
    } else {
      assert t.log == s.log;
    }
  }

  lemma {:induction false} AwayFromQueue(s: State, w: nat)
    requires Shape(s) && WorkerCanStep(s, w) && s.workers[w] != InCritical
    ensures var t := WorkerNext(s, w);
      && t.hosts == s.hosts && t.queue == s.queue && t.dispatcher == s.dispatcher && t.finalizer == s.finalizer
      && |t.workers| == |s.workers|
      && t.tokens + NumHolding(t) == s.tokens + NumHolding(s) && NumUnpilled(t) == NumUnpilled(s)
  {
    CountsAfter(s, w);
    assert WorkerShape(s, w);
  }

  lemma {:induction false} CollectedKeepsBalance(hosts: nat, queue: seq<int>, d: Dispatcher, f: Finalizer,
                                                 log: seq<Event>, workers: nat, supply: nat, unpilled: nat, w: nat,
                                                 host: int)
    requires Balance(hosts, queue, d, f, log, workers, supply, unpilled)
    ensures Balance(hosts, queue, d, f, log + [Collected(w, host)], workers, supply, unpilled)
  {
    CollectedKeepsCounts(hosts, queue, d, log, w, host);
  }

  /** A finished collection is not a turn: the turns were counted when the hosts were taken. */
  lemma {:induction false} CollectedKeepsCounts(hosts: nat, queue: seq<int>, d: Dispatcher, log: seq<Event>, w: nat,
                                                host: int)
    ensures var longer := log + [Collected(w, host)];
      Discards(longer) == Discards(log) && (RoundInv(hosts, queue, d, log) ==> RoundInv(hosts, queue, d, longer))
  {
    var longer := log + [Collected(w, host)];
    DiscardsAppend(log, Collected(w, host));
    forall h ensures Served(longer, h) == Served(log, h) {
      ServedAppend(log, Collected(w, host), h);
    }
  }

  lemma {:induction false} GoodLogPop(log: seq<Event>, w: nat, item: int)
    requires GoodLog(log) && Popped(w, PILL) !in log
    requires item == PILL <==> PillsPosted in log
    ensures GoodLog(log + [Popped(w, item)])
  {
    var longer := log + [Popped(w, item)];
    forall j | 0 <= j < |longer| && longer[j].Popped? && longer[j].item == PILL ensures PillsPosted in longer[..j] {
      if j < |log| {
        assert longer[..j] == log[..j];
      } else {
        assert longer[..j] == log;
      }
    }
    assert forall i :: 0 <= i < |log| && log[i].Popped? && log[i].item == PILL ==>
        log[i] == Popped(log[i].worker, PILL);
  }

  lemma {:induction false} PopKeepsLog(s: State, w: nat)
    requires Inv(s) && WorkerCanStep(s, w) && s.workers[w] == InCritical
    ensures var t := WorkerNext(s, w); LogInv(t.log, t.workers, ShutDown(t))
  {
    PopFindsItem(s, w);
    PopKeepsLogOf(s.log, s.workers, w, s.queue[0], ShutDown(s));
  }

  lemma {:induction false} PopKeepsLogOf(log: seq<Event>, workers: seq<Worker>, w: nat, item: int, posted: bool)
    requires LogInv(log, workers, posted) && w < |workers| && workers[w] == InCritical
    requires item == PILL <==> posted
    ensures LogInv(log + [Popped(w, item)], workers[w := AtUnlock(item)], posted)
  {
    GoodLogPop(log, w, item);
  }

  lemma {:induction false} WorkerKeepsLog(s: State, w: nat)
    requires LogInv(s.log, s.workers, ShutDown(s)) && WorkerCanStep(s, w) && s.workers[w] != InCritical
    ensures var t := WorkerNext(s, w); LogInv(t.log, t.workers, ShutDown(t))
  {
    if s.workers[w].Collecting? {
      CollectedKeepsLog(s.log, s.workers, w, s.workers[w].host, ShutDown(s));
      assert WorkerNext(s, w).workers == s.workers[w := AtWait];
    }
  }

  lemma {:induction false} CollectedKeepsLog(log: seq<Event>, workers: seq<Worker>, w: nat, host: int, posted: bool)
    requires LogInv(log, workers, posted) && w < |workers| && workers[w].Collecting?
    ensures LogInv(log + [Collected(w, host)], workers[w := AtWait], posted)
  {
    var longer := log + [Collected(w, host)];
    assert forall j :: 0 <= j <= |log| ==> longer[..j] == log[..j];
    assert forall e :: e in longer <==> e in log || e == Collected(w, host);
  }

  lemma {:induction false} WorkerKeepsJoin(s: State, w: nat)
    requires JoinInv(s.finalizer, s.workers) && WorkerCanStep(s, w)
    ensures var t := WorkerNext(s, w); JoinInv(t.finalizer, t.workers)
  {
  }

  lemma {:induction false} WorkerKeepsInv(s: State, w: nat)
    requires Inv(s) && WorkerCanStep(s, w)
    ensures Inv(WorkerNext(s, w))
  {
    WorkerKeepsShape(s, w);
    WorkerKeepsJoin(s, w);
    if s.workers[w] == InCritical {
      PopKeepsQueue(s, w);
      PopKeepsLog(s, w);
    } else {
      WorkerKeepsQueue(s, w);
      WorkerKeepsLog(s, w);
    }
  }

  lemma {:induction false} ShapeFrame(s: State, t: State)
    requires Shape(s) && t.workers == s.workers && t.hosts == s.hosts
    requires s.owner.ByWorker? ==> t.owner == s.owner
    requires t.owner.ByWorker? ==> t.owner == s.owner
    ensures forall w: nat :: w < |t.workers| ==> WorkerShape(t, w)
  {
    forall w: nat | w < |t.workers| ensures WorkerShape(t, w) {
      assert WorkerShape(s, w);
    }
  }

  lemma {:induction false} DispatcherKeepsRound(s: State)
    requires Shape(s) && DispatcherCanStep(s)
    requires RoundInv(s.hosts, s.queue, s.dispatcher, s.log)
    ensures var t := DispatcherNext(s); RoundInv(t.hosts, t.queue, t.dispatcher, t.log)
  {
    match s.dispatcher
    case Pushing(i) =>
      if i < s.hosts { assert s.queue + [i] == Range(0, i + 1); }
    case _ =>
  }

  lemma {:induction false} DispatcherKeepsQueue(s: State)
    requires Shape(s) && QueueInv(s) && DispatcherCanStep(s)
    ensures QueueInv(DispatcherNext(s))
  {
    var t := DispatcherNext(s);
    assert NumHolding(t) == NumHolding(s) && NumUnpilled(t) == NumUnpilled(s);
    if Running(s) { DispatcherKeepsRound(s); }
  }

  lemma {:induction false} DispatcherKeepsShape(s: State)
    requires Shape(s) && DispatcherCanStep(s)
    ensures Shape(DispatcherNext(s))
  {
    ShapeFrame(s, DispatcherNext(s));
  }

  lemma {:induction false} DispatcherKeepsInv(s: State)
    requires Inv(s) && DispatcherCanStep(s)
    ensures Inv(DispatcherNext(s))
  {
    DispatcherKeepsShape(s);
    DispatcherKeepsQueue(s);
  }

  lemma {:induction false} FinalizerKeepsLog(s: State)
    requires Inv(s) && FinalizerCanStep(s)
    ensures var t := FinalizerNext(s); LogInv(t.log, t.workers, ShutDown(t))
  {
    var t := FinalizerNext(s);
    if t.log != s.log {
      assert |t.log| == |s.log| + 1 && t.log[..|s.log|] == s.log && !t.log[|s.log|].Popped?;
      assert forall j :: 0 <= j <= |s.log| ==> t.log[..j] == s.log[..j];
    }
  }

  lemma {:induction false} FinalizerEntersQueue(s: State)
    requires Shape(s) && QueueInv(s) && FinalizerCanStep(s) && Running(s)
    ensures QueueInv(FinalizerNext(s))
  {
    var t := FinalizerNext(s);
    assert NumHolding(t) == NumHolding(s) && NumUnpilled(t) == NumUnpilled(s);
  }

  lemma {:induction false} FinalizerKeepsQueue(s: State)
    requires Shape(s) && QueueInv(s) && FinalizerCanStep(s) && !Running(s)
    ensures QueueInv(FinalizerNext(s))
  {
    var t := FinalizerNext(s);
    assert NumHolding(t) == NumHolding(s) && NumUnpilled(t) == NumUnpilled(s);
    match s.finalizer
    case Draining => if s.queue != [] { DiscardsAppend(s.log, Discarded(s.queue[0])); }
    case PushingPill(i) => if i < |s.workers| { assert t.queue == Pills(i + 1); }
    case Leaving => DiscardsAppend(s.log, PillsPosted);
    case _ =>
  }

  lemma {:induction false} FinalizerKeepsShape(s: State)
    requires Shape(s) && FinalizerCanStep(s)
    ensures Shape(FinalizerNext(s))
  {
    ShapeFrame(s, FinalizerNext(s));
  }

  lemma {:induction false} FinalizerKeepsJoin(s: State)
    requires JoinInv(s.finalizer, s.workers) && FinalizerCanStep(s)
    ensures var t := FinalizerNext(s); JoinInv(t.finalizer, t.workers)
  {
  }

  lemma {:induction false} FinalizerKeepsInv(s: State)
    requires Inv(s) && FinalizerCanStep(s)
    ensures Inv(FinalizerNext(s))
  {
    FinalizerKeepsShape(s);
    FinalizerKeepsJoin(s);
    if Running(s) { FinalizerEntersQueue(s); } else { FinalizerKeepsQueue(s); }
    FinalizerKeepsLog(s);
  }

  lemma {:induction false} OthersKeepInv(s: State, t: State)
    requires Inv(s) && t == s.(permits := t.permits)
    ensures Inv(t)
  {
    ShapeFrame(s, t);
    assert NumHolding(t) == NumHolding(s) && NumUnpilled(t) == NumUnpilled(s);
  }

  /** One step of any thread, whichever the scheduler picks. */
  lemma {:induction false} StepKeepsInv(s: State, a: Action)
    requires Inv(s) && Enabled(s, a)
    ensures Inv(Next(s, a))
  {
    match a
    case WorkerStep(w) => WorkerKeepsInv(s, w);
    case DispatcherStep => DispatcherKeepsInv(s);
    case FinalizerStep => FinalizerKeepsInv(s);
    case Others(_) => OthersKeepInv(s, Next(s, a));
  }

  lemma {:induction false} RunKeepsInv(s: State, schedule: seq<Action>)
    requires Inv(s) && Runs(s, schedule)
    ensures Inv(After(s, schedule))
    decreases |schedule|
  {
    if schedule != [] {
      StepKeepsInv(s, schedule[0]);
      RunKeepsInv(Next(s, schedule[0]), schedule[1..]);
    }
  }

  lemma {:induction false} ReachableInv(s: State)
    requires Reachable(s)
    ensures Inv(s)
  {
    var hosts: nat, permits: nat, schedule :|
      Runs(Init(hosts, permits), schedule) && After(Init(hosts, permits), schedule) == s;
    InitInv(hosts, permits);
    RunKeepsInv(Init(hosts, permits), schedule);
  }
}
