/** What the pool promises of whole runs: safe shutdown, fair rounds, and that every join returns. */
module PollingShutdown {
  import opened Sums
  import opened PollingPool
  import opened PollingSafety

  // ----- safety

  /**
   In every interleaving: no worker meets an empty queue, every index handed to a
   collection is a host, no host is taken once `finalize` has left its critical section,
   and no worker pops after its pill.
   */
  lemma {:induction false} ShutdownSafety(s: State)
    requires Reachable(s)
    ensures !s.fault
    ensures forall w :: 0 <= w < |s.workers| && s.workers[w].Collecting? ==> 0 <= s.workers[w].host < s.hosts
    ensures forall i, j :: 0 <= i < j < |s.log| && s.log[i] == PillsPosted && s.log[j].Popped? ==> s.log[j].item == PILL
    ensures forall i, j :: 0 <= i < j < |s.log| && s.log[i].Popped? && s.log[i].item == PILL && s.log[j].Popped?
              ==> s.log[i].worker != s.log[j].worker
  {
    ReachableInv(s);
    forall w: nat | w < |s.workers| && s.workers[w].Collecting? ensures 0 <= s.workers[w].host < s.hosts {
      assert WorkerShape(s, w);
    }
  }

  /** When `finalize` has returned, each worker has taken exactly one pill. */
  lemma {:induction false} OnePillEach(s: State, w: nat) returns (k: nat)
    requires Reachable(s) && s.finalizer == Returned && w < |s.workers|
    ensures k < |s.log| && s.log[k] == Popped(w, PILL)
    ensures forall i :: 0 <= i < |s.log| && s.log[i] == Popped(w, PILL) ==> i == k
    ensures s.workers[w] == Exited && PillsPosted in s.log[..k]
  {
    ReachableInv(s);
    assert Popped(w, PILL) in s.log;
    k :| 0 <= k < |s.log| && s.log[k] == Popped(w, PILL);
  }

  /**
   The tokens `finalize` leaves over are exactly those of the hosts it threw away: the
   balance "tokens = queue length" of the running pool is off by their number.
   */
  lemma {:induction false} SurplusIsDiscarded(s: State)
    requires Reachable(s)
    ensures Running(s) ==> |s.queue| == s.tokens + NumHolding(s) + (if s.dispatcher.Posting? then 1 else 0)
    ensures Posted(s) && NumUnpilled(s) > 0 ==>
              |s.queue| == NumUnpilled(s) && s.tokens + NumHolding(s) == |s.queue| + Discards(s.log)
  {
    ReachableInv(s);
  }

  // ----- fairness

  /** While the pool runs the queue is one stretch of a round and no host is two turns ahead of another. */
  lemma {:induction false} FairRounds(s: State, g: nat, h: nat)
    requires Reachable(s) && Running(s) && g < s.hosts && h < s.hosts
    ensures |s.queue| <= s.hosts
    ensures forall j :: 0 <= j < |s.queue| ==> s.queue[j] == s.queue[0] + j
    ensures s.queue != [] && !DispatcherInside(s) ==> s.queue[|s.queue| - 1] == s.hosts - 1
    ensures -1 <= Served(s.log, g) - Served(s.log, h) <= 1
  {
    ReachableInv(s);
  }

  // ----- progress

  function WorkerRank(w: Worker): nat {
    match w
    case AtUnlock(item) => if item == PILL then 1 else 7
    case AtSession(_) => 6
    case Collecting(_) => 5
    case AtWait => 4
    case AtLock => 3
    case InCritical => 2
    case Exited => 0
  }

  function DispatcherRank(d: Dispatcher, hosts: nat): nat {
    match d
    case AtRound => 2 * hosts + 5
    case Checking => 2 * hosts + 4
    case Pushing(i) => if i <= hosts then 2 * (hosts - i) + 3 else 3
    case Posting(i) => if i < hosts then 2 * (hosts - i) + 2 else 4
    case EndRound => 2
    case Sleeping => 1
    case Cancelled => 0
  }

  function FinalizerRank(f: Finalizer, workers: nat): nat {
    match f
    case Leaving => workers + 2
    case Joining(i) => if i <= workers then workers + 1 - i else 1
    case _ => 0
  }

  /** The steps that are left once the pills are posted. */
  ghost function Remaining(s: State): nat {
    Sum(s.workers, WorkerRank) + DispatcherRank(s.dispatcher, s.hosts) + FinalizerRank(s.finalizer, |s.workers|)
  }

  /** A late dispatcher pushes indices only below the number of hosts. */
  ghost predicate LateRound(s: State) {
    && (s.dispatcher.Pushing? ==> s.dispatcher.next <= s.hosts)
    && (s.dispatcher.Posting? ==> s.dispatcher.next < s.hosts)
  }

  lemma {:induction false} WorkerUsesUp(s: State, w: nat)
    requires Inv(s) && Posted(s) && WorkerCanStep(s, w)
    ensures Remaining(WorkerNext(s, w)) < Remaining(s)
  {
    if s.workers[w] == InCritical { PopFindsItem(s, w); }
    var t := WorkerNext(s, w);
    assert t.workers == s.workers[w := t.workers[w]];
    SumUpdate(s.workers, w, t.workers[w], WorkerRank);
  }

  lemma {:induction false} DispatcherUsesUp(s: State)
    requires Shape(s) && Posted(s) && LateRound(s) && DispatcherCanStep(s)
    ensures Remaining(DispatcherNext(s)) < Remaining(s)
  {
    assert DispatcherRank(DispatcherNext(s).dispatcher, s.hosts) < DispatcherRank(s.dispatcher, s.hosts);
  }

  lemma {:induction false} FinalizerUsesUp(s: State)
    requires Posted(s) && FinalizerCanStep(s) && JoinInv(s.finalizer, s.workers)
    ensures Posted(FinalizerNext(s)) && Remaining(FinalizerNext(s)) < Remaining(s)
  {
    assert FinalizerNext(s).workers == s.workers && FinalizerNext(s).dispatcher == s.dispatcher;
  }

  /** After the pills are posted every step of every thread of the pool uses up part of what is left. */
  lemma {:induction false} StepUsesUp(s: State, a: Action)
    requires Inv(s) && Posted(s) && LateRound(s) && Enabled(s, a)
    ensures var t := Next(s, a);
      Posted(t) && LateRound(t) && if a.Others? then Remaining(t) == Remaining(s) else Remaining(t) < Remaining(s)
  {
    match a
    case WorkerStep(w) => WorkerUsesUp(s, w);
    case DispatcherStep => DispatcherUsesUp(s);
    case FinalizerStep => FinalizerUsesUp(s);
    case Others(_) =>
  }

  /** How many actions of the schedule are the pool's own. */
  function OwnSteps(schedule: seq<Action>): nat {
    if schedule == [] then 0 else (if schedule[0].Others? then 0 else 1) + OwnSteps(schedule[1..])
  }

  /** The pool makes no more than `Remaining` steps after the pills are posted. */
  lemma {:induction false} ShutdownBounded(s: State, schedule: seq<Action>)
    requires Inv(s) && Posted(s) && LateRound(s) && Runs(s, schedule)
    ensures OwnSteps(schedule) + Remaining(After(s, schedule)) <= Remaining(s)
    ensures Inv(After(s, schedule)) && Posted(After(s, schedule)) && LateRound(After(s, schedule))
    decreases |schedule|
  {
    if schedule != [] {
      StepUsesUp(s, schedule[0]);
      StepKeepsInv(s, schedule[0]);
      ShutdownBounded(Next(s, schedule[0]), schedule[1..]);
    }
  }

  /** A worker waits for a session permit and there is none. */
  ghost predicate AwaitsPermit(s: State) {
    s.permits == 0 && exists w :: 0 <= w < |s.workers| && s.workers[w].AtSession?
  }

  /** A worker that cannot move although the mutex is free waits for a token or for a permit. */
  lemma {:induction false} WaitsFor(s: State, w: nat)
    requires w < |s.workers| && s.owner == Nobody && !AwaitsPermit(s) && !WorkerCanStep(s, w)
    ensures s.workers[w] == Exited || (s.workers[w] == AtWait && s.tokens == 0)
  {
  }

  /** Whoever holds the mutex can move. */
  lemma {:induction false} OwnerMoves(s: State) returns (a: Action)
    requires Shape(s) && s.owner != Nobody
    ensures Enabled(s, a) && !a.Others?
  {
    match s.owner
    case ByWorker(w) =>
      assert WorkerShape(s, w);
      a := WorkerStep(w);
    case ByDispatcher => a := DispatcherStep;
    case ByFinalizer => a := FinalizerStep;
  }

  /** Until `finalize` has joined every worker some thread of the pool can move, unless one waits for a permit. */
  lemma {:induction false} NeverStuck(s: State) returns (a: Action)
    requires Inv(s) && Posted(s) && s.finalizer != Returned && !AwaitsPermit(s)
    ensures Enabled(s, a) && !a.Others?
  {
    if s.owner != Nobody {
      a := OwnerMoves(s);
    } else {
      var i := s.finalizer.next;
      if FinalizerCanStep(s) {
        a := FinalizerStep;
      } else if WorkerCanStep(s, i) {
        a := WorkerStep(i);
      } else {
        // worker i is in sem_wait on an empty semaphore, so another one is on its way to the queue
        WaitsFor(s, i);
        SumAtLeast(s.workers, i, Unpilled);
        var j := SumWitness(s.workers, Holding);
        assert WorkerShape(s, j);
        a := WorkerStep(j);
      }
    }
  }

  /** Pushing beyond the host count never happens, in any reachable state. */
  lemma {:induction false} RunKeepsLateRound(s: State, schedule: seq<Action>)
    requires LateRound(s) && Runs(s, schedule)
    ensures LateRound(After(s, schedule))
    decreases |schedule|
  {
    if schedule != [] {
      RunKeepsLateRound(Next(s, schedule[0]), schedule[1..]);
    }
  }

  lemma {:induction false} ReachableLateRound(s: State)
    requires Reachable(s)
    ensures LateRound(s)
  {
    var hosts: nat, permits: nat, schedule :|
      Runs(Init(hosts, permits), schedule) && After(Init(hosts, permits), schedule) == s;
    RunKeepsLateRound(Init(hosts, permits), schedule);
  }

  ghost predicate AllExited(workers: seq<Worker>) {
    forall w :: 0 <= w < |workers| ==> workers[w] == Exited
  }

  ghost predicate NoneCollecting(workers: seq<Worker>) {
    forall w :: 0 <= w < |workers| ==> !workers[w].Collecting?
  }

  /** No thread of the pool can move. */
  ghost predicate Halted(s: State) { forall a :: Enabled(s, a) ==> a.Others? }

  lemma {:induction false} HaltedIsDone(s: State)
    requires Inv(s) && Posted(s) && Halted(s)
    ensures if AwaitsPermit(s) then NoneCollecting(s.workers) else s.finalizer == Returned && AllExited(s.workers)
  {
    if s.finalizer != Returned && !AwaitsPermit(s) {
      var a := NeverStuck(s);
    }
    forall w: nat | w < |s.workers| ensures !s.workers[w].Collecting? {
      assert !Enabled(s, WorkerStep(w));
    }
  }

  /**
   Shutdown progress: from any reachable state with the pills posted the pool makes no more
   steps than a bound fixed in advance, however other threads take and return permits, and
   when it can make none, `finalize` has returned with every worker gone, or a worker waits
   for a session permit and none of the permits is held in this pool. So every join returns,
   whatever the scheduler does, if the permits held elsewhere come back.
   */
  lemma {:induction false} ShutdownReturns(s: State, schedule: seq<Action>)
    requires Reachable(s) && Posted(s) && Runs(s, schedule)
    ensures OwnSteps(schedule) <= Remaining(s)
    ensures var t := After(s, schedule);
      Halted(t) ==>
        if AwaitsPermit(t) then NoneCollecting(t.workers) else t.finalizer == Returned && AllExited(t.workers)
  {
    ReachableInv(s);
    ReachableLateRound(s);
    ShutdownBounded(s, schedule);
    if Halted(After(s, schedule)) { HaltedIsDone(After(s, schedule)); }
  }
}
