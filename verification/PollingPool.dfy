/**
 The worker pool of one collection class: a dispatcher that loads rounds of host
 indices, the workers that take them, and `finalize`, which shuts the pool down.
 Every thread is a small program whose steps interleave in any order; a step is one
 semaphore or mutex call, or one access to the shared queue.
 */
module PollingPool {
  import opened Sums

  /** The queue entry that tells a worker to return. */
  const PILL: int := -1
  const MAX_WORKERS: nat := 200

  /** Where a worker stands in its loop; the item is what it took from the queue. */
  datatype Worker =
    | AtWait
    | AtLock
    | InCritical
    | AtUnlock(item: int)
    | AtSession(host: int)
    | Collecting(host: int)
    | Exited

  datatype Dispatcher =
    | AtRound
    | Checking
    | Pushing(next: nat)
    | Posting(next: nat)
    | EndRound
    | Sleeping
    | Cancelled

  datatype Finalizer =
    | NotCalled
    | Entering
    | Cancelling
    | Draining
    | PushingPill(next: nat)
    | PostingPill(next: nat)
    | Leaving
    | Joining(next: nat)
    | Returned

  datatype Owner = Nobody | ByWorker(w: nat) | ByDispatcher | ByFinalizer

  /**
     The history: who took what, who collected what, what `finalize` threw away, and when it left
     its critical section.
   */
  datatype Event =
    | Popped(worker: nat, item: int)
    | Collected(worker: nat, host: int)
    | Discarded(host: int)
    | PillsPosted

  /**
   `permits` is the session semaphore, which the whole program shares; `fault` records that
   `front()` met an empty queue.
   */
  datatype State = State(
    hosts: nat,
    permits: nat,
    queue: seq<int>,
    tokens: nat,
    owner: Owner,
    workers: seq<Worker>,
    dispatcher: Dispatcher,
    cancelRequested: bool,
    finalizer: Finalizer,
    log: seq<Event>,
    fault: bool)

  /** `Others` stands for other threads of the program that take or return session permits. */
  datatype Action = WorkerStep(w: nat) | DispatcherStep | FinalizerStep | Others(permits: nat)

  function NumWorkers(hosts: nat): nat {
    if MAX_WORKERS > hosts then hosts else MAX_WORKERS
  }

  /** A worker for every host, up to 200 of them. */
  lemma {:induction false} WorkersForHosts(hosts: nat, permits: nat)
    ensures var n := |Init(hosts, permits).workers|; n <= hosts && n <= 200 && (n == hosts || n == 200)
  {
  }

  /** The pool as `initialize` leaves it. */
  function Init(hosts: nat, permits: nat): State {
    State(hosts, permits, [], 0, Nobody, seq(NumWorkers(hosts), _ => AtWait), AtRound, false, NotCalled, [], false)
  }

  // ----- the threads' programs

  predicate WorkerCanStep(s: State, w: nat) {
    && w < |s.workers|
    && match s.workers[w]
       case AtWait => s.tokens > 0
       case AtLock => s.owner == Nobody
       case AtSession(_) => s.permits > 0
       case Exited => false
       case _ => true
  }

  function WorkerNext(s: State, w: nat): State
    requires WorkerCanStep(s, w)
  {
    match s.workers[w]
    case AtWait => s.(tokens := s.tokens - 1, workers := s.workers[w := AtLock])
    case AtLock => s.(owner := ByWorker(w), workers := s.workers[w := InCritical])
    case InCritical =>
      if s.queue == [] then
        s.(fault := true, workers := s.workers[w := Exited])
      else
        s.(queue := s.queue[1..],
           workers := s.workers[w := AtUnlock(s.queue[0])],
           log := s.log + [Popped(w, s.queue[0])])
    case AtUnlock(item) =>
      s.(owner := Nobody, workers := s.workers[w := if item == PILL then Exited else AtSession(item)])
    case AtSession(host) => s.(permits := s.permits - 1, workers := s.workers[w := Collecting(host)])
    case Collecting(host) =>
      s.(permits := s.permits + 1, workers := s.workers[w := AtWait], log := s.log + [Collected(w, host)])
  }

  predicate DispatcherCanStep(s: State) {
    match s.dispatcher
    case AtRound => s.owner == Nobody
    case Cancelled => false
    case _ => true
  }

  /** A cancellation request takes effect in the sleep and nowhere else. */
  function DispatcherNext(s: State): State
    requires DispatcherCanStep(s)
  {
    match s.dispatcher
    case AtRound => s.(owner := ByDispatcher, dispatcher := Checking)
    case Checking => s.(dispatcher := if s.queue != [] then EndRound else Pushing(0))
    case Pushing(i) =>
      if i < s.hosts then s.(queue := s.queue + [i], dispatcher := Posting(i)) else s.(dispatcher := EndRound)
    case Posting(i) => s.(tokens := s.tokens + 1, dispatcher := Pushing(i + 1))
    case EndRound => s.(owner := Nobody, dispatcher := Sleeping)
    case Sleeping => s.(dispatcher := if s.cancelRequested then Cancelled else AtRound)
  }

  predicate FinalizerCanStep(s: State) {
    match s.finalizer
    case Entering => s.owner == Nobody
    case Joining(i) => i >= |s.workers| || s.workers[i] == Exited
    case Returned => false
    case _ => true
  }

  function FinalizerNext(s: State): State
    requires FinalizerCanStep(s)
  {
    match s.finalizer
    case NotCalled => s.(finalizer := Entering)
    case Entering => s.(owner := ByFinalizer, finalizer := Cancelling)
    case Cancelling => s.(cancelRequested := true, finalizer := Draining)
    case Draining =>
      if s.queue != [] then s.(queue := s.queue[1..], log := s.log + [Discarded(s.queue[0])])
      else s.(finalizer := PushingPill(0))
    case PushingPill(i) =>
      if i < |s.workers| then s.(queue := s.queue + [PILL], finalizer := PostingPill(i)) else s.(finalizer := Leaving)
    case PostingPill(i) => s.(tokens := s.tokens + 1, finalizer := PushingPill(i + 1))
    case Leaving => s.(owner := Nobody, finalizer := Joining(0), log := s.log + [PillsPosted])
    case Joining(i) => s.(finalizer := if i < |s.workers| then Joining(i + 1) else Returned)
  }

  predicate Enabled(s: State, a: Action) {
    match a
    case WorkerStep(w) => WorkerCanStep(s, w)
    case DispatcherStep => DispatcherCanStep(s)
    case FinalizerStep => FinalizerCanStep(s)
    case Others(_) => true
  }

  function Next(s: State, a: Action): State
    requires Enabled(s, a)
  {
    match a
    case WorkerStep(w) => WorkerNext(s, w)
    case DispatcherStep => DispatcherNext(s)
    case FinalizerStep => FinalizerNext(s)
    case Others(permits) => s.(permits := permits)
  }

  /** Every action of the schedule is enabled when its turn comes. */
  predicate Runs(s: State, schedule: seq<Action>)
    decreases |schedule|
  {
    schedule == [] || (Enabled(s, schedule[0]) && Runs(Next(s, schedule[0]), schedule[1..]))
  }

  function After(s: State, schedule: seq<Action>): State
    requires Runs(s, schedule)
    decreases |schedule|
  {
    if schedule == [] then s else After(Next(s, schedule[0]), schedule[1..])
  }

  ghost predicate Reachable(s: State) {
    exists hosts: nat, permits: nat, schedule ::
      Runs(Init(hosts, permits), schedule) && After(Init(hosts, permits), schedule) == s
  }

  // ----- what the invariants speak about

  /** Took a token from the semaphore and has not popped for it yet. */
  function Holding(w: Worker): nat {
    if w == AtLock || w == InCritical then 1 else 0
  }

  /** Has not taken its pill. */
  function Unpilled(w: Worker): nat {
    if w == Exited || w == AtUnlock(PILL) then 0 else 1
  }

  ghost function NumHolding(s: State): nat { Sum(s.workers, Holding) }

  ghost function NumUnpilled(s: State): nat { Sum(s.workers, Unpilled) }

  function Range(lo: int, hi: int): seq<int>
    requires lo <= hi
  {
    seq(hi - lo, j requires 0 <= j < hi - lo => lo + j)
  }

  function Pills(n: nat): seq<int> { seq(n, _ => PILL) }

  /** How often host `h` was taken from the queue. */
  function Served(log: seq<Event>, h: int): nat {
    if log == [] then 0
    else
      var last := log[|log| - 1];
      Served(log[..|log| - 1], h) + (if last.Popped? && last.item == h then 1 else 0)
  }

  lemma {:induction false} ServedAppend(log: seq<Event>, e: Event, h: int)
    ensures Served(log + [e], h) == Served(log, h) + (if e.Popped? && e.item == h then 1 else 0)
  {
    assert (log + [e])[..|log|] == log;
  }

  /** How many pending hosts `finalize` threw away; their tokens stay in the semaphore. */
  function Discards(log: seq<Event>): nat {
    if log == [] then 0 else Discards(log[..|log| - 1]) + (if log[|log| - 1].Discarded? then 1 else 0)
  }

  lemma {:induction false} DiscardsAppend(log: seq<Event>, e: Event)
    ensures Discards(log + [e]) == Discards(log) + (if e.Discarded? then 1 else 0)
  {
    assert (log + [e])[..|log|] == log;
  }

  predicate DispatcherInside(s: State) {
    match s.dispatcher
    case AtRound => false
    case Sleeping => false
    case Cancelled => false
    case _ => true
  }

  predicate FinalizerInside(s: State) {
    match s.finalizer
    case Cancelling => true
    case Draining => true
    case PushingPill(_) => true
    case PostingPill(_) => true
    case Leaving => true
    case _ => false
  }

  /** `finalize` has not touched the queue yet. */
  predicate Running(s: State) {
    s.finalizer == NotCalled || s.finalizer == Entering || s.finalizer == Cancelling
  }

  /** `finalize` has posted every pill. */
  predicate Posted(s: State) {
    s.finalizer == Leaving || s.finalizer.Joining? || s.finalizer == Returned
  }

  // ----- the invariant

  predicate IsHost(s: State, item: int) { 0 <= item < s.hosts }

  ghost predicate WorkerShape(s: State, w: nat)
    requires w < |s.workers|
  {
    && (s.owner == ByWorker(w) <==> s.workers[w] == InCritical || s.workers[w].AtUnlock?)
    && (s.workers[w].AtUnlock? ==> s.workers[w].item == PILL || IsHost(s, s.workers[w].item))
    && (s.workers[w].AtSession? || s.workers[w].Collecting? ==> IsHost(s, s.workers[w].host))
  }

  ghost predicate Shape(s: State) {
    && !s.fault
    && |s.workers| == NumWorkers(s.hosts)
    && (s.owner.ByWorker? ==> s.owner.w < |s.workers|)
    && (s.owner == ByDispatcher <==> DispatcherInside(s))
    && (s.owner == ByFinalizer <==> FinalizerInside(s))
    && (s.cancelRequested <==> !Running(s))
    && (s.dispatcher == Cancelled ==> s.cancelRequested)
    && forall w: nat :: w < |s.workers| ==> WorkerShape(s, w)
  }

  /** The pending hosts are the tail of one round, and every host's turn count says so. */
  ghost predicate RoundInv(hosts: nat, queue: seq<int>, d: Dispatcher, log: seq<Event>) {
    match d
    case Pushing(i) => i <= hosts && queue == Range(0, i) && EvenlyServed(hosts, log)
    case Posting(i) => i < hosts && queue == Range(0, i + 1) && EvenlyServed(hosts, log)
    case _ =>
      && |queue| <= hosts
      && queue == Range(hosts - |queue|, hosts)
      && (d == EndRound && hosts > 0 ==> queue != [])
      && (queue == [] ==> EvenlyServed(hosts, log))
      && (queue != [] ==> forall h :: 0 <= h < hosts ==>
            Served(log, h) == Served(log, hosts - 1) + (if h < hosts - |queue| then 1 else 0))
  }

  ghost predicate EvenlyServed(hosts: nat, log: seq<Event>) {
    forall h :: 0 <= h < hosts ==> Served(log, h) == Served(log, hosts - 1)
  }

  /**
   While the pool runs, queue length and tokens agree. `finalize` throws queue entries
   away and keeps their tokens; from then on what carries safety is that the queue
   starts with exactly one pill for each worker that has not taken its own.
   */
  ghost predicate Balance(hosts: nat, queue: seq<int>, d: Dispatcher, f: Finalizer, log: seq<Event>,
                          workers: nat, supply: nat, unpilled: nat) {
    match f
    case Draining => unpilled == workers && supply == |queue| + Discards(log)
    case PushingPill(i) => i <= workers == unpilled && queue == Pills(i) && supply == i + Discards(log)
    case PostingPill(i) => i < workers == unpilled && queue == Pills(i + 1) && supply == i + Discards(log)
    case _ =>
      if f == NotCalled || f == Entering || f == Cancelling then
        && RoundInv(hosts, queue, d, log)
        && unpilled == workers
        && Discards(log) == 0
        && |queue| == supply + (if d.Posting? then 1 else 0)
      else
        unpilled > 0 ==> queue == Pills(unpilled) && !d.Pushing? && !d.Posting? && supply == unpilled + Discards(log)
  }

  ghost predicate QueueInv(s: State) {
    Balance(s.hosts, s.queue, s.dispatcher, s.finalizer, s.log, |s.workers|, s.tokens + NumHolding(s), NumUnpilled(s))
  }

  /** After its pill a worker pops nothing, and after the pills are posted nobody pops a host. */
  ghost predicate GoodLog(log: seq<Event>) {
    && (forall i, j :: 0 <= i < j < |log| && log[i] == PillsPosted && log[j].Popped? ==> log[j].item == PILL)
    && (forall i, j :: 0 <= i < j < |log| && log[i].Popped? && log[i].item == PILL && log[j].Popped?
          ==> log[j].worker != log[i].worker)
    && (forall j :: 0 <= j < |log| && log[j].Popped? && log[j].item == PILL ==> PillsPosted in log[..j])
  }

  ghost predicate LogInv(log: seq<Event>, workers: seq<Worker>, posted: bool) {
    && GoodLog(log)
    && (PillsPosted in log <==> posted)
    && (forall w: nat :: w < |workers| ==> (Popped(w, PILL) in log <==> Unpilled(workers[w]) == 0))
    && (forall e :: e in log && e.Popped? ==> e.worker < |workers|)
  }

  /** `finalize` is past its critical section. */
  predicate ShutDown(s: State) { s.finalizer.Joining? || s.finalizer == Returned }

  ghost predicate JoinInv(f: Finalizer, workers: seq<Worker>) {
    match f
    case Joining(k) => k <= |workers| && forall w :: 0 <= w < k ==> workers[w] == Exited
    case Returned => forall w :: 0 <= w < |workers| ==> workers[w] == Exited
    case _ => true
  }

  ghost predicate Inv(s: State) {
    && Shape(s)
    && QueueInv(s)
    && LogInv(s.log, s.workers, ShutDown(s))
    && JoinInv(s.finalizer, s.workers)
  }
}
