/** What the pool gets done: every round is loaded, every host taken is collected, `finalize` posts its pills. */
module PollingTurns {
  import opened PollingPool
  import opened PollingSafety

  // ----- what every worker took it also collected

  /** The hosts worker `w` took from the queue, in order. */
  function Taken(log: seq<Event>, w: nat): seq<int> {
    if log == [] then []
    else
      var last := log[|log| - 1];
      Taken(log[..|log| - 1], w) + (if last.Popped? && last.worker == w && last.item != PILL then [last.item] else [])
  }

  /** The hosts whose collection worker `w` has finished, in order. */
  function Finished(log: seq<Event>, w: nat): seq<int> {
    if log == [] then []
    else
      var last := log[|log| - 1];
      Finished(log[..|log| - 1], w) + (if last.Collected? && last.worker == w then [last.host] else [])
  }

  /** The host it has on hand. */
  function OnHand(x: Worker): seq<int> {
    match x
    case AtUnlock(item) => if item == PILL then [] else [item]
    case AtSession(host) => [host]
    case Collecting(host) => [host]
    case _ => []
  }

  ghost predicate TurnInv(log: seq<Event>, w: nat, x: Worker) { Taken(log, w) == Finished(log, w) + OnHand(x) }

  ghost predicate TurnsInv(s: State) {
    forall w: nat {:trigger TurnInv(s.log, w, s.workers[w])} :: w < |s.workers| ==> TurnInv(s.log, w, s.workers[w])
  }

  lemma {:induction false} TurnsAppend(log: seq<Event>, e: Event, w: nat)
    ensures Taken(log + [e], w) ==
      Taken(log, w) + (if e.Popped? && e.worker == w && e.item != PILL then [e.item] else [])
    ensures Finished(log + [e], w) == Finished(log, w) + (if e.Collected? && e.worker == w then [e.host] else [])
  {
    assert (log + [e])[..|log|] == log;
  }

  /** Events of other threads are none of its turns. */
  lemma {:induction false} OthersKeepTurn(log: seq<Event>, e: Event, v: nat, x: Worker)
    requires TurnInv(log, v, x) && (e.Popped? || e.Collected? ==> e.worker != v)
    ensures TurnInv(log + [e], v, x)
  {
    TurnsAppend(log, e, v);
  }

  lemma {:induction false} PopKeepsTurn(log: seq<Event>, w: nat, item: int)
    requires TurnInv(log, w, InCritical)
    ensures TurnInv(log + [Popped(w, item)], w, AtUnlock(item))
  {
    TurnsAppend(log, Popped(w, item), w);
  }

  lemma {:induction false} CollectKeepsTurn(log: seq<Event>, w: nat, host: int)
    requires TurnInv(log, w, Collecting(host))
    ensures TurnInv(log + [Collected(w, host)], w, AtWait)
  {
    TurnsAppend(log, Collected(w, host), w);
  }

  lemma {:induction false} WorkerKeepsOwnTurn(s: State, w: nat)
    requires WorkerCanStep(s, w) && TurnInv(s.log, w, s.workers[w]) && (s.workers[w] == InCritical ==> s.queue != [])
    ensures TurnInv(WorkerNext(s, w).log, w, WorkerNext(s, w).workers[w])
  {
    match s.workers[w]
    case InCritical => PopKeepsTurn(s.log, w, s.queue[0]);
    case Collecting(host) => CollectKeepsTurn(s.log, w, host);
    case _ =>
  }

  lemma {:induction false} WorkerKeepsTurns(s: State, w: nat, v: nat)
    requires WorkerCanStep(s, w) && v < |s.workers| && TurnInv(s.log, v, s.workers[v])
    requires s.workers[w] == InCritical ==> s.queue != []
    ensures TurnInv(WorkerNext(s, w).log, v, WorkerNext(s, w).workers[v])
  {
    if v == w {
      WorkerKeepsOwnTurn(s, w);
    } else if s.workers[w] == InCritical {
      OthersKeepTurn(s.log, Popped(w, s.queue[0]), v, s.workers[v]);
    } else if s.workers[w].Collecting? {
      OthersKeepTurn(s.log, Collected(w, s.workers[w].host), v, s.workers[v]);
    }
  }

  lemma {:induction false} FinalizerKeepsTurn(s: State, v: nat)
    requires FinalizerCanStep(s) && v < |s.workers| && TurnInv(s.log, v, s.workers[v])
    ensures TurnInv(FinalizerNext(s).log, v, FinalizerNext(s).workers[v])
  {
    if s.finalizer == Draining && s.queue != [] { OthersKeepTurn(s.log, Discarded(s.queue[0]), v, s.workers[v]); }
    if s.finalizer == Leaving { OthersKeepTurn(s.log, PillsPosted, v, s.workers[v]); }
  }

  lemma {:induction false} WorkerStepKeepsTurns(s: State, w: nat)
    requires WorkerCanStep(s, w) && TurnsInv(s) && (s.workers[w] == InCritical ==> s.queue != [])
    ensures TurnsInv(WorkerNext(s, w))
  {
    var t := WorkerNext(s, w);
    forall v: nat | v < |t.workers| ensures TurnInv(t.log, v, t.workers[v]) {
      assert TurnInv(s.log, v, s.workers[v]);
      WorkerKeepsTurns(s, w, v);
    }
  }

  lemma {:induction false} FinalizerStepKeepsTurns(s: State)
    requires FinalizerCanStep(s) && TurnsInv(s)
    ensures TurnsInv(FinalizerNext(s))
  {
    var t := FinalizerNext(s);
    forall v: nat | v < |t.workers| ensures TurnInv(t.log, v, t.workers[v]) {
      assert TurnInv(s.log, v, s.workers[v]);
      FinalizerKeepsTurn(s, v);
    }
  }

  lemma {:induction false} StepKeepsTurns(s: State, a: Action)
    requires Inv(s) && Enabled(s, a) && TurnsInv(s)
    ensures TurnsInv(Next(s, a))
  {
    match a
    case WorkerStep(w) =>
      if s.workers[w] == InCritical { PopFindsItem(s, w); }
      WorkerStepKeepsTurns(s, w);
    case FinalizerStep => FinalizerStepKeepsTurns(s);
    case _ => assert Next(s, a).log == s.log && Next(s, a).workers == s.workers;
  }

  lemma {:induction false} RunKeepsTurns(s: State, schedule: seq<Action>)
    requires Inv(s) && TurnsInv(s) && Runs(s, schedule)
    ensures TurnsInv(After(s, schedule))
    decreases |schedule|
  {
    if schedule != [] {
      StepKeepsTurns(s, schedule[0]);
      StepKeepsInv(s, schedule[0]);
      RunKeepsTurns(Next(s, schedule[0]), schedule[1..]);
    }
  }

  /**
   No host is dropped on the way: in every reachable state the hosts a worker took are, in
   order, those it collected and then the one it has on hand; with `Served` counting those taken.
   */
  lemma {:induction false} TakenIsCollected(s: State, w: nat)
    requires Reachable(s) && w < |s.workers|
    ensures Taken(s.log, w) == Finished(s.log, w) + OnHand(s.workers[w])
    ensures s.workers[w] == AtWait || s.workers[w] == Exited ==> Finished(s.log, w) == Taken(s.log, w)
  {
    var hosts: nat, permits: nat, schedule :|
      Runs(Init(hosts, permits), schedule) && After(Init(hosts, permits), schedule) == s;
    InitInv(hosts, permits);
    RunKeepsTurns(Init(hosts, permits), schedule);
    assert TurnInv(s.log, w, s.workers[w]);
  }

  /** When the dispatcher is done with a round there is work in the queue. */
  lemma {:induction false} RoundIsLoaded(s: State)
    requires Reachable(s) && Running(s) && s.dispatcher == EndRound && s.hosts > 0
    ensures s.queue != []
  {
    ReachableInv(s);
  }

  // ----- a thread on its own

  lemma {:induction false} RunCons(s: State, a: Action, rest: seq<Action>) returns (schedule: seq<Action>)
    requires Enabled(s, a) && Runs(Next(s, a), rest)
    ensures schedule == [a] + rest && Runs(s, schedule) && After(s, schedule) == After(Next(s, a), rest)
  {
    schedule := [a] + rest;
    assert schedule[1..] == rest;
  }

  /** The schedule has no actions but `a`. */
  ghost predicate Only(schedule: seq<Action>, a: Action) { forall i :: 0 <= i < |schedule| ==> schedule[i] == a }

  /** The pushing loop from index `i` on. */
  lemma {:induction false} PushRest(s: State, i: nat) returns (schedule: seq<Action>)
    requires i <= s.hosts && s.owner == ByDispatcher && s.dispatcher == Pushing(i) && s.queue == Range(0, i)
    ensures Only(schedule, DispatcherStep) && Runs(s, schedule)
    ensures After(s, schedule) ==
      s.(queue := Range(0, s.hosts), tokens := s.tokens + (s.hosts - i), dispatcher := EndRound)
    decreases s.hosts - i
  {
    var t := DispatcherNext(s);
    if i < s.hosts {
      assert s.queue + [i] == Range(0, i + 1);
      schedule := PushRest(DispatcherNext(t), i + 1);
      schedule := RunCons(t, DispatcherStep, schedule);
    } else {
      schedule := [];
    }
    schedule := RunCons(s, DispatcherStep, schedule);
  }

  /** The end of a round: the mutex is released and the dispatcher sleeps. */
  lemma {:induction false} EndOfRound(s: State) returns (schedule: seq<Action>)
    requires s.dispatcher == EndRound
    ensures Only(schedule, DispatcherStep) && Runs(s, schedule)
    ensures After(s, schedule) == s.(owner := Nobody, dispatcher := Sleeping)
  {
    schedule := RunCons(s, DispatcherStep, []);
  }

  lemma {:induction false} RunAppend(s: State, first: seq<Action>, second: seq<Action>)
    requires Runs(s, first) && Runs(After(s, first), second)
    ensures Runs(s, first + second) && After(s, first + second) == After(After(s, first), second)
    decreases |first|
  {
    if first == [] {
      assert first + second == second;
    } else {
      RunAppend(Next(s, first[0]), first[1..], second);
      assert (first + second)[1..] == first[1..] + second;
    }
  }

  /**
   One pass of the dispatcher, on its own: an empty queue is filled with all the hosts in
   order and one token each, and a queue that is not empty is left alone.
   */
  lemma {:induction false} DispatcherRound(s: State) returns (schedule: seq<Action>)
    requires s.dispatcher == AtRound && s.owner == Nobody
    ensures Only(schedule, DispatcherStep) && Runs(s, schedule)
    ensures After(s, schedule) ==
      if s.queue == [] then s.(queue := Range(0, s.hosts), tokens := s.tokens + s.hosts, dispatcher := Sleeping)
      else s.(dispatcher := Sleeping)
  {
    var t := DispatcherNext(s);
    var u := DispatcherNext(t);
    var rest: seq<Action> := [];
    if s.queue == [] {
      assert u.queue == Range(0, 0);
      rest := PushRest(u, 0);
    }
    var end := EndOfRound(After(u, rest));
    RunAppend(u, rest, end);
    schedule := RunCons(t, DispatcherStep, rest + end);
    schedule := RunCons(s, DispatcherStep, schedule);
  }

  /** And after its sleep it begins the next pass, unless it was cancelled. */
  lemma {:induction false} DispatcherWakes(s: State)
    requires s.dispatcher == Sleeping
    ensures DispatcherCanStep(s)
    ensures DispatcherNext(s) == s.(dispatcher := if s.cancelRequested then Cancelled else AtRound)
  {
  }

  /** One turn of a worker, on its own: it takes the head of the queue and one token, and collects that host. */
  lemma {:induction false} WorkerTurn(s: State, w: nat) returns (schedule: seq<Action>)
    requires w < |s.workers| && s.workers[w] == AtWait && s.owner == Nobody
    requires s.tokens > 0 && s.permits > 0 && s.queue != [] && s.queue[0] != PILL
    ensures Only(schedule, WorkerStep(w)) && Runs(s, schedule)
    ensures After(s, schedule) ==
      s.(queue := s.queue[1..], tokens := s.tokens - 1,
         log := s.log + [Popped(w, s.queue[0]), Collected(w, s.queue[0])])
  {
    var a := WorkerStep(w);
    var s1 := WorkerNext(s, w);
    var s2 := WorkerNext(s1, w);
    var s3 := WorkerNext(s2, w);
    var s4 := WorkerNext(s3, w);
    var s5 := WorkerNext(s4, w);
    var s6 := WorkerNext(s5, w);
    assert s.log + [Popped(w, s.queue[0])] + [Collected(w, s.queue[0])]
        == s.log + [Popped(w, s.queue[0]), Collected(w, s.queue[0])];
    assert s6.workers == s.workers;
    schedule := RunCons(s5, a, []);
    schedule := RunCons(s4, a, schedule);
    schedule := RunCons(s3, a, schedule);
    schedule := RunCons(s2, a, schedule);
    schedule := RunCons(s1, a, schedule);
    schedule := RunCons(s, a, schedule);
  }

  /** A worker that meets its pill exits with it, taking one token and nothing else. */
  lemma {:induction false} WorkerPill(s: State, w: nat) returns (schedule: seq<Action>)
    requires w < |s.workers| && s.workers[w] == AtWait && s.owner == Nobody
    requires s.tokens > 0 && s.queue != [] && s.queue[0] == PILL
    ensures Only(schedule, WorkerStep(w)) && Runs(s, schedule)
    ensures After(s, schedule) ==
      s.(queue := s.queue[1..], tokens := s.tokens - 1, workers := s.workers[w := Exited],
         log := s.log + [Popped(w, PILL)])
  {
    var a := WorkerStep(w);
    var s1 := WorkerNext(s, w);
    var s2 := WorkerNext(s1, w);
    var s3 := WorkerNext(s2, w);
    var s4 := WorkerNext(s3, w);
    assert s4.workers == s.workers[w := Exited];
    schedule := RunCons(s3, a, []);
    schedule := RunCons(s2, a, schedule);
    schedule := RunCons(s1, a, schedule);
    schedule := RunCons(s, a, schedule);
  }

  // ----- `finalize` on its own

  function DiscardAll(queue: seq<int>): seq<Event> {
    if queue == [] then [] else [Discarded(queue[0])] + DiscardAll(queue[1..])
  }

  lemma {:induction false} DrainRest(s: State) returns (schedule: seq<Action>)
    requires s.finalizer == Draining
    ensures Only(schedule, FinalizerStep) && Runs(s, schedule)
    ensures After(s, schedule) == s.(queue := [], log := s.log + DiscardAll(s.queue), finalizer := PushingPill(0))
    decreases |s.queue|
  {
    schedule := [];
    if s.queue != [] {
      schedule := DrainRest(FinalizerNext(s));
      assert s.log + [Discarded(s.queue[0])] + DiscardAll(s.queue[1..]) == s.log + DiscardAll(s.queue);
    } else {
      assert s.log + [] == s.log;
    }
    schedule := RunCons(s, FinalizerStep, schedule);
  }

  lemma {:induction false} PillRest(s: State, i: nat) returns (schedule: seq<Action>)
    requires s.finalizer == PushingPill(i) && i <= |s.workers| && s.queue == Pills(i)
    ensures Only(schedule, FinalizerStep) && Runs(s, schedule)
    ensures After(s, schedule) ==
      s.(queue := Pills(|s.workers|), tokens := s.tokens + (|s.workers| - i), finalizer := Leaving)
    decreases |s.workers| - i
  {
    var t := FinalizerNext(s);
    if i < |s.workers| {
      assert s.queue + [PILL] == Pills(i + 1);
      schedule := PillRest(FinalizerNext(t), i + 1);
      schedule := RunCons(t, FinalizerStep, schedule);
    } else {
      schedule := [];
    }
    schedule := RunCons(s, FinalizerStep, schedule);
  }

  /**
   `finalize`, called while the mutex is free: it requests the cancellation, empties the queue,
   leaves one pill and one token for each worker, and goes on to join them.
   */
  lemma {:induction false} FinalizerPosts(s: State) returns (schedule: seq<Action>)
    requires s.finalizer == NotCalled && s.owner == Nobody
    ensures Only(schedule, FinalizerStep) && Runs(s, schedule)
    ensures After(s, schedule) ==
      s.(cancelRequested := true, queue := Pills(|s.workers|), tokens := s.tokens + |s.workers|,
         log := s.log + DiscardAll(s.queue) + [PillsPosted], finalizer := Joining(0))
  {
    var s1 := FinalizerNext(s);
    var s2 := FinalizerNext(s1);
    var s3 := FinalizerNext(s2);
    var drain := DrainRest(s3);
    var s4 := After(s3, drain);
    assert s4.queue == Pills(0);
    var post := PillRest(s4, 0);
    var s5 := After(s4, post);
    var leave := RunCons(s5, FinalizerStep, []);
    RunAppend(s4, post, leave);
    RunAppend(s3, drain, post + leave);
    schedule := RunCons(s2, FinalizerStep, drain + (post + leave));
    schedule := RunCons(s1, FinalizerStep, schedule);
    schedule := RunCons(s, FinalizerStep, schedule);
  }

  /** Each join returns when its worker has exited, and the last of them ends `finalize`. */
  lemma {:induction false} FinalizerJoins(s: State, i: nat) returns (schedule: seq<Action>)
    requires s.finalizer == Joining(i) && i <= |s.workers|
    requires forall w :: i <= w < |s.workers| ==> s.workers[w] == Exited
    ensures Only(schedule, FinalizerStep) && Runs(s, schedule)
    ensures After(s, schedule) == s.(finalizer := Returned)
    decreases |s.workers| - i
  {
    schedule := [];
    if i < |s.workers| { schedule := FinalizerJoins(FinalizerNext(s), i + 1); }
    schedule := RunCons(s, FinalizerStep, schedule);
  }
}
