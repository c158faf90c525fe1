/** What the handover gets done: a reload starts its classes, nothing is left behind, and polling ends. */
module ReloadTurns {
  import opened Options
  import opened ReloadHandover
  import opened ReloadTheorems
  import Pool = PollingPool
  import PollingSafety

  // ----- nothing is left behind

  /** Which configurations are in memory, by what the main loop is doing. */
  ghost predicate KeysInv(heap: map<Address, Config>, current: Address, m: Main) {
    match m
    case FirstInit => heap.Keys == {current}
    case Waiting => heap.Keys == {current}
    case Unlocking => heap.Keys == {current}
    case Loading(incoming) => heap.Keys == {current, incoming}
    case Initialising(incoming) => heap.Keys == {current, incoming}
    case WantMutex(incoming) => heap.Keys == {current, incoming}
    case Deleting(incoming) => heap.Keys == {current, incoming} || heap.Keys == {incoming}
    case Assigning(incoming) => heap.Keys == {incoming}
    case Dropping(incoming) => heap.Keys == {current, incoming} || heap.Keys == {current}
    case Terminating => heap.Keys == {current} || heap.Keys == {}
    case Ended => heap.Keys == {}
  }

  lemma {:induction false} DestroyKeys(s: State, a: Address)
    requires CanDestroy(s, a)
    ensures Destroy(s, a).heap.Keys == s.heap.Keys || Destroy(s, a).heap.Keys == s.heap.Keys - {a}
  {
  }

  lemma {:induction false} MainKeepsKeys(s: State)
    requires PointerInv(s) && KeysInv(s.heap, s.current, s.main) && Enabled(s, MainStep)
    ensures var t := MainNext(s); KeysInv(t.heap, t.current, t.main)
  {
    match s.main
    case Deleting(_) => if s.current in s.heap { DestroyKeys(s, s.current); }
    case Dropping(incoming) => if incoming in s.heap { DestroyKeys(s, incoming); }
    case Terminating => if s.current in s.heap { DestroyKeys(s, s.current); }
    case _ =>
  }

  lemma {:induction false} StepKeepsKeys(s: State, a: Action)
    requires PointerInv(s) && KeysInv(s.heap, s.current, s.main) && Enabled(s, a)
    ensures var t := Next(s, a); KeysInv(t.heap, t.current, t.main)
  {
    if a.MainStep? {
      MainKeepsKeys(s);
    } else {
      var t := Next(s, a);
      assert t.current == s.current;
      assert t.heap.Keys == if a.Wake? then s.heap.Keys + {a.incoming} else s.heap.Keys;
    }
  }

  lemma {:induction false} RunKeepsKeys(s: State, schedule: seq<Action>)
    requires Inv(s) && KeysInv(s.heap, s.current, s.main) && Runs(s, schedule)
    ensures var t := After(s, schedule); KeysInv(t.heap, t.current, t.main)
    decreases |schedule|
  {
    if schedule != [] {
      StepKeepsKeys(s, schedule[0]);
      StepKeepsInv(s, schedule[0]);
      RunKeepsKeys(Next(s, schedule[0]), schedule[1..]);
    }
  }

  lemma {:induction false} ReachableKeys(s: State)
    requires Reachable(s)
    ensures KeysInv(s.heap, s.current, s.main)
  {
    var workers: nat, schedule :| Runs(Init(workers), schedule) && After(Init(workers), schedule) == s;
    InitInv(workers);
    RunKeepsKeys(Init(workers), schedule);
  }

  ghost predicate AllExited(p: Pool.State) { forall w :: 0 <= w < |p.workers| ==> p.workers[w] == Pool.Exited }

  /**
   While the main loop waits for the next signal the current configuration is the only one in
   memory, and every worker of every class of every other one, replaced or dropped, has exited.
   */
  lemma {:induction false} NothingLeftBehind(s: State, g: nat, c: nat)
    requires Reachable(s) && s.main == Waiting
    ensures s.heap.Keys == {s.current}
    ensures g < |s.pools| && c < |s.pools[g]| && s.heap[s.current].generation != g ==> AllExited(s.pools[g][c])
  {
    ReachableKeys(s);
    ReachableInv(s);
    if g < |s.pools| && c < |s.pools[g]| && s.heap[s.current].generation != g {
      assert !InMemory(s.heap, g);
      assert Retired(s.pools[g], |s.pools[g]|) && Pool.Inv(s.pools[g][c]);
    }
  }

  /** When the program ends no configuration is in memory and no worker of any class is left. */
  lemma {:induction false} EndJoinsAll(s: State, g: nat, c: nat)
    requires Reachable(s) && s.main == Ended && g < |s.pools| && c < |s.pools[g]|
    ensures s.heap == map[] && AllExited(s.pools[g][c])
  {
    ReachableKeys(s);
    ReachableInv(s);
    assert !InMemory(s.heap, g);
    assert Retired(s.pools[g], |s.pools[g]|) && Pool.Inv(s.pools[g][c]);
  }

  // ----- a reload starts what it loaded

  /** The pools of classes with these numbers of hosts, as they are initialised. */
  function Fresh(hosts: seq<nat>, permits: nat): seq<Pool.State> {
    seq(|hosts|, i requires 0 <= i < |hosts| => Pool.Init(hosts[i], permits))
  }

  lemma {:induction false} StartRest(s: State, hosts: seq<nat>, permits: nat, i: nat) returns (t: State)
    requires Reachable(s) && s.main.Initialising? && s.main.incoming in s.heap && i <= |hosts|
    requires var g := s.heap[s.main.incoming].generation;
      g < |s.pools| && s.pools[g] == Fresh(hosts[..i], permits)
    ensures Reachable(t)
    ensures var g := s.heap[s.main.incoming].generation; t == s.(pools := s.pools[g := Fresh(hosts, permits)])
    decreases |hosts| - i
  {
    var g := s.heap[s.main.incoming].generation;
    if i < |hosts| {
      t := Go(s, StartClass(hosts[i], permits));
      assert t.pools[g] == Fresh(hosts[..i + 1], permits);
      t := StartRest(t, hosts, permits, i + 1);
    } else {
      assert hosts[..i] == hosts;
      t := s;
    }
  }

  /**
   From a signal to the new configuration waiting for the mutex: it has a new generation, its
   host table, and a freshly initialised pool for each of its classes; the old one is as it was.
   */
  lemma {:induction false} ReloadStartsClasses(s: State, incoming: Address, hosts: seq<nat>, permits: nat)
    returns (t: State)
    requires Reachable(s) && s.main == Waiting && incoming !in s.heap
    ensures Reachable(t) && t.main == WantMutex(incoming)
    ensures t.heap == s.heap[incoming := Config(|s.pools|, 0, true)]
    ensures t.pools == s.pools + [Fresh(hosts, permits)]
    ensures t.current == s.current && t.mutex == s.mutex && t.controls == s.controls
    ensures var g := |s.pools|; t.log == s.log + [LoadStarted(g), LoadDone(g), InitDone(g)]
  {
    t := Go(s, Wake(incoming));
    t := Go(t, Succeed);
    assert Fresh(hosts[..0], permits) == [];
    t := StartRest(t, hosts, permits, 0);
    t := Go(t, Succeed);
  }

  /** A failed load or init has its configuration deleted, and the main loop waits again as before. */
  lemma {:induction false} DropReturns(s: State, incoming: Address) returns (t: State)
    requires Reachable(s) && s.main == Waiting && incoming !in s.heap
    ensures Reachable(t) && t.main == Waiting && t.heap == s.heap && t.current == s.current
    ensures t.log == s.log + [LoadStarted(|s.pools|), Dropped(|s.pools|)] && t.controls == s.controls
  {
    t := Go(s, Wake(incoming));
    t := Go(t, Fail);
    t := Go(t, MainStep);
    t := Go(t, MainStep);
    assert t.heap == s.heap;
    t := Go(t, MainStep);
  }

  // ----- polling

  /** A poll that sees no change is followed by another, up to the 55th, which ends in "550". */
  lemma {:induction false} PollLimit(s: State, w: nat)
    requires w < |s.controls| && s.controls[w].InPoll? && s.controls[w].captured == s.current
    ensures var c := s.controls[w];
      ControlNext(s, w).controls[w] ==
        if c.polls < 54 then AtPoll(c.captured, c.since, c.polls + 1) else Answered(false, c.since, |s.log|)
    ensures ControlNext(s, w).mutex == Nobody
  {
  }
}
