/**
 Replacing the running configuration: the main loop loads and starts a new one, then deletes
 the old one and swaps the pointer under the config mutex, while control workers read through
 the pointer or poll it for a change. Addresses of deleted configurations may be used again.
 The threads of every collection class ever started run beside them, class by class a
 `PollingPool`; deleting a configuration runs `finalize` of its classes one after the other.
 */
module ReloadHandover {
  import opened Options
  import Pool = PollingPool

  type Address = nat

  /** A configuration in memory: how many of its classes are destroyed, and whether its host table exists. */
  datatype Config = Config(generation: nat, destroyed: nat, hostsLive: bool)

  datatype Main =
    | FirstInit
    | Waiting
    | Loading(incoming: Address)
    | Initialising(incoming: Address)
    | WantMutex(incoming: Address)
    | Deleting(incoming: Address)
    | Assigning(incoming: Address)
    | Unlocking
    | Dropping(incoming: Address)
    | Terminating
    | Ended

  /**
   A control worker; `since` and `until` are the lengths of the history at its first look at the
   pointer, which comes before it signals the main loop, and at its last.
   */
  datatype Control =
    | Idle
    | AtStatus
    | InStatus
    | AtFirstRead
    | InFirstRead
    | AtSignal(captured: Address, since: nat)
    | AtPoll(captured: Address, since: nat, polls: nat)
    | InPoll(captured: Address, since: nat, polls: nat)
    | Answered(ok: bool, since: nat, until: nat)

  const WAIT_SECS: nat := 55

  datatype Owner = Nobody | ByMain | ByControl(w: nat)

  datatype Event =
    | LoadStarted(g: nat)
    | LoadDone(g: nat)
    | InitDone(g: nat)
    | Swapped(g: nat, at: Address)
    | Dropped(g: nat)

  /**
   `pools` holds the threads of every class of every generation; they go on after the memory
   of their configuration is gone, if they are not joined first. `fault` records a read
   through the pointer to a configuration of which any part is gone.
   */
  datatype State = State(
    heap: map<Address, Config>,
    current: Address,
    pools: seq<seq<Pool.State>>,
    mutex: Owner,
    main: Main,
    controls: seq<Control>,
    log: seq<Event>,
    fault: bool)

  datatype Action =
    | Wake(incoming: Address)
    | Terminate
    | StartClass(hosts: nat, permits: nat)
    | Succeed
    | Fail
    | MainStep
    | PoolStep(g: nat, c: nat, step: Pool.Action)
    | Begin(w: nat, reload: bool)
    | ControlStep(w: nat)

  function Init(workers: nat): State {
    State(map[0 := Config(0, 0, true)], 0, [[]], Nobody, FirstInit, seq(workers, _ => Idle), [], false)
  }

  function SetPool(s: State, g: nat, c: nat, p: Pool.State): State
    requires g < |s.pools| && c < |s.pools[g]|
  {
    s.(pools := s.pools[g := s.pools[g][c := p]])
  }

  /** Nothing of the configuration is destroyed: the classes a status report walks, and the host table. */
  predicate Intact(heap: map<Address, Config>, a: Address) {
    a in heap && heap[a].destroyed == 0 && heap[a].hostsLive
  }

  // ----- deleting a configuration

  predicate CanDestroy(s: State, a: Address) {
    && a in s.heap && s.heap[a].generation < |s.pools|
    && var c := s.heap[a];
       var classes := s.pools[c.generation];
       c.destroyed < |classes| ==>
         classes[c.destroyed].finalizer == Pool.Returned || Pool.FinalizerCanStep(classes[c.destroyed])
  }

  /**
   Members go in reverse order of declaration, the classes before the host table. The
   destructor of a class is `finalize`, run to its end by the deleting thread.
   */
  function Destroy(s: State, a: Address): State
    requires CanDestroy(s, a)
  {
    var c := s.heap[a];
    var classes := s.pools[c.generation];
    if c.destroyed < |classes| then
      if classes[c.destroyed].finalizer == Pool.Returned then
        s.(heap := s.heap[a := c.(destroyed := c.destroyed + 1)])
      else
        SetPool(s, c.generation, c.destroyed, Pool.FinalizerNext(classes[c.destroyed]))
    else if c.hostsLive then s.(heap := s.heap[a := c.(hostsLive := false)])
    else s.(heap := s.heap - {a})
  }

  function SetControl(s: State, w: nat, c: Control): State
    requires w < |s.controls|
  {
    s.(controls := s.controls[w := c])
  }

  /** The configuration whose classes are being started. */
  function Starting(s: State): Address
    requires s.main == FirstInit || s.main.Initialising?
  {
    if s.main == FirstInit then s.current else s.main.incoming
  }

  predicate Enabled(s: State, a: Action) {
    match a
    case Wake(incoming) => s.main == Waiting && incoming !in s.heap
    case Terminate => s.main == Waiting
    case StartClass(_, _) =>
      && (s.main == FirstInit || s.main.Initialising?)
      && Starting(s) in s.heap && s.heap[Starting(s)].generation < |s.pools|
    case Succeed =>
      (match s.main
       case FirstInit => true
       case Loading(incoming) => incoming in s.heap
       case Initialising(incoming) => incoming in s.heap
       case _ => false)
    case Fail =>
      && (s.main.Loading? || s.main.Initialising?) && s.main.incoming in s.heap
      && s.heap[s.main.incoming].generation < |s.pools| && s.pools[s.heap[s.main.incoming].generation] == []
    case MainStep =>
      (match s.main
       case WantMutex(_) => s.mutex == Nobody
       case Deleting(_) => s.current in s.heap ==> CanDestroy(s, s.current)
       case Assigning(incoming) => incoming in s.heap
       case Unlocking => true
       case Dropping(incoming) => incoming in s.heap ==> CanDestroy(s, incoming)
       case Terminating => s.current in s.heap ==> CanDestroy(s, s.current)
       case _ => false)
    case PoolStep(g, c, step) =>
      g < |s.pools| && c < |s.pools[g]| && !step.FinalizerStep? && Pool.Enabled(s.pools[g][c], step)
    case Begin(w, _) => w < |s.controls| && (s.controls[w] == Idle || s.controls[w].Answered?)
    case ControlStep(w) =>
      && w < |s.controls|
      && (match s.controls[w]
          case AtStatus => s.mutex == Nobody
          case InStatus => true
          case AtFirstRead => s.mutex == Nobody
          case InFirstRead => true
          case AtSignal(_, _) => true
          case AtPoll(_, _, _) => s.mutex == Nobody
          case InPoll(_, _, _) => true
          case _ => false)
  }

  function MainNext(s: State): State
    requires Enabled(s, MainStep)
  {
    match s.main
    case WantMutex(incoming) => s.(mutex := ByMain, main := Deleting(incoming))
    case Deleting(incoming) =>
      if s.current in s.heap then Destroy(s, s.current) else s.(main := Assigning(incoming))
    case Assigning(incoming) =>
      s.(current := incoming, main := Unlocking, log := s.log + [Swapped(s.heap[incoming].generation, incoming)])
    case Unlocking => s.(mutex := Nobody, main := Waiting)
    case Dropping(incoming) =>
      if incoming in s.heap then Destroy(s, incoming) else s.(main := Waiting)
    case Terminating =>
      if s.current in s.heap then Destroy(s, s.current) else s.(main := Ended)
  }

  /** The pointer is read, and the configuration behind it for a status report, while the mutex is held. */
  function ControlNext(s: State, w: nat): State
    requires Enabled(s, ControlStep(w))
  {
    match s.controls[w]
    case AtStatus => SetControl(s, w, InStatus).(mutex := ByControl(w))
    case InStatus =>
      SetControl(s, w, Idle).(mutex := Nobody,
                              fault := s.fault || !Intact(s.heap, s.current))
    case AtFirstRead => SetControl(s, w, InFirstRead).(mutex := ByControl(w))
    case InFirstRead => SetControl(s, w, AtSignal(s.current, |s.log|)).(mutex := Nobody)
    case AtSignal(captured, since) => SetControl(s, w, AtPoll(captured, since, 0))
    case AtPoll(captured, since, i) => SetControl(s, w, InPoll(captured, since, i)).(mutex := ByControl(w))
    case InPoll(captured, since, i) =>
      SetControl(s, w,
                 if s.current != captured then Answered(true, since, |s.log|)
                 else if i + 1 < WAIT_SECS then AtPoll(captured, since, i + 1)
                 else Answered(false, since, |s.log|)).(mutex := Nobody)
  }

  function Next(s: State, a: Action): State
    requires Enabled(s, a)
  {
    match a
    case Wake(incoming) =>
      s.(heap := s.heap[incoming := Config(|s.pools|, 0, true)], pools := s.pools + [[]],
         main := Loading(incoming), log := s.log + [LoadStarted(|s.pools|)])
    case Terminate => s.(main := Terminating)
    case StartClass(hosts, permits) =>
      var g := s.heap[Starting(s)].generation;
      s.(pools := s.pools[g := s.pools[g] + [Pool.Init(hosts, permits)]])
    case Succeed =>
      (match s.main
       case FirstInit => s.(main := Waiting)
       case Loading(incoming) =>
         s.(main := Initialising(incoming), log := s.log + [LoadDone(s.heap[incoming].generation)])
       case Initialising(incoming) =>
         s.(main := WantMutex(incoming), log := s.log + [InitDone(s.heap[incoming].generation)]))
    case Fail =>
      s.(main := Dropping(s.main.incoming), log := s.log + [Dropped(s.heap[s.main.incoming].generation)])
    case MainStep => MainNext(s)
    case PoolStep(g, c, step) => SetPool(s, g, c, Pool.Next(s.pools[g][c], step))
    case Begin(w, reload) => SetControl(s, w, if reload then AtFirstRead else AtStatus)
    case ControlStep(w) => ControlNext(s, w)
  }

  predicate Runs(s: State, schedule: seq<Action>)
    decreases |schedule|
  {
    schedule == [] || (Enabled(s, schedule[0]) && Runs(Next(s, schedule[0]), schedule[1..]))
  }

  function After(s: State, schedule: seq<Action>): State
    requires Runs(s, schedule)
    decreases |schedule|
  {
    if schedule == [] then s else After(Next(s, schedule[0]), schedule[1..])
  }

  ghost predicate Reachable(s: State) {
    exists workers: nat, schedule :: Runs(Init(workers), schedule) && After(Init(workers), schedule) == s
  }

  // ----- the history

  /** The generation that is being loaded, if any. */
  function InProgress(log: seq<Event>): Option<nat> {
    if log == [] then None
    else
      match log[|log| - 1]
      case LoadStarted(g) => Some(g)
      case Swapped(_, _) => None
      case Dropped(_) => None
      case _ => InProgress(log[..|log| - 1])
  }

  /** How far that load has come: 0 started, 1 loaded, 2 initialised. */
  function Progress(log: seq<Event>): nat {
    if log == [] then 0
    else
      match log[|log| - 1]
      case LoadDone(_) => 1
      case InitDone(_) => 2
      case _ => 0
  }

  /** The pointer after the history; the first configuration is at address 0. */
  function Pointer(log: seq<Event>): Address {
    if log == [] then 0
    else
      var last := log[|log| - 1];
      if last.Swapped? then last.at else Pointer(log[..|log| - 1])
  }

  /** How often a configuration was swapped in. */
  function Swaps(log: seq<Event>): nat {
    if log == [] then 0 else Swaps(log[..|log| - 1]) + (if log[|log| - 1].Swapped? then 1 else 0)
  }

  /** Every load is a new generation, and every later event belongs to the load in progress and comes in its order. */
  ghost predicate GoodLog(log: seq<Event>) {
    forall j {:trigger GoodEvent(log[..j], log[j])} :: 0 <= j < |log| ==> GoodEvent(log[..j], log[j])
  }

  ghost predicate AllBelow(log: seq<Event>, g: nat) { forall k :: 0 <= k < |log| ==> log[k].g < g }

  ghost predicate GoodEvent(before: seq<Event>, e: Event) {
    match e
    case LoadStarted(g) => InProgress(before) == None && AllBelow(before, g)
    case LoadDone(g) => InProgress(before) == Some(g) && Progress(before) == 0
    case InitDone(g) => InProgress(before) == Some(g) && Progress(before) == 1
    case Swapped(g, at) => InProgress(before) == Some(g) && Progress(before) == 2 && at != Pointer(before)
    case Dropped(g) => InProgress(before) == Some(g)
  }

  lemma {:induction false} GoodLogAppend(log: seq<Event>, e: Event)
    requires GoodLog(log) && GoodEvent(log, e)
    ensures GoodLog(log + [e])
    ensures Progress(log + [e]) == if e.LoadDone? then 1 else if e.InitDone? then 2 else 0
    ensures InProgress(log + [e]) ==
      if e.LoadStarted? then Some(e.g) else if e.Swapped? || e.Dropped? then None else InProgress(log)
    ensures Pointer(log + [e]) == if e.Swapped? then e.at else Pointer(log)
  {
    var longer := log + [e];
    assert longer[..|log|] == log;
    forall j | 0 <= j < |longer| ensures GoodEvent(longer[..j], longer[j]) {
      if j < |log| {
        assert longer[..j] == log[..j] && GoodEvent(log[..j], log[j]);
      } else {
        assert longer[..j] == log;
      }
    }
  }
}
