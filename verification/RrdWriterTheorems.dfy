/** What the writer promises of whole runs: per-file FIFO, token accounting, no deadlock. */
module RrdWriterTheorems {
  import opened Options
  import opened RrdWriter
  import opened RrdWriterInvariant

  // ----- refinement of a FIFO per file

  /** The updates of one file, in order. */
  ghost function OnFile(updates: seq<Update>, file: Text): seq<Update> {
    if updates == [] then []
    else
      var last := updates[|updates| - 1];
      OnFile(updates[..|updates| - 1], file) + (if last.file == file then [last] else [])
  }

  lemma {:induction false} OnFileConcat(a: seq<Update>, b: seq<Update>, file: Text)
    ensures OnFile(a + b, file) == OnFile(a, file) + OnFile(b, file)
  {
    if b == [] {
      assert a + b == a;
    } else {
      var n := |b| - 1;
      assert (a + b)[..|a| + n] == a + b[..n];
      OnFileConcat(a, b[..n], file);
    }
  }

  /** A queue's share of the history holds all of its own files' updates and none of the others'. */
  lemma {:induction false} OnFileRouted(pushed: seq<Update>, file: Text, k: nat, shards: nat)
    requires shards > 0
    ensures OnFile(Routed(pushed, k, shards), file) == if ShardOf(file, shards) == k then OnFile(pushed, file) else []
  {
    if pushed != [] {
      var init, last := pushed[..|pushed| - 1], pushed[|pushed| - 1];
      OnFileRouted(init, file, k, shards);
      var here := if ShardOf(last.file, shards) == k then [last] else [];
      OnFileConcat(Routed(init, k, shards), here, file);
      assert [last][..0] == [];
    }
  }

  /**
   Per-file FIFO: for every file, in every reachable state, what was written, then what its
   consumer holds, then what waits in its queue, read through the id tables, is exactly the
   sequence of updates pushed for that file. No other queue carries any of them.
   */
  lemma {:induction false} PerFileFifo(s: State, file: Text, k: nat)
    requires Reachable(s) && k < |s.shards|
    ensures AllInRange(s.files, s.templates, s.shards[k].queue)
    ensures HandInRange(s.files, s.templates, s.shards[k].consumer)
    ensures OnFile(s.shards[k].written, file)
            + OnFile(InHand(s.files, s.templates, s.shards[k].consumer), file)
            + OnFile(DecodeAll(s.files, s.templates, s.shards[k].queue), file)
            == if ShardOf(file, |s.shards|) == k then OnFile(s.pushed, file) else []
  {
    ReachableInv(s);
    var q := s.shards[k];
    assert ShardFifo(s.files, s.templates, q, Routed(s.pushed, k, |s.shards|));
    FifoOnFile(s.files, s.templates, q, Routed(s.pushed, k, |s.shards|), file);
    OnFileRouted(s.pushed, file, k, |s.shards|);
  }

  lemma {:induction false} FifoOnFile(files: Table, templates: Table, q: Shard, expected: seq<Update>, file: Text)
    requires ShardFifo(files, templates, q, expected)
    ensures OnFile(q.written, file) + OnFile(InHand(files, templates, q.consumer), file)
            + OnFile(DecodeAll(files, templates, q.queue), file) == OnFile(expected, file)
  {
    var hand := InHand(files, templates, q.consumer);
    var pending := DecodeAll(files, templates, q.queue);
    OnFileConcat(q.written, hand + pending, file);
    OnFileConcat(hand, pending, file);
  }

  /** Nothing is ever written that was not pushed, or ahead of its turn: a file's output is a prefix of its input. */
  lemma {:induction false} WrittenIsPrefix(s: State, file: Text)
    requires Reachable(s) && |s.shards| > 0
    ensures OnFile(s.shards[ShardOf(file, |s.shards|)].written, file) <= OnFile(s.pushed, file)
  {
    PerFileFifo(s, file, ShardOf(file, |s.shards|));
  }

  // ----- the id tables

  /** No step ever changes the meaning of an id. */
  lemma {:induction false} IdsKeepMeaning(s: State, a: Action)
    requires Reachable(s) && Enabled(s, a)
    ensures s.files.names <= Next(s, a).files.names
    ensures s.templates.names <= Next(s, a).templates.names
    ensures ValidTable(Next(s, a).files) && ValidTable(Next(s, a).templates)
  {
    ReachableInv(s);
    TablesExtend(s, a);
    StepKeepsInv(s, a);
  }

  lemma {:induction false} TablesExtend(s: State, a: Action)
    requires ValidTable(s.files) && ValidTable(s.templates) && Enabled(s, a)
    ensures s.files.names <= Next(s, a).files.names && s.templates.names <= Next(s, a).templates.names
  {
    if a.PusherStep? && s.pushers[a.p].HasGlobal? {
      InternExtends(s.files, s.pushers[a.p].u.file);
      InternExtends(s.templates, s.pushers[a.p].u.template);
    }
  }

  // ----- tokens

  /**
   A queue is never shorter than the tokens in its semaphore plus the one its consumer
   holds, so `front()` never meets an empty queue; the difference is exactly the tokens
   swallowed by repeated waits, apart from a datum whose post is still to come.
   */
  lemma {:induction false} TokenAccounting(s: State, k: nat)
    requires Reachable(s) && k < |s.shards|
    ensures !s.fault
    ensures var q := s.shards[k];
      && |q.queue| >= q.tokens + Holding(q.consumer)
      && (q.consumer.InShard? ==> q.queue != [])
      && (!PostPending(s, k) ==> |q.queue| - q.tokens - Holding(q.consumer) == q.swallowed)
  {
    ReachableInv(s);
    assert TokenInv(s, k);
  }

  /**
   The guard of the faulty branch: the wait of consumer `k` succeeds while `errno` still holds
   EINTR, so the code waits again and the token is lost.
   */
  predicate RepeatsWait(s: State, a: Action, k: nat) {
    a.ConsumerStep? && a.c == k && k < |s.shards| && s.shards[k].consumer == AtWait && s.shards[k].errno == Interrupted
  }

  /** How often that happens in a run. */
  function Repeats(s: State, schedule: seq<Action>, k: nat): nat
    requires Runs(s, schedule)
    decreases |schedule|
  {
    if schedule == [] then 0
    else (if RepeatsWait(s, schedule[0], k) then 1 else 0) + Repeats(Next(s, schedule[0]), schedule[1..], k)
  }

  lemma {:induction false} ConsumerSwallows(s: State, j: nat, errno: Errno, k: nat)
    requires ConsumerCanStep(s, j) && k < |s.shards|
    ensures var t := ConsumerNext(s, j, errno);
      && |t.shards| == |s.shards|
      && t.shards[k].swallowed == s.shards[k].swallowed + (if RepeatsWait(s, ConsumerStep(j, errno), k) then 1 else 0)
      && (t.shards[k].errno == s.shards[k].errno || (j == k && t.shards[k].errno == errno))
  {
  }

  lemma {:induction false} StepSwallows(s: State, a: Action, k: nat)
    requires Enabled(s, a) && k < |s.shards|
    ensures |Next(s, a).shards| == |s.shards|
    ensures Next(s, a).shards[k].swallowed == s.shards[k].swallowed + (if RepeatsWait(s, a, k) then 1 else 0)
    ensures Next(s, a).shards[k].errno == s.shards[k].errno || a == WaitFails(k, Next(s, a).shards[k].errno)
            || a == ConsumerStep(k, Next(s, a).shards[k].errno)
  {
    if a.ConsumerStep? { ConsumerSwallows(s, a.c, a.errno, k); }
  }

  lemma {:induction false} RunSwallows(s: State, schedule: seq<Action>, k: nat)
    requires Runs(s, schedule) && k < |s.shards|
    ensures |After(s, schedule).shards| == |s.shards|
    ensures After(s, schedule).shards[k].swallowed == s.shards[k].swallowed + Repeats(s, schedule, k)
    decreases |schedule|
  {
    if schedule != [] {
      StepSwallows(s, schedule[0], k);
      RunSwallows(Next(s, schedule[0]), schedule[1..], k);
    }
  }

  /**
   A consumer that sleeps on an empty semaphore has emptied its queue exactly if it never repeated
   a wait that succeeded.
   */
  lemma {:induction false} SleepingConsumerIsDone(configured: int, callers: nat, schedule: seq<Action>, k: nat)
    requires Runs(Init(configured, callers), schedule)
    requires var s := After(Init(configured, callers), schedule);
      k < |s.shards| && !PostPending(s, k) && s.shards[k].consumer == AtWait && s.shards[k].tokens == 0
    ensures var s := After(Init(configured, callers), schedule);
      s.shards[k].queue == [] <==> Repeats(Init(configured, callers), schedule, k) == 0
  {
    var init := Init(configured, callers);
    RunKeepsShards(init, schedule);
    RunSwallows(init, schedule, k);
    TokenAccounting(After(init, schedule), k);
  }

  lemma {:induction false} RunKeepsShards(s: State, schedule: seq<Action>)
    requires Runs(s, schedule)
    ensures |After(s, schedule).shards| == |s.shards|
    decreases |schedule|
  {
    if schedule != [] { RunKeepsShards(Next(s, schedule[0]), schedule[1..]); }
  }

  /** Neither the wait nor the write of consumer `k` is ever interrupted. */
  ghost predicate Uninterrupted(schedule: seq<Action>, k: nat) {
    forall i :: 0 <= i < |schedule| ==>
        schedule[i] != WaitFails(k, Interrupted) && schedule[i] != ConsumerStep(k, Interrupted)
  }

  lemma {:induction false} UninterruptedNeverRepeats(s: State, schedule: seq<Action>, k: nat)
    requires Runs(s, schedule) && k < |s.shards| && Uninterrupted(schedule, k) && s.shards[k].errno != Interrupted
    ensures Repeats(s, schedule, k) == 0
    decreases |schedule|
  {
    if schedule != [] {
      StepSwallows(s, schedule[0], k);
      assert schedule[0] != WaitFails(k, Interrupted) && schedule[0] != ConsumerStep(k, Interrupted);
      assert Uninterrupted(schedule[1..], k) by {
        assert forall i :: 0 <= i < |schedule[1..]| ==> schedule[1..][i] == schedule[i + 1];
      }
      UninterruptedNeverRepeats(Next(s, schedule[0]), schedule[1..], k);
    }
  }

  /**
   Without interruptions, as when all signals are blocked, tokens and holder match the queue
   whenever no post is pending, and a consumer that sleeps has written everything routed to it.
   */
  lemma {:induction false} UninterruptedWritesAll(configured: int, callers: nat, schedule: seq<Action>, k: nat)
    requires Runs(Init(configured, callers), schedule) && Uninterrupted(schedule, k)
    requires k < |After(Init(configured, callers), schedule).shards|
        && !PostPending(After(Init(configured, callers), schedule), k)
    ensures var s := After(Init(configured, callers), schedule);
      var q := s.shards[k];
      && |q.queue| == q.tokens + Holding(q.consumer)
      && (q.consumer == AtWait && q.tokens == 0 ==> q.written == Routed(s.pushed, k, |s.shards|))
  {
    var init := Init(configured, callers);
    var s := After(init, schedule);
    RunKeepsShards(init, schedule);
    UninterruptedNeverRepeats(init, schedule, k);
    RunSwallows(init, schedule, k);
    TokenAccounting(s, k);
    ReachableInv(s);
    assert ShardFifo(s.files, s.templates, s.shards[k], Routed(s.pushed, k, |s.shards|));
  }

  /**
   What was swallowed is never made up for: whatever happens later, at least as many updates
   stay in the queue, and the written ones stay as many behind those pushed.
   */
  lemma {:induction false} SwallowedForever(s: State, schedule: seq<Action>, k: nat)
    requires Reachable(s) && k < |s.shards| && Runs(s, schedule)
    ensures var t := After(s, schedule);
      && |t.shards| == |s.shards|
      && |t.shards[k].queue| >= s.shards[k].swallowed
      && |t.shards[k].written| + s.shards[k].swallowed <= |Routed(t.pushed, k, |t.shards|)|
  {
    var t := After(s, schedule);
    ReachableInv(s);
    RunKeepsInv(s, schedule);
    RunSwallows(s, schedule, k);
    assert TokenInv(t, k) && ShardFifo(t.files, t.templates, t.shards[k], Routed(t.pushed, k, |t.shards|));
  }

  lemma {:induction false} RunThenStep(s: State, schedule: seq<Action>, a: Action)
    requires Runs(s, schedule) && Enabled(After(s, schedule), a)
    ensures Runs(s, schedule + [a]) && After(s, schedule + [a]) == Next(After(s, schedule), a)
    decreases |schedule|
  {
    if schedule == [] {
      assert [a][1..] == [] && Runs(Next(s, a), []);
    } else {
      RunThenStep(Next(s, schedule[0]), schedule[1..], a);
      assert (schedule + [a])[1..] == schedule[1..] + [a];
    }
  }

  lemma {:induction false} ReachableStep(s: State, a: Action)
    requires Reachable(s) && Enabled(s, a)
    ensures Reachable(Next(s, a))
  {
    var configured: int, callers: nat, schedule :|
      Runs(Init(configured, callers), schedule) && After(Init(configured, callers), schedule) == s;
    RunThenStep(Init(configured, callers), schedule, a);
    assert Runs(Init(configured, callers), schedule + [a]);
  }

  /** The single caller after `i` steps of a call, its consumer asleep with a stale `errno`. */
  ghost predicate Stage(s: State, i: nat, u: Update) {
    && |s.shards| == 1 && |s.pushers| == 1
    && s.global == (if 1 <= i <= 6 then ByPusher(0) else Nobody)
    && s.shards[0].lock == (if 3 <= i <= 5 then ByPusher(0) else Nobody)
    && s.shards[0].consumer == AtWait && s.shards[0].errno == Interrupted && s.shards[0].written == []
    && s.shards[0].swallowed == 0
    && |s.shards[0].queue| == (if i >= 4 then 1 else 0)
    && s.shards[0].tokens == (if i >= 5 then 1 else 0)
    && s.pushed == (if i >= 4 then [u] else [])
    && var x := s.pushers[0];
       if i == 0 then x == WantGlobal(u)
       else if i == 1 then x == HasGlobal(u)
       else if i == 2 then x.WantShard? && x.u == u && x.shard == 0
       else if i == 3 then x.HasShard? && x.u == u && x.shard == 0
       else if i == 4 then x == Enqueued(0)
       else if i == 5 then x == PostDone(0)
       else if i == 6 then x == ShardReleased
       else x == Idle
  }

  lemma {:induction false} StageStep(s: State, i: nat, u: Update)
    requires Stage(s, i, u) && i < 7
    ensures PusherCanStep(s, 0) && Stage(PusherNext(s, 0), i + 1, u)
  {
  }

  lemma {:induction false} InterruptThenCall(u: Update) returns (s: State)
    ensures Reachable(s) && Stage(s, 0, u)
  {
    s := Init(1, 1);
    assert Runs(s, []) && After(s, []) == s;
    assert Reachable(s);
    ReachableStep(s, WaitFails(0, Interrupted));
    s := Next(s, WaitFails(0, Interrupted));
    ReachableStep(s, Call(0, u));
    s := Next(s, Call(0, u));
  }

  /** An interrupted wait, one call, and the wait that swallows its token. */
  lemma {:induction false} SwallowOne(u: Update) returns (s: State)
    ensures Reachable(s) && |s.shards| == 1 && s.pushers == [Idle] && s.pushed == [u]
    ensures s.shards[0].consumer == AtWait && s.shards[0].tokens == 0 && s.shards[0].swallowed == 1
    ensures |s.shards[0].queue| == 1 && s.shards[0].written == []
  {
    s := InterruptThenCall(u);
    var i := 0;
    while i < 7
      invariant 0 <= i <= 7 && Reachable(s) && Stage(s, i, u)
    {
      StageStep(s, i, u);
      ReachableStep(s, PusherStep(0));
      s := Next(s, PusherStep(0));
      i := i + 1;
    }
    ReachableStep(s, ConsumerStep(0, Clear));
    s := Next(s, ConsumerStep(0, Clear));
  }

  /**
   One interrupted wait is enough: with a single update pushed its consumer sleeps and nobody
   pushes, and in every continuation the queue has something in it.
   */
  lemma {:induction false} StrandedDatum(u: Update) returns (s: State)
    ensures Reachable(s) && |s.shards| == 1 && s.pushers == [Idle] && s.pushed == [u]
    ensures s.shards[0].consumer == AtWait && s.shards[0].tokens == 0
    ensures |s.shards[0].queue| == 1 && s.shards[0].written == []
    ensures forall schedule :: Runs(s, schedule) ==>
              |After(s, schedule).shards| == 1 && After(s, schedule).shards[0].queue != []
  {
    s := SwallowOne(u);
    forall schedule | Runs(s, schedule)
      ensures |After(s, schedule).shards| == 1 && After(s, schedule).shards[0].queue != []
    {
      SwallowedForever(s, schedule, 0);
    }
  }

  // ----- locks

  datatype Lock = Global | QueueLock(k: nat)

  function Rank(l: Lock): nat { if l == Global then 0 else 1 }

  function Awaits(s: State, t: Owner): Option<Lock> {
    match t
    case ByPusher(p) =>
      if p >= |s.pushers| then None
      else if s.pushers[p].WantGlobal? then Some(Global)
      else if s.pushers[p].WantShard? then Some(QueueLock(s.pushers[p].shard))
      else None
    case ByConsumer(c) =>
      if c >= |s.shards| then None
      else if s.shards[c].consumer.AtShard? then Some(QueueLock(c))
      else if s.shards[c].consumer.AtGlobal? then Some(Global)
      else None
    case ByStatus => if s.status.AtQueue? && s.status.i < |s.shards| then Some(QueueLock(s.status.i)) else None
    case Nobody => None
  }

  /** Who holds the lock, according to the lock itself. */
  function HolderOf(s: State, l: Lock): Owner {
    match l
    case Global => s.global
    case QueueLock(k) => if k < |s.shards| then s.shards[k].lock else Nobody
  }

  /** A waiting caller holds no queue lock, and not the global one if that is what it waits for. */
  lemma {:induction false} WaitingPusher(s: State, p: nat)
    requires p < |s.pushers| && PusherLocks(s, p) && Awaits(s, ByPusher(p)).Some?
    ensures forall k :: HolderOf(s, QueueLock(k)) != ByPusher(p)
    ensures Awaits(s, ByPusher(p)).value == Global ==> s.global != ByPusher(p)
  {
  }

  /** A waiting consumer holds nothing. */
  lemma {:induction false} WaitingConsumer(s: State, c: nat)
    requires LockInv(s) && c < |s.shards| && Awaits(s, ByConsumer(c)).Some?
    ensures forall k :: HolderOf(s, QueueLock(k)) != ByConsumer(c)
    ensures s.global != ByConsumer(c)
  {
    assert ShardLocks(s, c);
    forall k: nat | k < |s.shards| ensures s.shards[k].lock != ByConsumer(c) {
      assert ShardLocks(s, k);
    }
  }

  /** Nor does the waiting status thread. */
  lemma {:induction false} WaitingStatus(s: State)
    requires LockInv(s) && Awaits(s, ByStatus).Some?
    ensures forall k :: HolderOf(s, QueueLock(k)) != ByStatus
    ensures s.global != ByStatus
  {
    forall k: nat | k < |s.shards| ensures s.shards[k].lock != ByStatus {
      assert ShardLocks(s, k);
    }
  }

  /** Whoever waits for a lock holds only locks that come before it in the order. */
  lemma {:induction false} LockOrder(s: State, t: Owner, wanted: Lock, held: Lock)
    requires Reachable(s) && t != Nobody
    requires Awaits(s, t) == Some(wanted) && HolderOf(s, held) == t
    ensures Rank(held) < Rank(wanted)
  {
    ReachableInv(s);
    match t
    case ByPusher(p) => WaitingPusher(s, p);
    case ByConsumer(c) => WaitingConsumer(s, c);
    case ByStatus => WaitingStatus(s);
  }

  /** Each thread waits for a lock the next one holds. */
  ghost predicate WaitChain(s: State, threads: seq<Owner>, locks: seq<Lock>) {
    && |threads| == |locks| + 1
    && (forall i :: 0 <= i < |threads| ==> threads[i] != Nobody)
    && (forall i :: 0 <= i < |locks| ==>
        Awaits(s, threads[i]) == Some(locks[i]) && HolderOf(s, locks[i]) == threads[i + 1])
  }

  lemma {:induction false} ChainClimbs(s: State, threads: seq<Owner>, locks: seq<Lock>, i: nat)
    requires Reachable(s) && WaitChain(s, threads, locks) && i < |locks|
    ensures Rank(locks[0]) + i <= Rank(locks[i])
  {
    if i > 0 {
      ChainClimbs(s, threads, locks, i - 1);
      LockOrder(s, threads[i], locks[i], locks[i - 1]);
    }
  }

  /** No circular wait is reachable, however many threads take part. */
  lemma {:induction false} NoCircularWait(s: State, threads: seq<Owner>, locks: seq<Lock>)
    requires Reachable(s) && WaitChain(s, threads, locks) && |locks| > 0
    ensures threads[0] != threads[|locks|]
  {
    var n := |locks| - 1;
    if threads[0] == threads[|locks|] {
      ChainClimbs(s, threads, locks, n);
      LockOrder(s, threads[0], locks[0], locks[n]);
    }
  }

  predicate ThreadCanStep(s: State, t: Owner) {
    match t
    case ByPusher(p) => PusherCanStep(s, p)
    case ByConsumer(c) => ConsumerCanStep(s, c)
    case ByStatus => StatusCanStep(s)
    case Nobody => false
  }

  /** The holder of a queue lock is never waiting for anything. */
  lemma {:induction false} QueueHolderRuns(s: State, k: nat)
    requires Inv(s) && k < |s.shards| && s.shards[k].lock != Nobody
    ensures ThreadCanStep(s, s.shards[k].lock)
  {
    assert ShardLocks(s, k);
    if s.shards[k].lock.ByPusher? { assert PusherLocks(s, s.shards[k].lock.p); }
  }

  /** A taken lock's holder can run, or waits for one other lock whose holder can. */
  lemma {:induction false} SomeHolderRuns(s: State, l: Lock) returns (runner: Owner)
    requires Reachable(s) && HolderOf(s, l) != Nobody
    ensures ThreadCanStep(s, runner)
    ensures var holder := HolderOf(s, l);
      || runner == holder
      || (Awaits(s, holder).Some? && HolderOf(s, Awaits(s, holder).value) == runner)
  {
    ReachableInv(s);
    runner := HolderOf(s, l);
    match l
    case QueueLock(k) => QueueHolderRuns(s, k);
    case Global =>
      if runner.ByPusher? {
        var x := s.pushers[runner.p];
        assert PusherLocks(s, runner.p);
        if x.WantShard? && s.shards[x.shard].lock != Nobody {
          QueueHolderRuns(s, x.shard);
          runner := s.shards[x.shard].lock;
        }
      } else {
        assert ShardLocks(s, runner.c);
      }
  }
}
