/** What every step of the writer keeps. */
module RrdWriterInvariant {
  import opened RrdWriter

  // ----- the reference: a plain queue per shard

  /** The updates of the history that are routed to queue `k`, in order. */
  ghost function Routed(pushed: seq<Update>, k: nat, shards: nat): seq<Update>
    requires shards > 0
  {
    if pushed == [] then []
    else
      var last := pushed[|pushed| - 1];
      Routed(pushed[..|pushed| - 1], k, shards) + (if ShardOf(last.file, shards) == k then [last] else [])
  }

  lemma {:induction false} RoutedAppend(pushed: seq<Update>, u: Update, k: nat, shards: nat)
    requires shards > 0
    ensures Routed(pushed + [u], k, shards)
        == Routed(pushed, k, shards) + (if ShardOf(u.file, shards) == k then [u] else [])
  {
    assert (pushed + [u])[..|pushed|] == pushed;
  }

  ghost predicate AllInRange(files: Table, templates: Table, q: seq<Datum>) {
    forall i :: 0 <= i < |q| ==> InRange(files, templates, q[i])
  }

  ghost function DecodeAll(files: Table, templates: Table, q: seq<Datum>): seq<Update>
    requires AllInRange(files, templates, q)
  {
    seq(|q|, i requires 0 <= i < |q| => Decode(files, templates, q[i]))
  }

  // ----- the data part of the invariant

  ghost predicate HandInRange(files: Table, templates: Table, c: Consumer) {
    c.Popped? || c.AtGlobal? || c.InGlobal? ==> InRange(files, templates, c.d)
  }

  /** What the consumer has taken out and not yet handed to the RRD library. */
  ghost function InHand(files: Table, templates: Table, c: Consumer): seq<Update>
    requires HandInRange(files, templates, c)
  {
    match c
    case Popped(d) => [Decode(files, templates, d)]
    case AtGlobal(d) => [Decode(files, templates, d)]
    case InGlobal(d) => [Decode(files, templates, d)]
    case Decoded(u) => [u]
    case Writing(u) => [u]
    case _ => []
  }

  /** Written, in hand and pending make up exactly the expected history. */
  ghost predicate FifoInv(files: Table, templates: Table, written: seq<Update>, c: Consumer, queue: seq<Datum>,
                          expected: seq<Update>) {
    && AllInRange(files, templates, queue)
    && HandInRange(files, templates, c)
    && written + (InHand(files, templates, c) + DecodeAll(files, templates, queue)) == expected
  }

  ghost predicate ShardFifo(files: Table, templates: Table, q: Shard, expected: seq<Update>) {
    FifoInv(files, templates, q.written, q.consumer, q.queue, expected)
  }

  /** The datum a caller is about to enqueue reads back as what it was called with. */
  ghost predicate DatumInv(files: Table, templates: Table, x: Pusher, shards: nat)
    requires shards > 0
  {
    x.WantShard? || x.HasShard? ==>
      InRange(files, templates, x.d) && Decode(files, templates, x.d) == x.u && x.shard == ShardOf(x.u.file, shards)
  }

  ghost predicate DataInv(s: State) {
    && |s.shards| > 0
    && ValidTable(s.files) && ValidTable(s.templates)
    && (forall p :: 0 <= p < |s.pushers| ==> DatumInv(s.files, s.templates, s.pushers[p], |s.shards|))
    && (forall k: nat :: k < |s.shards| ==>
        ShardFifo(s.files, s.templates, s.shards[k], Routed(s.pushed, k, |s.shards|)))
  }

  // ----- the lock part

  predicate HoldsGlobal(x: Pusher) { !x.Idle? && !x.WantGlobal? }

  predicate HoldsShard(x: Pusher, k: nat) {
    match x
    case HasShard(_, _, j) => j == k
    case Enqueued(j) => j == k
    case PostDone(j) => j == k
    case _ => false
  }

  predicate NamesShard(x: Pusher, n: nat) {
    x.WantShard? || x.HasShard? || x.Enqueued? || x.PostDone? ==> x.shard < n
  }

  ghost predicate PusherLocks(s: State, p: nat)
    requires p < |s.pushers|
  {
    && (s.global == ByPusher(p) <==> HoldsGlobal(s.pushers[p]))
    && NamesShard(s.pushers[p], |s.shards|)
    && forall k: nat :: k < |s.shards| ==> (s.shards[k].lock == ByPusher(p) <==> HoldsShard(s.pushers[p], k))
  }

  ghost predicate ShardLocks(s: State, k: nat)
    requires k < |s.shards|
  {
    var q := s.shards[k];
    && (s.global == ByConsumer(k) <==> q.consumer.InGlobal? || q.consumer.Decoded?)
    && (q.lock == ByConsumer(k) <==> q.consumer.InShard? || q.consumer.Popped?)
    && (q.lock == ByStatus <==> s.status == InQueue(k))
    && (q.lock.ByConsumer? ==> q.lock.c == k)
    && (q.lock.ByPusher? ==> q.lock.p < |s.pushers|)
  }

  ghost predicate LockInv(s: State) {
    && (s.global.ByPusher? ==> s.global.p < |s.pushers|)
    && (s.global.ByConsumer? ==> s.global.c < |s.shards|)
    && s.global != ByStatus
    && (s.status.InQueue? ==> s.status.i < |s.shards|)
    && (forall p: nat :: p < |s.pushers| ==> PusherLocks(s, p))
    && (forall k: nat :: k < |s.shards| ==> ShardLocks(s, k))
  }

  // ----- the token part

  predicate PostPending(s: State, k: nat)
    requires k < |s.shards|
  {
    var lock := s.shards[k].lock;
    lock.ByPusher? && lock.p < |s.pushers| && s.pushers[lock.p].Enqueued?
  }

  function Holding(c: Consumer): nat { if c.AtShard? || c.InShard? then 1 else 0 }

  ghost predicate TokenInv(s: State, k: nat)
    requires k < |s.shards|
  {
    var q := s.shards[k];
    |q.queue| == q.tokens + Holding(q.consumer) + q.swallowed + (if PostPending(s, k) then 1 else 0)
  }

  ghost predicate TokensInv(s: State) {
    !s.fault && forall k: nat :: k < |s.shards| ==> TokenInv(s, k)
  }

  ghost predicate Inv(s: State) { DataInv(s) && LockInv(s) && TokensInv(s) }

  lemma {:induction false} InitInv(configured: int, callers: nat)
    ensures Inv(Init(configured, callers))
  {
  }

  // ----- consumers

  lemma {:induction false} DecodeAllTail(files: Table, templates: Table, q: seq<Datum>)
    requires q != [] && AllInRange(files, templates, q)
    ensures AllInRange(files, templates, q[1..])
    ensures DecodeAll(files, templates, q) == [Decode(files, templates, q[0])] + DecodeAll(files, templates, q[1..])
  {
  }

  lemma {:induction false} PopKeepsFifo(files: Table, templates: Table, written: seq<Update>, queue: seq<Datum>,
                                        expected: seq<Update>)
    requires queue != [] && FifoInv(files, templates, written, InShard, queue, expected)
    ensures FifoInv(files, templates, written, Popped(queue[0]), queue[1..], expected)
  {
    DecodeAllTail(files, templates, queue);
    assert [] + DecodeAll(files, templates, queue) == DecodeAll(files, templates, queue);
  }

  lemma {:induction false} WriteKeepsFifo(files: Table, templates: Table, written: seq<Update>, u: Update,
                                          queue: seq<Datum>, expected: seq<Update>)
    requires FifoInv(files, templates, written, Writing(u), queue, expected)
    ensures FifoInv(files, templates, written + [u], AtWait, queue, expected)
  {
    var pending := DecodeAll(files, templates, queue);
    assert written + ([u] + pending) == (written + [u]) + ([] + pending);
  }

  lemma {:induction false} ConsumerKeepsFifo(s: State, k: nat, errno: Errno, expected: seq<Update>)
    requires ConsumerCanStep(s, k) && ShardFifo(s.files, s.templates, s.shards[k], expected)
    ensures ShardFifo(s.files, s.templates, ConsumerNext(s, k, errno).shards[k], expected)
  {
    var q := s.shards[k];
    match q.consumer
    case InShard =>
      if q.queue != [] { PopKeepsFifo(s.files, s.templates, q.written, q.queue, expected); }
    case Writing(u) => WriteKeepsFifo(s.files, s.templates, q.written, u, q.queue, expected);
    case _ =>
  }

  lemma {:induction false} ConsumerKeepsData(s: State, k: nat, errno: Errno)
    requires DataInv(s) && ConsumerCanStep(s, k)
    ensures DataInv(ConsumerNext(s, k, errno))
  {
    var t := ConsumerNext(s, k, errno);
    ConsumerKeepsFifo(s, k, errno, Routed(s.pushed, k, |s.shards|));
    assert t.files == s.files && t.templates == s.templates && t.pushed == s.pushed && t.pushers == s.pushers;
    forall j: nat | j < |t.shards|
      ensures ShardFifo(t.files, t.templates, t.shards[j], Routed(t.pushed, j, |t.shards|))
    {
      assert j != k ==> t.shards[j] == s.shards[j];
    }
  }

  lemma {:induction false} ConsumerKeepsPusher(s: State, k: nat, errno: Errno, p: nat)
    requires ConsumerCanStep(s, k) && p < |s.pushers| && PusherLocks(s, p) && ShardLocks(s, k)
    ensures PusherLocks(ConsumerNext(s, k, errno), p)
  {
    var t := ConsumerNext(s, k, errno);
    forall j: nat | j < |t.shards| ensures t.shards[j].lock == ByPusher(p) <==> HoldsShard(t.pushers[p], j) {
      assert s.shards[j].lock == ByPusher(p) <==> HoldsShard(s.pushers[p], j);
    }
  }

  lemma {:induction false} ConsumerKeepsShard(s: State, k: nat, errno: Errno, j: nat)
    requires ConsumerCanStep(s, k) && j < |s.shards| && ShardLocks(s, j) && ShardLocks(s, k)
    ensures ShardLocks(ConsumerNext(s, k, errno), j)
  {
  }

  lemma {:induction false} ConsumerKeepsLocks(s: State, k: nat, errno: Errno)
    requires LockInv(s) && ConsumerCanStep(s, k)
    ensures LockInv(ConsumerNext(s, k, errno))
  {
    var t := ConsumerNext(s, k, errno);
    assert ShardLocks(s, k);
    forall p: nat | p < |t.pushers| ensures PusherLocks(t, p) {
      ConsumerKeepsPusher(s, k, errno, p);
    }
    forall j: nat | j < |t.shards| ensures ShardLocks(t, j) {
      ConsumerKeepsShard(s, k, errno, j);
    }
  }

  /** Waits and the pop move tokens; the other phases leave queue, tokens and holder as they are. */
  lemma {:induction false} ConsumerKeepsOwnBalance(s: State, k: nat, errno: Errno)
    requires ConsumerCanStep(s, k) && TokenInv(s, k) && ShardLocks(s, k)
    ensures TokenInv(ConsumerNext(s, k, errno), k)
  {
    var t := ConsumerNext(s, k, errno);
    var q, r := s.shards[k], t.shards[k];
    assert t.pushers == s.pushers;
    match q.consumer
    case AtWait => assert r.lock == q.lock && r.queue == q.queue;
    case AtShard => assert !PostPending(s, k) && !PostPending(t, k);
    case InShard => assert q.queue != [] && r.lock == q.lock;
    case Popped(_) => assert !PostPending(s, k) && !PostPending(t, k);
    case _ => assert r.lock == q.lock && r.queue == q.queue && r.tokens == q.tokens;
  }

  lemma {:induction false} ConsumerKeepsBalance(s: State, k: nat, errno: Errno, j: nat)
    requires ConsumerCanStep(s, k) && j < |s.shards|
    requires TokenInv(s, j) && TokenInv(s, k) && ShardLocks(s, k)
    ensures TokenInv(ConsumerNext(s, k, errno), j)
  {
    var t := ConsumerNext(s, k, errno);
    if j == k {
      ConsumerKeepsOwnBalance(s, k, errno);
    } else {
      assert t.shards[j] == s.shards[j] && t.pushers == s.pushers;
    }
  }

  lemma {:induction false} ConsumerKeepsTokens(s: State, k: nat, errno: Errno)
    requires LockInv(s) && TokensInv(s) && ConsumerCanStep(s, k)
    ensures TokensInv(ConsumerNext(s, k, errno))
  {
    assert ShardLocks(s, k) && TokenInv(s, k);
    var t := ConsumerNext(s, k, errno);
    forall j: nat | j < |t.shards| ensures TokenInv(t, j) {
      ConsumerKeepsBalance(s, k, errno, j);
    }
  }

  // ----- callers

  lemma {:induction false} InternKeepsFifo(files: Table, templates: Table, files': Table, templates': Table, q: Shard,
                                           expected: seq<Update>)
    requires files.names <= files'.names && templates.names <= templates'.names
    requires ShardFifo(files, templates, q, expected)
    ensures ShardFifo(files', templates', q, expected)
  {
    assert DecodeAll(files, templates, q.queue) == DecodeAll(files', templates', q.queue);
  }

  lemma {:induction false} InternKeepsData(s: State, p: nat)
    requires DataInv(s) && PusherCanStep(s, p) && s.pushers[p].HasGlobal?
    ensures DataInv(PusherNext(s, p))
  {
    var t := PusherNext(s, p);
    var u := s.pushers[p].u;
    InternExtends(s.files, u.file);
    InternExtends(s.templates, u.template);
    forall i | 0 <= i < |t.pushers| ensures DatumInv(t.files, t.templates, t.pushers[i], |t.shards|) {
      assert DatumInv(s.files, s.templates, s.pushers[i], |s.shards|);
    }
    forall k: nat | k < |t.shards|
      ensures ShardFifo(t.files, t.templates, t.shards[k], Routed(t.pushed, k, |t.shards|))
    {
      InternKeepsFifo(s.files, s.templates, t.files, t.templates, s.shards[k], Routed(s.pushed, k, |s.shards|));
    }
  }

  lemma {:induction false} EnqueueKeepsFifo(files: Table, templates: Table, q: Shard, d: Datum, expected: seq<Update>)
    requires InRange(files, templates, d) && ShardFifo(files, templates, q, expected)
    ensures ShardFifo(files, templates, q.(queue := q.queue + [d]), expected + [Decode(files, templates, d)])
  {
    var hand := InHand(files, templates, q.consumer);
    var pending := DecodeAll(files, templates, q.queue);
    var last := [Decode(files, templates, d)];
    assert DecodeAll(files, templates, q.queue + [d]) == pending + last;
    assert q.written + (hand + (pending + last)) == q.written + (hand + pending) + last;
  }

  lemma {:induction false} EnqueueKeepsRouted(files: Table, templates: Table, q: Shard, pushed: seq<Update>, u: Update,
                                              d: Datum, k: nat, shards: nat)
    requires shards > 0 && ShardFifo(files, templates, q, Routed(pushed, k, shards))
    requires InRange(files, templates, d) && Decode(files, templates, d) == u
    ensures ShardFifo(files, templates, if ShardOf(u.file, shards) == k then q.(queue := q.queue + [d]) else q,
                      Routed(pushed + [u], k, shards))
  {
    RoutedAppend(pushed, u, k, shards);
    if ShardOf(u.file, shards) == k { EnqueueKeepsFifo(files, templates, q, d, Routed(pushed, k, shards)); }
  }

  lemma {:induction false} EnqueueKeepsShard(s: State, p: nat, k: nat)
    requires DataInv(s) && PusherCanStep(s, p) && s.pushers[p].HasShard? && k < |s.shards|
    ensures var t := PusherNext(s, p); ShardFifo(s.files, s.templates, t.shards[k], Routed(t.pushed, k, |s.shards|))
  {
    var t := PusherNext(s, p);
    var x := s.pushers[p];
    assert DatumInv(s.files, s.templates, x, |s.shards|);
    assert ShardFifo(s.files, s.templates, s.shards[k], Routed(s.pushed, k, |s.shards|));
    EnqueueKeepsRouted(s.files, s.templates, s.shards[k], s.pushed, x.u, x.d, k, |s.shards|);
    assert t.pushed == s.pushed + [x.u];
    assert t.shards[k] == if k == x.shard then s.shards[k].(queue := s.shards[k].queue + [x.d]) else s.shards[k];
  }

  lemma {:induction false} EnqueueKeepsData(s: State, p: nat)
    requires DataInv(s) && PusherCanStep(s, p) && s.pushers[p].HasShard?
    ensures DataInv(PusherNext(s, p))
  {
    var t := PusherNext(s, p);
    forall i | 0 <= i < |t.pushers| ensures DatumInv(t.files, t.templates, t.pushers[i], |t.shards|) {
      assert DatumInv(s.files, s.templates, s.pushers[i], |s.shards|);
    }
    forall k: nat | k < |t.shards|
      ensures ShardFifo(t.files, t.templates, t.shards[k], Routed(t.pushed, k, |t.shards|))
    {
      EnqueueKeepsShard(s, p, k);
    }
  }

  lemma {:induction false} PusherKeepsData(s: State, p: nat)
    requires DataInv(s) && PusherCanStep(s, p)
    ensures DataInv(PusherNext(s, p))
  {
    if s.pushers[p].HasGlobal? {
      InternKeepsData(s, p);
    } else if s.pushers[p].HasShard? {
      EnqueueKeepsData(s, p);
    }
  }

  lemma {:induction false} PusherKeepsPusher(s: State, p: nat, i: nat)
    requires PusherCanStep(s, p) && i < |s.pushers| && PusherLocks(s, p) && PusherLocks(s, i)
    ensures PusherLocks(PusherNext(s, p), i)
  {
  }

  lemma {:induction false} PusherKeepsShard(s: State, p: nat, k: nat)
    requires PusherCanStep(s, p) && k < |s.shards| && PusherLocks(s, p) && ShardLocks(s, k)
    ensures ShardLocks(PusherNext(s, p), k)
  {
  }

  lemma {:induction false} PusherKeepsLocks(s: State, p: nat)
    requires LockInv(s) && PusherCanStep(s, p)
    ensures LockInv(PusherNext(s, p))
  {
    var t := PusherNext(s, p);
    assert PusherLocks(s, p);
    forall i: nat | i < |t.pushers| ensures PusherLocks(t, i) {
      PusherKeepsPusher(s, p, i);
    }
    forall k: nat | k < |t.shards| ensures ShardLocks(t, k) {
      PusherKeepsShard(s, p, k);
    }
  }

  lemma {:induction false} PusherKeepsTokens(s: State, p: nat)
    requires LockInv(s) && TokensInv(s) && PusherCanStep(s, p)
    ensures TokensInv(PusherNext(s, p))
  {
    var t := PusherNext(s, p);
    assert PusherLocks(s, p);
    forall k: nat | k < |t.shards| ensures TokenInv(t, k) {
      assert TokenInv(s, k) && ShardLocks(s, k);
    }
  }

  // ----- the remaining actions

  lemma {:induction false} StatusKeepsLocks(s: State)
    requires LockInv(s) && StatusCanStep(s)
    ensures LockInv(StatusNext(s))
  {
    var t := StatusNext(s);
    if s.status.InQueue? { assert ShardLocks(s, s.status.i); }
    forall i: nat | i < |t.pushers| ensures PusherLocks(t, i) {
      assert PusherLocks(s, i);
    }
    forall k: nat | k < |t.shards| ensures ShardLocks(t, k) {
      assert ShardLocks(s, k);
    }
  }

  lemma {:induction false} StatusKeepsTokens(s: State)
    requires LockInv(s) && TokensInv(s) && StatusCanStep(s)
    ensures TokensInv(StatusNext(s))
  {
    var t := StatusNext(s);
    forall k: nat | k < |t.shards| ensures TokenInv(t, k) {
      assert TokenInv(s, k) && ShardLocks(s, k);
    }
  }

  lemma {:induction false} StatusKeepsData(s: State)
    requires DataInv(s) && StatusCanStep(s)
    ensures DataInv(StatusNext(s))
  {
    var t := StatusNext(s);
    assert t.pushers == s.pushers && t.pushed == s.pushed && |t.shards| == |s.shards|;
    forall k: nat | k < |t.shards|
      ensures ShardFifo(t.files, t.templates, t.shards[k], Routed(t.pushed, k, |t.shards|))
    {
      assert ShardFifo(s.files, s.templates, s.shards[k], Routed(s.pushed, k, |s.shards|));
    }
  }

  lemma {:induction false} CallOrWaitKeepsInv(s: State, a: Action)
    requires Inv(s) && Enabled(s, a) && (a.Call? || a.WaitFails?)
    ensures Inv(Next(s, a))
  {
    var t := Next(s, a);
    forall i: nat | i < |t.pushers| ensures PusherLocks(t, i) {
      assert PusherLocks(s, i);
    }
    forall k: nat | k < |t.shards| ensures ShardLocks(t, k) && TokenInv(t, k) {
      assert ShardLocks(s, k) && TokenInv(s, k);
    }
  }

  lemma {:induction false} StepKeepsInv(s: State, a: Action)
    requires Inv(s) && Enabled(s, a)
    ensures Inv(Next(s, a))
  {
    match a
    case PusherStep(p) =>
      PusherKeepsData(s, p);
      PusherKeepsLocks(s, p);
      PusherKeepsTokens(s, p);
    case ConsumerStep(k, errno) =>
      ConsumerKeepsData(s, k, errno);
      ConsumerKeepsLocks(s, k, errno);
      ConsumerKeepsTokens(s, k, errno);
    case StatusStep =>
      StatusKeepsData(s);
      StatusKeepsLocks(s);
      StatusKeepsTokens(s);
    case _ => CallOrWaitKeepsInv(s, a);
  }

  lemma {:induction false} RunKeepsInv(s: State, schedule: seq<Action>)
    requires Inv(s) && Runs(s, schedule)
    ensures Inv(After(s, schedule))
    decreases |schedule|
  {
    if schedule != [] {
      StepKeepsInv(s, schedule[0]);
      RunKeepsInv(Next(s, schedule[0]), schedule[1..]);
    }
  }

  lemma {:induction false} ReachableInv(s: State)
    requires Reachable(s)
    ensures Inv(s)
  {
    var configured: int, callers: nat, schedule :|
      Runs(Init(configured, callers), schedule) && After(Init(configured, callers), schedule) == s;
    InitInv(configured, callers);
    RunKeepsInv(Init(configured, callers), schedule);
  }
}
