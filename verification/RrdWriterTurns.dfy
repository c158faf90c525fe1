/** What the writer gets done: every call enters its queue once, by hash, and every token is one write. */
module RrdWriterTurns {
  import opened Machine
  import opened RrdWriter
  import opened RrdWriterInvariant
  import opened RrdWriterTheorems
  import Fnv

  // ----- every call enters a queue

  function CalledBy(turns: seq<Turn>, p: nat): seq<Update> {
    if turns == [] then []
    else
      var last := turns[|turns| - 1];
      CalledBy(turns[..|turns| - 1], p) + (if last.Called? && last.p == p then [last.u] else [])
  }

  function EnteredBy(turns: seq<Turn>, p: nat): seq<Update> {
    if turns == [] then []
    else
      var last := turns[|turns| - 1];
      EnteredBy(turns[..|turns| - 1], p) + (if last.Entered? && last.p == p then [last.u] else [])
  }

  /** All updates that entered, whoever pushed them. */
  function AllEntered(turns: seq<Turn>): seq<Update> {
    if turns == [] then []
    else
      var last := turns[|turns| - 1];
      AllEntered(turns[..|turns| - 1]) + (if last.Entered? then [last.u] else [])
  }

  /** The update of the call under way, until it has entered. */
  function OnTheWay(x: Pusher): seq<Update> {
    match x
    case WantGlobal(u) => [u]
    case HasGlobal(u) => [u]
    case WantShard(u, _, _) => [u]
    case HasShard(u, _, _) => [u]
    case _ => []
  }

  ghost predicate TurnInv(turns: seq<Turn>, p: nat, x: Pusher) {
    CalledBy(turns, p) == EnteredBy(turns, p) + OnTheWay(x)
  }

  ghost predicate TurnsInv(s: State) {
    && AllEntered(s.turns) == s.pushed
    && forall p: nat {:trigger TurnInv(s.turns, p, s.pushers[p])} :: p < |s.pushers| ==>
        TurnInv(s.turns, p, s.pushers[p])
  }

  lemma {:induction false} TurnsAppend(turns: seq<Turn>, e: Turn, p: nat)
    ensures CalledBy(turns + [e], p) == CalledBy(turns, p) + (if e.Called? && e.p == p then [e.u] else [])
    ensures EnteredBy(turns + [e], p) == EnteredBy(turns, p) + (if e.Entered? && e.p == p then [e.u] else [])
    ensures AllEntered(turns + [e]) == AllEntered(turns) + (if e.Entered? then [e.u] else [])
  {
    assert (turns + [e])[..|turns|] == turns;
  }

  lemma {:induction false} CallKeepsTurns(s: State, p: nat, u: Update)
    requires Enabled(s, Call(p, u)) && TurnsInv(s)
    ensures TurnsInv(Next(s, Call(p, u)))
  {
    var t := Next(s, Call(p, u));
    TurnsAppend(s.turns, Called(p, u), p);
    forall i: nat | i < |t.pushers| ensures TurnInv(t.turns, i, t.pushers[i]) {
      assert TurnInv(s.turns, i, s.pushers[i]);
      TurnsAppend(s.turns, Called(p, u), i);
    }
  }

  lemma {:induction false} EnterKeepsTurns(s: State, p: nat)
    requires PusherCanStep(s, p) && s.pushers[p].HasShard? && TurnsInv(s)
    ensures TurnsInv(PusherNext(s, p))
  {
    var t := PusherNext(s, p);
    var u := s.pushers[p].u;
    TurnsAppend(s.turns, Entered(p, u), p);
    forall i: nat | i < |t.pushers| ensures TurnInv(t.turns, i, t.pushers[i]) {
      assert TurnInv(s.turns, i, s.pushers[i]);
      TurnsAppend(s.turns, Entered(p, u), i);
    }
  }

  lemma {:induction false} PusherKeepsTurns(s: State, p: nat)
    requires PusherCanStep(s, p) && !s.pushers[p].HasShard? && TurnsInv(s)
    ensures TurnsInv(PusherNext(s, p))
  {
    var t := PusherNext(s, p);
    assert t.turns == s.turns && t.pushed == s.pushed;
    assert OnTheWay(t.pushers[p]) == OnTheWay(s.pushers[p]);
    forall i: nat | i < |t.pushers| ensures TurnInv(t.turns, i, t.pushers[i]) {
      assert TurnInv(s.turns, i, s.pushers[i]);
    }
  }

  lemma {:induction false} StepKeepsTurns(s: State, a: Action)
    requires Enabled(s, a) && TurnsInv(s)
    ensures TurnsInv(Next(s, a))
  {
    match a
    case Call(p, u) => CallKeepsTurns(s, p, u);
    case PusherStep(p) => if s.pushers[p].HasShard? { EnterKeepsTurns(s, p); } else { PusherKeepsTurns(s, p); }
    case _ =>
      var t := Next(s, a);
      assert t.turns == s.turns && t.pushed == s.pushed && t.pushers == s.pushers;
  }

  lemma {:induction false} RunKeepsTurns(s: State, schedule: seq<Action>)
    requires TurnsInv(s) && Runs(s, schedule)
    ensures TurnsInv(After(s, schedule))
    decreases |schedule|
  {
    if schedule != [] {
      StepKeepsTurns(s, schedule[0]);
      RunKeepsTurns(Next(s, schedule[0]), schedule[1..]);
    }
  }

  /**
   No call is lost or doubled: in every reachable state a caller's updates have entered the
   queues in the order of its calls, all but the one it is working on, and nothing else entered.
   */
  lemma {:induction false} CallsEnter(s: State, p: nat)
    requires Reachable(s) && p < |s.pushers|
    ensures CalledBy(s.turns, p) == EnteredBy(s.turns, p) + OnTheWay(s.pushers[p])
    ensures s.pushers[p] == Idle ==> EnteredBy(s.turns, p) == CalledBy(s.turns, p)
    ensures AllEntered(s.turns) == s.pushed
  {
    var configured: int, callers: nat, schedule :|
      Runs(Init(configured, callers), schedule) && After(Init(configured, callers), schedule) == s;
    RunKeepsTurns(Init(configured, callers), schedule);
    assert TurnInv(s.turns, p, s.pushers[p]);
  }

  // ----- by hash

  /** The hash as the code runs it, over the name in memory, and the queue it leads to. */
  method QueueOf(file: Text, shards: nat) returns (k: nat)
    requires shards > 0 && 0 !in file
    ensures k == ShardOf(file, shards) && k < shards
  {
    Fnv.StringAgreesWithBuffer(file, [], HASH_SEED);
    assert file + [0] + [] == file + [0];
    var hash := Fnv.FnvStr(file + [0], HASH_SEED);
    k := hash % shards;
  }

  /** A call is routed by FNV-1 of its file name from the state 2, modulo the number of queues. */
  lemma {:induction false} RoutedByHash(s: State, p: nat)
    requires PusherCanStep(s, p) && s.pushers[p].HasGlobal?
    ensures var x := PusherNext(s, p).pushers[p];
      x.WantShard? && x.u == s.pushers[p].u && x.shard == Fnv.Fnv1(2, x.u.file) % |s.shards|
  {
  }

  /** Names that differ in the lowest bit of their last octet never share a queue if there is a choice. */
  lemma {:induction false} NeighboursSplit(stem: Text, octet: Fnv.Octet, shards: nat)
    requires shards > 1 && octet % 2 == 0 && octet + 1 < 0x100
    ensures ShardOf(stem + [octet], shards) != ShardOf(stem + [octet + 1], shards)
  {
    var h := Fnv.Times(Fnv.Fnv1(HASH_SEED, stem), Fnv.FNV_32_PRIME);
    LastOctet(stem, octet);
    LastOctet(stem, octet + 1);
    NeighbouringXor(h, octet);
    var a, b := Fnv.Xor32(h, octet), Fnv.Xor32(h, octet + 1);
    if a < b { Successors(a, shards); } else { Successors(b, shards); }
  }

  lemma {:induction false} LastOctet(stem: Text, octet: Fnv.Octet)
    ensures Fnv.Fnv1(HASH_SEED, stem + [octet])
         == Fnv.Xor32(Fnv.Times(Fnv.Fnv1(HASH_SEED, stem), Fnv.FNV_32_PRIME), octet)
  {
    assert (stem + [octet])[..|stem|] == stem;
  }

  lemma {:induction false} NeighbouringXor(h: Fnv.Word, octet: Fnv.Octet)
    requires octet % 2 == 0 && octet + 1 < 0x100
    ensures var a, b := Fnv.Xor32(h, octet), Fnv.Xor32(h, octet + 1); a == b + 1 || b == a + 1
  {
    var high := Fnv.Xor(h / 2, octet / 2, 31);
    assert Fnv.Xor(h, octet, 32) == 2 * high + (h + octet) % 2;
    assert (octet + 1) / 2 == octet / 2;
    assert Fnv.Xor(h, octet + 1, 32) == 2 * high + (h + octet + 1) % 2;
  }

  lemma {:induction false} Remainder(x: int, m: int, q: int, r: int)
    requires x == m * q + r && 0 <= r < m
    ensures x % m == r
  {
    var d := x / m - q;
    assert m * d == r - x % m;
    assert d > 0 ==> m * d >= m;
    assert d < 0 ==> m * d <= -m;
  }

  lemma {:induction false} Successors(a: nat, m: nat)
    requires m > 1
    ensures a % m != (a + 1) % m
  {
    var q, r := a / m, a % m;
    if r + 1 < m { Remainder(a + 1, m, q, r + 1); } else { Remainder(a + 1, m, q + 1, 0); }
  }

  // ----- a thread on its own

  lemma {:induction false} RunCons(s: State, a: Action, rest: seq<Action>) returns (schedule: seq<Action>)
    requires Enabled(s, a) && Runs(Next(s, a), rest)
    ensures schedule == [a] + rest && Runs(s, schedule) && After(s, schedule) == After(Next(s, a), rest)
  {
    schedule := [a] + rest;
    assert schedule[1..] == rest;
  }

  /** The updated queue when a datum has been pushed and posted. */
  function WithDatum(q: Shard, d: Datum): Shard { q.(queue := q.queue + [d], tokens := q.tokens + 1) }

  /** From its queue on, a call that finds the lock free pushes, posts and releases both locks. */
  lemma {:induction false} PusherEnqueues(s: State, p: nat) returns (schedule: seq<Action>)
    requires p < |s.pushers| && s.pushers[p].WantShard? && s.pushers[p].shard < |s.shards|
    requires s.shards[s.pushers[p].shard].lock == Nobody
    ensures Runs(s, schedule)
    ensures var x := s.pushers[p];
      After(s, schedule) ==
        s.(shards := s.shards[x.shard := WithDatum(s.shards[x.shard], x.d)], pushers := s.pushers[p := Idle],
           global := Nobody, pushed := s.pushed + [x.u], turns := s.turns + [Entered(p, x.u)])
  {
    var a := PusherStep(p);
    var x := s.pushers[p];
    var s1 := PusherNext(s, p);
    var s2 := PusherNext(s1, p);
    var s3 := PusherNext(s2, p);
    var s4 := PusherNext(s3, p);
    var s5 := PusherNext(s4, p);
    assert s5.shards == s.shards[x.shard := WithDatum(s.shards[x.shard], x.d)];
    assert s5.pushers == s.pushers[p := Idle];
    schedule := RunCons(s4, a, []);
    schedule := RunCons(s3, a, schedule);
    schedule := RunCons(s2, a, schedule);
    schedule := RunCons(s1, a, schedule);
    schedule := RunCons(s, a, schedule);
  }

  /**
   One call on its own: names interned, one datum at the end of the queue the hash selects,
   one token for it, and everything released.
   */
  lemma {:induction false} PusherTurn(s: State, p: nat, u: Update) returns (schedule: seq<Action>)
    requires p < |s.pushers| && s.pushers[p] == Idle && s.global == Nobody && |s.shards| > 0
    requires forall k :: 0 <= k < |s.shards| ==> s.shards[k].lock == Nobody
    ensures Runs(s, schedule)
    ensures var files, templates := Intern(s.files, u.file), Intern(s.templates, u.template);
      && u.file in files.ids && u.template in templates.ids
      && var k := ShardOf(u.file, |s.shards|);
         var d := Datum(files.ids[u.file], templates.ids[u.template], u.payload);
         After(s, schedule) ==
           s.(files := files, templates := templates, shards := s.shards[k := WithDatum(s.shards[k], d)],
              pushed := s.pushed + [u], turns := s.turns + [Called(p, u), Entered(p, u)])
  {
    var s1 := Next(s, Call(p, u));
    var s2 := PusherNext(s1, p);
    var s3 := PusherNext(s2, p);
    schedule := PusherEnqueues(s3, p);
    assert s.turns + [Called(p, u)] + [Entered(p, u)] == s.turns + [Called(p, u), Entered(p, u)];
    assert s3.pushers[p := Idle] == s.pushers;
    schedule := RunCons(s2, PusherStep(p), schedule);
    schedule := RunCons(s1, PusherStep(p), schedule);
    schedule := RunCons(s, Call(p, u), schedule);
  }

  /** From the datum it popped on, a consumer reads it back and writes it out. */
  lemma {:induction false} ConsumerWrites(s: State, k: nat, errno: Errno) returns (schedule: seq<Action>)
    requires k < |s.shards| && s.shards[k].consumer.Popped? && s.global == Nobody
    requires InRange(s.files, s.templates, s.shards[k].consumer.d)
    ensures Runs(s, schedule)
    ensures var q := s.shards[k];
      After(s, schedule) == SetShard(s, k,
        q.(lock := Nobody, consumer := AtWait, errno := errno,
           written := q.written + [Decode(s.files, s.templates, q.consumer.d)]))
  {
    var a := ConsumerStep(k, errno);
    var s1 := ConsumerNext(s, k, errno);
    var s2 := ConsumerNext(s1, k, errno);
    var s3 := ConsumerNext(s2, k, errno);
    var s4 := ConsumerNext(s3, k, errno);
    var s5 := ConsumerNext(s4, k, errno);
    var q := s.shards[k];
    assert s5.shards == s.shards[k := q.(lock := Nobody, consumer := AtWait, errno := errno,
                                         written := q.written + [Decode(s.files, s.templates, q.consumer.d)])];
    schedule := RunCons(s4, a, []);
    schedule := RunCons(s3, a, schedule);
    schedule := RunCons(s2, a, schedule);
    schedule := RunCons(s1, a, schedule);
    schedule := RunCons(s, a, schedule);
  }

  /** One turn of a consumer on its own: one token and the head of its queue become one write. */
  lemma {:induction false} ConsumerTurn(s: State, k: nat, errno: Errno) returns (schedule: seq<Action>)
    requires k < |s.shards| && s.global == Nobody
    requires var q := s.shards[k];
      && q.consumer == AtWait && q.errno != Interrupted && q.lock == Nobody && q.tokens > 0
      && q.queue != [] && InRange(s.files, s.templates, q.queue[0])
    ensures Runs(s, schedule)
    ensures var q := s.shards[k];
      After(s, schedule) == SetShard(s, k,
        q.(queue := q.queue[1..], tokens := q.tokens - 1, errno := errno,
           written := q.written + [Decode(s.files, s.templates, q.queue[0])]))
  {
    var a := ConsumerStep(k, errno);
    var s1 := ConsumerNext(s, k, errno);
    var s2 := ConsumerNext(s1, k, errno);
    var s3 := ConsumerNext(s2, k, errno);
    schedule := ConsumerWrites(s3, k, errno);
    assert After(s3, schedule).shards == After(s3, schedule).shards[k := After(s3, schedule).shards[k]];
    schedule := RunCons(s2, a, schedule);
    schedule := RunCons(s1, a, schedule);
    schedule := RunCons(s, a, schedule);
  }

  /** The status thread on its own locks and releases every queue from `i` on, and sleeps again. */
  lemma {:induction false} StatusRest(s: State, i: nat) returns (schedule: seq<Action>)
    requires s.status == AtQueue(i) && i <= |s.shards|
    requires forall k :: i <= k < |s.shards| ==> s.shards[k].lock == Nobody
    ensures |schedule| == 2 * (|s.shards| - i) + 1 && Runs(s, schedule)
    ensures After(s, schedule) == s.(status := Asleep)
    decreases |s.shards| - i
  {
    if i < |s.shards| {
      var t := StatusNext(s);
      assert t == SetShard(s, i, s.shards[i].(lock := ByStatus)).(status := InQueue(i));
      var u := StatusNext(t);
      assert u.shards == s.shards;
      schedule := StatusRest(u, i + 1);
      schedule := RunCons(t, StatusStep, schedule);
    } else {
      schedule := [];
    }
    schedule := RunCons(s, StatusStep, schedule);
  }
}
