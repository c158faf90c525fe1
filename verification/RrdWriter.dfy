/**
 The sharded RRD writer: callers of `push_data` intern file and template names, route
 each datum by the hash of its file name to one of a fixed number of queues, and one
 consumer per queue writes the datums out. Callers, consumers and the status thread
 interleave step by step.
 */
module RrdWriter {
  import Fnv

  /** File and template names are C strings. */
  type Text = seq<Fnv.Octet>

  /** What travels unchanged from caller to file: the timestamp and the parsed values. */
  datatype Payload = Payload(time: real, ds: seq<real>)

  /** One call of `push_data`, in the caller's terms. */
  datatype Update = Update(file: Text, template: Text, payload: Payload)

  /** The same in the writer's terms. */
  datatype Datum = Datum(fileId: nat, templateId: nat, payload: Payload)

  // ----- interning

  datatype Table = Table(ids: map<Text, nat>, names: seq<Text>)

  const EMPTY_TABLE := Table(map[], [])

  /** Ids are dense, and each stands for one name. */
  ghost predicate ValidTable(t: Table) {
    && (forall name :: name in t.ids ==> t.ids[name] < |t.names| && t.names[t.ids[name]] == name)
    && (forall i :: 0 <= i < |t.names| ==> t.names[i] in t.ids && t.ids[t.names[i]] == i)
  }

  function Intern(t: Table, name: Text): Table {
    if name in t.ids then t else Table(t.ids[name := |t.names|], t.names + [name])
  }

  /** Interning keeps every id it ever gave out and gives the new name one that reads back as the name. */
  lemma {:induction false} InternExtends(t: Table, name: Text)
    requires ValidTable(t)
    ensures var u := Intern(t, name);
      && ValidTable(u) && t.names <= u.names
      && name in u.ids && u.ids[name] < |u.names| && u.names[u.ids[name]] == name
  {
  }

  ghost predicate InRange(files: Table, templates: Table, d: Datum) {
    d.fileId < |files.names| && d.templateId < |templates.names|
  }

  ghost function Decode(files: Table, templates: Table, d: Datum): Update
    requires InRange(files, templates, d)
  {
    Update(files.names[d.fileId], templates.names[d.templateId], d.payload)
  }

  // ----- routing

  /** The seed `push_data` passes: the enumeration constant FNV1_32, not the FNV-1 offset basis. */
  const HASH_SEED: Fnv.Word := 2

  function ShardOf(file: Text, shards: nat): nat
    requires shards > 0
  {
    Fnv.Fnv1(HASH_SEED, file) % shards
  }

  // ----- the threads

  datatype Owner = Nobody | ByPusher(p: nat) | ByConsumer(c: nat) | ByStatus

  datatype Pusher =
    | Idle
    | WantGlobal(u: Update)
    | HasGlobal(u: Update)
    | WantShard(u: Update, d: Datum, shard: nat)
    | HasShard(u: Update, d: Datum, shard: nat)
    | Enqueued(shard: nat)
    | PostDone(shard: nat)
    | ShardReleased

  datatype Consumer =
    | AtWait
    | AtShard
    | InShard
    | Popped(d: Datum)
    | AtGlobal(d: Datum)
    | InGlobal(d: Datum)
    | Decoded(u: Update)
    | Writing(u: Update)

  datatype Errno = Clear | Interrupted | TimedOut

  /** `written` lists the updates handed to `rrd_update_r`; `swallowed` counts tokens taken for nothing. */
  datatype Shard = Shard(
    queue: seq<Datum>,
    tokens: nat,
    lock: Owner,
    consumer: Consumer,
    errno: Errno,
    written: seq<Update>,
    swallowed: nat)

  datatype Status = Asleep | AtQueue(i: nat) | InQueue(i: nat)

  /** A call of `push_data` by one of the callers, and its entering a queue. */
  datatype Turn = Called(p: nat, u: Update) | Entered(p: nat, u: Update)

  /** `pushed` lists the updates in the order in which they entered the queues, `turns` what every caller did. */
  datatype State = State(
    files: Table,
    templates: Table,
    global: Owner,
    shards: seq<Shard>,
    pushers: seq<Pusher>,
    status: Status,
    pushed: seq<Update>,
    turns: seq<Turn>,
    fault: bool)

  /** The configured number of writers, or 400 when it is out of range. */
  function NumShards(configured: int): (n: nat)
    ensures 1 <= n <= 400
    ensures 1 <= configured <= 400 ==> n == configured
    ensures configured < 1 || configured > 400 ==> n == 400
  {
    if configured <= 0 || configured > 400 then 400 else configured
  }

  function Init(configured: int, callers: nat): State {
    State(EMPTY_TABLE, EMPTY_TABLE, Nobody,
          seq(NumShards(configured), _ => Shard([], 0, Nobody, AtWait, Clear, [], 0)),
          seq(callers, _ => Idle), Asleep, [], [], false)
  }

  datatype Action =
    | Call(p: nat, u: Update)
    | PusherStep(p: nat)
    | ConsumerStep(c: nat, errno: Errno)
    | WaitFails(c: nat, why: Errno)
    | StatusStep

  function SetPusher(s: State, p: nat, x: Pusher): State
    requires p < |s.pushers|
  {
    s.(pushers := s.pushers[p := x])
  }

  function SetShard(s: State, k: nat, x: Shard): State
    requires k < |s.shards|
  {
    s.(shards := s.shards[k := x])
  }

  predicate PusherCanStep(s: State, p: nat) {
    && p < |s.pushers|
    && match s.pushers[p]
       case Idle => false
       case WantGlobal(_) => s.global == Nobody
       case HasGlobal(_) => |s.shards| > 0
       case WantShard(_, _, k) => k < |s.shards| && s.shards[k].lock == Nobody
       case HasShard(_, _, k) => k < |s.shards|
       case Enqueued(k) => k < |s.shards|
       case PostDone(k) => k < |s.shards|
       case ShardReleased => true
  }

  function PusherNext(s: State, p: nat): State
    requires PusherCanStep(s, p)
  {
    match s.pushers[p]
    case WantGlobal(u) => SetPusher(s, p, HasGlobal(u)).(global := ByPusher(p))
    case HasGlobal(u) =>
      var files := Intern(s.files, u.file);
      var templates := Intern(s.templates, u.template);
      var d := Datum(files.ids[u.file], templates.ids[u.template], u.payload);
      SetPusher(s, p, WantShard(u, d, ShardOf(u.file, |s.shards|))).(files := files, templates := templates)
    case WantShard(u, d, k) =>
      SetShard(SetPusher(s, p, HasShard(u, d, k)), k, s.shards[k].(lock := ByPusher(p)))
    case HasShard(u, d, k) =>
      SetShard(SetPusher(s, p, Enqueued(k)), k, s.shards[k].(queue := s.shards[k].queue + [d]))
        .(pushed := s.pushed + [u], turns := s.turns + [Entered(p, u)])
    case Enqueued(k) =>
      SetShard(SetPusher(s, p, PostDone(k)), k, s.shards[k].(tokens := s.shards[k].tokens + 1))
    case PostDone(k) =>
      SetShard(SetPusher(s, p, ShardReleased), k, s.shards[k].(lock := Nobody))
    case ShardReleased => SetPusher(s, p, Idle).(global := Nobody)
  }

  predicate ConsumerCanStep(s: State, k: nat) {
    && k < |s.shards|
    && match s.shards[k].consumer
       case AtWait => s.shards[k].tokens > 0
       case AtShard => s.shards[k].lock == Nobody
       case AtGlobal(_) => s.global == Nobody
       case InGlobal(d) => d.fileId < |s.files.names| && d.templateId < |s.templates.names|
       case _ => true
  }

  /**
   A successful wait leaves `errno` alone, and the code tests `errno` without looking at the
   result first: after an interrupted wait the next token is taken and the wait repeated.
   The write may leave anything in `errno`.
   */
  function ConsumerNext(s: State, k: nat, errno: Errno): State
    requires ConsumerCanStep(s, k)
  {
    var q := s.shards[k];
    match q.consumer
    case AtWait =>
      if q.errno == Interrupted then
        SetShard(s, k, q.(tokens := q.tokens - 1, swallowed := q.swallowed + 1))
      else
        SetShard(s, k, q.(tokens := q.tokens - 1, consumer := AtShard))
    case AtShard => SetShard(s, k, q.(lock := ByConsumer(k), consumer := InShard))
    case InShard =>
      if q.queue == [] then s.(fault := true)
      else SetShard(s, k, q.(queue := q.queue[1..], consumer := Popped(q.queue[0])))
    case Popped(d) => SetShard(s, k, q.(lock := Nobody, consumer := AtGlobal(d)))
    case AtGlobal(d) => SetShard(s, k, q.(consumer := InGlobal(d))).(global := ByConsumer(k))
    case InGlobal(d) =>
      var u := Update(s.files.names[d.fileId], s.templates.names[d.templateId], d.payload);
      SetShard(s, k, q.(consumer := Decoded(u)))
    case Decoded(u) => SetShard(s, k, q.(consumer := Writing(u))).(global := Nobody)
    case Writing(u) => SetShard(s, k, q.(written := q.written + [u], consumer := AtWait, errno := errno))
  }

  predicate StatusCanStep(s: State) {
    match s.status
    case Asleep => true
    case AtQueue(i) => i >= |s.shards| || s.shards[i].lock == Nobody
    case InQueue(i) => i < |s.shards|
  }

  function StatusNext(s: State): State
    requires StatusCanStep(s)
  {
    match s.status
    case Asleep => s.(status := AtQueue(0))
    case AtQueue(i) =>
      if i >= |s.shards| then s.(status := Asleep)
      else SetShard(s, i, s.shards[i].(lock := ByStatus)).(status := InQueue(i))
    case InQueue(i) => SetShard(s, i, s.shards[i].(lock := Nobody)).(status := AtQueue(i + 1))
  }

  predicate Enabled(s: State, a: Action) {
    match a
    case Call(p, _) => p < |s.pushers| && s.pushers[p] == Idle
    case PusherStep(p) => PusherCanStep(s, p)
    case ConsumerStep(k, _) => ConsumerCanStep(s, k)
    case WaitFails(k, why) => k < |s.shards| && s.shards[k].consumer == AtWait && why != Clear
    case StatusStep => StatusCanStep(s)
  }

  function Next(s: State, a: Action): State
    requires Enabled(s, a)
  {
    match a
    case Call(p, u) => SetPusher(s, p, WantGlobal(u)).(turns := s.turns + [Called(p, u)])
    case PusherStep(p) => PusherNext(s, p)
    case ConsumerStep(k, errno) => ConsumerNext(s, k, errno)
    case WaitFails(k, why) => SetShard(s, k, s.shards[k].(errno := why))
    case StatusStep => StatusNext(s)
  }

  predicate Runs(s: State, schedule: seq<Action>)
    decreases |schedule|
  {
    schedule == [] || (Enabled(s, schedule[0]) && Runs(Next(s, schedule[0]), schedule[1..]))
  }

  function After(s: State, schedule: seq<Action>): State
    requires Runs(s, schedule)
    decreases |schedule|
  {
    if schedule == [] then s else After(Next(s, schedule[0]), schedule[1..])
  }

  ghost predicate Reachable(s: State) {
    exists configured: int, callers: nat, schedule ::
      Runs(Init(configured, callers), schedule) && After(Init(configured, callers), schedule) == s
  }
}
