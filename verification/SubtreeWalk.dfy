/**
 Loading the mapping tables of a host by GETBULK walks: the manager's side of section 4.2.3
 of RFC 3416, against an agent that may truncate its answers as it likes and may stop
 answering at any time.
 */
module SubtreeWalk {
  import opened Options
  import opened OidOrder

  const MAX_REPETITIONS: nat := 15

  datatype Binding = Value(instance: Instance) | Exception(name: Oid)

  /** No answer stands for a timeout, a transport error or an error status in the response. */
  datatype Reply = NoAnswer | Answer(bindings: seq<Binding>)

  /** What a host answers to the n-th request of a walk, for a given name. */
  type Agent = (nat, Oid) -> Reply

  /**
   An agent over the fixed ordered instances `mib` answers a GETBULK for `name` with a
   nonempty run of the successors of `name`, cut off anywhere; where the instances end it
   reports exceptions, under any name.
   */
  ghost predicate Conforms(mib: seq<Instance>, name: Oid, reply: Reply) {
    reply.Answer? ==>
      var bs := reply.bindings;
      && 1 <= |bs| <= MAX_REPETITIONS
      && forall i :: 0 <= i < |bs| ==>
           var k := Beyond(mib, name) + i;
           if k < |mib| then bs[i] == Value(mib[k]) else bs[i].Exception?
  }

  ghost predicate Conforming(mib: seq<Instance>, agent: Agent) {
    forall n, name {:trigger Conforms(mib, name, agent(n, name))} :: Conforms(mib, name, agent(n, name))
  }

  // ----- one response

  predicate InSubtree(root: Oid, b: Binding) {
    match b
    case Value(instance) => root <= instance.oid
    case Exception(name) => root <= name
  }

  predicate Accepted(root: Oid, b: Binding) { b.Value? && InSubtree(root, b) }

  predicate AllAccepted(root: Oid, bs: seq<Binding>) {
    forall i :: 0 <= i < |bs| ==> Accepted(root, bs[i])
  }

  function AcceptedOf(root: Oid, bs: seq<Binding>): seq<Instance> {
    if bs == [] then []
    else
      var last := bs[|bs| - 1];
      AcceptedOf(root, bs[..|bs| - 1]) + (if Accepted(root, last) then [last.instance] else [])
  }

  lemma {:induction false} AcceptedNext(root: Oid, bs: seq<Binding>, i: nat, before: seq<Instance>)
    requires i < |bs|
    ensures AllAccepted(root, bs[..i + 1]) <==> AllAccepted(root, bs[..i]) && Accepted(root, bs[i])
    ensures before + AcceptedOf(root, bs[..i + 1])
         == before + AcceptedOf(root, bs[..i]) + (if Accepted(root, bs[i]) then [bs[i].instance] else [])
  {
    assert bs[..i + 1][..i] == bs[..i] && bs[..i + 1][i] == bs[i];
    assert forall j :: 0 <= j < i ==> bs[..i + 1][j] == bs[..i][j];
  }

  /**
   The names asked for, one per request: first the root, then the last name of each answer that
   lay wholly in the subtree.
   */
  ghost predicate Requests(root: Oid, agent: Agent, asked: seq<Oid>) {
    && asked != [] && asked[0] == root
    && forall n {:trigger Continues(root, agent(n, asked[n]), asked[n + 1])} :: 0 <= n < |asked| - 1 ==>
        Continues(root, agent(n, asked[n]), asked[n + 1])
  }

  predicate Continues(root: Oid, reply: Reply, next: Oid) {
    && reply.Answer? && reply.bindings != [] && AllAccepted(root, reply.bindings)
    && next == reply.bindings[|reply.bindings| - 1].instance.oid
  }

  /** The last request got no answer, or an answer that left the subtree. */
  ghost predicate Stops(root: Oid, agent: Agent, asked: seq<Oid>)
    requires asked != []
  {
    var reply := agent(|asked| - 1, asked[|asked| - 1]);
    reply.Answer? ==> !AllAccepted(root, reply.bindings)
  }

  ghost predicate AllAnswered(agent: Agent, asked: seq<Oid>, n: nat)
    requires n <= |asked|
  {
    forall i :: 0 <= i < n ==> agent(i, asked[i]).Answer?
  }

  /** The requests up to now: `n` were made, and while the walk is running `name` is the next one. */
  ghost predicate AskedSoFar(root: Oid, agent: Agent, asked: seq<Oid>, n: nat, name: Oid, running: bool,
                             complete: bool) {
    && Requests(root, agent, asked)
    && (if running then |asked| == n + 1 && asked[n] == name else |asked| == n && Stops(root, agent, asked))
    && (!complete ==> asked[|asked| - 1] == name)
    && (complete <==> AllAnswered(agent, asked, n))
  }

  /** What one reply means for the loop. */
  ghost predicate Handled(root: Oid, name: Oid, reply: Reply, next: Oid, running: bool) {
    if running then Continues(root, reply, next)
    else if reply.Answer? then !AllAccepted(root, reply.bindings)
    else next == name
  }

  lemma {:induction false} AskedNext(root: Oid, agent: Agent, asked: seq<Oid>, n: nat, name: Oid, next: Oid,
                                     running: bool)
    returns (longer: seq<Oid>)
    requires AskedSoFar(root, agent, asked, n, name, true, true) && Handled(root, name, agent(n, name), next, running)
    ensures AskedSoFar(root, agent, longer, n + 1, next, running, agent(n, name).Answer?)
  {
    longer := if running then asked + [next] else asked;
    assert forall i :: 0 <= i <= n ==> longer[i] == asked[i];
    forall i | 0 <= i < |longer| - 1 ensures Continues(root, agent(i, longer[i]), longer[i + 1]) {
      assert i < n ==> Continues(root, agent(i, asked[i]), asked[i + 1]);
    }
  }

  // ----- the table

  /** A mapping table of one host, stored under its own OID. */
  datatype OidTable = OidTable(oid: string, suffixOf: map<string, string>, valueOf: map<string, string>)

  function EmptyTable(oid: string): OidTable { OidTable(oid, map[], map[]) }

  /** The table after the visited instances were entered in order. */
  function Filled(oid: string, visited: seq<Instance>, suffix: Oid -> string): OidTable {
    OidTable(oid, SuffixMap(visited, suffix), ValueMap(visited, suffix))
  }

  /** The suffix each value was last seen at. */
  function SuffixMap(visited: seq<Instance>, suffix: Oid -> string): map<string, string> {
    if visited == [] then map[]
    else
      var last := visited[|visited| - 1];
      SuffixMap(visited[..|visited| - 1], suffix)[last.value := suffix(last.oid)]
  }

  /** The value last seen at each suffix. */
  function ValueMap(visited: seq<Instance>, suffix: Oid -> string): map<string, string> {
    if visited == [] then map[]
    else
      var last := visited[|visited| - 1];
      ValueMap(visited[..|visited| - 1], suffix)[suffix(last.oid) := last.value]
  }

  class HostInfo {
    var oidTable: map<string, OidTable>
    var mappingDone: bool

    constructor (tables: map<string, OidTable>)
      ensures oidTable == tables && !mappingDone
    {
      oidTable, mappingDone := tables, false;
    }

    method Insert(key: string, instance: Instance, suffix: Oid -> string, ghost visited: seq<Instance>)
      requires key in oidTable && oidTable[key] == Filled(oidTable[key].oid, visited, suffix)
      modifies this`oidTable
      ensures oidTable == old(oidTable)[key := Filled(old(oidTable[key].oid), visited + [instance], suffix)]
    {
      var table := oidTable[key];
      table := table.(suffixOf := table.suffixOf[instance.value := suffix(instance.oid)]);
      table := table.(valueOf := table.valueOf[suffix(instance.oid) := instance.value]);
      oidTable := oidTable[key := table];
      assert (visited + [instance])[..|visited|] == visited;
    }

    /** One variable: entered if it is a value of the subtree, and a reason to stop otherwise. */
    method HandleVariable(key: string, root: Oid, b: Binding, suffix: Oid -> string, ghost before: seq<Instance>)
      returns (accepted: bool)
      requires key in oidTable && oidTable[key] == Filled(oidTable[key].oid, before, suffix)
      modifies this`oidTable
      ensures accepted <==> Accepted(root, b)
      ensures oidTable ==
        if accepted then old(oidTable)[key := Filled(old(oidTable[key].oid), before + [b.instance], suffix)]
        else old(oidTable)
    {
      if !InSubtree(root, b) {
        accepted := false;
      } else if b.Value? {
        Insert(key, b.instance, suffix, before);
        accepted := true;
      } else {
        accepted := false;
      }
    }

    /** The loop over the variables of one response. */
    method HandleResponse(key: string, root: Oid, bs: seq<Binding>, asked: Oid, suffix: Oid -> string,
                          ghost before: seq<Instance>)
      returns (name: Oid, running: bool)
      requires key in oidTable && oidTable[key] == Filled(oidTable[key].oid, before, suffix)
      modifies this`oidTable
      ensures oidTable == old(oidTable)[key := Filled(old(oidTable[key].oid), before + AcceptedOf(root, bs), suffix)]
      ensures running <==> AllAccepted(root, bs)
      ensures name == if bs != [] && Accepted(root, bs[|bs| - 1]) then bs[|bs| - 1].instance.oid else asked
    {
      name, running := asked, true;
      ghost var sofar := before;
      assert before == before + AcceptedOf(root, bs[..0]);
      var i := 0;
      while i < |bs|
        invariant 0 <= i <= |bs|
        invariant sofar == before + AcceptedOf(root, bs[..i])
        invariant oidTable == old(oidTable)[key := Filled(old(oidTable[key].oid), sofar, suffix)]
        invariant running <==> AllAccepted(root, bs[..i])
        invariant name == if i == |bs| && i > 0 && Accepted(root, bs[i - 1]) then bs[i - 1].instance.oid else asked
      {
        AcceptedNext(root, bs, i, before);
        var accepted := HandleVariable(key, root, bs[i], suffix, sofar);
        if accepted {
          sofar := sofar + [bs[i].instance];
          if i + 1 == |bs| { name := bs[i].instance.oid; }
        } else {
          running := false;
        }
        i := i + 1;
      }
      assert bs[..i] == bs;
    }

    /** One request: what the walk has delivered grows, and it goes on only if the whole answer lay in the subtree. */
    method Ask(key: string, root: Oid, name: Oid, reply: Reply, suffix: Oid -> string,
               ghost mib: seq<Instance>, ghost at: nat, ghost visited: seq<Instance>)
      returns (next: Oid, running: bool, ghost at': nat, ghost visited': seq<Instance>)
      requires Ordered(mib) && Conforms(mib, name, reply) && Standing(mib, root, name, at, visited, true, true)
      requires key in oidTable && oidTable[key] == Filled(oidTable[key].oid, visited, suffix)
      modifies this`oidTable
      ensures oidTable == old(oidTable)[key := Filled(old(oidTable[key].oid), visited', suffix)]
      ensures Standing(mib, root, next, at', visited', running, reply.Answer?)
      ensures Handled(root, name, reply, next, running) && at <= at' && (running ==> at < at')
    {
      at', visited' := at, visited;
      match reply
      case NoAnswer => next, running := name, false;
      case Answer(bs) =>
        at' := KeepWalking(mib, root, name, bs, at, visited);
        next, running := HandleResponse(key, root, bs, name, suffix, visited);
        visited' := visited + AcceptedOf(root, bs);
    }

    /**
     One table. What the walk enters is a prefix of the subtree: the whole subtree if every
     request it made was answered, every instance strictly under the root, once, in order, and
     nothing else, and all of it up to the name it got no answer for if one was not. It ends
     against every conforming agent.
     */
    method Walk(key: string, root: Oid, agent: Agent, suffix: Oid -> string, ghost mib: seq<Instance>)
      returns (complete: bool, ghost asked: seq<Oid>, ghost visited: seq<Instance>)
      requires Ordered(mib) && Conforming(mib, agent)
      requires key in oidTable && oidTable[key] == EmptyTable(oidTable[key].oid)
      modifies this`oidTable
      ensures oidTable == old(oidTable)[key := Filled(old(oidTable[key].oid), visited, suffix)]
      ensures Outcome(mib, root, agent, asked, visited, complete)
    {
      var name, running := root, true;
      var requests := 0;
      complete := true;
      ghost var at;
      at, visited, asked := StartWalk(mib, root, agent);
      while running
        invariant AskedSoFar(root, agent, asked, requests, name, running, complete)
        invariant Standing(mib, root, name, at, visited, running, complete)
        invariant oidTable == old(oidTable)[key := Filled(old(oidTable[key].oid), visited, suffix)]
        decreases |mib| - at, running
      {
        var reply := agent(requests, name);
        var asking := name;
        name, running, at, visited := Ask(key, root, asking, reply, suffix, mib, at, visited);
        asked := AskedNext(root, agent, asked, requests, asking, name, running);
        complete := reply.Answer?;
        requests := requests + 1;
      }
      Delivered(mib, root, agent, asked, requests, name, at, visited, complete);
    }

    /** The walk of one table, unless its OID does not parse or the session does not open. */
    method LoadOidTable(key: string, d: Device) returns (ok: bool)
      requires ValidDevice(d) && key in oidTable && oidTable[key] == EmptyTable(key)
      modifies this`oidTable
      ensures ok <==> Opens(d, key)
      ensures if ok then key in oidTable && oidTable == old(oidTable)[key := oidTable[key]]
          && TableLoaded(oidTable[key], key, d)
              else oidTable == old(oidTable)
    {
      assert oidTable[key].oid == key;
      var root := d.parse(key);
      if root.None? || !d.opens(key) {
        return false;
      }
      var complete;
      ghost var asked, visited;
      complete, asked, visited := Walk(key, root.value, d.agents(key), d.suffixes(key), d.mib);
      assert FromWalk(oidTable[key], key, visited, d);
      ok := true;
    }

    /**
     All tables of the host, in any order. An OID that does not parse or a session that does
     not open ends the load; a missing reply does not, and leaves a table that is a prefix.
     */
    method LoadOidTables(d: Device) returns (ok: bool)
      requires ValidDevice(d) && AllEmpty(oidTable)
      modifies this`oidTable
      ensures oidTable.Keys == old(oidTable.Keys)
      ensures HostLoaded(oidTable, d)
      ensures ok <==> AllOpen(oidTable, d)
      ensures ok <==> forall key :: key in oidTable ==> d.parse(key).Some? && d.opens(key)
      ensures ok ==> AllWalked(oidTable, d)
    {
      var todo := oidTable.Keys;
      while todo != {}
        invariant todo <= oidTable.Keys == old(oidTable.Keys)
        invariant forall key :: key in todo ==> oidTable[key] == EmptyTable(key)
        invariant forall key :: key in oidTable && key !in todo ==> Opens(d, key) && TableLoaded(oidTable[key], key, d)
        decreases |todo|
      {
        var key :| key in todo;
        ok := LoadOidTable(key, d);
        if !ok {
          return;
        }
        todo := todo - {key};
      }
      ok := true;
    }

    /** The thread that loads one host. */
    method ThreadStart(d: Device)
      requires ValidDevice(d) && AllEmpty(oidTable)
      modifies this
      ensures oidTable.Keys == old(oidTable.Keys)
      ensures HostLoaded(oidTable, d)
      ensures mappingDone <==> old(mappingDone) || AllOpen(oidTable, d)
      ensures mappingDone <==> old(mappingDone) || forall key :: key in oidTable ==> d.parse(key).Some? && d.opens(key)
      ensures mappingDone && !old(mappingDone) ==> AllWalked(oidTable, d)
    {
      var ok := LoadOidTables(d);
      if ok {
        mappingDone := true;
      }
    }
  }

  // ----- a host as the loader meets it

  /**
   How OIDs parse and sessions open, what the agent answers in each walk, the suffix functions,
   and the agent's instances.
   */
  datatype Device = Device(
    parse: string -> Option<Oid>,
    opens: string -> bool,
    agents: string -> Agent,
    suffixes: string -> Oid -> string,
    mib: seq<Instance>)

  ghost predicate ValidDevice(d: Device) {
    Ordered(d.mib) && forall key :: Conforming(d.mib, d.agents(key))
  }

  predicate Opens(d: Device, key: string) { d.parse(key).Some? && d.opens(key) }

  ghost predicate AlwaysAnswers(agent: Agent) { forall n, name :: agent(n, name).Answer? }

  /** The table holds what one walk under its OID visited: that walk's requests and replies say what that is. */
  ghost predicate FromWalk(table: OidTable, key: string, visited: seq<Instance>, d: Device) {
    && Opens(d, key)
    && table == Filled(key, visited, d.suffixes(key))
    && exists asked, complete :: Outcome(d.mib, d.parse(key).value, d.agents(key), asked, visited, complete)
  }

  /** The tables of a host after its thread has run: walked, or empty where the load failed first. */
  ghost predicate HostLoaded(tables: map<string, OidTable>, d: Device) {
    forall key :: key in tables ==> tables[key] == EmptyTable(key) || TableLoaded(tables[key], key, d)
  }

  ghost predicate AllOpen(tables: map<string, OidTable>, d: Device) { forall key :: key in tables ==> Opens(d, key) }

  ghost predicate AllEmpty(tables: map<string, OidTable>) {
    forall key :: key in tables ==> tables[key] == EmptyTable(key)
  }

  /** Every table of the host was walked. */
  ghost predicate AllWalked(tables: map<string, OidTable>, d: Device) {
    forall key :: key in tables ==> TableLoaded(tables[key], key, d)
  }

  /** The table holds what a walk found under its OID, and so the whole subtree if the agent always answers. */
  ghost predicate TableLoaded(table: OidTable, key: string, d: Device) {
    && Opens(d, key)
    && (exists visited :: FromWalk(table, key, visited, d))
    && (AlwaysAnswers(d.agents(key)) ==> FromWalk(table, key, Subtree(d.mib, d.parse(key).value), d))
  }

  // ----- one response against a conforming agent

  /** The first `m` bindings are the instances from `k` on, all in the subtree. */
  ghost predicate Delivers(mib: seq<Instance>, root: Oid, k: nat, bs: seq<Binding>, m: nat) {
    && m <= |bs| && k + m <= |mib|
    && forall i :: 0 <= i < m ==> bs[i] == Value(mib[k + i]) && root <= mib[k + i].oid
  }

  lemma {:induction false} MoreDelivered(mib: seq<Instance>, root: Oid, k: nat, bs: seq<Binding>, m: nat)
    requires Delivers(mib, root, k, bs, m) && m < |bs| && k + m < |mib|
    requires bs[m] == Value(mib[k + m]) && root <= mib[k + m].oid
    ensures Delivers(mib, root, k, bs, m + 1)
  {
    forall i | 0 <= i < m + 1 ensures bs[i] == Value(mib[k + i]) && root <= mib[k + i].oid {
      assert i < m ==> bs[i] == Value(mib[k + i]);
    }
  }

  lemma {:induction false} FewerDelivered(mib: seq<Instance>, root: Oid, k: nat, bs: seq<Binding>, m: nat)
    requires bs != [] && Delivers(mib, root, k, bs, m)
    ensures var n := |bs| - 1; Delivers(mib, root, k, bs[..n], if m <= n then m else n)
  {
    var n := |bs| - 1;
    forall i | 0 <= i < m && i < n ensures bs[..n][i] == Value(mib[k + i]) && root <= mib[k + i].oid {
      assert bs[i] == Value(mib[k + i]);
    }
  }

  lemma {:induction false} AcceptedStretch(mib: seq<Instance>, root: Oid, k: nat, bs: seq<Binding>, m: nat)
    requires Delivers(mib, root, k, bs, m) && forall i :: m <= i < |bs| ==> !Accepted(root, bs[i])
    ensures AcceptedOf(root, bs) == mib[k..k + m]
  {
    if bs != [] {
      var n := |bs| - 1;
      var init, last := bs[..n], bs[n];
      FewerDelivered(mib, root, k, bs, m);
      assert forall i :: 0 <= i < n ==> init[i] == bs[i];
      if m == |bs| {
        AcceptedStretch(mib, root, k, init, n);
        assert last == Value(mib[k + n]);
        assert mib[k..k + m] == mib[k..k + n] + [mib[k + n]];
      } else {
        AcceptedStretch(mib, root, k, init, m);
        assert !Accepted(root, last);
      }
    }
  }

  /** Past the first binding that is not accepted none is: the subtree is not entered again. */
  lemma {:induction false} NoneAfter(mib: seq<Instance>, root: Oid, name: Oid, bs: seq<Binding>, m: nat, i: nat)
    requires Ordered(mib) && Conforms(mib, name, Answer(bs)) && Beyond(mib, root) <= Beyond(mib, name)
    requires m <= i < |bs| && !Accepted(root, bs[m])
    ensures !Accepted(root, bs[i])
  {
    var k := Beyond(mib, name);
    if m < i && k + i < |mib| && root <= mib[k + i].oid {
      BeyondRest(mib, root, k + m);
      SubtreeConvex(root, mib[k + m].oid, mib[k + i].oid);
    }
  }

  /** How many bindings the response delivers before it leaves the subtree. */
  lemma {:induction false} LeadingRun(mib: seq<Instance>, root: Oid, name: Oid, bs: seq<Binding>) returns (m: nat)
    requires Conforms(mib, name, Answer(bs))
    ensures Delivers(mib, root, Beyond(mib, name), bs, m)
    ensures m < |bs| ==> !Accepted(root, bs[m])
  {
    m := 0;
    while m < |bs| && Accepted(root, bs[m])
      invariant Delivers(mib, root, Beyond(mib, name), bs, m)
    {
      MoreDelivered(mib, root, Beyond(mib, name), bs, m);
      m := m + 1;
    }
  }

  /** A response delivers the next members of the subtree, up to where it leaves it. */
  lemma {:induction false} AcceptedRun(mib: seq<Instance>, root: Oid, name: Oid, bs: seq<Binding>) returns (m: nat)
    requires Ordered(mib) && Conforms(mib, name, Answer(bs)) && Beyond(mib, root) <= Beyond(mib, name)
    ensures Delivers(mib, root, Beyond(mib, name), bs, m)
    ensures AcceptedOf(root, bs) == mib[Beyond(mib, name)..Beyond(mib, name) + m]
    ensures m == |bs| <==> AllAccepted(root, bs)
    ensures m < |bs| ==> Left(mib, root, Beyond(mib, name) + m)
  {
    m := LeadingRun(mib, root, name, bs);
    forall i | m <= i < |bs| ensures !Accepted(root, bs[i]) {
      NoneAfter(mib, root, name, bs, m, i);
    }
    AcceptedStretch(mib, root, Beyond(mib, name), bs, m);
  }

  /** The walk stands before instance `at`, having delivered the members up to it. */
  ghost predicate Walked(mib: seq<Instance>, root: Oid, at: nat, visited: seq<Instance>) {
    && Beyond(mib, root) <= at <= |mib|
    && visited == mib[Beyond(mib, root)..at]
    && forall i :: Beyond(mib, root) <= i < at ==> root <= mib[i].oid
  }

  ghost predicate Left(mib: seq<Instance>, root: Oid, at: nat) {
    at < |mib| ==> !(root <= mib[at].oid)
  }

  lemma {:induction false} ExtendWalked(mib: seq<Instance>, root: Oid, at: nat, next: nat, visited: seq<Instance>,
                                        bs: seq<Binding>)
    requires Walked(mib, root, at, visited) && at <= next
    requires Delivers(mib, root, at, bs, next - at)
    ensures Walked(mib, root, next, visited + mib[at..next])
  {
    var first := Beyond(mib, root);
    forall i | first <= i < next ensures root <= mib[i].oid {
      if at <= i {
        var j := i - at;
        assert mib[at + j] == mib[i] && bs[j] == Value(mib[at + j]);
      }
    }
    assert mib[first..at] + mib[at..next] == mib[first..next];
  }

  lemma {:induction false} LastDelivered(mib: seq<Instance>, root: Oid, at: nat, bs: seq<Binding>)
    requires Ordered(mib) && bs != [] && Delivers(mib, root, at, bs, |bs|)
    ensures bs[|bs| - 1].Value? && Beyond(mib, bs[|bs| - 1].instance.oid) == at + |bs|
  {
    assert bs[|bs| - 1] == Value(mib[at + |bs| - 1]);
    BeyondInstance(mib, at + |bs| - 1);
  }

  /** Where the walk stands: going on from the last name, or stopped, outside the subtree unless a reply was missing. */
  ghost predicate Standing(mib: seq<Instance>, root: Oid, name: Oid, at: nat, visited: seq<Instance>, running: bool,
                           complete: bool) {
    && Walked(mib, root, at, visited)
    && (running ==> complete)
    && (if running || !complete then Beyond(mib, name) == at else Left(mib, root, at))
  }

  /** One more response: either the walk goes on from its last name, or it has left the subtree. */
  lemma {:induction false} KeepWalking(mib: seq<Instance>, root: Oid, name: Oid, bs: seq<Binding>, at: nat,
                                       visited: seq<Instance>)
    returns (next: nat)
    requires Ordered(mib) && Conforms(mib, name, Answer(bs))
    requires Walked(mib, root, at, visited) && Beyond(mib, name) == at
    ensures at <= next && Walked(mib, root, next, visited + AcceptedOf(root, bs))
    ensures
      if AllAccepted(root, bs) then at < next && bs[|bs| - 1].Value? && Beyond(mib, bs[|bs| - 1].instance.oid) == next
      else Left(mib, root, next)
  {
    var m := AcceptedRun(mib, root, name, bs);
    next := at + m;
    ExtendWalked(mib, root, at, next, visited, bs);
    if m == |bs| { LastDelivered(mib, root, at, bs); }
  }

  /** Members delivered so far are a prefix of the subtree. */
  lemma {:induction false} PrefixOfSubtree(mib: seq<Instance>, root: Oid, at: nat)
    requires Ordered(mib) && Beyond(mib, root) <= at <= |mib|
    requires forall i :: Beyond(mib, root) <= i < at ==> root <= mib[i].oid
    ensures mib[Beyond(mib, root)..at] <= Subtree(mib, root)
  {
    var hi := at;
    while hi < |mib| && root <= mib[hi].oid
      invariant at <= hi <= |mib|
      invariant forall i :: Beyond(mib, root) <= i < hi ==> root <= mib[i].oid
    {
      hi := hi + 1;
    }
    WalkedSubtree(mib, root, hi);
  }

  lemma {:induction false} StartWalk(mib: seq<Instance>, root: Oid, agent: Agent)
    returns (at: nat, visited: seq<Instance>, asked: seq<Oid>)
    ensures visited == [] && Standing(mib, root, root, at, visited, true, true)
    ensures AskedSoFar(root, agent, asked, 0, root, true, true)
  {
    at, visited, asked := Beyond(mib, root), [], [root];
  }

  /**
   What a walk comes to. It made the requests `asked` and visited a prefix of the subtree: all
   of it if each request was answered, and all up to the last name asked for if that one was not.
   */
  ghost predicate Outcome(mib: seq<Instance>, root: Oid, agent: Agent, asked: seq<Oid>, visited: seq<Instance>,
                          complete: bool) {
    && Requests(root, agent, asked) && Stops(root, agent, asked)
    && visited <= Subtree(mib, root)
    && (complete <==> AllAnswered(agent, asked, |asked|))
    && (if complete then visited == Subtree(mib, root)
        else |visited| == Beyond(mib, asked[|asked| - 1]) - Beyond(mib, root))
  }

  lemma {:induction false} Delivered(mib: seq<Instance>, root: Oid, agent: Agent, asked: seq<Oid>, n: nat, name: Oid,
                                     at: nat, visited: seq<Instance>, complete: bool)
    requires AskedSoFar(root, agent, asked, n, name, false, complete)
    requires Ordered(mib) && Standing(mib, root, name, at, visited, false, complete)
    ensures Outcome(mib, root, agent, asked, visited, complete)
  {
    PrefixOfSubtree(mib, root, at);
    if complete { WalkedSubtree(mib, root, at); }
  }

  // ----- the table's two maps

  /** The entry of a value is that of its last occurrence. */
  lemma {:induction false} SuffixMapAt(visited: seq<Instance>, suffix: Oid -> string, i: nat)
    requires i < |visited| && forall j :: i < j < |visited| ==> visited[j].value != visited[i].value
    ensures visited[i].value in SuffixMap(visited, suffix)
    ensures SuffixMap(visited, suffix)[visited[i].value] == suffix(visited[i].oid)
  {
    var n := |visited| - 1;
    if i < n {
      assert visited[..n][i] == visited[i];
      SuffixMapAt(visited[..n], suffix, i);
    }
  }

  lemma {:induction false} ValueMapAt(visited: seq<Instance>, suffix: Oid -> string, i: nat)
    requires i < |visited| && forall j :: i < j < |visited| ==> suffix(visited[j].oid) != suffix(visited[i].oid)
    ensures suffix(visited[i].oid) in ValueMap(visited, suffix)
    ensures ValueMap(visited, suffix)[suffix(visited[i].oid)] == visited[i].value
  {
    var n := |visited| - 1;
    if i < n {
      assert visited[..n][i] == visited[i];
      ValueMapAt(visited[..n], suffix, i);
    }
  }

  lemma {:induction false} SuffixMapOrigin(visited: seq<Instance>, suffix: Oid -> string, v: string) returns (i: nat)
    requires v in SuffixMap(visited, suffix)
    ensures i < |visited| && visited[i].value == v && forall j :: i < j < |visited| ==> visited[j].value != v
  {
    var n := |visited| - 1;
    if visited[n].value == v {
      i := n;
    } else {
      i := SuffixMapOrigin(visited[..n], suffix, v);
    }
  }

  lemma {:induction false} LastWithSuffix(visited: seq<Instance>, suffix: Oid -> string, i: nat) returns (last: nat)
    requires i < |visited|
    ensures i <= last < |visited| && suffix(visited[last].oid) == suffix(visited[i].oid)
    ensures forall j :: last < j < |visited| ==> suffix(visited[j].oid) != suffix(visited[i].oid)
  {
    last := |visited| - 1;
    while suffix(visited[last].oid) != suffix(visited[i].oid)
      invariant i <= last < |visited|
      invariant forall j :: last < j < |visited| ==> suffix(visited[j].oid) != suffix(visited[i].oid)
      decreases last
    {
      last := last - 1;
    }
  }

  /** Position `i` is that of the last instance with its value. */
  ghost predicate LastOfValue(visited: seq<Instance>, i: int) {
    0 <= i < |visited| && forall j :: i < j < |visited| ==> visited[j].value != visited[i].value
  }

  ghost predicate LastOfSuffix(visited: seq<Instance>, suffix: Oid -> string, i: int) {
    0 <= i < |visited| && forall j :: i < j < |visited| ==> suffix(visited[j].oid) != suffix(visited[i].oid)
  }

  /** Every value and every suffix visited has an entry, that of its last instance, and there are no others. */
  lemma {:induction false} TableEntries(visited: seq<Instance>, suffix: Oid -> string)
    ensures forall i :: LastOfValue(visited, i) ==>
              && visited[i].value in SuffixMap(visited, suffix)
              && SuffixMap(visited, suffix)[visited[i].value] == suffix(visited[i].oid)
    ensures forall i :: LastOfSuffix(visited, suffix, i) ==>
              && suffix(visited[i].oid) in ValueMap(visited, suffix)
              && ValueMap(visited, suffix)[suffix(visited[i].oid)] == visited[i].value
    ensures forall v :: v in SuffixMap(visited, suffix) ==> exists i :: LastOfValue(visited, i) && visited[i].value == v
    ensures forall x :: x in ValueMap(visited, suffix) ==>
              exists i :: LastOfSuffix(visited, suffix, i) && suffix(visited[i].oid) == x
  {
    forall i | LastOfValue(visited, i)
      ensures visited[i].value in SuffixMap(visited, suffix)
      ensures SuffixMap(visited, suffix)[visited[i].value] == suffix(visited[i].oid)
    {
      SuffixMapAt(visited, suffix, i);
    }
    forall i | LastOfSuffix(visited, suffix, i)
      ensures suffix(visited[i].oid) in ValueMap(visited, suffix)
      ensures ValueMap(visited, suffix)[suffix(visited[i].oid)] == visited[i].value
    {
      ValueMapAt(visited, suffix, i);
    }
    forall v | v in SuffixMap(visited, suffix) ensures exists i :: LastOfValue(visited, i) && visited[i].value == v {
      var i := SuffixMapOrigin(visited, suffix, v);
      assert LastOfValue(visited, i);
    }
    forall x | x in ValueMap(visited, suffix)
      ensures exists i :: LastOfSuffix(visited, suffix, i) && suffix(visited[i].oid) == x
    {
      var i := ValueMapOrigin(visited, suffix, x);
      assert LastOfSuffix(visited, suffix, i);
    }
  }

  lemma {:induction false} ValueMapOrigin(visited: seq<Instance>, suffix: Oid -> string, x: string) returns (i: nat)
    requires x in ValueMap(visited, suffix)
    ensures i < |visited| && suffix(visited[i].oid) == x
    ensures forall j :: i < j < |visited| ==> suffix(visited[j].oid) != x
  {
    var n := |visited| - 1;
    if suffix(visited[n].oid) == x {
      i := n;
    } else {
      i := ValueMapOrigin(visited[..n], suffix, x);
    }
  }

  ghost predicate RoundTrips(suffixOf: map<string, string>, valueOf: map<string, string>) {
    forall v :: v in suffixOf ==> suffixOf[v] in valueOf && valueOf[suffixOf[v]] == v
  }

  ghost predicate SeenAgain(visited: seq<Instance>, i: nat)
    requires i < |visited|
  {
    exists k :: i < k < |visited| && visited[k].value == visited[i].value
  }

  /** A suffix is met a second time only for a value that is seen again later. */
  ghost predicate SuffixesKept(visited: seq<Instance>, suffix: Oid -> string) {
    forall i, j :: 0 <= i < j < |visited| && suffix(visited[i].oid) == suffix(visited[j].oid) ==> SeenAgain(visited, i)
  }

  /** The two maps undo each other if and only if no value loses the suffix it was last seen at. */
  lemma {:induction false} RoundTripsExactly(visited: seq<Instance>, suffix: Oid -> string)
    ensures RoundTrips(SuffixMap(visited, suffix), ValueMap(visited, suffix)) <==> SuffixesKept(visited, suffix)
  {
    var suffixOf, valueOf := SuffixMap(visited, suffix), ValueMap(visited, suffix);
    if SuffixesKept(visited, suffix) {
      forall v | v in suffixOf ensures suffixOf[v] in valueOf && valueOf[suffixOf[v]] == v {
        var i := SuffixMapOrigin(visited, suffix, v);
        assert !SeenAgain(visited, i);
        SuffixMapAt(visited, suffix, i);
        ValueMapAt(visited, suffix, i);
      }
    }
    if RoundTrips(suffixOf, valueOf) {
      forall i, j | 0 <= i < j < |visited| && suffix(visited[i].oid) == suffix(visited[j].oid)
        ensures SeenAgain(visited, i)
      {
        var last := LastWithSuffix(visited, suffix, i);
        ValueMapAt(visited, suffix, last);
        if !SeenAgain(visited, i) { SuffixMapAt(visited, suffix, i); }
      }
    }
  }

  /** No two visited instances have the same suffix. */
  ghost predicate DistinctSuffixes(visited: seq<Instance>, suffix: Oid -> string) {
    forall i, j :: 0 <= i < j < |visited| ==> suffix(visited[i].oid) != suffix(visited[j].oid)
  }

  /** A table whose subtree has no suffix twice round-trips, even if its walk was cut short. */
  lemma {:induction false} TableRoundTrips(table: OidTable, key: string, d: Device)
    requires TableLoaded(table, key, d) && DistinctSuffixes(Subtree(d.mib, d.parse(key).value), d.suffixes(key))
    ensures RoundTrips(table.suffixOf, table.valueOf)
  {
    var visited :| FromWalk(table, key, visited, d);
    RoundTripsExactly(visited, d.suffixes(key));
  }

  /** Two values under one suffix, neither seen again: the earlier value leads to the later one. */
  lemma {:induction false} SharedSuffixBreaksRoundTrip()
    ensures var visited := [Instance([1, 1], "eth0"), Instance([1, 2], "eth1")];
      !RoundTrips(SuffixMap(visited, _ => "1"), ValueMap(visited, _ => "1"))
  {
    var visited := [Instance([1, 1], "eth0"), Instance([1, 2], "eth1")];
    RoundTripsExactly(visited, _ => "1");
    assert !SeenAgain(visited, 0);
  }
}
