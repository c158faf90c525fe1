/** Resolving the names of collections to OID suffixes through chains of their hosts' tables. */
module SuffixMapping {
  import opened Options
  import opened CollectionGroups
  import opened OidOrder
  import opened SubtreeWalk

  function SuffixesOf(tables: map<string, OidTable>, oid: string): map<string, string> {
    if oid in tables then tables[oid].suffixOf else map[]
  }

  function ValuesOf(tables: map<string, OidTable>, oid: string): map<string, string> {
    if oid in tables then tables[oid].valueOf else map[]
  }

  /** Following the chain table by table; no result when a link is missing. */
  function Follow(tables: map<string, OidTable>, oids: seq<string>, from: string): Option<string> {
    if oids == [] then Some(from)
    else
      var link := SuffixesOf(tables, oids[0]);
      if from in link then Follow(tables, oids[1..], link[from]) else None
  }

  /** The same chain from its far end, by the opposite maps. */
  function FollowBack(tables: map<string, OidTable>, oids: seq<string>, to: string): Option<string> {
    if oids == [] then Some(to)
    else
      var link := ValuesOf(tables, oids[|oids| - 1]);
      if to in link then FollowBack(tables, oids[..|oids| - 1], link[to]) else None
  }

  /** What the mapping pass stores: the end of the chain, or nothing. */
  function Mapped(tables: map<string, OidTable>, oids: seq<string>, premap: string): string {
    var r := Follow(tables, oids, premap);
    if r.Some? then r.value else ""
  }

  // ----- when a lookup succeeds, by its links

  /** Table `oids[i]` leads from `names[i]` to `names[i + 1]`, all along the names. */
  ghost predicate Links(tables: map<string, OidTable>, oids: seq<string>, names: seq<string>) {
    && names != [] && |names| <= |oids| + 1
    && forall i {:trigger names[i + 1]} {:trigger oids[i]} :: 0 <= i < |names| - 1 ==>
         && oids[i] in tables
         && names[i] in tables[oids[i]].suffixOf && tables[oids[i]].suffixOf[names[i]] == names[i + 1]
  }

  /** The names reach through the last table. */
  ghost predicate Complete(tables: map<string, OidTable>, oids: seq<string>, names: seq<string>) {
    Links(tables, oids, names) && |names| == |oids| + 1
  }

  /** The next table is not there or does not know the last name. */
  ghost predicate Broken(tables: map<string, OidTable>, oids: seq<string>, names: seq<string>) {
    && Links(tables, oids, names) && |names| <= |oids|
    && var oid := oids[|names| - 1];
       oid in tables ==> names[|names| - 1] !in tables[oid].suffixOf
  }

  lemma {:induction false} LinksTail(tables: map<string, OidTable>, oids: seq<string>, names: seq<string>)
    requires Links(tables, oids, names) && |names| > 1
    ensures Links(tables, oids[1..], names[1..])
    ensures names[0] in SuffixesOf(tables, oids[0]) && SuffixesOf(tables, oids[0])[names[0]] == names[1]
  {
    forall i | 0 <= i < |names| - 2
      ensures oids[1..][i] in tables && names[1..][i] in tables[oids[1..][i]].suffixOf
      ensures tables[oids[1..][i]].suffixOf[names[1..][i]] == names[1..][i + 1]
    {
      assert names[i + 1 + 1] == names[1..][i + 1] && oids[i + 1] == oids[1..][i];
    }
    assert names[0 + 1] == names[1];
  }

  /** A lookup whose every link is there yields the name at the end of the chain. */
  lemma {:induction false} LookupSucceeds(tables: map<string, OidTable>, oids: seq<string>, names: seq<string>)
    requires Complete(tables, oids, names)
    ensures Follow(tables, oids, names[0]) == Some(names[|oids|])
    ensures Mapped(tables, oids, names[0]) == names[|oids|]
  {
    if oids != [] {
      LinksTail(tables, oids, names);
      LookupSucceeds(tables, oids[1..], names[1..]);
    }
  }

  /** A lookup that comes to a missing link yields nothing. */
  lemma {:induction false} LookupFails(tables: map<string, OidTable>, oids: seq<string>, names: seq<string>)
    requires Broken(tables, oids, names)
    ensures Follow(tables, oids, names[0]) == None
    ensures Mapped(tables, oids, names[0]) == ""
  {
    if |names| > 1 {
      LinksTail(tables, oids, names);
      LookupFails(tables, oids[1..], names[1..]);
    }
  }

  /** What a lookup yields, whatever its links. */
  ghost predicate LookedUp(tables: map<string, OidTable>, oids: seq<string>, premap: string, result: string) {
    forall names :: names != [] && names[0] == premap ==>
      && (Complete(tables, oids, names) ==> result == names[|names| - 1])
      && (Broken(tables, oids, names) ==> result == "")
  }

  lemma {:induction false} MappedLooksUp(tables: map<string, OidTable>, oids: seq<string>, premap: string)
    ensures LookedUp(tables, oids, premap, Mapped(tables, oids, premap))
  {
    forall names | names != [] && names[0] == premap
      ensures Complete(tables, oids, names) ==> Mapped(tables, oids, premap) == names[|names| - 1]
      ensures Broken(tables, oids, names) ==> Mapped(tables, oids, premap) == ""
    {
      if Complete(tables, oids, names) { LookupSucceeds(tables, oids, names); }
      if Broken(tables, oids, names) { LookupFails(tables, oids, names); }
    }
  }

  /** Every lookup is one or the other. */
  lemma {:induction false} LookupDecided(tables: map<string, OidTable>, oids: seq<string>, premap: string)
    returns (names: seq<string>)
    ensures names != [] && names[0] == premap && (Complete(tables, oids, names) || Broken(tables, oids, names))
  {
    names := [premap];
    while |names| <= |oids| && oids[|names| - 1] in tables && names[|names| - 1] in tables[oids[|names| - 1]].suffixOf
      invariant names != [] && names[0] == premap && Links(tables, oids, names)
      decreases |oids| + 1 - |names|
    {
      names := names + [tables[oids[|names| - 1]].suffixOf[names[|names| - 1]]];
    }
  }

  ghost predicate Tables(tables: map<string, OidTable>, oids: seq<string>) {
    forall i :: 0 <= i < |oids| ==> oids[i] in tables
  }

  /** Every table of the chain came from a walk that never met a suffix twice. */
  ghost predicate Invertible(tables: map<string, OidTable>, oids: seq<string>) {
    forall i :: 0 <= i < |oids| ==>
      RoundTrips(SuffixesOf(tables, oids[i]), ValuesOf(tables, oids[i]))
  }

  lemma {:induction false} FollowLast(tables: map<string, OidTable>, oids: seq<string>, from: string)
    requires oids != []
    ensures var n := |oids| - 1;
      var mid := Follow(tables, oids[..n], from);
      Follow(tables, oids, from) ==
        if mid.Some? && mid.value in SuffixesOf(tables, oids[n]) then Some(SuffixesOf(tables, oids[n])[mid.value])
            else None
  {
    var n := |oids| - 1;
    if n > 0 {
      assert oids[1..][..n - 1] == oids[..n][1..];
      if from in SuffixesOf(tables, oids[0]) { FollowLast(tables, oids[1..], SuffixesOf(tables, oids[0])[from]); }
    }
  }

  /** The chain run backwards from where it ended arrives where it began. */
  lemma {:induction false} FollowBackRecovers(tables: map<string, OidTable>, oids: seq<string>, from: string)
    requires Invertible(tables, oids) && Follow(tables, oids, from).Some?
    ensures FollowBack(tables, oids, Follow(tables, oids, from).value) == Some(from)
  {
    if oids != [] {
      FollowLast(tables, oids, from);
      FollowBackRecovers(tables, oids[..|oids| - 1], from);
    }
  }

  /**
   A mapped collection with a nonempty result found every link of its chain, and the result
   leads back to the name it was asked for.
   */
  lemma {:induction false} MappingRoundTrip(tables: map<string, OidTable>, oids: seq<string>, premap: string)
    requires Invertible(tables, oids) && Mapped(tables, oids, premap) != ""
    ensures FollowBack(tables, oids, Mapped(tables, oids, premap)) == Some(premap)
    ensures forall k :: 0 <= k <= |oids| ==> Follow(tables, oids[..k], premap).Some?
  {
    FollowBackRecovers(tables, oids, premap);
    forall k | 0 <= k <= |oids| ensures Follow(tables, oids[..k], premap).Some? {
      FollowPrefix(tables, oids, premap, k);
    }
  }

  lemma {:induction false} FollowPrefix(tables: map<string, OidTable>, oids: seq<string>, from: string, k: nat)
    requires k <= |oids| && Follow(tables, oids, from).Some?
    ensures Follow(tables, oids[..k], from).Some?
    decreases |oids| - k
  {
    if k == |oids| {
      assert oids[..k] == oids;
    } else {
      FollowPrefix(tables, oids, from, k + 1);
      FollowLast(tables, oids[..k + 1], from);
      assert oids[..k + 1][..k] == oids[..k];
    }
  }

  /** Different names that map to the same nonempty suffix do not exist. */
  lemma {:induction false} MappingInjective(tables: map<string, OidTable>, oids: seq<string>, a: string, b: string)
    requires Invertible(tables, oids) && Mapped(tables, oids, a) == Mapped(tables, oids, b) != ""
    ensures a == b
  {
    MappingRoundTrip(tables, oids, a);
    MappingRoundTrip(tables, oids, b);
  }

  /** No subtree walked for the chain has a suffix twice. */
  ghost predicate ChainDistinct(oids: seq<string>, d: Device) {
    forall i :: 0 <= i < |oids| && d.parse(oids[i]).Some? ==>
      DistinctSuffixes(Subtree(d.mib, d.parse(oids[i]).value), d.suffixes(oids[i]))
  }

  /**
   From the walks to the mapping: if no subtree of a chain has a suffix twice, a nonempty
   result leads back to the name it was asked for, also where walks were cut short.
   */
  lemma {:induction false} LoadedMappingRoundTrip(tables: map<string, OidTable>, oids: seq<string>, premap: string,
                                                  d: Device)
    requires HostLoaded(tables, d) && Mapped(tables, oids, premap) != ""
    requires ChainDistinct(oids, d)
    ensures FollowBack(tables, oids, Mapped(tables, oids, premap)) == Some(premap)
  {
    forall i | 0 <= i < |oids| ensures RoundTrips(SuffixesOf(tables, oids[i]), ValuesOf(tables, oids[i])) {
      if oids[i] in tables && tables[oids[i]] != EmptyTable(oids[i]) { TableRoundTrips(tables[oids[i]], oids[i], d); }
    }
    MappingRoundTrip(tables, oids, premap);
  }

  // ----- the whole mapping pass

  type HostTables = map<DbId, map<string, OidTable>>

  function SequenceOf(sequences: map<int, seq<string>>, id: int): seq<string> {
    if id in sequences then sequences[id] else []
  }

  function TablesOf(hosts: HostTables, h: DbId): map<string, OidTable> {
    if h in hosts then hosts[h] else map[]
  }

  function PostMapping(tables: map<string, OidTable>, sequences: map<int, seq<string>>, c: Collection): string {
    if c.mappingId == -1 then c.premap else Mapped(tables, SequenceOf(sequences, c.mappingId), c.premap)
  }

  function MapCollections(tables: map<string, OidTable>, sequences: map<int, seq<string>>,
                          cs: seq<Collection>): seq<Collection> {
    seq(|cs|, k requires 0 <= k < |cs| => cs[k].(postmap := PostMapping(tables, sequences, cs[k])))
  }

  /** A host whose tables did not load is passed over. */
  function MapHost(hosts: HostTables, done: set<DbId>, sequences: map<int, seq<string>>, g: HostGroup): HostGroup {
    if g.hostId !in done then g
    else g.(collections := MapCollections(TablesOf(hosts, g.hostId), sequences, g.collections))
  }

  function MapClass(hosts: HostTables, done: set<DbId>, sequences: map<int, seq<string>>, c: ClassGroup): ClassGroup {
    c.(hosts := seq(|c.hosts|, j requires 0 <= j < |c.hosts| => MapHost(hosts, done, sequences, c.hosts[j])))
  }

  function MapClasses(hosts: HostTables, done: set<DbId>, sequences: map<int, seq<string>>,
                      cs: seq<ClassGroup>): seq<ClassGroup> {
    seq(|cs|, i requires 0 <= i < |cs| => MapClass(hosts, done, sequences, cs[i]))
  }

  // ----- what the pass does, collection by collection

  /** A collection gets its premap suffix, or the end of its chain, or nothing where a link is missing. */
  ghost predicate CollectionDone(tables: map<string, OidTable>, sequences: map<int, seq<string>>, x: Collection,
                                 y: Collection) {
    && y == x.(postmap := y.postmap)
    && (x.mappingId == -1 ==> y.postmap == x.premap)
    && (x.mappingId != -1 && x.mappingId in sequences ==>
          LookedUp(tables, sequences[x.mappingId], x.premap, y.postmap))
  }

  /** A host whose tables did not load keeps its collections as they are. */
  ghost predicate HostDone(hosts: HostTables, done: set<DbId>, sequences: map<int, seq<string>>, g: HostGroup,
                           h: HostGroup) {
    if g.hostId !in done then h == g
    else
      && h == g.(collections := h.collections) && |h.collections| == |g.collections|
      && forall k :: 0 <= k < |g.collections| ==>
           CollectionDone(TablesOf(hosts, g.hostId), sequences, g.collections[k], h.collections[k])
  }

  ghost predicate ClassDone(hosts: HostTables, done: set<DbId>, sequences: map<int, seq<string>>, c: ClassGroup,
                            d: ClassGroup) {
    && d == c.(hosts := d.hosts) && |d.hosts| == |c.hosts|
    && forall j :: 0 <= j < |c.hosts| ==> HostDone(hosts, done, sequences, c.hosts[j], d.hosts[j])
  }

  ghost predicate PassDone(hosts: HostTables, done: set<DbId>, sequences: map<int, seq<string>>, cs: seq<ClassGroup>,
                           ds: seq<ClassGroup>) {
    |ds| == |cs| && forall i :: 0 <= i < |cs| ==> ClassDone(hosts, done, sequences, cs[i], ds[i])
  }

  lemma {:induction false} CollectionMapped(tables: map<string, OidTable>, sequences: map<int, seq<string>>,
                                            x: Collection)
    ensures CollectionDone(tables, sequences, x, x.(postmap := PostMapping(tables, sequences, x)))
  {
    MappedLooksUp(tables, SequenceOf(sequences, x.mappingId), x.premap);
  }

  lemma {:induction false} HostMapped(hosts: HostTables, done: set<DbId>, sequences: map<int, seq<string>>,
                                      g: HostGroup)
    ensures HostDone(hosts, done, sequences, g, MapHost(hosts, done, sequences, g))
  {
    forall k | 0 <= k < |g.collections|
      ensures CollectionDone(TablesOf(hosts, g.hostId), sequences, g.collections[k],
                             MapCollections(TablesOf(hosts, g.hostId), sequences, g.collections)[k])
    {
      CollectionMapped(TablesOf(hosts, g.hostId), sequences, g.collections[k]);
    }
  }

  /** The pass does this to every collection of every host of every class, and changes nothing else. */
  lemma {:induction false} PassMapped(hosts: HostTables, done: set<DbId>, sequences: map<int, seq<string>>,
                                      cs: seq<ClassGroup>)
    ensures PassDone(hosts, done, sequences, cs, MapClasses(hosts, done, sequences, cs))
  {
    forall i, j | 0 <= i < |cs| && 0 <= j < |cs[i].hosts|
      ensures HostDone(hosts, done, sequences, cs[i].hosts[j], MapClass(hosts, done, sequences, cs[i]).hosts[j])
    {
      HostMapped(hosts, done, sequences, cs[i].hosts[j]);
    }
  }

  // ----- what the pass needs

  /** The mapping sequence of the collection exists, which the pass asserts. */
  predicate SequenceKnown(sequences: map<int, seq<string>>, c: Collection) {
    c.mappingId != -1 ==> c.mappingId in sequences
  }

  ghost predicate HostKnown(hosts: HostTables, sequences: map<int, seq<string>>, g: HostGroup) {
    g.hostId in hosts && forall k :: 0 <= k < |g.collections| ==> SequenceKnown(sequences, g.collections[k])
  }

  ghost predicate ClassKnown(hosts: HostTables, sequences: map<int, seq<string>>, c: ClassGroup) {
    forall j :: 0 <= j < |c.hosts| ==> HostKnown(hosts, sequences, c.hosts[j])
  }

  ghost predicate ClassesKnown(hosts: HostTables, sequences: map<int, seq<string>>, cs: seq<ClassGroup>) {
    forall i :: 0 <= i < |cs| ==> ClassKnown(hosts, sequences, cs[i])
  }

  /** And the host has a table for every OID of it. */
  ghost predicate TablesPresent(tables: map<string, OidTable>, sequences: map<int, seq<string>>, c: Collection) {
    c.mappingId != -1 ==> c.mappingId in sequences && Tables(tables, sequences[c.mappingId])
  }

  ghost predicate HostComplete(hosts: HostTables, sequences: map<int, seq<string>>, g: HostGroup) {
    g.hostId in hosts && forall k :: 0 <= k < |g.collections| ==>
        TablesPresent(hosts[g.hostId], sequences, g.collections[k])
  }

  ghost predicate ClassComplete(hosts: HostTables, sequences: map<int, seq<string>>, c: ClassGroup) {
    forall j :: 0 <= j < |c.hosts| ==> HostComplete(hosts, sequences, c.hosts[j])
  }

  ghost predicate ClassesComplete(hosts: HostTables, sequences: map<int, seq<string>>, cs: seq<ClassGroup>) {
    forall i :: 0 <= i < |cs| ==> ClassComplete(hosts, sequences, cs[i])
  }

  lemma {:induction false} CompleteIsKnown(hosts: HostTables, sequences: map<int, seq<string>>, cs: seq<ClassGroup>)
    requires ClassesComplete(hosts, sequences, cs)
    ensures ClassesKnown(hosts, sequences, cs)
  {
    forall i, j | 0 <= i < |cs| && 0 <= j < |cs[i].hosts| ensures HostKnown(hosts, sequences, cs[i].hosts[j]) {
      assert ClassComplete(hosts, sequences, cs[i]) && HostComplete(hosts, sequences, cs[i].hosts[j]);
    }
  }

  /** Filling tables does not make any of them go away. */
  lemma {:induction false} StillComplete(before: HostTables, after: HostTables, sequences: map<int, seq<string>>,
                                         cs: seq<ClassGroup>)
    requires ClassesComplete(before, sequences, cs)
    requires before.Keys <= after.Keys && forall h :: h in before ==> before[h].Keys <= after[h].Keys
    ensures ClassesComplete(after, sequences, cs)
  {
    forall i, j | 0 <= i < |cs| && 0 <= j < |cs[i].hosts| ensures HostComplete(after, sequences, cs[i].hosts[j]) {
      assert ClassComplete(before, sequences, cs[i]) && HostComplete(before, sequences, cs[i].hosts[j]);
      forall k | 0 <= k < |cs[i].hosts[j].collections|
        ensures TablesPresent(after[cs[i].hosts[j].hostId], sequences, cs[i].hosts[j].collections[k])
      {
        assert TablesPresent(before[cs[i].hosts[j].hostId], sequences, cs[i].hosts[j].collections[k]);
      }
    }
  }

  // ----- entries that a lookup creates

  ghost predicate SameLookups(a: map<string, OidTable>, b: map<string, OidTable>) {
    forall oid :: SuffixesOf(a, oid) == SuffixesOf(b, oid)
  }

  ghost predicate SameTables(a: HostTables, b: HostTables) {
    a.Keys == b.Keys && forall h :: h in a ==> SameLookups(a[h], b[h])
  }

  lemma {:induction false} SameSuffixes(a: map<string, OidTable>, b: map<string, OidTable>, oids: seq<string>,
                                        from: string)
    requires SameLookups(a, b)
    ensures Follow(a, oids, from) == Follow(b, oids, from)
  {
    if oids != [] && from in SuffixesOf(a, oids[0]) {
      SameSuffixes(a, b, oids[1..], SuffixesOf(a, oids[0])[from]);
    }
  }
}
