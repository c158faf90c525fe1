/**
 Loading a configuration: the hosts, the collections page by page with cursors carried from
 page to page, then the hosts' mapping tables and the mapped suffixes of all collections.
 */
module PagedLoad {
  import opened Options
  import opened CollectionGroups
  import opened SubtreeWalk
  import opened SuffixMapping

  /** One row of the host query: the same host comes once per mapping it uses. */
  datatype HostRow = HostRow(hostId: DbId, oid: Option<string>)

  /** `last_db_id`, `last_host_id` and `host_index`. */
  datatype Cursor = Cursor(lastClass: int, lastHost: int, hostIndex: int)

  /** Every table is empty and stands under its own OID, as the assertion at the start of each walk demands. */
  ghost predicate FreshTables(hosts: HostTables) {
    forall h :: h in hosts ==> AllEmpty(hosts[h])
  }

  predicate Resolvable(known: set<DbId>, sequences: map<int, seq<string>>, r: Row) {
    r.hostId in known && (r.mapping.Some? ==> r.mapping.value in sequences)
  }

  /** The host of the row has a table for every OID of the row's mapping sequence. */
  ghost predicate HasTables(hosts: HostTables, sequences: map<int, seq<string>>, r: Row) {
    && r.hostId in hosts
    && (r.mapping.Some? ==>
          && r.mapping.value in sequences
          && Tables(hosts[r.hostId], sequences[r.mapping.value]))
  }

  ghost predicate AllHaveTables(hosts: HostTables, sequences: map<int, seq<string>>, rows: seq<Row>) {
    forall i {:trigger HasTables(hosts, sequences, rows[i])} :: 0 <= i < |rows| ==> HasTables(hosts, sequences, rows[i])
  }

  ghost predicate CursorAt(rows: seq<Row>, classes: seq<ClassGroup>, c: Cursor) {
    if rows == [] then c == Cursor(-1, -1, -1)
    else
      var last := rows[|rows| - 1];
      && c.lastClass == last.classId && c.lastHost == last.hostId
      && classes != [] && c.hostIndex == |classes[|classes| - 1].hosts| - 1
  }

  /** The groups are those of all rows so far, and the cursor is at the last of them. */
  ghost predicate Grouped(rows: seq<Row>, classes: seq<ClassGroup>, cursor: Cursor) {
    classes == GroupClasses(rows) && CursorAt(rows, classes, cursor)
  }

  /** The OIDs of the mapping sequences that the rows of a host use. */
  ghost function OidsOf(sequences: map<int, seq<string>>, rows: seq<Row>, h: DbId): set<string> {
    if rows == [] then {}
    else
      var last := rows[|rows| - 1];
      OidsOf(sequences, rows[..|rows| - 1], h) + (if last.hostId == h then RowOids(sequences, last) else {})
  }

  ghost function RowOids(sequences: map<int, seq<string>>, r: Row): set<string> {
    if r.mapping.None? then {}
    else OidSet(SequenceOf(sequences, r.mapping.value))
  }

  ghost function OidSet(oids: seq<string>): set<string> { set i | 0 <= i < |oids| :: oids[i] }

  lemma {:induction false} OneMoreOid(oids: seq<string>, i: nat)
    requires i < |oids|
    ensures OidSet(oids[..i + 1]) == OidSet(oids[..i]) + {oids[i]}
  {
    assert forall j :: 0 <= j < i ==> oids[..i + 1][j] == oids[..i][j];
    assert oids[..i + 1][i] == oids[i];
  }

  /** One host got tables for some OIDs, and nothing else changed. */
  ghost predicate Added(before: HostTables, after: HostTables, h: DbId, oids: set<string>) {
    && before.Keys == after.Keys && h in after
    && after[h].Keys == before[h].Keys + oids
    && forall g :: g in after && g != h ==> after[g] == before[g]
  }

  /** Each host has the tables it started with and those of its own rows, and no others. */
  ghost predicate ExactKeys(start: HostTables, hosts: HostTables, sequences: map<int, seq<string>>, rows: seq<Row>) {
    && start.Keys == hosts.Keys
    && forall h {:trigger OidsOf(sequences, rows, h)} :: h in hosts ==>
         hosts[h].Keys == start[h].Keys + OidsOf(sequences, rows, h)
  }

  /** What the rows so far have made of the hosts' tables. */
  ghost predicate TablesLoaded(start: HostTables, hosts: HostTables, sequences: map<int, seq<string>>, rows: seq<Row>) {
    FreshTables(hosts) && AllHaveTables(hosts, sequences, rows) && ExactKeys(start, hosts, sequences, rows)
  }

  lemma {:induction false} AppendedLast(classes: seq<ClassGroup>, r: Row)
    ensures var groups := AppendRow(classes, r);
      && groups != [] && groups[|groups| - 1].dbId == r.classId
      && var hosts := groups[|groups| - 1].hosts;
         hosts != [] && hosts[|hosts| - 1].hostId == r.hostId
  {
  }

  lemma {:induction false} LastGroups(rows: seq<Row>)
    requires rows != []
    ensures var groups := GroupClasses(rows);
      && groups != [] && groups[|groups| - 1].dbId == rows[|rows| - 1].classId
      && var hosts := groups[|groups| - 1].hosts;
         hosts != [] && hosts[|hosts| - 1].hostId == rows[|rows| - 1].hostId
  {
    var init, last := rows[..|rows| - 1], rows[|rows| - 1];
    assert rows == init + [last];
    GroupClassesAppend(init, last);
    AppendedLast(GroupClasses(init), last);
  }

  class ConfigLoader {
    const sequences: map<int, seq<string>>
    var hosts: HostTables
    var mappingDone: set<DbId>
    var classes: seq<ClassGroup>

    constructor (sequences: map<int, seq<string>>)
      ensures this.sequences == sequences && hosts == map[] && mappingDone == {} && classes == []
    {
      this.sequences := sequences;
      hosts, mappingDone, classes := map[], {}, [];
    }

    /** A host enters with its first row; later rows of the same host change nothing. */
    method LoadHosts(rows: seq<HostRow>)
      requires hosts == map[]
      modifies this`hosts
      ensures FreshTables(hosts)
      ensures forall h :: h in hosts <==> exists i :: 0 <= i < |rows| && rows[i].hostId == h
      ensures forall i :: 0 <= i < |rows| && (forall j :: 0 <= j < i ==> rows[j].hostId != rows[i].hostId) ==>
                rows[i].hostId in hosts
                && hosts[rows[i].hostId].Keys == (if rows[i].oid.Some? then {rows[i].oid.value} else {})
    {
      var k := 0;
      while k < |rows|
        invariant 0 <= k <= |rows| && FreshTables(hosts)
        invariant forall h :: h in hosts <==> exists i :: 0 <= i < k && rows[i].hostId == h
        invariant forall i :: 0 <= i < k && (forall j :: 0 <= j < i ==> rows[j].hostId != rows[i].hostId) ==>
                    rows[i].hostId in hosts
                    && hosts[rows[i].hostId].Keys == (if rows[i].oid.Some? then {rows[i].oid.value} else {})
      {
        var table: map<string, OidTable> := map[];
        if rows[k].oid.Some? {
          table := table[rows[k].oid.value := EmptyTable(rows[k].oid.value)];
        }
        if rows[k].hostId !in hosts {
          hosts := hosts[rows[k].hostId := table];
        }
        k := k + 1;
      }
    }

    /** Gives a host, and no other, an empty table for every OID of a mapping sequence. */
    method AddTables(h: DbId, oids: seq<string>)
      requires h in hosts && FreshTables(hosts)
      modifies this`hosts
      ensures FreshTables(hosts) && Added(old(hosts), hosts, h, OidSet(oids))
    {
      var i := 0;
      while i < |oids|
        invariant 0 <= i <= |oids| && h in hosts && FreshTables(hosts)
        invariant Added(old(hosts), hosts, h, OidSet(oids[..i]))
      {
        OneMoreOid(oids, i);
        hosts := hosts[h := hosts[h][oids[i] := EmptyTable(oids[i])]];
        i := i + 1;
      }
      assert oids[..i] == oids;
    }

    /** The body of the row loop up to the collection itself: open the class and the host if they are new. */
    method OpenGroups(r: Row, cursor: Cursor, ghost rows: seq<Row>) returns (found: bool, next: Cursor)
      requires Grouped(rows, classes, cursor)
      modifies this`classes
      ensures found <==>
        r.hostId in hosts
        || (rows != [] && rows[|rows| - 1].classId == r.classId && rows[|rows| - 1].hostId == r.hostId)
      ensures found ==>
        Opened(classes, next, r)
        && Grouped(rows + [r], AddCollection(classes, next.hostIndex, CollectionOf(r)), next)
    {
      if rows != [] { LastGroups(rows); }
      next := cursor;
      if next.lastClass != r.classId {
        classes := classes + [ClassGroup(r.classId, r.className, r.interval, [])];
        next := Cursor(r.classId, -1, -1);
      }
      var at := |classes| - 1;
      if next.lastHost != r.hostId {
        if r.hostId !in hosts {
          return false, next;
        }
        classes := classes[at := classes[at].(hosts := classes[at].hosts + [HostGroup(r.hostId, [])])];
        next := next.(lastHost := r.hostId, hostIndex := |classes[at].hosts| - 1);
      }
      found := true;
      OpenedMatches(old(classes), classes, next, r);
      CursorAdvances(rows, r, classes, next);
      GroupClassesAppend(rows, r);
    }

    /** One row, whole: groups, tables, collection. */
    method LoadRow(r: Row, cursor: Cursor, ghost rows: seq<Row>, ghost start: HostTables)
      returns (ok: bool, next: Cursor)
      requires Loaded(rows, cursor, start)
      modifies this`classes, this`hosts
      ensures hosts.Keys == old(hosts.Keys)
      ensures ok <==> Resolvable(old(hosts.Keys), sequences, r)
      ensures ok ==> Loaded(rows + [r], next, start)
    {
      assert rows != [] ==> HasTables(hosts, sequences, rows[|rows| - 1]);
      ghost var before := hosts;
      ok, next := OpenGroups(r, cursor, rows);
      if !ok {
        return;
      }
      if r.mapping.Some? {
        if r.mapping.value !in sequences {
          return false, next;
        }
        AddTables(r.hostId, sequences[r.mapping.value]);
      }
      RowTablesAdded(start, before, hosts, sequences, rows, r);
      classes := AddCollection(classes, next.hostIndex, CollectionOf(r));
    }

    /**
     The rows so far are grouped, their tables have been added to those the hosts had at the
     start, and the cursor is at the last of them.
     */
    ghost predicate Loaded(rows: seq<Row>, cursor: Cursor, start: HostTables)
      reads this
    {
      TablesLoaded(start, hosts, sequences, rows) && Grouped(rows, classes, cursor)
    }

    /** One page. It fails exactly on a row with an unknown host or mapping sequence. */
    method LoadBlock(page: seq<Row>, cursor: Cursor, ghost done: seq<Row>, ghost start: HostTables)
      returns (ok: bool, next: Cursor)
      requires Loaded(done, cursor, start)
      modifies this`classes, this`hosts
      ensures hosts.Keys == old(hosts.Keys)
      ensures ok <==> AllResolvable(old(hosts.Keys), sequences, page)
      ensures ok ==> Loaded(done + page, next, start)
    {
      next := cursor;
      ghost var rows := done;
      var k := 0;
      while k < |page|
        invariant 0 <= k <= |page| && hosts.Keys == old(hosts.Keys)
        invariant Took(rows, done, page, k) && Loaded(rows, next, start)
        invariant AllResolvable(old(hosts.Keys), sequences, page[..k])
      {
        SplitPages(old(hosts.Keys), sequences, page, k, k + 1);
        assert page[k..k + 1][0] == page[k];
        ok, next := LoadRow(page[k], next, rows, start);
        if !ok {
          return;
        }
        TakeOne(rows, done, page, k);
        rows := rows + [page[k]];
        k := k + 1;
      }
      TookAll(rows, done, page);
      assert page[..k] == page;
      ok := true;
    }

    /**
     All pages. The page size shows nowhere in what is loaded: the outcome and the groups are
     those of all rows at once. The loop ends on the first page that is not full.
     */
    method LoadCollectionClasses(rows: seq<Row>, limit: nat) returns (ok: bool)
      requires limit > 0 && classes == [] && FreshTables(hosts)
      modifies this`classes, this`hosts
      ensures ok <==> AllResolvable(old(hosts.Keys), sequences, rows)
      ensures ok <==> forall i :: 0 <= i < |rows| ==>
                rows[i].hostId in old(hosts) && (rows[i].mapping.None? || rows[i].mapping.value in sequences)
      ensures ok ==> classes == GroupClasses(rows)
      ensures hosts.Keys == old(hosts.Keys)
      ensures ok ==> FreshTables(hosts) && ClassesComplete(hosts, sequences, classes)
      ensures ok ==> ExactKeys(old(hosts), hosts, sequences, rows)
    {
      var cursor := Cursor(-1, -1, -1);
      var done := 0;
      var affected := limit;
      assert rows[..0] == [];
      while affected == limit
        invariant 0 <= done <= |rows| && hosts.Keys == old(hosts.Keys)
        invariant Loaded(rows[..done], cursor, old(hosts))
        invariant AllResolvable(old(hosts.Keys), sequences, rows[..done])
        invariant affected != limit ==> done == |rows|
        decreases |rows| - done, affected == limit
      {
        var end := if done + limit <= |rows| then done + limit else |rows|;
        ok, cursor := LoadBlock(rows[done..end], cursor, rows[..done], old(hosts));
        SplitPages(old(hosts.Keys), sequences, rows, done, end);
        if !ok {
          return false;
        }
        affected := end - done;
        done := end;
      }
      assert rows[..done] == rows;
      LoadedComplete(hosts, sequences, rows);
      ok := true;
    }

    // ----- init_config

    /** The thread of one host. */
    method LoadHost(h: DbId, d: Device) returns (ghost tables: map<string, OidTable>)
      requires h in hosts && AllEmpty(hosts[h]) && ValidDevice(d)
      modifies this`hosts, this`mappingDone
      ensures hosts == old(hosts)[h := tables] && tables.Keys == old(hosts)[h].Keys && HostLoaded(tables, d)
      ensures mappingDone == old(mappingDone) + (if AllOpen(old(hosts)[h], d) then {h} else {})
      ensures AllOpen(old(hosts)[h], d) ==> AllWalked(tables, d)
    {
      var info := new HostInfo(hosts[h]);
      info.ThreadStart(d);
      assert AllOpen(info.oidTable, d) <==> AllOpen(hosts[h], d) by {
        assert forall key :: key in info.oidTable <==> key in info.oidTable.Keys;
        assert forall key :: key in hosts[h] <==> key in hosts[h].Keys;
      }
      hosts, tables := hosts[h := info.oidTable], info.oidTable;
      if info.mappingDone {
        mappingDone := mappingDone + {h};
      }
    }

    /** One thread per host loads its tables; each works on its own host, so they are taken one after the other. */
    method LoadHostTables(devices: DbId -> Device)
      requires FreshTables(hosts) && mappingDone == {} && ValidDevices(hosts.Keys, devices)
      modifies this`hosts, this`mappingDone
      ensures HostsLoaded(old(hosts), hosts, mappingDone, {}, devices)
    {
      var todo := hosts.Keys;
      while todo != {}
        invariant HostsLoaded(old(hosts), hosts, mappingDone, todo, devices)
        decreases |todo|
      {
        var h :| h in todo;
        ghost var before, done := hosts, mappingDone;
        ghost var tables := LoadHost(h, devices(h));
        OneMoreLoaded(old(hosts), before, done, todo, devices, h, tables);
        todo := todo - {h};
      }
    }

    /**
     The lookup loop. Indexing the table map with a missing key creates an entry, so the
     host's tables stay as they are only if all keys of the sequence are there.
     */
    method Resolve(h: DbId, oids: seq<string>, premap: string) returns (last: string)
      requires h in hosts
      modifies this`hosts
      ensures last == Mapped(old(hosts)[h], oids, premap)
      ensures LookedUp(old(hosts)[h], oids, premap, last)
      ensures Tables(old(hosts)[h], oids) ==> hosts == old(hosts)
      ensures SameTables(old(hosts), hosts)
    {
      MappedLooksUp(hosts[h], oids, premap);
      last := premap;
      var l := 0;
      assert oids[0..] == oids;
      while l < |oids|
        invariant 0 <= l <= |oids|
        invariant Mapped(old(hosts)[h], oids, premap) == Mapped(old(hosts)[h], oids[l..], last)
        invariant Tables(old(hosts)[h], oids) ==> hosts == old(hosts)
        invariant SameTables(old(hosts), hosts)
      {
        if oids[l] !in hosts[h] {
          hosts := hosts[h := hosts[h][oids[l] := EmptyTable("")]];
        }
        assert SuffixesOf(hosts[h], oids[l]) == SuffixesOf(old(hosts)[h], oids[l]);
        if last !in hosts[h][oids[l]].suffixOf {
          last := "";
          return;
        }
        last := hosts[h][oids[l]].suffixOf[last];
        l := l + 1;
      }
    }

    /** The collections of one host of one class. */
    method MapHostCollections(g: HostGroup) returns (mapped: HostGroup)
      requires HostKnown(hosts, sequences, g)
      modifies this`hosts
      ensures mapped == MapHost(old(hosts), mappingDone, sequences, g)
      ensures SameTables(old(hosts), hosts) && (HostComplete(old(hosts), sequences, g) ==> hosts == old(hosts))
    {
      mapped := g;
      if g.hostId !in mappingDone {
        return;
      }
      var k := 0;
      while k < |g.collections|
        invariant 0 <= k <= |g.collections|
        invariant mapped == g.(collections := mapped.collections)
        invariant mapped.collections == MappedUpTo(old(hosts)[g.hostId], sequences, g.collections, k)
        invariant SameTables(old(hosts), hosts) && (HostComplete(old(hosts), sequences, g) ==> hosts == old(hosts))
      {
        var c := g.collections[k];
        assert SequenceKnown(sequences, c);
        assert HostComplete(old(hosts), sequences, g) ==> TablesPresent(old(hosts)[g.hostId], sequences, c);
        SamePostMapping(old(hosts)[g.hostId], hosts[g.hostId], sequences, c);
        var post := c.premap;
        if c.mappingId != -1 {
          post := Resolve(g.hostId, sequences[c.mappingId], c.premap);
        }
        mapped := mapped.(collections := mapped.collections[k := c.(postmap := post)]);
        MappedNext(old(hosts)[g.hostId], sequences, g.collections, k);
        k := k + 1;
      }
      MappedToEnd(old(hosts)[g.hostId], sequences, g.collections);
    }

    method MapClassCollections(c: ClassGroup) returns (mapped: ClassGroup)
      requires ClassKnown(hosts, sequences, c)
      modifies this`hosts
      ensures mapped == MapClass(old(hosts), mappingDone, sequences, c)
      ensures SameTables(old(hosts), hosts) && (ClassComplete(old(hosts), sequences, c) ==> hosts == old(hosts))
    {
      mapped := c;
      var j := 0;
      while j < |c.hosts|
        invariant 0 <= j <= |c.hosts| == |mapped.hosts| && mapped == c.(hosts := mapped.hosts)
        invariant forall i :: 0 <= i < j ==> mapped.hosts[i] == MapHost(old(hosts), mappingDone, sequences, c.hosts[i])
        invariant forall i :: j <= i < |c.hosts| ==> mapped.hosts[i] == c.hosts[i]
        invariant SameTables(old(hosts), hosts) && (ClassComplete(old(hosts), sequences, c) ==> hosts == old(hosts))
      {
        assert HostKnown(old(hosts), sequences, c.hosts[j]);
        assert ClassComplete(old(hosts), sequences, c) ==> HostComplete(old(hosts), sequences, c.hosts[j]);
        SameHostMapping(old(hosts), hosts, mappingDone, sequences, c.hosts[j]);
        var g := MapHostCollections(c.hosts[j]);
        mapped := mapped.(hosts := mapped.hosts[j := g]);
        j := j + 1;
      }
    }

    /** The whole pass: every collection of every loaded host gets its suffix. */
    method MapCollectionSuffixes()
      requires ClassesKnown(hosts, sequences, classes)
      modifies this`hosts, this`classes
      ensures PassDone(old(hosts), mappingDone, sequences, old(classes), classes)
      ensures classes == MapClasses(old(hosts), mappingDone, sequences, old(classes))
      ensures SameTables(old(hosts), hosts)
          && (ClassesComplete(old(hosts), sequences, old(classes)) ==> hosts == old(hosts))
    {
      var i := 0;
      while i < |classes|
        invariant 0 <= i <= |classes| == |old(classes)|
        invariant forall j :: 0 <= j < i ==> classes[j] == MapClass(old(hosts), mappingDone, sequences, old(classes)[j])
        invariant forall j :: i <= j < |classes| ==> classes[j] == old(classes)[j]
        invariant SameTables(old(hosts), hosts)
            && (ClassesComplete(old(hosts), sequences, old(classes)) ==> hosts == old(hosts))
      {
        assert ClassKnown(old(hosts), sequences, old(classes)[i]);
        assert ClassesComplete(old(hosts), sequences, old(classes)) ==>
            ClassComplete(old(hosts), sequences, old(classes)[i]);
        SameClassMapping(old(hosts), hosts, mappingDone, sequences, classes[i]);
        var c := MapClassCollections(classes[i]);
        classes := classes[i := c];
        i := i + 1;
      }
      PassMapped(old(hosts), mappingDone, sequences, old(classes));
    }

    /**
     Tables and suffixes of a configuration as the load leaves it. No lookup of the pass ever
     creates a table, so the tables at the end are what the walks found, under the same OIDs.
     */
    method InitConfig(devices: DbId -> Device)
      requires FreshTables(hosts) && mappingDone == {} && ClassesComplete(hosts, sequences, classes)
      requires ValidDevices(hosts.Keys, devices)
      modifies this`hosts, this`mappingDone, this`classes
      ensures PassDone(hosts, mappingDone, sequences, old(classes), classes)
      ensures classes == MapClasses(hosts, mappingDone, sequences, old(classes))
      ensures HostsLoaded(old(hosts), hosts, mappingDone, {}, devices)
      ensures NamesRecovered(hosts, mappingDone, sequences, classes, devices)
    {
      LoadHostTables(devices);
      StillComplete(old(hosts), hosts, sequences, classes);
      CompleteIsKnown(hosts, sequences, classes);
      MapCollectionSuffixes();
      MappedNamesRecovered(hosts, mappingDone, sequences, old(classes), devices);
    }
  }

  predicate AllResolvable(known: set<DbId>, sequences: map<int, seq<string>>, rows: seq<Row>) {
    forall i :: 0 <= i < |rows| ==> Resolvable(known, sequences, rows[i])
  }

  /** The rows so far are the earlier ones and the first `k` of the page. */
  ghost predicate Took(rows: seq<Row>, done: seq<Row>, page: seq<Row>, k: nat) {
    k <= |page| && |rows| == |done| + k
    && (forall i :: 0 <= i < |done| ==> rows[i] == done[i])
    && (forall i :: 0 <= i < k ==> rows[|done| + i] == page[i])
  }

  lemma {:induction false} TakeOne(rows: seq<Row>, done: seq<Row>, page: seq<Row>, k: nat)
    requires Took(rows, done, page, k) && k < |page|
    ensures Took(rows + [page[k]], done, page, k + 1)
  {
  }

  lemma {:induction false} TookAll(rows: seq<Row>, done: seq<Row>, page: seq<Row>)
    requires Took(rows, done, page, |page|)
    ensures rows == done + page
  {
    forall i | 0 <= i < |rows| ensures rows[i] == (done + page)[i] {
      assert i >= |done| ==> rows[|done| + (i - |done|)] == page[i - |done|];
    }
  }

  lemma {:induction false} StillHasTables(before: HostTables, after: HostTables, sequences: map<int, seq<string>>,
                                          h: DbId, oids: set<string>, r: Row)
    requires Added(before, after, h, oids) && HasTables(before, sequences, r)
    ensures HasTables(after, sequences, r)
  {
    assert before[r.hostId].Keys <= after[r.hostId].Keys;
    if r.mapping.Some? {
      var chain := sequences[r.mapping.value];
      forall i | 0 <= i < |chain| ensures chain[i] in after[r.hostId] {
        assert chain[i] in before[r.hostId].Keys;
      }
    }
  }

  lemma {:induction false} KeysAdded(start: HostTables, before: HostTables, after: HostTables,
                                     sequences: map<int, seq<string>>, rows: seq<Row>, r: Row)
    requires ExactKeys(start, before, sequences, rows) && Added(before, after, r.hostId, RowOids(sequences, r))
    ensures ExactKeys(start, after, sequences, rows + [r])
  {
    assert (rows + [r])[..|rows|] == rows;
    forall h | h in after ensures after[h].Keys == start[h].Keys + OidsOf(sequences, rows + [r], h) {
      assert before[h].Keys == start[h].Keys + OidsOf(sequences, rows, h);
    }
  }

  lemma {:induction false} NewRowHasTables(before: HostTables, after: HostTables, sequences: map<int, seq<string>>,
                                           r: Row)
    requires Added(before, after, r.hostId, RowOids(sequences, r)) && Resolvable(before.Keys, sequences, r)
    ensures HasTables(after, sequences, r)
  {
    if r.mapping.Some? {
      var chain := sequences[r.mapping.value];
      forall i | 0 <= i < |chain| ensures chain[i] in after[r.hostId] {
        assert chain[i] in OidSet(chain);
      }
    }
  }

  lemma {:induction false} RowTablesAdded(start: HostTables, before: HostTables, after: HostTables,
                                          sequences: map<int, seq<string>>, rows: seq<Row>, r: Row)
    requires TablesLoaded(start, before, sequences, rows) && FreshTables(after)
    requires Added(before, after, r.hostId, RowOids(sequences, r)) && Resolvable(before.Keys, sequences, r)
    ensures TablesLoaded(start, after, sequences, rows + [r])
  {
    KeysAdded(start, before, after, sequences, rows, r);
    NewRowHasTables(before, after, sequences, r);
    forall i | 0 <= i < |rows| ensures HasTables(after, sequences, rows[i]) {
      assert HasTables(before, sequences, rows[i]);
      StillHasTables(before, after, sequences, r.hostId, RowOids(sequences, r), rows[i]);
    }
  }

  lemma {:induction false} CursorAdvances(rows: seq<Row>, r: Row, classes: seq<ClassGroup>, c: Cursor)
    requires Opened(classes, c, r)
    ensures CursorAt(rows + [r], AddCollection(classes, c.hostIndex, CollectionOf(r)), c)
  {
  }

  lemma {:induction false} SplitPages(known: set<DbId>, sequences: map<int, seq<string>>, rows: seq<Row>, done: nat,
                                      end: nat)
    requires done <= end <= |rows|
    ensures rows[..done] + rows[done..end] == rows[..end]
    ensures AllResolvable(known, sequences, rows[..end])
       <==> AllResolvable(known, sequences, rows[..done]) && AllResolvable(known, sequences, rows[done..end])
    ensures AllResolvable(known, sequences, rows) ==> AllResolvable(known, sequences, rows[..end])
  {
    assert rows[..done] + rows[done..end] == rows[..end];
    forall i | 0 <= i < |rows[done..end]| ensures rows[done..end][i] == rows[..end][done + i] {
    }
  }

  /** The class and the host of the row are the last ones and the cursor points at them. */
  ghost predicate Opened(classes: seq<ClassGroup>, c: Cursor, r: Row) {
    && classes != []
    && var hosts := classes[|classes| - 1].hosts;
       hosts != [] && c == Cursor(r.classId, r.hostId, |hosts| - 1)
  }

  function AddCollection(classes: seq<ClassGroup>, hostIndex: int, k: Collection): seq<ClassGroup>
    requires classes != [] && 0 <= hostIndex < |classes[|classes| - 1].hosts|
  {
    var last := classes[|classes| - 1];
    var host := last.hosts[hostIndex];
    classes[|classes| - 1 := last.(hosts := last.hosts[hostIndex := host.(collections := host.collections + [k])])]
  }

  /** Opening what is new and then adding the collection is adding the row. */
  lemma {:induction false} OpenedMatches(before: seq<ClassGroup>, after: seq<ClassGroup>, c: Cursor, r: Row)
    requires Opened(after, c, r)
    requires
      var same := before != [] && before[|before| - 1].dbId == r.classId;
      var hosts := if same then before[|before| - 1].hosts else [];
      var hosts' := if hosts != [] && hosts[|hosts| - 1].hostId == r.hostId then hosts
          else hosts + [HostGroup(r.hostId, [])];
      after == if same then before[|before| - 1 := before[|before| - 1].(hosts := hosts')]
                else before + [ClassGroup(r.classId, r.className, r.interval, hosts')]
    ensures AddCollection(after, c.hostIndex, CollectionOf(r)) == AppendRow(before, r)
  {
    var same := before != [] && before[|before| - 1].dbId == r.classId;
    var hosts := if same then before[|before| - 1].hosts else [];
    assert [] + [CollectionOf(r)] == [CollectionOf(r)];
    assert (hosts + [HostGroup(r.hostId, [])])[|hosts| := HostGroup(r.hostId, [CollectionOf(r)])]
        == hosts + [HostGroup(r.hostId, [CollectionOf(r)])];
  }

  // ----- hosts as their threads leave them

  ghost predicate ValidDevices(ids: set<DbId>, devices: DbId -> Device) {
    forall h :: h in ids ==> ValidDevice(devices(h))
  }

  /**
   The hosts not in `todo` have loaded: their tables are what the walks found, under the same
   OIDs, and those are done for which every OID parsed and every session opened.
   */
  ghost predicate HostsLoaded(before: HostTables, now: HostTables, done: set<DbId>, todo: set<DbId>,
                              devices: DbId -> Device) {
    && todo <= now.Keys == before.Keys
    && (forall h :: h in before ==> now[h].Keys == before[h].Keys)
    && (forall h :: h in todo ==> now[h] == before[h])
    && (forall h :: h in before && h !in todo ==> HostLoaded(now[h], devices(h)))
    && (forall h :: h in done ==> h in now && AllWalked(now[h], devices(h)))
    && (forall h :: h in done <==> h in before && h !in todo && AllOpen(before[h], devices(h)))
  }

  lemma {:induction false} OneMoreLoaded(before: HostTables, now: HostTables, done: set<DbId>, todo: set<DbId>,
                                         devices: DbId -> Device, h: DbId, tables: map<string, OidTable>)
    requires HostsLoaded(before, now, done, todo, devices) && h in todo
    requires tables.Keys == before[h].Keys && HostLoaded(tables, devices(h))
    requires AllOpen(before[h], devices(h)) ==> AllWalked(tables, devices(h))
    ensures HostsLoaded(before, now[h := tables],
                        done + (if AllOpen(before[h], devices(h)) then {h} else {}), todo - {h}, devices)
  {
  }

  // ----- the way back from the mapped suffixes

  ghost predicate NameRecovered(tables: map<string, OidTable>, sequences: map<int, seq<string>>, x: Collection,
                                d: Device) {
    var oids := SequenceOf(sequences, x.mappingId);
    if x.mappingId == -1 then x.postmap == x.premap
    else x.postmap != "" && ChainDistinct(oids, d) ==> FollowBack(tables, oids, x.postmap) == Some(x.premap)
  }

  ghost predicate HostRecovered(hosts: HostTables, done: set<DbId>, sequences: map<int, seq<string>>, g: HostGroup,
                                devices: DbId -> Device) {
    g.hostId in done && g.hostId in hosts ==>
      forall k :: 0 <= k < |g.collections| ==>
        NameRecovered(hosts[g.hostId], sequences, g.collections[k], devices(g.hostId))
  }

  /** Every collection of a loaded host that got a suffix leads back from it to the name it was configured with. */
  ghost predicate NamesRecovered(hosts: HostTables, done: set<DbId>, sequences: map<int, seq<string>>,
                                 classes: seq<ClassGroup>, devices: DbId -> Device) {
    forall c, j :: 0 <= c < |classes| && 0 <= j < |classes[c].hosts| ==>
      HostRecovered(hosts, done, sequences, classes[c].hosts[j], devices)
  }

  lemma {:induction false} MappedHostRecovered(hosts: HostTables, done: set<DbId>, sequences: map<int, seq<string>>,
                                               g: HostGroup, devices: DbId -> Device)
    requires g.hostId in hosts ==> HostLoaded(hosts[g.hostId], devices(g.hostId))
    ensures HostRecovered(hosts, done, sequences, MapHost(hosts, done, sequences, g), devices)
  {
    if g.hostId in done && g.hostId in hosts {
      var tables, d := hosts[g.hostId], devices(g.hostId);
      var mapped := MapHost(hosts, done, sequences, g);
      forall k | 0 <= k < |mapped.collections| ensures NameRecovered(tables, sequences, mapped.collections[k], d) {
        var x := mapped.collections[k];
        var oids := SequenceOf(sequences, x.mappingId);
        if x.mappingId != -1 && x.postmap != "" && ChainDistinct(oids, d) {
          LoadedMappingRoundTrip(tables, oids, x.premap, d);
        }
      }
    }
  }

  lemma {:induction false} MappedNamesRecovered(hosts: HostTables, done: set<DbId>, sequences: map<int, seq<string>>,
                                                classes: seq<ClassGroup>, devices: DbId -> Device)
    requires forall h :: h in hosts ==> HostLoaded(hosts[h], devices(h))
    ensures NamesRecovered(hosts, done, sequences, MapClasses(hosts, done, sequences, classes), devices)
  {
    var mapped := MapClasses(hosts, done, sequences, classes);
    forall c, j | 0 <= c < |mapped| && 0 <= j < |mapped[c].hosts|
      ensures HostRecovered(hosts, done, sequences, mapped[c].hosts[j], devices)
    {
      MappedHostRecovered(hosts, done, sequences, classes[c].hosts[j], devices);
    }
  }

  // ----- from rows to groups

  /** Tables for all rows are tables for all collections of their groups. */
  lemma {:induction false} LoadedComplete(hosts: HostTables, sequences: map<int, seq<string>>, rows: seq<Row>)
    requires AllHaveTables(hosts, sequences, rows)
    ensures ClassesComplete(hosts, sequences, GroupClasses(rows))
  {
    var groups := GroupClasses(rows);
    forall c, j | 0 <= c < |groups| && 0 <= j < |groups[c].hosts|
      ensures HostComplete(hosts, sequences, groups[c].hosts[j])
    {
      HostGroupComplete(hosts, sequences, rows, c, j);
    }
  }

  lemma {:induction false} HostGroupComplete(hosts: HostTables, sequences: map<int, seq<string>>, rows: seq<Row>,
                                             c: nat, j: nat)
    requires AllHaveTables(hosts, sequences, rows)
    requires c < |GroupClasses(rows)| && j < |GroupClasses(rows)[c].hosts|
    ensures HostComplete(hosts, sequences, GroupClasses(rows)[c].hosts[j])
  {
    var g := GroupClasses(rows)[c].hosts[j];
    GroupNonempty(rows, c, j);
    var first := CollectionOrigin(rows, c, j, 0);
    assert HasTables(hosts, sequences, rows[first]);
    forall k | 0 <= k < |g.collections| ensures TablesPresent(hosts[g.hostId], sequences, g.collections[k]) {
      var i := CollectionOrigin(rows, c, j, k);
      assert HasTables(hosts, sequences, rows[i]);
    }
  }

  // ----- the pass does not see the entries it creates

  /** The collections with the first `k` of them mapped. */
  ghost function MappedUpTo(tables: map<string, OidTable>, sequences: map<int, seq<string>>, cs: seq<Collection>,
                            k: nat): seq<Collection> {
    seq(|cs|, i requires 0 <= i < |cs| =>
      if i < k then cs[i].(postmap := PostMapping(tables, sequences, cs[i])) else cs[i])
  }

  lemma {:induction false} MappedNext(tables: map<string, OidTable>, sequences: map<int, seq<string>>,
                                      cs: seq<Collection>, k: nat)
    requires k < |cs|
    ensures MappedUpTo(tables, sequences, cs, k + 1)
         == MappedUpTo(tables, sequences, cs, k)[k := cs[k].(postmap := PostMapping(tables, sequences, cs[k]))]
  {
  }

  lemma {:induction false} MappedToEnd(tables: map<string, OidTable>, sequences: map<int, seq<string>>,
                                       cs: seq<Collection>)
    ensures MappedUpTo(tables, sequences, cs, |cs|) == MapCollections(tables, sequences, cs)
  {
  }

  /** A collection's suffix as the loop computes it, from tables that may have grown empty entries. */
  lemma {:induction false} SamePostMapping(a: map<string, OidTable>, b: map<string, OidTable>,
                                           sequences: map<int, seq<string>>, c: Collection)
    requires SameLookups(a, b)
    ensures PostMapping(a, sequences, c) == PostMapping(b, sequences, c)
  {
    SameSuffixes(a, b, SequenceOf(sequences, c.mappingId), c.premap);
  }

  lemma {:induction false} SameHostMapping(a: HostTables, b: HostTables, done: set<DbId>,
                                           sequences: map<int, seq<string>>, g: HostGroup)
    requires SameTables(a, b)
    ensures MapHost(a, done, sequences, g) == MapHost(b, done, sequences, g)
  {
    var ta, tb := TablesOf(a, g.hostId), TablesOf(b, g.hostId);
    forall k | 0 <= k < |g.collections|
      ensures PostMapping(ta, sequences, g.collections[k]) == PostMapping(tb, sequences, g.collections[k])
    {
      SamePostMapping(ta, tb, sequences, g.collections[k]);
    }
  }

  lemma {:induction false} SameClassMapping(a: HostTables, b: HostTables, done: set<DbId>,
                                            sequences: map<int, seq<string>>, c: ClassGroup)
    requires SameTables(a, b)
    ensures MapClass(a, done, sequences, c) == MapClass(b, done, sequences, c)
  {
    forall j | 0 <= j < |c.hosts|
      ensures MapHost(a, done, sequences, c.hosts[j]) == MapHost(b, done, sequences, c.hosts[j])
    {
      SameHostMapping(a, b, done, sequences, c.hosts[j]);
    }
  }
}
