/** The nested classes, hosts and collections of a configuration, and grouping rows into them. */
module CollectionGroups {
  import opened Options

  /** Database keys; -1 is what the loader uses for "none yet" and no key has that value. */
  type DbId = i: int | i != -1 witness 0

  /** One row of the collection query. */
  datatype Row = Row(
    classId: DbId,
    className: string,
    interval: int,
    hostId: DbId,
    mapping: Option<DbId>,
    rrdFile: string,
    premap: string)

  /** The mapping sequence is -1 when the row has none; the suffix after mapping is filled in later. */
  datatype Collection = Collection(rrdFile: string, premap: string, mappingId: int, postmap: string)
  datatype HostGroup = HostGroup(hostId: DbId, collections: seq<Collection>)
  datatype ClassGroup = ClassGroup(dbId: DbId, name: string, interval: int, hosts: seq<HostGroup>)

  function CollectionOf(r: Row): Collection {
    Collection(r.rrdFile, r.premap, if r.mapping.None? then -1 else r.mapping.value, "")
  }

  // ----- the reference: all rows at once, by maximal runs of equal keys

  function ClassRun(rows: seq<Row>): (n: nat)
    ensures n <= |rows| && (rows != [] ==> n > 0)
    ensures forall i :: 0 <= i < n ==> rows[i].classId == rows[0].classId
    ensures n < |rows| ==> rows[n].classId != rows[0].classId
  {
    if |rows| <= 1 then |rows|
    else if rows[1].classId != rows[0].classId then 1
    else
      assert forall i :: 0 <= i < |rows[1..]| ==> rows[1..][i] == rows[i + 1];
      1 + ClassRun(rows[1..])
  }

  function HostRun(rows: seq<Row>): (n: nat)
    ensures n <= |rows| && (rows != [] ==> n > 0)
    ensures forall i :: 0 <= i < n ==> rows[i].hostId == rows[0].hostId
    ensures n < |rows| ==> rows[n].hostId != rows[0].hostId
  {
    if |rows| <= 1 then |rows|
    else if rows[1].hostId != rows[0].hostId then 1
    else
      assert forall i :: 0 <= i < |rows[1..]| ==> rows[1..][i] == rows[i + 1];
      1 + HostRun(rows[1..])
  }

  function Collections(rows: seq<Row>): seq<Collection> {
    seq(|rows|, i requires 0 <= i < |rows| => CollectionOf(rows[i]))
  }

  function GroupHosts(rows: seq<Row>): seq<HostGroup>
    decreases |rows|
  {
    if rows == [] then []
    else
      var n := HostRun(rows);
      [HostGroup(rows[0].hostId, Collections(rows[..n]))] + GroupHosts(rows[n..])
  }

  function GroupClasses(rows: seq<Row>): seq<ClassGroup>
    decreases |rows|
  {
    if rows == [] then []
    else
      var n := ClassRun(rows);
      [ClassGroup(rows[0].classId, rows[0].className, rows[0].interval, GroupHosts(rows[..n]))]
      + GroupClasses(rows[n..])
  }

  // ----- one row more

  function AppendToHosts(hosts: seq<HostGroup>, r: Row): seq<HostGroup> {
    if hosts != [] && hosts[|hosts| - 1].hostId == r.hostId then
      var last := hosts[|hosts| - 1];
      hosts[|hosts| - 1 := last.(collections := last.collections + [CollectionOf(r)])]
    else
      hosts + [HostGroup(r.hostId, [CollectionOf(r)])]
  }

  function AppendRow(classes: seq<ClassGroup>, r: Row): seq<ClassGroup> {
    if classes != [] && classes[|classes| - 1].dbId == r.classId then
      var last := classes[|classes| - 1];
      classes[|classes| - 1 := last.(hosts := AppendToHosts(last.hosts, r))]
    else
      classes + [ClassGroup(r.classId, r.className, r.interval, AppendToHosts([], r))]
  }

  lemma {:induction false} RunsOfAppend(rows: seq<Row>, r: Row)
    requires rows != []
    ensures HostRun(rows + [r]) ==
      if HostRun(rows) == |rows| && r.hostId == rows[0].hostId then |rows| + 1 else HostRun(rows)
    ensures ClassRun(rows + [r]) ==
      if ClassRun(rows) == |rows| && r.classId == rows[0].classId then |rows| + 1 else ClassRun(rows)
  {
    if |rows| > 1 {
      assert (rows + [r])[1..] == rows[1..] + [r];
      RunsOfAppend(rows[1..], r);
    } else {
      assert (rows + [r])[1..] == [r];
    }
  }

  lemma {:induction false} GroupHostsCons(rows: seq<Row>)
    requires rows != []
    ensures var n := HostRun(rows);
      GroupHosts(rows) == [HostGroup(rows[0].hostId, Collections(rows[..n]))] + GroupHosts(rows[n..])
  {
  }

  lemma {:induction false} GroupClassesCons(rows: seq<Row>)
    requires rows != []
    ensures var n := ClassRun(rows);
      GroupClasses(rows)
      == [ClassGroup(rows[0].classId, rows[0].className, rows[0].interval, GroupHosts(rows[..n]))]
         + GroupClasses(rows[n..])
  {
  }

  /** The last group of a nonempty grouping is that of the last row. */
  lemma {:induction false} LastHost(rows: seq<Row>)
    requires rows != []
    ensures GroupHosts(rows) != [] && GroupHosts(rows)[|GroupHosts(rows)| - 1].hostId == rows[|rows| - 1].hostId
    decreases |rows|
  {
    var n := HostRun(rows);
    if n < |rows| {
      var rest := GroupHosts(rows[n..]);
      LastHost(rows[n..]);
      GroupHostsCons(rows);
      assert GroupHosts(rows)[|rest|] == rest[|rest| - 1];
    } else {
      OneHost(rows);
    }
  }

  lemma {:induction false} LastClass(rows: seq<Row>)
    requires rows != []
    ensures GroupClasses(rows) != [] && GroupClasses(rows)[|GroupClasses(rows)| - 1].dbId == rows[|rows| - 1].classId
    decreases |rows|
  {
    var n := ClassRun(rows);
    if n < |rows| {
      var rest := GroupClasses(rows[n..]);
      LastClass(rows[n..]);
      GroupClassesCons(rows);
      assert GroupClasses(rows)[|rest|] == rest[|rest| - 1];
    } else {
      OneClass(rows);
    }
  }

  lemma {:induction false} AppendToHostsTail(first: HostGroup, rest: seq<HostGroup>, r: Row)
    requires rest != []
    ensures AppendToHosts([first] + rest, r) == [first] + AppendToHosts(rest, r)
  {
    assert ([first] + rest)[|rest|] == rest[|rest| - 1];
  }

  lemma {:induction false} AppendRowTail(first: ClassGroup, rest: seq<ClassGroup>, r: Row)
    requires rest != []
    ensures AppendRow([first] + rest, r) == [first] + AppendRow(rest, r)
  {
    assert ([first] + rest)[|rest|] == rest[|rest| - 1];
  }

  lemma {:induction false} OneHost(rows: seq<Row>)
    requires rows != [] && HostRun(rows) == |rows|
    ensures GroupHosts(rows) == [HostGroup(rows[0].hostId, Collections(rows))]
  {
    assert rows[..|rows|] == rows && rows[|rows|..] == [];
  }

  lemma {:induction false} OneClass(rows: seq<Row>)
    requires rows != [] && ClassRun(rows) == |rows|
    ensures GroupClasses(rows) == [ClassGroup(rows[0].classId, rows[0].className, rows[0].interval, GroupHosts(rows))]
  {
    assert rows[..|rows|] == rows && rows[|rows|..] == [];
  }

  /** A row that starts a new host or class after a single run. */
  lemma {:induction false} SplitAfterRun(rows: seq<Row>, r: Row)
    requires rows != []
    ensures (rows + [r])[..|rows|] == rows && (rows + [r])[|rows|..] == [r]
    ensures GroupHosts([r]) == [HostGroup(r.hostId, [CollectionOf(r)])]
    ensures GroupClasses([r]) == [ClassGroup(r.classId, r.className, r.interval, GroupHosts([r]))]
  {
    OneHost([r]);
    OneClass([r]);
    assert Collections([r]) == [CollectionOf(r)];
  }

  lemma {:induction false} GroupHostsOneRun(rows: seq<Row>, r: Row)
    requires rows != [] && HostRun(rows) == |rows|
    ensures GroupHosts(rows + [r]) == AppendToHosts(GroupHosts(rows), r)
  {
    OneHost(rows);
    RunsOfAppend(rows, r);
    SplitAfterRun(rows, r);
    if r.hostId == rows[0].hostId {
      OneHost(rows + [r]);
      assert Collections(rows + [r]) == Collections(rows) + [CollectionOf(r)];
    }
  }

  lemma {:induction false} GroupHostsAppend(rows: seq<Row>, r: Row)
    ensures GroupHosts(rows + [r]) == AppendToHosts(GroupHosts(rows), r)
    decreases |rows|
  {
    if rows == [] {
      assert [] + [r] == [r];
      OneHost([r]);
      assert Collections([r]) == [CollectionOf(r)];
    } else if HostRun(rows) == |rows| {
      GroupHostsOneRun(rows, r);
    } else {
      var n := HostRun(rows);
      RunsOfAppend(rows, r);
      assert (rows + [r])[..n] == rows[..n] && (rows + [r])[n..] == rows[n..] + [r];
      GroupHostsAppend(rows[n..], r);
      LastHost(rows[n..]);
      AppendToHostsTail(HostGroup(rows[0].hostId, Collections(rows[..n])), GroupHosts(rows[n..]), r);
    }
  }

  lemma {:induction false} AppendRowToOne(c: ClassGroup, r: Row)
    ensures AppendRow([c], r) ==
      if c.dbId == r.classId then [c.(hosts := AppendToHosts(c.hosts, r))]
      else [c] + [ClassGroup(r.classId, r.className, r.interval, [HostGroup(r.hostId, [CollectionOf(r)])])]
  {
    assert AppendToHosts([], r) == [HostGroup(r.hostId, [CollectionOf(r)])];
  }

  lemma {:induction false} GroupClassesOneRun(rows: seq<Row>, r: Row)
    requires rows != [] && ClassRun(rows) == |rows|
    ensures GroupClasses(rows + [r]) == AppendRow(GroupClasses(rows), r)
  {
    OneClass(rows);
    RunsOfAppend(rows, r);
    AppendRowToOne(GroupClasses(rows)[0], r);
    if r.classId == rows[0].classId {
      OneClass(rows + [r]);
      GroupHostsAppend(rows, r);
    } else {
      SplitAfterRun(rows, r);
    }
  }

  /** Adding a row to the grouping of all earlier rows groups all rows. */
  lemma {:induction false} GroupClassesAppend(rows: seq<Row>, r: Row)
    ensures GroupClasses(rows + [r]) == AppendRow(GroupClasses(rows), r)
    decreases |rows|
  {
    if rows == [] {
      assert [] + [r] == [r];
      OneClass([r]);
      GroupHostsAppend([], r);
    } else if ClassRun(rows) == |rows| {
      GroupClassesOneRun(rows, r);
    } else {
      var n := ClassRun(rows);
      RunsOfAppend(rows, r);
      assert (rows + [r])[..n] == rows[..n] && (rows + [r])[n..] == rows[n..] + [r];
      GroupClassesAppend(rows[n..], r);
      LastClass(rows[n..]);
      var first := ClassGroup(rows[0].classId, rows[0].className, rows[0].interval, GroupHosts(rows[..n]));
      AppendRowTail(first, GroupClasses(rows[n..]), r);
    }
  }

  // ----- where a collection comes from

  lemma {:induction false} HostOrigin(rows: seq<Row>, j: nat, k: nat) returns (i: nat)
    requires j < |GroupHosts(rows)| && k < |GroupHosts(rows)[j].collections|
    ensures i < |rows| && rows[i].hostId == GroupHosts(rows)[j].hostId
    ensures CollectionOf(rows[i]) == GroupHosts(rows)[j].collections[k]
    decreases |rows|
  {
    var n := HostRun(rows);
    GroupHostsCons(rows);
    if j == 0 {
      i := k;
    } else {
      i := HostOrigin(rows[n..], j - 1, k);
      i := n + i;
    }
  }

  /** Every collection of the groups is that of a row of the same host. */
  lemma {:induction false} CollectionOrigin(rows: seq<Row>, c: nat, j: nat, k: nat) returns (i: nat)
    requires c < |GroupClasses(rows)| && j < |GroupClasses(rows)[c].hosts|
    requires k < |GroupClasses(rows)[c].hosts[j].collections|
    ensures i < |rows| && rows[i].hostId == GroupClasses(rows)[c].hosts[j].hostId
    ensures CollectionOf(rows[i]) == GroupClasses(rows)[c].hosts[j].collections[k]
    decreases |rows|
  {
    var n := ClassRun(rows);
    GroupClassesCons(rows);
    if c == 0 {
      i := HostOrigin(rows[..n], j, k);
    } else {
      i := CollectionOrigin(rows[n..], c - 1, j, k);
      i := n + i;
    }
  }

  lemma {:induction false} HostNonempty(rows: seq<Row>, j: nat)
    requires j < |GroupHosts(rows)|
    ensures GroupHosts(rows)[j].collections != []
    decreases |rows|
  {
    GroupHostsCons(rows);
    if j > 0 { HostNonempty(rows[HostRun(rows)..], j - 1); }
  }

  /** No host of the groups is without a collection. */
  lemma {:induction false} GroupNonempty(rows: seq<Row>, c: nat, j: nat)
    requires c < |GroupClasses(rows)| && j < |GroupClasses(rows)[c].hosts|
    ensures GroupClasses(rows)[c].hosts[j].collections != []
    decreases |rows|
  {
    var n := ClassRun(rows);
    GroupClassesCons(rows);
    if c == 0 { HostNonempty(rows[..n], j); } else { GroupNonempty(rows[n..], c - 1, j); }
  }

  // ----- what the grouping preserves

  function FlattenHost(c: ClassGroup, h: HostGroup): seq<Row> {
    seq(|h.collections|, i requires 0 <= i < |h.collections| =>
      var k := h.collections[i];
      Row(c.dbId, c.name, c.interval, h.hostId,
          if k.mappingId == -1 then None else Some(k.mappingId), k.rrdFile, k.premap))
  }

  function FlattenHosts(c: ClassGroup, hosts: seq<HostGroup>): seq<Row> {
    if hosts == [] then [] else FlattenHost(c, hosts[0]) + FlattenHosts(c, hosts[1..])
  }

  function Flatten(classes: seq<ClassGroup>): seq<Row> {
    if classes == [] then [] else FlattenHosts(classes[0], classes[0].hosts) + Flatten(classes[1..])
  }

  /** A class has one name and one interval: the query joins them in by the class key. */
  ghost predicate ClassDetermined(rows: seq<Row>) {
    forall i, j :: 0 <= i < |rows| && 0 <= j < |rows| && rows[i].classId == rows[j].classId ==>
      rows[i].className == rows[j].className && rows[i].interval == rows[j].interval
  }

  ghost predicate OfClass(c: ClassGroup, rows: seq<Row>) {
    forall i :: 0 <= i < |rows| ==>
      rows[i].classId == c.dbId && rows[i].className == c.name && rows[i].interval == c.interval
  }

  lemma {:induction false} FlattenOneHost(c: ClassGroup, rows: seq<Row>, h: HostGroup)
    requires OfClass(c, rows) && h.collections == Collections(rows)
    requires forall i :: 0 <= i < |rows| ==> rows[i].hostId == h.hostId
    ensures FlattenHost(c, h) == rows
  {
  }

  lemma {:induction false} FlattenHostsCons(c: ClassGroup, h: HostGroup, rest: seq<HostGroup>)
    ensures FlattenHosts(c, [h] + rest) == FlattenHost(c, h) + FlattenHosts(c, rest)
  {
    assert ([h] + rest)[1..] == rest;
  }

  lemma {:induction false} FlattenCons(c: ClassGroup, rest: seq<ClassGroup>)
    ensures Flatten([c] + rest) == FlattenHosts(c, c.hosts) + Flatten(rest)
  {
    assert ([c] + rest)[1..] == rest;
  }

  lemma {:induction false} OfClassParts(c: ClassGroup, rows: seq<Row>, n: nat)
    requires OfClass(c, rows) && n <= |rows|
    ensures OfClass(c, rows[..n]) && OfClass(c, rows[n..])
  {
  }

  lemma {:induction false} FlattenGroupedHosts(c: ClassGroup, rows: seq<Row>)
    requires OfClass(c, rows)
    ensures FlattenHosts(c, GroupHosts(rows)) == rows
    decreases |rows|
  {
    if rows != [] {
      var n := HostRun(rows);
      var h := HostGroup(rows[0].hostId, Collections(rows[..n]));
      OfClassParts(c, rows, n);
      calc {
        FlattenHosts(c, GroupHosts(rows));
        { GroupHostsCons(rows); }
        FlattenHosts(c, [h] + GroupHosts(rows[n..]));
        { FlattenHostsCons(c, h, GroupHosts(rows[n..])); }
        FlattenHost(c, h) + FlattenHosts(c, GroupHosts(rows[n..]));
        { FlattenOneHost(c, rows[..n], h); FlattenGroupedHosts(c, rows[n..]); }
        rows[..n] + rows[n..];
        rows;
      }
    }
  }

  lemma {:induction false} RunIsOfClass(rows: seq<Row>, c: ClassGroup)
    requires rows != [] && ClassDetermined(rows)
    requires c.dbId == rows[0].classId && c.name == rows[0].className && c.interval == rows[0].interval
    ensures OfClass(c, rows[..ClassRun(rows)]) && ClassDetermined(rows[ClassRun(rows)..])
  {
    var n := ClassRun(rows);
    assert forall i :: 0 <= i < n ==> rows[..n][i] == rows[i];
    assert forall i :: 0 <= i < |rows| - n ==> rows[n..][i] == rows[n + i];
  }

  /** Flattening the groups gives back exactly the rows, in order. */
  lemma {:induction false} FlattenGrouped(rows: seq<Row>)
    requires ClassDetermined(rows)
    ensures Flatten(GroupClasses(rows)) == rows
    decreases |rows|
  {
    if rows != [] {
      var n := ClassRun(rows);
      var c := ClassGroup(rows[0].classId, rows[0].className, rows[0].interval, GroupHosts(rows[..n]));
      RunIsOfClass(rows, c);
      calc {
        Flatten(GroupClasses(rows));
        { GroupClassesCons(rows); }
        Flatten([c] + GroupClasses(rows[n..]));
        { FlattenCons(c, GroupClasses(rows[n..])); }
        FlattenHosts(c, c.hosts) + Flatten(GroupClasses(rows[n..]));
        { FlattenGroupedHosts(c, rows[..n]); FlattenGrouped(rows[n..]); }
        rows[..n] + rows[n..];
        rows;
      }
    }
  }

  ghost predicate Ordered(rows: seq<Row>) {
    forall i, j :: 0 <= i < j < |rows| ==>
      rows[i].classId < rows[j].classId || (rows[i].classId == rows[j].classId && rows[i].hostId <= rows[j].hostId)
  }

  ghost predicate DistinctHosts(hosts: seq<HostGroup>) {
    forall i, j :: 0 <= i < j < |hosts| ==> hosts[i].hostId < hosts[j].hostId
  }

  ghost predicate HasHost(rows: seq<Row>, id: DbId) { exists j :: 0 <= j < |rows| && rows[j].hostId == id }

  ghost predicate HasClass(rows: seq<Row>, id: DbId) { exists j :: 0 <= j < |rows| && rows[j].classId == id }

  ghost predicate HostsFrom(rows: seq<Row>, hosts: seq<HostGroup>) {
    forall i :: 0 <= i < |hosts| ==> HasHost(rows, hosts[i].hostId)
  }

  ghost predicate ClassesFrom(rows: seq<Row>, classes: seq<ClassGroup>) {
    forall i :: 0 <= i < |classes| ==> HasClass(rows, classes[i].dbId)
  }

  ghost predicate DistinctClasses(classes: seq<ClassGroup>) {
    forall i, j :: 0 <= i < j < |classes| ==> classes[i].dbId < classes[j].dbId
  }

  lemma {:induction false} TailHas(rows: seq<Row>, n: nat, id: DbId)
    requires n <= |rows|
    ensures HasHost(rows[n..], id) ==> HasHost(rows, id)
    ensures HasClass(rows[n..], id) ==> HasClass(rows, id)
  {
    if HasHost(rows[n..], id) {
      var j :| 0 <= j < |rows[n..]| && rows[n..][j].hostId == id;
      assert rows[n + j].hostId == id;
    }
    if HasClass(rows[n..], id) {
      var j :| 0 <= j < |rows[n..]| && rows[n..][j].classId == id;
      assert rows[n + j].classId == id;
    }
  }

  ghost predicate HostOrdered(rows: seq<Row>) {
    forall i, j :: 0 <= i < j < |rows| ==> rows[i].hostId <= rows[j].hostId
  }

  /** Rows after the first run of ordered rows have larger keys. */
  lemma {:induction false} LaterHost(rows: seq<Row>, id: DbId)
    requires rows != [] && HostOrdered(rows) && HasHost(rows[HostRun(rows)..], id)
    ensures rows[0].hostId < id
  {
    var n := HostRun(rows);
    var j :| 0 <= j < |rows[n..]| && rows[n..][j].hostId == id;
    assert rows[n + j].hostId == id && rows[0].hostId < rows[n].hostId <= rows[n + j].hostId;
  }

  lemma {:induction false} LaterClass(rows: seq<Row>, id: DbId)
    requires rows != [] && Ordered(rows) && HasClass(rows[ClassRun(rows)..], id)
    ensures rows[0].classId < id
  {
    var n := ClassRun(rows);
    var j :| 0 <= j < |rows[n..]| && rows[n..][j].classId == id;
    assert rows[n + j].classId == id && rows[0].classId < rows[n].classId <= rows[n + j].classId;
  }

  lemma {:induction false} FirstHostJoins(rows: seq<Row>, h: HostGroup, rest: seq<HostGroup>)
    requires rows != [] && h.hostId == rows[0].hostId && DistinctHosts(rest)
    requires forall i :: 0 <= i < |rest| ==> h.hostId < rest[i].hostId && HasHost(rows, rest[i].hostId)
    ensures DistinctHosts([h] + rest) && HostsFrom(rows, [h] + rest)
  {
    assert HasHost(rows, rows[0].hostId);
  }

  lemma {:induction false} FirstClassJoins(rows: seq<Row>, c: ClassGroup, rest: seq<ClassGroup>)
    requires rows != [] && c.dbId == rows[0].classId && DistinctClasses(rest)
    requires forall i :: 0 <= i < |rest| ==> c.dbId < rest[i].dbId && HasClass(rows, rest[i].dbId)
    ensures DistinctClasses([c] + rest) && ClassesFrom(rows, [c] + rest)
  {
    assert HasClass(rows, rows[0].classId);
  }

  /** With ordered rows each host appears once in its class. */
  lemma {:induction false} HostsOnce(rows: seq<Row>)
    requires HostOrdered(rows)
    ensures DistinctHosts(GroupHosts(rows)) && HostsFrom(rows, GroupHosts(rows))
    decreases |rows|
  {
    if rows != [] {
      var n := HostRun(rows);
      var rest := GroupHosts(rows[n..]);
      HostsOnce(rows[n..]);
      forall i | 0 <= i < |rest| ensures rows[0].hostId < rest[i].hostId && HasHost(rows, rest[i].hostId) {
        LaterHost(rows, rest[i].hostId);
        TailHas(rows, n, rest[i].hostId);
      }
      GroupHostsCons(rows);
      FirstHostJoins(rows, HostGroup(rows[0].hostId, Collections(rows[..n])), rest);
    }
  }

  /** With ordered rows each class appears once. */
  lemma {:induction false} ClassesOnce(rows: seq<Row>)
    requires Ordered(rows)
    ensures DistinctClasses(GroupClasses(rows)) && ClassesFrom(rows, GroupClasses(rows))
    decreases |rows|
  {
    if rows != [] {
      var n := ClassRun(rows);
      var rest := GroupClasses(rows[n..]);
      OrderedTail(rows, n);
      ClassesOnce(rows[n..]);
      forall i | 0 <= i < |rest| ensures rows[0].classId < rest[i].dbId && HasClass(rows, rest[i].dbId) {
        LaterClass(rows, rest[i].dbId);
        TailHas(rows, n, rest[i].dbId);
      }
      GroupClassesCons(rows);
      var first := ClassGroup(rows[0].classId, rows[0].className, rows[0].interval, GroupHosts(rows[..n]));
      FirstClassJoins(rows, first, rest);
    }
  }

  lemma {:induction false} OrderedTail(rows: seq<Row>, n: nat)
    requires Ordered(rows) && n <= |rows|
    ensures Ordered(rows[n..])
  {
  }

  lemma {:induction false} RunHostOrdered(rows: seq<Row>)
    requires Ordered(rows)
    ensures HostOrdered(rows[..ClassRun(rows)])
  {
  }

  /** And within each class each host once. */
  lemma {:induction false} HostsOncePerClass(rows: seq<Row>, k: nat)
    requires Ordered(rows) && k < |GroupClasses(rows)|
    ensures DistinctHosts(GroupClasses(rows)[k].hosts)
    decreases |rows|
  {
    var n := ClassRun(rows);
    GroupClassesCons(rows);
    if k == 0 {
      RunHostOrdered(rows);
      HostsOnce(rows[..n]);
    } else {
      OrderedTail(rows, n);
      HostsOncePerClass(rows[n..], k - 1);
    }
  }
}
