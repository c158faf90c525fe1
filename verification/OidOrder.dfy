/** Object identifiers under lexicographic order, and the instances an agent holds. */
module OidOrder {

  type Oid = seq<nat>

  predicate Less(a: Oid, b: Oid) {
    b != [] && (a == [] || a[0] < b[0] || (a[0] == b[0] && Less(a[1..], b[1..])))
  }

  lemma {:induction false} LessTransitive(a: Oid, b: Oid, c: Oid)
    requires Less(a, b) && Less(b, c)
    ensures Less(a, c)
  {
    if a != [] && a[0] == b[0] == c[0] { LessTransitive(a[1..], b[1..], c[1..]); }
  }

  lemma {:induction false} LessIrreflexive(a: Oid)
    ensures !Less(a, a)
  {
    if a != [] { LessIrreflexive(a[1..]); }
  }

  /** Any two OIDs are comparable, and a prefix comes first: the order of section 4.2.3 of RFC 3416. */
  lemma {:induction false} LessTotal(a: Oid, b: Oid)
    ensures a == b || Less(a, b) || Less(b, a)
    ensures a < b ==> Less(a, b)
    ensures a != [] && b != [] && a[0] < b[0] ==> Less(a, b)
    ensures a != [] && b != [] && a[0] == b[0] ==> (Less(a, b) <==> Less(a[1..], b[1..]))
  {
    if a != [] && b != [] && a[0] == b[0] { LessTotal(a[1..], b[1..]); }
  }

  /** The subtree of `root`: everything that extends it, the root itself excluded. */
  predicate StrictlyUnder(root: Oid, x: Oid) { root < x }

  lemma {:induction false} UnderIsAbove(root: Oid, x: Oid)
    requires root < x
    ensures Less(root, x)
  {
    if root != [] { UnderIsAbove(root[1..], x[1..]); }
  }

  lemma {:induction false} AboveAndWithin(root: Oid, x: Oid)
    requires Less(root, x) && root <= x
    ensures StrictlyUnder(root, x)
  {
    if |root| == |x| {
      assert root == x;
      LessIrreflexive(root);
    }
  }

  /** A subtree is convex: what lies between the root and a member is a member. */
  lemma {:induction false} SubtreeConvex(root: Oid, x: Oid, y: Oid)
    requires Less(root, x) && Less(x, y) && root <= y
    ensures root <= x
  {
    if root != [] {
      assert root[0] == y[0] && root[1..] <= y[1..];
      SubtreeConvex(root[1..], x[1..], y[1..]);
    }
  }

  /** One instance an agent holds; the value is the text extracted from it. */
  datatype Instance = Instance(oid: Oid, value: string)

  ghost predicate Ordered(mib: seq<Instance>) {
    forall i, j :: 0 <= i < j < |mib| ==> Less(mib[i].oid, mib[j].oid)
  }

  /** The index of the first instance beyond `name`. */
  function Beyond(mib: seq<Instance>, name: Oid): (k: nat)
    ensures k <= |mib|
    ensures forall i :: 0 <= i < k ==> !Less(name, mib[i].oid)
    ensures k < |mib| ==> Less(name, mib[k].oid)
  {
    if mib == [] || Less(name, mib[0].oid) then 0 else 1 + Beyond(mib[1..], name)
  }

  /** Everything from that index on lies beyond `name`. */
  lemma {:induction false} BeyondRest(mib: seq<Instance>, name: Oid, i: nat)
    requires Ordered(mib) && Beyond(mib, name) <= i < |mib|
    ensures Less(name, mib[i].oid)
  {
    var k := Beyond(mib, name);
    if k < i { LessTransitive(name, mib[k].oid, mib[i].oid); }
  }

  /** After asking from an instance's own name the agent goes on with the next one. */
  lemma {:induction false} BeyondInstance(mib: seq<Instance>, i: nat)
    requires Ordered(mib) && i < |mib|
    ensures Beyond(mib, mib[i].oid) == i + 1
  {
    var k := Beyond(mib, mib[i].oid);
    LessIrreflexive(mib[i].oid);
    assert i + 1 < |mib| ==> Less(mib[i].oid, mib[i + 1].oid);
    if k <= i {
      BeyondRest(mib, mib[i].oid, i);
    }
  }

  /** The instances of a subtree, in the agent's order: what a walk should deliver. */
  function Subtree(mib: seq<Instance>, root: Oid): seq<Instance> {
    if mib == [] then []
    else (if StrictlyUnder(root, mib[0].oid) then [mib[0]] else []) + Subtree(mib[1..], root)
  }

  /** A stretch of members with non-members before and behind it is the whole subtree. */
  lemma {:induction false} SubtreeIsStretch(mib: seq<Instance>, root: Oid, lo: nat, hi: nat)
    requires lo <= hi <= |mib|
    requires forall i :: 0 <= i < |mib| ==> (StrictlyUnder(root, mib[i].oid) <==> lo <= i < hi)
    ensures Subtree(mib, root) == mib[lo..hi]
  {
    if mib != [] {
      var tail := mib[1..];
      var lo' := if lo > 0 then lo - 1 else 0;
      var hi' := if hi > 0 then hi - 1 else 0;
      assert forall i :: 0 <= i < |tail| ==> tail[i] == mib[i + 1];
      SubtreeIsStretch(tail, root, lo', hi');
      assert StrictlyUnder(root, mib[0].oid) <==> lo == 0 < hi;
      if lo == 0 < hi {
        assert mib[lo..hi] == [mib[0]] + tail[lo'..hi'];
      } else {
        assert mib[lo..hi] == tail[lo'..hi'];
      }
    }
  }

  /** A walk that has delivered `mib[lo..hi]` and then left the subtree has delivered all of it. */
  lemma {:induction false} WalkedSubtree(mib: seq<Instance>, root: Oid, hi: nat)
    requires Ordered(mib) && Beyond(mib, root) <= hi <= |mib|
    requires forall i :: Beyond(mib, root) <= i < hi ==> root <= mib[i].oid
    requires hi < |mib| ==> !(root <= mib[hi].oid)
    ensures Subtree(mib, root) == mib[Beyond(mib, root)..hi]
  {
    var lo := Beyond(mib, root);
    forall i | 0 <= i < |mib| ensures StrictlyUnder(root, mib[i].oid) <==> lo <= i < hi {
      if i < lo {
        if StrictlyUnder(root, mib[i].oid) { UnderIsAbove(root, mib[i].oid); }
      } else {
        BeyondRest(mib, root, i);
        if i < hi { AboveAndWithin(root, mib[i].oid); }
        if hi < i && root <= mib[i].oid {
          BeyondRest(mib, root, hi);
          SubtreeConvex(root, mib[hi].oid, mib[i].oid);
        }
      }
    }
    SubtreeIsStretch(mib, root, lo, hi);
  }
}
