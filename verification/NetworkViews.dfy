// Reading reports back: the fleet view gives each device what its own view
// gives, and a report's answer is what is read back.
module NetworkViews {
  import opened Wrappers
  import opened Text
  import opened NetworkTables
  import opened NetworkInvariant

  // ----- an ordered answer is unique ----------------------------------------------

  lemma WanOrderIsStrict(a: Wan, b: Wan)
    ensures !(WanBefore(a, b) && WanBefore(b, a))
    ensures a.interfaceName != b.interfaceName ==> WanBefore(a, b) || WanBefore(b, a)
  {
    LessIsStrict(a.interfaceName, b.interfaceName);
  }

  ghost predicate NamesDiffer(s: set<Wan>) {
    forall a, b :: a in s && b in s && a != b ==> a.interfaceName != b.interfaceName
  }

  lemma ListsTail<T(!new)>(rows: seq<T>, s: set<T>)
    requires rows != [] && Lists(rows, s)
    ensures rows[0] in s && Lists(rows[1..], s - {rows[0]})
  {
    assert forall x :: x in rows <==> x == rows[0] || x in rows[1..];
  }

  lemma {:induction false} ListsCount<T(!new)>(rows: seq<T>, s: set<T>)
    requires Lists(rows, s)
    ensures multiset(rows) == multiset(s) && |rows| == |s|
    decreases |rows|
  {
    if rows == [] {
      assert s == {};
    } else {
      ListsTail(rows, s);
      ListsCount(rows[1..], s - {rows[0]});
      assert rows == [rows[0]] + rows[1..];
      assert multiset(s) == multiset{rows[0]} + multiset(s - {rows[0]});
    }
  }

  lemma SameFirst(a: seq<Wan>, b: seq<Wan>, s: set<Wan>)
    requires WanAnswer(a, s) && WanAnswer(b, s) && NamesDiffer(s) && a != [] && b != []
    ensures a[0] == b[0]
  {
    assert a[0] in a && b[0] in b && a[0] in s && b[0] in s;
    assert b[0] in a && a[0] in b;
    var i :| 0 <= i < |a| && a[i] == b[0];
    var j :| 0 <= j < |b| && b[j] == a[0];
    if i != 0 && j != 0 {
      assert WanMayPrecede(a[0], a[i]) && WanMayPrecede(b[0], b[j]);
      WanOrderIsStrict(a[0], b[0]);
    }
  }

  /** A set of WANs with different names has only one answer in order. */
  lemma {:induction false} SameAnswer(a: seq<Wan>, b: seq<Wan>, s: set<Wan>)
    requires WanAnswer(a, s) && WanAnswer(b, s) && NamesDiffer(s)
    ensures a == b
    decreases |a|
  {
    ListsCount(a, s);
    ListsCount(b, s);
    if a != [] {
      SameFirst(a, b, s);
      ListsTail(a, s);
      ListsTail(b, s);
      PairwiseTail(a, WanMayPrecede);
      PairwiseTail(b, WanMayPrecede);
      SameAnswer(a[1..], b[1..], s - {a[0]});
      assert a == [a[0]] + a[1..] && b == [b[0]] + b[1..];
    }
  }

  lemma PairwiseTail<T(!new)>(s: seq<T>, r: (T, T) -> bool)
    requires s != [] && Pairwise(s, r)
    ensures Pairwise(s[1..], r)
  {
    assert s == [s[0]] + s[1..];
    PairwiseFirst(s[0], s[1..], r);
  }

  // ----- grouping ------------------------------------------------------------------------

  lemma {:induction false} GroupedMembers<R(!new)>(rows: seq<R>, deviceOf: R -> nat, d: nat)
    ensures forall x :: x in Grouped(rows, deviceOf, d) <==> x in rows && deviceOf(x) == d
    decreases |rows|
  {
    if rows != [] {
      GroupedMembers(rows[..|rows| - 1], deviceOf, d);
      assert rows == rows[..|rows| - 1] + [rows[|rows| - 1]];
    }
  }

  /** Grouping keeps every relation that holds along the rows. */
  lemma {:induction false} GroupedPairwise<R(!new)>(rows: seq<R>, deviceOf: R -> nat, d: nat, r: (R, R) -> bool)
    requires Pairwise(rows, r)
    ensures Pairwise(Grouped(rows, deviceOf, d), r)
    decreases |rows|
  {
    if rows != [] {
      var most, last := rows[..|rows| - 1], rows[|rows| - 1];
      GroupedPairwise(most, deviceOf, d, r);
      GroupedMembers(most, deviceOf, d);
      forall x | x in Grouped(most, deviceOf, d) ensures r(x, last) {
        var k :| 0 <= k < |most| && most[k] == x;
        assert rows[k] == x;
      }
    }
  }

  lemma GroupedLists<R(!new)>(rows: seq<R>, deviceOf: R -> nat, d: nat, all: set<R>, own: set<R>)
    requires Lists(rows, all) && forall x :: x in own <==> x in all && deviceOf(x) == d
    ensures Lists(Grouped(rows, deviceOf, d), own)
  {
    GroupedMembers(rows, deviceOf, d);
    GroupedPairwise(rows, deviceOf, d, (x, y) => x != y);
    assert Pairwise(Grouped(rows, deviceOf, d), (x, y) => x != y);
  }

  lemma {:induction false} SnapshotFound(rows: seq<Snapshot>, d: nat)
    ensures SnapshotAmong(rows, d).None? <==> forall s :: s in rows ==> s.deviceId != d
    ensures SnapshotAmong(rows, d).Some? ==> SnapshotAmong(rows, d).value in rows && SnapshotAmong(rows, d).value.deviceId == d
    decreases |rows|
  {
    if rows != [] {
      SnapshotFound(rows[..|rows| - 1], d);
      assert rows == rows[..|rows| - 1] + [rows[|rows| - 1]];
    }
  }

  // ----- the two views ---------------------------------------------------------------------

  /** The answers to the fleet view's queries for snapshots and child rows. */
  ghost predicate FleetAnswers(t: Tables, snapshots: seq<Snapshot>, wans: seq<Wan>, networks: seq<Segment>) {
    && Lists(snapshots, t.snapshots.Values)
    && WanAnswer(wans, t.wans.Values)
    && SegmentAnswer(networks, t.segments.Values)
  }

  function SnapshotIn(t: Tables, d: nat): Option<Snapshot> {
    match First(SnapshotsOf(t, d))
    case None => None
    case Some(i) => Some(t.snapshots[i])
  }

  lemma FleetSnapshot(t: Tables, snapshots: seq<Snapshot>, d: nat)
    requires OneSnapshot(t) && Lists(snapshots, t.snapshots.Values)
    ensures SnapshotAmong(snapshots, d) == SnapshotIn(t, d)
  {
    SnapshotFound(snapshots, d);
    match First(SnapshotsOf(t, d))
    case None =>
      assert forall i :: i in t.snapshots ==> i !in SnapshotsOf(t, d);
    case Some(i) =>
      assert t.snapshots[i] in t.snapshots.Values;
  }

  lemma FleetWans(t: Tables, wans: seq<Wan>, d: nat)
    requires WanAnswer(wans, t.wans.Values)
    ensures WanAnswer(Grouped(wans, WanDevice, d), WansOf(t, d))
  {
    GroupedLists(wans, WanDevice, d, t.wans.Values, WansOf(t, d));
    GroupedPairwise(wans, WanDevice, d, WanMayPrecede);
  }

  lemma FleetSegments(t: Tables, networks: seq<Segment>, d: nat)
    requires SegmentAnswer(networks, t.segments.Values)
    ensures SegmentAnswer(Grouped(networks, SegmentDevice, d), SegmentsOf(t, d))
  {
    GroupedLists(networks, SegmentDevice, d, t.segments.Values, SegmentsOf(t, d));
    GroupedPairwise(networks, SegmentDevice, d, SegmentMayPrecede);
  }

  lemma NamesOfDeviceDiffer(t: Tables, d: nat)
    requires WansApart(t.wans)
    ensures NamesDiffer(WansOf(t, d))
  {
  }

  lemma NoChildrenUnreported(t: Tables, d: nat)
    requires Attached(t) && SnapshotsOf(t, d) == {}
    ensures WansOf(t, d) == {} && SegmentsOf(t, d) == {}
  {
    assert forall i :: i in t.snapshots && t.snapshots[i].deviceId == d ==> i in SnapshotsOf(t, d);
    assert !HasSnapshot(t, d);
  }

  /** Same snapshot, same WANs in the same order, and both lists of networks are
      permutations in name order. */
  ghost predicate SameView(a: Context, b: Context) {
    && a.device == b.device && a.reported == b.reported && a.snapshot == b.snapshot && a.wans == b.wans
    && multiset(a.networks) == multiset(b.networks)
    && Pairwise(a.networks, SegmentMayPrecede) && Pairwise(b.networks, SegmentMayPrecede)
  }

  /** A fleet entry, put together from answers that fit device d as it is in t. */
  lemma EntryIsContext(t: Tables, d: nat, snapshots: seq<Snapshot>, wans: seq<Wan>, networks: seq<Segment>,
                       ownWans: seq<Wan>, ownNetworks: seq<Segment>)
    requires Linked(t) && WansApart(t.wans) && d in t.devices
    requires SnapshotAmong(snapshots, d) == SnapshotIn(t, d)
    requires WanAnswer(Grouped(wans, WanDevice, d), WansOf(t, d))
    requires SegmentAnswer(Grouped(networks, SegmentDevice, d), SegmentsOf(t, d))
    requires WanAnswer(ownWans, WansOf(t, d)) && SegmentAnswer(ownNetworks, SegmentsOf(t, d))
    ensures ContextOf(t, d, ownWans, ownNetworks).Ok?
    ensures SameView(Entry(t.devices[d], snapshots, wans, networks), ContextOf(t, d, ownWans, ownNetworks).value)
  {
    NamesOfDeviceDiffer(t, d);
    SameAnswer(Grouped(wans, WanDevice, d), ownWans, WansOf(t, d));
    ListsCount(Grouped(networks, SegmentDevice, d), SegmentsOf(t, d));
    ListsCount(ownNetworks, SegmentsOf(t, d));
    ListsCount(ownWans, WansOf(t, d));
    if SnapshotsOf(t, d) == {} { NoChildrenUnreported(t, d); }
  }

  /** Each entry of the fleet view is that device's own view. */
  lemma FleetIsPerDevice(p: Parser, steps: seq<Step>, d: nat, snapshots: seq<Snapshot>, wans: seq<Wan>,
                         networks: seq<Segment>, ownWans: seq<Wan>, ownNetworks: seq<Segment>)
    requires p.address("").None? && d in Run(p, EMPTY, steps).devices
    requires FleetAnswers(Run(p, EMPTY, steps), snapshots, wans, networks)
    requires WanAnswer(ownWans, WansOf(Run(p, EMPTY, steps), d)) && SegmentAnswer(ownNetworks, SegmentsOf(Run(p, EMPTY, steps), d))
    ensures var t := Run(p, EMPTY, steps);
            && ContextOf(t, d, ownWans, ownNetworks).Ok?
            && SameView(Entry(t.devices[d], snapshots, wans, networks), ContextOf(t, d, ownWans, ownNetworks).value)
  {
    var t := Run(p, EMPTY, steps);
    ReachableSane(p, steps);
    FleetSnapshot(t, snapshots, d);
    FleetWans(t, wans, d);
    FleetSegments(t, networks, d);
    EntryIsContext(t, d, snapshots, wans, networks, ownWans, ownNetworks);
  }
}
