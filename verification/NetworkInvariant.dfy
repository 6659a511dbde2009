// What holds of the network tables after every run of reports.
module NetworkInvariant {
  import opened Clock
  import opened Wrappers
  import opened Text
  import opened NetworkTables
  import opened NetworkProperties

  ghost predicate Numbered(t: Tables) {
    && (forall d :: d in t.devices ==> t.devices[d].id == d && d < t.nextDevice)
    && (forall i :: i in t.snapshots ==> t.snapshots[i].id == i && i < t.nextSnapshot)
    && (forall i :: i in t.wans ==> t.wans[i].id == i && i < t.nextWan)
    && (forall i :: i in t.segments ==> t.segments[i].id == i && i < t.nextSegment)
  }

  ghost predicate DevicesSound(t: Tables) {
    forall d, e :: d in t.devices && e in t.devices && t.devices[d].name == t.devices[e].name ==> d == e
  }

  predicate HasSnapshot(t: Tables, d: nat) {
    exists i :: i in t.snapshots && t.snapshots[i].deviceId == d
  }

  /** One snapshot a device at most. */
  ghost predicate OneSnapshot(t: Tables) {
    && (forall i :: i in t.snapshots ==> t.snapshots[i].deviceId in t.devices)
    && (forall i, j :: i in t.snapshots && j in t.snapshots && t.snapshots[i].deviceId == t.snapshots[j].deviceId ==> i == j)
  }

  /** Child rows only beside a snapshot. */
  ghost predicate Attached(t: Tables) {
    && (forall i :: i in t.wans ==> HasSnapshot(t, t.wans[i].deviceId))
    && (forall i :: i in t.segments ==> HasSnapshot(t, t.segments[i].deviceId))
  }

  /** Two WANs of one device differ in name, and only one has the default route. */
  ghost predicate WansApart(wans: map<nat, Wan>) {
    forall i, j ::
      (i in wans && j in wans && i != j && wans[i].deviceId == wans[j].deviceId) ==>
        wans[i].interfaceName != wans[j].interfaceName && !(wans[i].defaultRoute && wans[j].defaultRoute)
  }

  ghost predicate WansSound(p: Parser, wans: map<nat, Wan>) {
    forall i :: i in wans ==> RowSound(p, wans[i])
  }

  ghost predicate Linked(t: Tables) { Numbered(t) && DevicesSound(t) && OneSnapshot(t) && Attached(t) }

  ghost predicate Sane(p: Parser, t: Tables) {
    Linked(t) && WansApart(t.wans) && WansSound(p, t.wans)
  }

  lemma SnapshotsCarryOver(t: Tables, u: Tables)
    requires Attached(t) && u.wans == t.wans && u.segments == t.segments
    requires forall d :: HasSnapshot(t, d) ==> HasSnapshot(u, d)
    ensures Attached(u)
  {
  }

  lemma SameSnapshots(t: Tables, u: Tables)
    requires u.snapshots == t.snapshots
    ensures forall d :: HasSnapshot(t, d) <==> HasSnapshot(u, d)
  {
  }

  lemma CreateDeviceKeeps(t: Tables, name: string)
    requires Linked(t)
    ensures Linked(CreateDevice(t, name)) && CreateDevice(t, name).wans == t.wans
  {
    SameSnapshots(t, CreateDevice(t, name));
    SnapshotsCarryOver(t, CreateDevice(t, name));
  }

  lemma SnapshotWritten(t: Tables, d: nat, serverIp: string, now: Time) returns (i: nat)
    requires Numbered(t)
    ensures var u := PutSnapshot(t, d, serverIp, now);
            && u == t.(snapshots := t.snapshots[i := Snapshot(i, d, now, serverIp)], nextSnapshot := u.nextSnapshot)
            && t.nextSnapshot <= u.nextSnapshot && i < u.nextSnapshot
            && (i in t.snapshots ==> t.snapshots[i].deviceId == d)
            && (forall j :: j in t.snapshots && t.snapshots[j].deviceId == d ==> i in SnapshotsOf(t, d))
  {
    assert forall j :: j in t.snapshots && t.snapshots[j].deviceId == d ==> j in SnapshotsOf(t, d);
    i := if SnapshotsOf(t, d) == {} then t.nextSnapshot else First(SnapshotsOf(t, d)).value;
  }

  lemma PutSnapshotKeeps(t: Tables, d: nat, serverIp: string, now: Time)
    requires Linked(t) && d in t.devices
    ensures var u := PutSnapshot(t, d, serverIp, now);
            Linked(u) && HasSnapshot(u, d) && u.wans == t.wans && u.nextWan == t.nextWan && u.nextSegment == t.nextSegment
  {
    var i := SnapshotWritten(t, d, serverIp, now);
    SnapshotRowKeeps(t, PutSnapshot(t, d, serverIp, now), i, d);
  }

  lemma SnapshotRowKeeps(t: Tables, u: Tables, i: nat, d: nat)
    requires Linked(t) && d in t.devices && i in u.snapshots && u.snapshots[i].deviceId == d && u.snapshots[i].id == i
    requires u == t.(snapshots := t.snapshots[i := u.snapshots[i]], nextSnapshot := u.nextSnapshot)
    requires t.nextSnapshot <= u.nextSnapshot && i < u.nextSnapshot && (i in t.snapshots ==> t.snapshots[i].deviceId == d)
    requires forall j :: j in t.snapshots && t.snapshots[j].deviceId == d ==> i in t.snapshots
    ensures Linked(u) && HasSnapshot(u, d)
  {
    forall e | HasSnapshot(t, e) ensures HasSnapshot(u, e) {
      var j :| j in t.snapshots && t.snapshots[j].deviceId == e;
      assert j in u.snapshots && u.snapshots[j].deviceId == e;
    }
    SnapshotsCarryOver(t, u);
  }

  /** rows has the next count ids and belongs to device d. */
  ghost predicate WansBelong(rows: map<nat, Wan>, first: nat, count: nat, d: nat) {
    forall i :: i in rows ==> first <= i < first + count && rows[i].id == i && rows[i].deviceId == d
  }

  ghost predicate SegmentsBelong(rows: map<nat, Segment>, first: nat, count: nat, d: nat) {
    forall i :: i in rows ==> first <= i < first + count && rows[i].id == i && rows[i].deviceId == d
  }

  lemma ReplaceChildrenNumbered(t: Tables, d: nat, wans: map<nat, Wan>, wanCount: nat, segments: map<nat, Segment>,
                                segmentCount: nat)
    requires Numbered(t)
    requires WansBelong(wans, t.nextWan, wanCount, d) && SegmentsBelong(segments, t.nextSegment, segmentCount, d)
    ensures Numbered(ReplaceChildren(t, d, wans, wanCount, segments, segmentCount))
  {
  }

  lemma ReplaceChildrenAttached(t: Tables, d: nat, wans: map<nat, Wan>, wanCount: nat, segments: map<nat, Segment>,
                                segmentCount: nat)
    requires Attached(t) && HasSnapshot(t, d)
    requires WansBelong(wans, t.nextWan, wanCount, d) && SegmentsBelong(segments, t.nextSegment, segmentCount, d)
    ensures Attached(ReplaceChildren(t, d, wans, wanCount, segments, segmentCount))
  {
    var u := ReplaceChildren(t, d, wans, wanCount, segments, segmentCount);
    assert forall e :: HasSnapshot(t, e) ==> HasSnapshot(u, e);
  }

  lemma ReplaceChildrenKeeps(t: Tables, d: nat, wans: map<nat, Wan>, wanCount: nat, segments: map<nat, Segment>,
                             segmentCount: nat)
    requires Linked(t) && HasSnapshot(t, d)
    requires WansBelong(wans, t.nextWan, wanCount, d) && SegmentsBelong(segments, t.nextSegment, segmentCount, d)
    ensures Linked(ReplaceChildren(t, d, wans, wanCount, segments, segmentCount))
  {
    ReplaceChildrenNumbered(t, d, wans, wanCount, segments, segmentCount);
    ReplaceChildrenAttached(t, d, wans, wanCount, segments, segmentCount);
  }

  lemma ReplaceKeepsApart(t: Tables, d: nat, rows: map<nat, Wan>)
    requires WansApart(t.wans) && WansApart(rows) && forall i :: i in rows ==> rows[i].deviceId == d
    ensures WansApart(Others(t.wans, WanDevice, d) + rows)
  {
  }

  /** The columns a row takes straight from its input. */
  ghost predicate Takes(r: Wan, id: nat, d: nat, w: WanInput) {
    r.id == id && r.deviceId == d && r.interfaceName == TrimSpace(w.interfaceName) && r.defaultRoute == w.defaultRoute
  }

  lemma BuiltTakes(p: Parser, id: nat, d: nat, serverIp: string, w: WanInput)
    ensures Takes(BuildWan(p, id, d, serverIp, w), id, d, w)
  {
  }

  lemma RowsApart(build: (nat, WanInput) -> Wan, first: nat, d: nat, wans: seq<WanInput>)
    requires forall i, w :: Takes(build(i, w), i, d, w)
    ensures WansBelong(NewRows(build, first, wans), first, |wans|, d)
    ensures Pairwise(wans, Apart) ==> WansApart(NewRows(build, first, wans))
  {
    var rows := NewRows(build, first, wans);
    forall i | i in rows ensures first <= i < first + |wans| && Takes(rows[i], i, d, wans[i - first]) {
      assert rows[i] == build(i, wans[i - first]);
    }
    if Pairwise(wans, Apart) {
      forall i, j | i in rows && j in rows && i != j
        ensures rows[i].interfaceName != rows[j].interfaceName && !(rows[i].defaultRoute && rows[j].defaultRoute) {
        InputsApart(wans, i - first, j - first);
      }
    }
  }

  lemma InputsApart(wans: seq<WanInput>, i: nat, j: nat)
    requires Pairwise(wans, Apart) && i < |wans| && j < |wans| && i != j
    ensures TrimSpace(wans[i].interfaceName) != TrimSpace(wans[j].interfaceName)
    ensures !(wans[i].defaultRoute && wans[j].defaultRoute)
  {
    assert if i < j then Apart(wans[i], wans[j]) else Apart(wans[j], wans[i]);
  }

  lemma RowsSound(p: Parser, build: (nat, WanInput) -> Wan, first: nat, wans: seq<WanInput>)
    requires forall i, w :: w in wans ==> RowSound(p, build(i, w))
    ensures WansSound(p, NewRows(build, first, wans))
  {
    var rows := NewRows(build, first, wans);
    forall i | i in rows ensures RowSound(p, rows[i]) {
      NewRowIs(build, first, wans, i);
      assert RowSound(p, build(i, wans[i - first]));
    }
  }

  lemma NewRowIs<I, R>(build: (nat, I) -> R, first: nat, inputs: seq<I>, i: nat)
    requires i in NewRows(build, first, inputs)
    ensures first <= i < first + |inputs| && inputs[i - first] in inputs
    ensures NewRows(build, first, inputs)[i] == build(i, inputs[i - first])
  {
  }

  lemma NewWansFit(p: Parser, first: nat, d: nat, serverIp: string, wans: seq<WanInput>)
    ensures WansBelong(NewWans(p, first, d, serverIp, wans), first, |wans|, d)
    ensures Pairwise(wans, Apart) ==> WansApart(NewWans(p, first, d, serverIp, wans))
  {
    var build := (i: nat, w: WanInput) => BuildWan(p, i, d, serverIp, w);
    forall i, w ensures Takes(build(i, w), i, d, w) { BuiltTakes(p, i, d, serverIp, w); }
    RowsApart(build, first, d, wans);
    assert NewRows(build, first, wans) == NewWans(p, first, d, serverIp, wans);
  }

  lemma NewSegmentsFit(first: nat, d: nat, networks: seq<SegmentInput>)
    ensures SegmentsBelong(NewSegments(first, d, networks), first, |networks|, d)
  {
  }

  lemma NewWansSound(p: Parser, first: nat, d: nat, serverIp: string, wans: seq<WanInput>)
    requires WansAccepted(p, wans) && p.address("").None?
    ensures WansSound(p, NewWans(p, first, d, serverIp, wans))
  {
    var build := (i: nat, w: WanInput) => BuildWan(p, i, d, serverIp, w);
    forall i, w | w in wans ensures RowSound(p, build(i, w)) { BuiltIsSound(p, i, d, serverIp, w); }
    RowsSound(p, build, first, wans);
    assert NewRows(build, first, wans) == NewWans(p, first, d, serverIp, wans);
  }

  lemma ReplacedKeeps(p: Parser, t: Tables, d: nat, serverIp: string, input: ReportInput, now: Time)
    requires Linked(t) && d in t.devices
    ensures Linked(Replaced(p, t, d, serverIp, input, now))
  {
    PutSnapshotKeeps(t, d, serverIp, now);
    NewWansFit(p, t.nextWan, d, serverIp, input.wans);
    NewSegmentsFit(t.nextSegment, d, input.networks);
    ReplaceChildrenKeeps(PutSnapshot(t, d, serverIp, now), d, NewWans(p, t.nextWan, d, serverIp, input.wans), |input.wans|,
                         NewSegments(t.nextSegment, d, input.networks), |input.networks|);
  }

  /** A report leaves every other device's rows as they are. */
  lemma OthersRowsStay(p: Parser, t: Tables, d: nat, serverIp: string, input: ReportInput, now: Time, e: nat)
    requires Numbered(t) && e != d
    ensures var u := Replaced(p, t, d, serverIp, input, now);
            WansOf(u, e) == WansOf(t, e) && SegmentsOf(u, e) == SegmentsOf(t, e)
  {
    NewWansFit(p, t.nextWan, d, serverIp, input.wans);
    NewSegmentsFit(t.nextSegment, d, input.networks);
    ReplaceChildrenElsewhere(t, PutSnapshot(t, d, serverIp, now), d, NewWans(p, t.nextWan, d, serverIp, input.wans), |input.wans|,
                             NewSegments(t.nextSegment, d, input.networks), |input.networks|, e);
  }

  lemma ReplaceChildrenElsewhere(t: Tables, s: Tables, d: nat, wans: map<nat, Wan>, wanCount: nat,
                                 segments: map<nat, Segment>, segmentCount: nat, e: nat)
    requires Numbered(t) && e != d && s == t.(snapshots := s.snapshots, nextSnapshot := s.nextSnapshot)
    requires WansBelong(wans, t.nextWan, wanCount, d) && SegmentsBelong(segments, t.nextSegment, segmentCount, d)
    ensures var u := ReplaceChildren(s, d, wans, wanCount, segments, segmentCount);
            WansOf(u, e) == WansOf(t, e) && SegmentsOf(u, e) == SegmentsOf(t, e)
  {
    OthersRows(t.wans, wans, t.nextWan, WanDevice, d, e);
    OthersRows(t.segments, segments, t.nextSegment, SegmentDevice, d, e);
  }

  lemma OthersRows<R>(table: map<nat, R>, rows: map<nat, R>, first: nat, deviceOf: R -> nat, d: nat, e: nat)
    requires e != d && forall i :: i in rows ==> first <= i && deviceOf(rows[i]) == d
    requires forall i :: i in table ==> i < first
    ensures RowsOf(Others(table, deviceOf, d) + rows, deviceOf, e) == RowsOf(table, deviceOf, e)
  {
    var after := Others(table, deviceOf, d) + rows;
    forall x ensures x in RowsOf(after, deviceOf, e) <==> x in RowsOf(table, deviceOf, e) {
      if x in RowsOf(table, deviceOf, e) {
        var i :| i in table && deviceOf(table[i]) == e && table[i] == x;
        assert i in after && after[i] == x;
      }
      if x in RowsOf(after, deviceOf, e) {
        var i :| i in after && deviceOf(after[i]) == e && after[i] == x;
        assert i in table && table[i] == x;
      }
    }
  }

  lemma ReplacedWans(p: Parser, t: Tables, d: nat, serverIp: string, input: ReportInput, now: Time)
    requires WansApart(t.wans) && WansSound(p, t.wans) && WansAccepted(p, input.wans) && p.address("").None?
    ensures var u := Replaced(p, t, d, serverIp, input, now); WansApart(u.wans) && WansSound(p, u.wans)
  {
    var rows := NewWans(p, t.nextWan, d, serverIp, input.wans);
    NewWansFit(p, t.nextWan, d, serverIp, input.wans);
    NewWansSound(p, t.nextWan, d, serverIp, input.wans);
    ReplaceKeepsApart(t, d, rows);
    ReplacedWansAre(p, t, d, serverIp, input, now);
    OthersSound(p, t.wans, d);
    SoundUnion(p, Others(t.wans, WanDevice, d), rows);
  }

  lemma ReplacedWansAre(p: Parser, t: Tables, d: nat, serverIp: string, input: ReportInput, now: Time)
    ensures Replaced(p, t, d, serverIp, input, now).wans
         == Others(t.wans, WanDevice, d) + NewWans(p, t.nextWan, d, serverIp, input.wans)
  {
  }

  lemma OthersSound(p: Parser, wans: map<nat, Wan>, d: nat)
    requires WansSound(p, wans)
    ensures WansSound(p, Others(wans, WanDevice, d))
  {
    assert forall i :: i in Others(wans, WanDevice, d) ==> Others(wans, WanDevice, d)[i] == wans[i];
  }

  lemma SoundUnion(p: Parser, a: map<nat, Wan>, b: map<nat, Wan>)
    ensures WansSound(p, a) && WansSound(p, b) ==> WansSound(p, a + b)
  {
  }

  lemma StepKeeps(p: Parser, t: Tables, s: Step)
    requires Sane(p, t) && p.address("").None?
    ensures Sane(p, Apply(p, t, s))
  {
    match s
    case CreateDeviceStep(name) => CreateDeviceKeeps(t, name);
    case ReportStep(d, serverIp, input, now) =>
      if Report(p, t, d, serverIp, input, now).Ok? {
        FaultIff(p, input);
        ReplacedKeeps(p, t, d, TrimSpace(serverIp), input, now);
        ReplacedWans(p, t, d, TrimSpace(serverIp), input, now);
      }
  }

  lemma {:induction false} RunKeeps(p: Parser, t: Tables, steps: seq<Step>)
    requires Sane(p, t) && p.address("").None?
    ensures Sane(p, Run(p, t, steps))
    decreases |steps|
  {
    if steps != [] {
      StepKeeps(p, t, steps[0]);
      RunKeeps(p, Apply(p, t, steps[0]), steps[1..]);
    }
  }

  /** After any reports: names and default routes are unique within a device,
      child rows have a snapshot, and every row's NAT columns fit together. */
  lemma ReachableSane(p: Parser, steps: seq<Step>)
    requires p.address("").None?
    ensures Sane(p, Run(p, EMPTY, steps))
  {
    RunKeeps(p, EMPTY, steps);
  }

  /** So at most one WAN of a device has taken its public address from the server's peer. */
  lemma OneServerPeer(p: Parser, steps: seq<Step>, i: nat, j: nat)
    requires p.address("").None?
    requires var t := Run(p, EMPTY, steps);
             && i in t.wans && j in t.wans && t.wans[i].deviceId == t.wans[j].deviceId
             && t.wans[i].publicIpSource == ServerPeer && t.wans[j].publicIpSource == ServerPeer
    ensures i == j
  {
    ReachableSane(p, steps);
    var t := Run(p, EMPTY, steps);
    assert RowSound(p, t.wans[i]) && RowSound(p, t.wans[j]);
  }
}
