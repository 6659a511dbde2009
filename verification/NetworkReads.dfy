// Views read query by query, with reports in between: when the fleet view and a
// device's own view are the view at the last query, and a view that is torn.
module NetworkReads {
  import opened Clock
  import opened Wrappers
  import opened Text
  import opened NetworkTables
  import opened NetworkInvariant
  import opened NetworkViews

  /** All that a view of device d reads is the same in both states. */
  ghost predicate SameAbout(t: Tables, u: Tables, d: nat) {
    && d in t.devices && d in u.devices && u.devices[d] == t.devices[d]
    && SnapshotIn(u, d) == SnapshotIn(t, d)
    && WansOf(u, d) == WansOf(t, d) && SegmentsOf(u, d) == SegmentsOf(t, d)
  }

  lemma OthersSnapshotStays(t: Tables, e: nat, serverIp: string, now: Time, d: nat)
    requires Numbered(t) && e != d
    ensures SnapshotIn(PutSnapshot(t, e, serverIp, now), d) == SnapshotIn(t, d)
  {
    var u := PutSnapshot(t, e, serverIp, now);
    assert SnapshotsOf(u, d) == SnapshotsOf(t, d);
  }

  lemma ReportStaysElsewhere(p: Parser, t: Tables, s: Step, d: nat)
    requires Numbered(t) && d in t.devices && s.ReportStep? && s.deviceId != d
    ensures SameAbout(t, Apply(p, t, s), d)
  {
    if Report(p, t, s.deviceId, s.serverIp, s.input, s.now).Ok? {
      var serverIp := TrimSpace(s.serverIp);
      var u := PutSnapshot(t, s.deviceId, serverIp, s.now);
      OthersSnapshotStays(t, s.deviceId, serverIp, s.now, d);
      OthersRowsStay(p, t, s.deviceId, serverIp, s.input, s.now, d);
      ChildrenKeepSnapshots(u, Replaced(p, t, s.deviceId, serverIp, s.input, s.now), d);
    }
  }

  lemma ChildrenKeepSnapshots(t: Tables, u: Tables, d: nat)
    requires u.snapshots == t.snapshots
    ensures SnapshotIn(u, d) == SnapshotIn(t, d)
  {
    assert SnapshotsOf(u, d) == SnapshotsOf(t, d);
  }

  lemma StepStays(p: Parser, t: Tables, s: Step, d: nat)
    requires Numbered(t) && d in t.devices && (s.ReportStep? ==> s.deviceId != d)
    ensures SameAbout(t, Apply(p, t, s), d)
  {
    match s
    case CreateDeviceStep(_) => ChildrenKeepSnapshots(t, Apply(p, t, s), d);
    case ReportStep(_, _, _, _) => ReportStaysElsewhere(p, t, s, d);
  }

  // ----- the last report --------------------------------------------------------------

  /** The step is a report of device d that is accepted. */
  predicate Accepts(p: Parser, t: Tables, s: Step, d: nat) {
    s.ReportStep? && s.deviceId == d && Report(p, t, d, s.serverIp, s.input, s.now).Ok?
  }

  /** The snapshot row that the last accepted report of device d writes. */
  function LastReport(p: Parser, t: Tables, steps: seq<Step>, d: nat): Option<Snapshot>
    decreases |steps|
  {
    if steps == [] then None
    else
      var u := Apply(p, t, steps[0]);
      var later := LastReport(p, u, steps[1..], d);
      if later.Some? then later else if Accepts(p, t, steps[0], d) then SnapshotIn(u, d) else None
  }

  lemma PutSnapshotIs(t: Tables, d: nat, serverIp: string, now: Time)
    requires Numbered(t) && OneSnapshot(t)
    ensures var was, row := SnapshotIn(t, d), SnapshotIn(PutSnapshot(t, d, serverIp, now), d);
            row.Some? && row.value == Snapshot(if was.Some? then was.value.id else t.nextSnapshot, d, now, serverIp)
  {
    var u := PutSnapshot(t, d, serverIp, now);
    var i := match First(SnapshotsOf(t, d)) case Some(i) => i case None => t.nextSnapshot;
    assert SnapshotsOf(u, d) == {i} by {
      assert forall j :: j in t.snapshots && t.snapshots[j].deviceId == d ==> j in SnapshotsOf(t, d);
    }
    FirstOfSingleton(SnapshotsOf(u, d), i);
  }

  /** An accepted report writes its own clock and peer into the device's one row. */
  lemma AcceptedRow(p: Parser, t: Tables, s: Step, d: nat)
    requires Numbered(t) && OneSnapshot(t) && Accepts(p, t, s, d)
    ensures var was, row := SnapshotIn(t, d), SnapshotIn(Apply(p, t, s), d);
            row.Some? && row.value == Snapshot(if was.Some? then was.value.id else t.nextSnapshot, d, s.now, TrimSpace(s.serverIp))
  {
    PutSnapshotIs(t, d, TrimSpace(s.serverIp), s.now);
    ChildrenKeepSnapshots(PutSnapshot(t, d, TrimSpace(s.serverIp), s.now), Apply(p, t, s), d);
  }

  /** Device d has WANs, all of them with ids from first on. */
  ghost predicate NewWansOnly(t: Tables, d: nat, first: nat) {
    WansOf(t, d) != {} && forall w :: w in WansOf(t, d) ==> w.id >= first
  }

  lemma ReplacedAreNew(table: map<nat, Wan>, rows: map<nat, Wan>, first: nat, count: nat, d: nat)
    requires WansBelong(rows, first, count, d)
    ensures forall w :: w in RowsOf(Others(table, WanDevice, d) + rows, WanDevice, d) ==> w.id >= first
    ensures first in rows ==> rows[first] in RowsOf(Others(table, WanDevice, d) + rows, WanDevice, d)
  {
    var all := Others(table, WanDevice, d) + rows;
    forall w | w in RowsOf(all, WanDevice, d) ensures w.id >= first {
      var i :| i in all && WanDevice(all[i]) == d && all[i] == w;
      assert i in rows;
    }
    if first in rows { assert all[first] == rows[first]; }
  }

  lemma AcceptedWans(p: Parser, t: Tables, s: Step, d: nat)
    requires Accepts(p, t, s, d)
    ensures NewWansOnly(Apply(p, t, s), d, t.nextWan)
  {
    var serverIp, inputs := TrimSpace(s.serverIp), s.input.wans;
    NewWansFit(p, t.nextWan, d, serverIp, inputs);
    assert t.nextWan in Ids(t.nextWan, |inputs|);
    ReplacedAreNew(t.wans, NewWans(p, t.nextWan, d, serverIp, inputs), t.nextWan, |inputs|, d);
    AcceptedWansAre(p, t, s, d);
  }

  lemma AcceptedWansAre(p: Parser, t: Tables, s: Step, d: nat)
    requires Accepts(p, t, s, d)
    ensures s.input.wans != []
    ensures Apply(p, t, s).wans == Others(t.wans, WanDevice, d) + NewWans(p, t.nextWan, d, TrimSpace(s.serverIp), s.input.wans)
  {
  }

  lemma AcceptedKeepsDevices(p: Parser, t: Tables, s: Step, d: nat)
    requires Accepts(p, t, s, d)
    ensures Apply(p, t, s).devices == t.devices && Apply(p, t, s).nextWan >= t.nextWan
  {
  }

  lemma RefusedStays(p: Parser, t: Tables, s: Step, d: nat)
    requires Numbered(t) && d in t.devices && !Accepts(p, t, s, d)
    ensures SameAbout(t, Apply(p, t, s), d) && Apply(p, t, s).nextWan >= t.nextWan
  {
    if s.ReportStep? && s.deviceId == d {
      assert Apply(p, t, s) == t;
    } else {
      StepStays(p, t, s, d);
    }
  }

  /** What a run does to device d: nothing without an accepted report of it; else
      the last one's snapshot row is there, and only WANs made since. */
  ghost predicate Effect(t: Tables, u: Tables, d: nat, last: Option<Snapshot>) {
    && d in t.devices && d in u.devices && u.devices[d] == t.devices[d] && t.nextWan <= u.nextWan
    && (last.None? ==> SameAbout(t, u, d))
    && (last.Some? ==> SnapshotIn(u, d) == last && NewWansOnly(u, d, t.nextWan))
  }

  lemma EffectsCompose(t: Tables, u: Tables, v: Tables, d: nat, first: Option<Snapshot>, later: Option<Snapshot>)
    requires Effect(t, u, d, first) && Effect(u, v, d, later)
    ensures Effect(t, v, d, if later.Some? then later else first)
  {
  }

  lemma OneEffect(p: Parser, t: Tables, s: Step, d: nat)
    requires Numbered(t) && OneSnapshot(t) && d in t.devices
    ensures Effect(t, Apply(p, t, s), d, if Accepts(p, t, s, d) then SnapshotIn(Apply(p, t, s), d) else None)
  {
    if Accepts(p, t, s, d) {
      AcceptedRow(p, t, s, d);
      AcceptedWans(p, t, s, d);
      AcceptedKeepsDevices(p, t, s, d);
    } else {
      RefusedStays(p, t, s, d);
    }
  }

  lemma {:induction false} RunEffect(p: Parser, t: Tables, steps: seq<Step>, d: nat)
    requires Sane(p, t) && p.address("").None? && d in t.devices
    ensures Effect(t, Run(p, t, steps), d, LastReport(p, t, steps, d)) && Sane(p, Run(p, t, steps))
    decreases |steps|
  {
    if steps != [] {
      var u := Apply(p, t, steps[0]);
      OneEffect(p, t, steps[0], d);
      StepKeeps(p, t, steps[0]);
      RunEffect(p, u, steps[1..], d);
      EffectsCompose(t, u, Run(p, t, steps), d, if Accepts(p, t, steps[0], d) then SnapshotIn(u, d) else None,
                     LastReport(p, u, steps[1..], d));
    }
  }

  /** The last report is one of the steps, and wrote what it said. */
  lemma {:induction false} LastReportIsOne(p: Parser, t: Tables, steps: seq<Step>, d: nat)
    requires Sane(p, t) && p.address("").None? && LastReport(p, t, steps, d).Some?
    ensures exists s :: s in steps && s.ReportStep? && s.deviceId == d
              && LastReport(p, t, steps, d).value.reportedAt == s.now
              && LastReport(p, t, steps, d).value.serverObservedIp == TrimSpace(s.serverIp)
    decreases |steps|
  {
    var u := Apply(p, t, steps[0]);
    StepKeeps(p, t, steps[0]);
    assert steps[0] in steps;
    if LastReport(p, u, steps[1..], d).Some? {
      LastReportIsOne(p, u, steps[1..], d);
    } else {
      AcceptedRow(p, t, steps[0], d);
    }
  }

  // ----- reading at four moments -----------------------------------------------------------

  /** The tables at the query for devices and what is committed before each of the
      three that follow. */
  datatype Reading = Reading(beforeSnapshots: seq<Step>, beforeWans: seq<Step>, beforeNetworks: seq<Step>)

  function AtSnapshots(p: Parser, t: Tables, r: Reading): Tables { Run(p, t, r.beforeSnapshots) }

  function AtWans(p: Parser, t: Tables, r: Reading): Tables { Run(p, AtSnapshots(p, t, r), r.beforeWans) }

  function AtNetworks(p: Parser, t: Tables, r: Reading): Tables { Run(p, AtWans(p, t, r), r.beforeNetworks) }

  /** No report of device d is accepted after the query for WANs, and the last one
      between the queries for snapshots and WANs, if any, writes again the very row
      that was read. */
  predicate Steady(p: Parser, t: Tables, r: Reading, d: nat) {
    var between := LastReport(p, AtSnapshots(p, t, r), r.beforeWans, d);
    && LastReport(p, AtWans(p, t, r), r.beforeNetworks, d).None?
    && (between.None? || between == SnapshotIn(AtSnapshots(p, t, r), d))
  }

  /** The answers to the queries for child rows, for device d. */
  ghost predicate Answered(p: Parser, t: Tables, r: Reading, d: nat, wans: seq<Wan>, networks: seq<Segment>) {
    WanAnswer(wans, WansOf(AtWans(p, t, r), d)) && SegmentAnswer(networks, SegmentsOf(AtNetworks(p, t, r), d))
  }

  /** A view put together from what was read at the different moments. */
  function ReadView(t: Tables, u: Tables, d: nat, wans: seq<Wan>, networks: seq<Segment>): Context
    requires d in t.devices
  {
    Context(t.devices[d], SnapshotIn(u, d).Some?, SnapshotIn(u, d), wans, networks)
  }

  lemma SteadyIsSame(p: Parser, t: Tables, r: Reading, d: nat)
    requires Sane(p, t) && p.address("").None? && d in t.devices
    ensures var t1, t2, t3 := AtSnapshots(p, t, r), AtWans(p, t, r), AtNetworks(p, t, r);
            && Sane(p, t1) && Sane(p, t2) && Sane(p, t3) && d in t3.devices && t3.devices[d] == t.devices[d]
            && (Steady(p, t, r, d) ==> SameAbout(t2, t3, d) && SnapshotIn(t1, d) == SnapshotIn(t3, d))
            && (!Steady(p, t, r, d) ==> SnapshotIn(t3, d).Some?)
            && (LastReport(p, t2, r.beforeNetworks, d).Some? ==> NewWansOnly(t3, d, t2.nextWan))
            && (LastReport(p, t2, r.beforeNetworks, d).None? && !Steady(p, t, r, d) ==> SnapshotIn(t1, d) != SnapshotIn(t3, d))
  {
    var t1, t2 := AtSnapshots(p, t, r), AtWans(p, t, r);
    RunEffect(p, t, r.beforeSnapshots, d);
    RunEffect(p, t1, r.beforeWans, d);
    RunEffect(p, t2, r.beforeNetworks, d);
  }

  lemma OldWansDiffer(t: Tables, u: Tables, d: nat, wans: seq<Wan>, ownWans: seq<Wan>)
    requires Numbered(t) && NewWansOnly(u, d, t.nextWan)
    requires WanAnswer(wans, WansOf(t, d)) && WanAnswer(ownWans, WansOf(u, d))
    ensures ownWans != [] && wans != ownWans
  {
    var w :| w in WansOf(u, d);
    assert w in ownWans && w !in WansOf(t, d);
  }

  /** What is read is the view at the last query if and only if the reading is
      steady for the device; other devices may report at any time. */
  lemma ReadIff(p: Parser, t: Tables, r: Reading, d: nat, wans: seq<Wan>, networks: seq<Segment>, ownWans: seq<Wan>,
                ownNetworks: seq<Segment>)
    requires Sane(p, t) && p.address("").None? && d in t.devices && Answered(p, t, r, d, wans, networks)
    requires var t3 := AtNetworks(p, t, r); WanAnswer(ownWans, WansOf(t3, d)) && SegmentAnswer(ownNetworks, SegmentsOf(t3, d))
    ensures var t3 := AtNetworks(p, t, r);
            && ContextOf(t3, d, ownWans, ownNetworks).Ok?
            && (SameView(ReadView(t, AtSnapshots(p, t, r), d, wans, networks), ContextOf(t3, d, ownWans, ownNetworks).value)
                <==> Steady(p, t, r, d))
  {
    var t2, t3 := AtWans(p, t, r), AtNetworks(p, t, r);
    SteadyIsSame(p, t, r, d);
    if Steady(p, t, r, d) {
      SameChildren(t3, d, wans, networks, ownWans, ownNetworks);
    } else if LastReport(p, t2, r.beforeNetworks, d).Some? {
      OldWansDiffer(t2, t3, d, wans, ownWans);
    }
  }

  lemma SameChildren(t: Tables, d: nat, wans: seq<Wan>, networks: seq<Segment>, ownWans: seq<Wan>, ownNetworks: seq<Segment>)
    requires Linked(t) && WansApart(t.wans) && d in t.devices
    requires WanAnswer(wans, WansOf(t, d)) && SegmentAnswer(networks, SegmentsOf(t, d))
    requires WanAnswer(ownWans, WansOf(t, d)) && SegmentAnswer(ownNetworks, SegmentsOf(t, d))
    ensures ContextOf(t, d, ownWans, ownNetworks).Ok?
    ensures SameView(ReadView(t, t, d, wans, networks), ContextOf(t, d, ownWans, ownNetworks).value)
  {
    NamesOfDeviceDiffer(t, d);
    SameAnswer(wans, ownWans, WansOf(t, d));
    ListsCount(networks, SegmentsOf(t, d));
    ListsCount(ownNetworks, SegmentsOf(t, d));
    ListsCount(ownWans, WansOf(t, d));
    if SnapshotsOf(t, d) == {} { NoChildrenUnreported(t, d); }
  }

  // ----- the fleet view, query by query ------------------------------------------------------

  /** The answers to the fleet view's queries, each at its own moment. */
  ghost predicate FleetRead(p: Parser, t: Tables, r: Reading, snapshots: seq<Snapshot>, wans: seq<Wan>, networks: seq<Segment>) {
    && Lists(snapshots, AtSnapshots(p, t, r).snapshots.Values)
    && WanAnswer(wans, AtWans(p, t, r).wans.Values) && SegmentAnswer(networks, AtNetworks(p, t, r).segments.Values)
  }

  /** A device's entry is its own view at the last query if and only if the reading
      is steady for it. */
  lemma FleetEntryIff(p: Parser, steps: seq<Step>, r: Reading, d: nat, snapshots: seq<Snapshot>, wans: seq<Wan>,
                      networks: seq<Segment>, ownWans: seq<Wan>, ownNetworks: seq<Segment>)
    requires p.address("").None? && d in Run(p, EMPTY, steps).devices
    requires FleetRead(p, Run(p, EMPTY, steps), r, snapshots, wans, networks)
    requires var t3 := AtNetworks(p, Run(p, EMPTY, steps), r);
             WanAnswer(ownWans, WansOf(t3, d)) && SegmentAnswer(ownNetworks, SegmentsOf(t3, d))
    ensures var t := Run(p, EMPTY, steps);
            var own := ContextOf(AtNetworks(p, t, r), d, ownWans, ownNetworks);
            own.Ok? && (SameView(Entry(t.devices[d], snapshots, wans, networks), own.value) <==> Steady(p, t, r, d))
  {
    var t := Run(p, EMPTY, steps);
    ReachableSane(p, steps);
    SteadyIsSame(p, t, r, d);
    FleetSnapshot(AtSnapshots(p, t, r), snapshots, d);
    FleetWans(AtWans(p, t, r), wans, d);
    FleetSegments(AtNetworks(p, t, r), networks, d);
    ReadIff(p, t, r, d, Grouped(wans, WanDevice, d), Grouped(networks, SegmentDevice, d), ownWans, ownNetworks);
  }

  /** Under a clock that rises between reports, steady means that no report of the
      device is accepted after the query for snapshots. */
  lemma SteadyIffQuiet(p: Parser, steps: seq<Step>, r: Reading, d: nat)
    requires p.address("").None? && d in Run(p, EMPTY, steps).devices
    requires var t1 := AtSnapshots(p, Run(p, EMPTY, steps), r);
             forall s :: s in r.beforeWans && s.ReportStep? && s.deviceId == d && SnapshotIn(t1, d).Some? ==>
               s.now > SnapshotIn(t1, d).value.reportedAt
    ensures var t := Run(p, EMPTY, steps);
            Steady(p, t, r, d) <==>
              && LastReport(p, AtSnapshots(p, t, r), r.beforeWans, d).None?
              && LastReport(p, AtWans(p, t, r), r.beforeNetworks, d).None?
  {
    var t := Run(p, EMPTY, steps);
    ReachableSane(p, steps);
    SteadyIsSame(p, t, r, d);
    if LastReport(p, AtSnapshots(p, t, r), r.beforeWans, d).Some? {
      LastReportIsOne(p, AtSnapshots(p, t, r), r.beforeWans, d);
    }
  }

  // ----- a device's own view, query by query -------------------------------------------------

  /** What Context answers: it stops where it finds no snapshot. */
  function ContextRead(t: Tables, u: Tables, d: nat, wans: seq<Wan>, networks: seq<Segment>): Result<Context, Error> {
    if d !in t.devices then Err(DeviceNotFound)
    else if SnapshotIn(u, d).None? then Ok(Context(t.devices[d], false, None, [], []))
    else Ok(ReadView(t, u, d, wans, networks))
  }

  /** It is the view at its last query under the same condition. */
  lemma ContextReadIff(p: Parser, steps: seq<Step>, r: Reading, d: nat, wans: seq<Wan>, networks: seq<Segment>,
                       ownWans: seq<Wan>, ownNetworks: seq<Segment>)
    requires p.address("").None? && d in Run(p, EMPTY, steps).devices
    requires Answered(p, Run(p, EMPTY, steps), r, d, wans, networks)
    requires var t3 := AtNetworks(p, Run(p, EMPTY, steps), r);
             WanAnswer(ownWans, WansOf(t3, d)) && SegmentAnswer(ownNetworks, SegmentsOf(t3, d))
    ensures var t := Run(p, EMPTY, steps);
            var read := ContextRead(t, AtSnapshots(p, t, r), d, wans, networks);
            var own := ContextOf(AtNetworks(p, t, r), d, ownWans, ownNetworks);
            read.Ok? && own.Ok? && (SameView(read.value, own.value) <==> Steady(p, t, r, d))
  {
    var t := Run(p, EMPTY, steps);
    ReachableSane(p, steps);
    SteadyIsSame(p, t, r, d);
    ReadIff(p, t, r, d, wans, networks, ownWans, ownNetworks);
  }

  /** A device's own view, unlike its fleet entry, never has children without a
      snapshot, whatever is reported meanwhile; and it is that of no other device. */
  lemma UnreportedIsBare(t: Tables, u: Tables, d: nat, wans: seq<Wan>, networks: seq<Segment>)
    ensures var read := ContextRead(t, u, d, wans, networks);
            && (read == Err(DeviceNotFound) <==> d !in t.devices) && (read.Ok? <==> d in t.devices)
            && (read.Ok? ==> read.value.device == t.devices[d]
                             && (read.value.reported <==> exists i :: i in u.snapshots && u.snapshots[i].deviceId == d))
            && (read.Ok? && !read.value.reported ==> read.value.snapshot == None && read.value.wans == [] && read.value.networks == [])
            && (read.Ok? && read.value.reported ==>
                  read.value.snapshot.Some? && read.value.snapshot.value.deviceId == d && read.value.wans == wans && read.value.networks == networks)
  {
    if i :| i in u.snapshots && u.snapshots[i].deviceId == d { assert i in SnapshotsOf(u, d); }
  }

  // ----- a torn view ---------------------------------------------------------------------------

  const ONE_WAN := ReportInput([WanInput("wan0", "", false, "", "", "", "")], [])

  lemma OneWanIsAccepted(p: Parser)
    ensures Fault(p, ONE_WAN) == None
  {
    var w := ONE_WAN.wans[0];
    assert TrimSpace("") == "" && TrimSpace("wan0") != "" && NormalRole("") == "other";
    assert WanFault(p, w, {}, 0) == None;
    assert ONE_WAN.wans[1..] == [];
  }

  /** A new device reports between the query for snapshots and the query for WANs:
      its entry is not reported and has WANs. */
  lemma TornEntry(p: Parser, name: string, serverIp: string, now: Time, snapshots: seq<Snapshot>, wans: seq<Wan>,
                  networks: seq<Segment>)
    requires p.address("").None?
    requires var r := Reading([], [ReportStep(1, serverIp, ONE_WAN, now)], []);
             FleetRead(p, Run(p, EMPTY, [CreateDeviceStep(name)]), r, snapshots, wans, networks)
    ensures var t := Run(p, EMPTY, [CreateDeviceStep(name)]);
            && 1 in t.devices
            && var entry := Entry(t.devices[1], snapshots, wans, networks);
               !entry.reported && entry.snapshot == None && entry.wans != []
  {
    var t, s := Run(p, EMPTY, [CreateDeviceStep(name)]), ReportStep(1, serverIp, ONE_WAN, now);
    var r := Reading([], [s], []);
    ReachableSane(p, [CreateDeviceStep(name)]);
    RunOne(p, EMPTY, CreateDeviceStep(name));
    assert t == CreateDevice(EMPTY, name) && t.devices == map[1 := Device(1, name, true)] && SnapshotsOf(t, 1) == {};
    OneWanIsAccepted(p);
    RunOne(p, t, s);
    AcceptedWans(p, t, s, 1);
    FleetSnapshot(t, snapshots, 1);
    FleetWans(AtWans(p, t, r), wans, 1);
    var w :| w in WansOf(AtWans(p, t, r), 1);
    assert w in Grouped(wans, WanDevice, 1);
  }

  lemma RunOne(p: Parser, t: Tables, s: Step)
    ensures Run(p, t, [s]) == Apply(p, t, s)
  {
    assert [s][1..] == [];
  }
}
