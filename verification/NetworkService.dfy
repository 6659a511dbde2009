// networkcontext/service.go as the source writes it: an object over the tables.
// A report is validated in loops, replaces the device's child rows one insert at
// a time and answers with them sorted; the fleet view groups rows in maps.
module NetworkService {
  import opened Clock
  import opened Wrappers
  import opened Text
  import opened AddressScopes
  import opened NetworkTables
  import opened NetworkInvariant
  import opened NetworkViews
  import opened NetworkReads

  // ----- sorting --------------------------------------------------------------------

  /** sort.Slice, as far as it is specified: precedes holds along the result. */
  function Sorted<T>(rows: seq<T>, precedes: (T, T) -> bool): seq<T> {
    if rows == [] then [] else Inserted(rows[0], Sorted(rows[1..], precedes), precedes)
  }

  function Inserted<T>(x: T, rows: seq<T>, precedes: (T, T) -> bool): seq<T> {
    if rows == [] then [x]
    else if precedes(x, rows[0]) then [x] + rows
    else [rows[0]] + Inserted(x, rows[1..], precedes)
  }

  ghost predicate Orders<T(!new)>(precedes: (T, T) -> bool) {
    && (forall x, y :: precedes(x, y) || precedes(y, x))
    && (forall x, y, z :: precedes(x, y) && precedes(y, z) ==> precedes(x, z))
  }

  lemma {:induction false} InsertedFits<T(!new)>(x: T, rows: seq<T>, precedes: (T, T) -> bool)
    requires Orders(precedes) && Pairwise(rows, precedes)
    ensures Pairwise(Inserted(x, rows, precedes), precedes)
    ensures multiset(Inserted(x, rows, precedes)) == multiset(rows) + multiset{x}
  {
    if rows == [] {
    } else {
      var first, rest := rows[0], rows[1..];
      assert rows == [first] + rest;
      PairwiseFirst(first, rest, precedes);
      if precedes(x, first) {
        PairwiseFirst(x, rows, precedes);
      } else {
        InsertedFits(x, rest, precedes);
        var after := Inserted(x, rest, precedes);
        forall y | y in after ensures precedes(first, y) { assert y in multiset(after); }
        PairwiseFirst(first, after, precedes);
      }
    }
  }

  lemma {:induction false} SortedFits<T(!new)>(rows: seq<T>, precedes: (T, T) -> bool)
    requires Orders(precedes)
    ensures Pairwise(Sorted(rows, precedes), precedes) && multiset(Sorted(rows, precedes)) == multiset(rows)
  {
    if rows != [] {
      SortedFits(rows[1..], precedes);
      InsertedFits(rows[0], Sorted(rows[1..], precedes), precedes);
      assert rows == [rows[0]] + rows[1..];
    }
  }

  lemma WanOrderOrders()
    ensures Orders(WanMayPrecede)
  {
    forall a: Wan, b: Wan ensures WanMayPrecede(a, b) || WanMayPrecede(b, a) { WanOrderIsStrict(a, b); }
    forall a: Wan, b: Wan, c: Wan | WanMayPrecede(a, b) && WanMayPrecede(b, c) ensures WanMayPrecede(a, c) {
      NameOrder(a.interfaceName, b.interfaceName, c.interfaceName);
    }
  }

  lemma SegmentOrderOrders()
    ensures Orders(SegmentMayPrecede)
  {
    forall a: Segment, b: Segment ensures SegmentMayPrecede(a, b) || SegmentMayPrecede(b, a) { LessIsStrict(a.name, b.name); }
    forall a: Segment, b: Segment, c: Segment | SegmentMayPrecede(a, b) && SegmentMayPrecede(b, c) ensures SegmentMayPrecede(a, c) {
      NameOrder(a.name, b.name, c.name);
    }
  }

  lemma NameOrder(a: string, b: string, c: string)
    ensures !Less(b, a) && !Less(c, b) ==> !Less(c, a)
  {
    LessIsStrict(a, b);
    LessIsStrict(b, c);
    LessIsStrict(a, c);
    if Less(a, b) && Less(b, c) { LessIsTransitive(a, b, c); }
  }

  /** A permutation of a listing is one. */
  lemma {:induction false} PermutedLists<T(!new)>(rows: seq<T>, sorted: seq<T>, s: set<T>)
    requires Lists(rows, s) && multiset(sorted) == multiset(rows)
    ensures Lists(sorted, s)
  {
    ListsCount(rows, s);
    assert forall x :: x in sorted <==> x in multiset(sorted);
    forall i, j | 0 <= i < j < |sorted| ensures sorted[i] != sorted[j] {
      assert sorted == sorted[..i] + [sorted[i]] + sorted[i + 1..j] + [sorted[j]] + sorted[j + 1..];
      assert multiset(sorted)[sorted[i]] == 1;
    }
  }

  lemma SortedWans(rows: seq<Wan>, s: set<Wan>)
    requires Lists(rows, s)
    ensures WanAnswer(Sorted(rows, WanMayPrecede), s)
  {
    WanOrderOrders();
    SortedFits(rows, WanMayPrecede);
    PermutedLists(rows, Sorted(rows, WanMayPrecede), s);
  }

  lemma SortedSegments(rows: seq<Segment>, s: set<Segment>)
    requires Lists(rows, s)
    ensures SegmentAnswer(Sorted(rows, SegmentMayPrecede), s)
  {
    SegmentOrderOrders();
    SortedFits(rows, SegmentMayPrecede);
    PermutedLists(rows, Sorted(rows, SegmentMayPrecede), s);
  }

  // ----- inserting rows -------------------------------------------------------------------

  lemma RowsMore<I, R>(build: (nat, I) -> R, first: nat, inputs: seq<I>, i: nat)
    requires i < |inputs|
    ensures NewRows(build, first, inputs[..i + 1]) == NewRows(build, first, inputs[..i])[first + i := build(first + i, inputs[i])]
  {
  }

  lemma PutLast<R>(table: map<nat, R>, rows: map<nat, R>, i: nat, row: R)
    ensures (table + rows)[i := row] == table + rows[i := row]
  {
  }

  lemma InsertedMore<I, R>(table: map<nat, R>, build: (nat, I) -> R, first: nat, inputs: seq<I>, i: nat)
    requires i < |inputs|
    ensures (table + NewRows(build, first, inputs[..i]))[first + i := build(first + i, inputs[i])]
         == table + NewRows(build, first, inputs[..i + 1])
  {
    RowsMore(build, first, inputs, i);
    PutLast(table, NewRows(build, first, inputs[..i]), first + i, build(first + i, inputs[i]));
  }

  /** The rows inserted one by one are the device's rows afterwards. */
  lemma InsertedListed<I, R(!new)>(table: map<nat, R>, others: map<nat, R>, build: (nat, I) -> R, idOf: R -> nat,
                            deviceOf: R -> nat,
                                   first: nat, d: nat, inputs: seq<I>, rows: seq<R>)
    requires |rows| == |inputs| && forall k :: 0 <= k < |rows| ==> rows[k] == build(first + k, inputs[k])
    requires forall k :: 0 <= k < |rows| ==> idOf(rows[k]) == first + k && deviceOf(rows[k]) == d
    requires table == others + NewRows(build, first, inputs) && forall i :: i in others ==> deviceOf(others[i]) != d
    ensures Lists(rows, RowsOf(table, deviceOf, d))
  {
    forall x | x in RowsOf(table, deviceOf, d) ensures x in rows {
      var i :| i in table && deviceOf(table[i]) == d && table[i] == x;
      assert i in Ids(first, |inputs|);
      assert rows[i - first] == x;
    }
    forall x | x in rows ensures x in RowsOf(table, deviceOf, d) {
      var k :| 0 <= k < |rows| && rows[k] == x;
      assert first + k in Ids(first, |inputs|);
      assert table[first + k] == x;
    }
    forall i, j | 0 <= i < j < |rows| ensures rows[i] != rows[j] { assert idOf(rows[i]) != idOf(rows[j]); }
  }

  lemma InsertedWans(table: map<nat, Wan>, others: map<nat, Wan>, build: (nat, WanInput) -> Wan, first: nat, d: nat,
                     inputs: seq<WanInput>, rows: seq<Wan>)
    requires forall i, w :: Takes(build(i, w), i, d, w)
    requires |rows| == |inputs| && forall k :: 0 <= k < |rows| ==> rows[k] == build(first + k, inputs[k])
    requires table == others + NewRows(build, first, inputs) && forall i :: i in others ==> others[i].deviceId != d
    ensures Lists(rows, RowsOf(table, WanDevice, d))
  {
    forall k | 0 <= k < |rows| ensures rows[k].id == first + k && rows[k].deviceId == d {
      assert Takes(build(first + k, inputs[k]), first + k, d, inputs[k]);
    }
    InsertedListed(table, others, build, (r: Wan) => r.id, WanDevice, first, d, inputs, rows);
  }

  /** INSERT, row by row, with the next ids. */
  method InsertRows<I, R>(table: map<nat, R>, first: nat, build: (nat, I) -> R,
                          inputs: seq<I>) returns (after: map<nat, R>, rows: seq<R>)
    ensures after == table + NewRows(build, first, inputs)
    ensures |rows| == |inputs| && forall k :: 0 <= k < |rows| ==> rows[k] == build(first + k, inputs[k])
  {
    after, rows := table, [];
    for i := 0 to |inputs|
      invariant |rows| == i && after == table + NewRows(build, first, inputs[..i])
      invariant forall k :: 0 <= k < i ==> rows[k] == build(first + k, inputs[k])
    {
      var row := build(first + i, inputs[i]);
      InsertedMore(table, build, first, inputs, i);
      after := after[first + i := row];
      rows := rows + [row];
    }
    assert inputs[..|inputs|] == inputs;
  }

  /** What an accepted report answers with: the new snapshot and child rows, in order. */
  ghost predicate Answers(t: Tables, d: nat, c: Context) {
    && d in t.devices && c.device == t.devices[d] && c.reported
    && First(SnapshotsOf(t, d)).Some? && c.snapshot == Some(t.snapshots[First(SnapshotsOf(t, d)).value])
    && WanAnswer(c.wans, WansOf(t, d)) && SegmentAnswer(c.networks, SegmentsOf(t, d))
  }

  /** So the WANs a report answers with are the ones Context reads back. */
  lemma ReportReadsBack(p: Parser, steps: seq<Step>, d: nat, c: Context, wans: seq<Wan>, networks: seq<Segment>)
    requires p.address("").None? && Answers(Run(p, EMPTY, steps), d, c)
    requires WanAnswer(wans, WansOf(Run(p, EMPTY, steps), d)) && SegmentAnswer(networks, SegmentsOf(Run(p, EMPTY, steps), d))
    ensures ContextOf(Run(p, EMPTY, steps), d, wans, networks).Ok?
    ensures SameView(c, ContextOf(Run(p, EMPTY, steps), d, wans, networks).value)
  {
    var t := Run(p, EMPTY, steps);
    ReachableSane(p, steps);
    NamesOfDeviceDiffer(t, d);
    SameAnswer(c.wans, wans, WansOf(t, d));
    ListsCount(c.networks, SegmentsOf(t, d));
    ListsCount(networks, SegmentsOf(t, d));
  }

  class Service {
    const parser: Parser
    var devices: map<nat, Device>
    var snapshots: map<nat, Snapshot>
    var wans: map<nat, Wan>
    var segments: map<nat, Segment>
    var nextDevice: nat
    var nextSnapshot: nat
    var nextWan: nat
    var nextSegment: nat

    ghost function Db(): Tables
      reads this
    {
      Tables(devices, snapshots, wans, segments, nextDevice, nextSnapshot, nextWan, nextSegment)
    }

    constructor (parser: Parser)
      ensures this.parser == parser && Db() == EMPTY
    {
      this.parser := parser;
      devices, snapshots, wans, segments := map[], map[], map[], map[];
      nextDevice, nextSnapshot, nextWan, nextSegment := 1, 1, 1, 1;
    }

    method ValidateInput(input: ReportInput) returns (err: Option<Error>)
      ensures err == Fault(parser, input)
    {
      if |input.wans| == 0 { return Some(NoWan); }
      var seen: set<string>, defaultRoutes := {}, 0;
      for i := 0 to |input.wans|
        invariant WansFault(parser, input.wans[i..], seen, defaultRoutes) == WansFault(parser, input.wans, {}, 0)
      {
        var w := input.wans[i];
        assert input.wans[i..][0] == w && input.wans[i..][1..] == input.wans[i + 1..];
        ghost var defaults := defaultRoutes;
        var name := TrimSpace(w.interfaceName);
        if name == "" { return Some(InvalidInterface); }
        var key := ToLower(name);
        if key in seen { return Some(DuplicateInterface); }
        ghost var before := seen;
        seen := seen + {key};
        if w.defaultRoute {
          defaultRoutes := defaultRoutes + 1;
          if defaultRoutes > 1 { return Some(MultipleDefaultRoutes); }
        }
        var fault := ValidateWan(w);
        assert WanFault(parser, w, before, defaults) == fault;
        if fault.Some? { return fault; }
      }
      for i := 0 to |input.networks|
        invariant SegmentsFault(parser, input.networks[i..]) == SegmentsFault(parser, input.networks)
        invariant WansFault(parser, input.wans, {}, 0).None?
      {
        var n := input.networks[i];
        assert input.networks[i..][0] == n && input.networks[i..][1..] == input.networks[i + 1..];
        var fault := ValidateSegment(n);
        if fault.Some? { return fault; }
      }
      return None;
    }

    /** The rest of the checks of one WAN. */
    method ValidateWan(w: WanInput) returns (err: Option<Error>)
      ensures TrimSpace(w.interfaceName) != "" ==> err == WanFault(parser, w, {}, 0)
    {
      var role := NormalRole(w.role);
      if role != "primary" && role != "secondary" && role != "other" { return Some(InvalidWanRole); }
      var values := [w.ipv4, w.gatewayIpv4];
      for i := 0 to |values|
        invariant forall k :: 0 <= k < i ==> Ipv4Fits(parser, values[k])
      {
        if TrimSpace(values[i]) != "" {
          var parsed := parser.address(TrimSpace(values[i]));
          if parsed.None? || parsed.value.V6? {
            assert !Ipv4Fits(parser, values[i]);
            return Some(InvalidIpAddress);
          }
        }
      }
      assert Ipv4Fits(parser, values[0]) && Ipv4Fits(parser, values[1]);
      if TrimSpace(w.ipv6) != "" {
        var parsed := parser.address(TrimSpace(w.ipv6));
        if parsed.None? || parsed.value.V4? { return Some(InvalidIpAddress); }
      }
      if TrimSpace(w.publicIpv4) != "" && !IsPublicText(parser, w.publicIpv4) { return Some(InvalidPublicIpv4); }
      return None;
    }

    method ValidateSegment(n: SegmentInput) returns (err: Option<Error>)
      ensures err == SegmentFault(parser, n)
    {
      if TrimSpace(n.name) == "" { return Some(InvalidNetworkName); }
      if n.vlanId.Some? && (n.vlanId.value < 1 || n.vlanId.value > 4094) { return Some(InvalidVlan); }
      var cidr := TrimSpace(n.ipv4Cidr);
      var gateway := TrimSpace(n.gatewayIpv4);
      if cidr == "" && gateway == "" { return None; }
      var parsed := parser.prefix(cidr);
      if parsed.None? { return Some(InvalidCidr); }
      var prefix := Masked(parsed.value);
      if gateway != "" {
        TrimSpaceAgain(n.gatewayIpv4);
        var address := parser.address(gateway);
        if address.None? || address.value.V6? { return Some(InvalidIpAddress); }
        if !Contains(prefix, address.value.value) { return Some(InvalidGateway); }
      }
      return None;
    }

    method CreateDevice(name: string)
      modifies this`devices, this`nextDevice
      ensures Db() == NetworkTables.CreateDevice(old(Db()), name)
    {
      if !exists d :: d in devices && devices[d].name == name {
        devices := devices[nextDevice := Device(nextDevice, name, true)];
        nextDevice := nextDevice + 1;
      }
    }

    /** The snapshot row of the device, written again or made. */
    method SaveSnapshot(d: nat, serverIp: string, now: Time) returns (snapshot: Snapshot)
      modifies this`snapshots, this`nextSnapshot
      ensures Db() == PutSnapshot(old(Db()), d, serverIp, now)
      ensures snapshot.deviceId == d && snapshot.reportedAt == now && snapshot.serverObservedIp == serverIp
      ensures First(SnapshotsOf(Db(), d)) == Some(snapshot.id) && snapshots[snapshot.id] == snapshot
    {
      var found := set i | i in snapshots && snapshots[i].deviceId == d;
      assert found == SnapshotsOf(Db(), d);
      var id := nextSnapshot;
      if found != {} { id := First(found).value; } else { nextSnapshot := nextSnapshot + 1; }
      snapshot := Snapshot(id, d, now, serverIp);
      snapshots := snapshots[id := snapshot];
      assert SnapshotsOf(Db(), d) == if found == {} then {id} else found;
    }

    method InsertWans(d: nat, serverIp: string, inputs: seq<WanInput>) returns (rows: seq<Wan>)
      requires forall i :: i in wans ==> wans[i].deviceId != d
      modifies this`wans, this`nextWan
      ensures wans == old(wans) + NewWans(parser, old(nextWan), d, serverIp, inputs) && nextWan == old(nextWan) + |inputs|
      ensures Lists(rows, RowsOf(wans, WanDevice, d))
    {
      var build := (i: nat, w: WanInput) => BuildWan(parser, i, d, serverIp, w);
      ghost var others, first := wans, nextWan;
      wans, rows := InsertRows(wans, nextWan, build, inputs);
      nextWan := nextWan + |inputs|;
      forall i, w ensures Takes(build(i, w), i, d, w) { BuiltTakes(parser, i, d, serverIp, w); }
      InsertedWans(wans, others, build, first, d, inputs, rows);
    }

    method InsertSegments(d: nat, inputs: seq<SegmentInput>) returns (rows: seq<Segment>)
      requires forall i :: i in segments ==> segments[i].deviceId != d
      modifies this`segments, this`nextSegment
      ensures segments == old(segments) + NewSegments(old(nextSegment), d, inputs) && nextSegment == old(nextSegment) + |inputs|
      ensures Lists(rows, RowsOf(segments, SegmentDevice, d))
    {
      var build := (i: nat, n: SegmentInput) => BuildSegment(i, d, n);
      ghost var others, first := segments, nextSegment;
      segments, rows := InsertRows(segments, nextSegment, build, inputs);
      nextSegment := nextSegment + |inputs|;
      InsertedListed(segments, others, build, (r: Segment) => r.id, SegmentDevice, first, d, inputs, rows);
    }

    method Report(d: nat, serverObservedIp: string, input: ReportInput, now: Time) returns (result: Result<Context,
                  Error>)
      modifies this
      ensures match NetworkTables.Report(parser, old(Db()), d, serverObservedIp, input, now)
              case Err(e) => result == Err(e) && Db() == old(Db())
              case Ok(u) => Db() == u && result.Ok? && Answers(u, d, result.value)
    {
      var err := ValidateInput(input);
      if err.Some? { return Err(err.value); }
      if d !in devices || !devices[d].active { return Err(DeviceNotFound); }
      var context := Replace(d, TrimSpace(serverObservedIp), input, now);
      return Ok(context);
    }

    /** An accepted report: the transaction, then the sorted answer. */
    method Replace(d: nat, observed: string, input: ReportInput, now: Time) returns (context: Context)
      requires d in devices
      modifies this
      ensures Db() == Replaced(parser, old(Db()), d, observed, input, now) && Answers(Db(), d, context)
    {
      var snapshot, wanRows, segmentRows := ReplaceRows(d, observed, input, now);
      SortedWans(wanRows, WansOf(Db(), d));
      SortedSegments(segmentRows, SegmentsOf(Db(), d));
      return Context(devices[d], true, Some(snapshot), Sorted(wanRows, WanMayPrecede), Sorted(segmentRows, SegmentMayPrecede));
    }

    method ReplaceRows(d: nat, observed: string, input: ReportInput, now: Time)
      returns (snapshot: Snapshot, wanRows: seq<Wan>, segmentRows: seq<Segment>)
      modifies this
      ensures Db() == Replaced(parser, old(Db()), d, observed, input, now) && devices == old(devices)
      ensures First(SnapshotsOf(Db(), d)) == Some(snapshot.id) && snapshots[snapshot.id] == snapshot
      ensures Lists(wanRows, WansOf(Db(), d)) && Lists(segmentRows, SegmentsOf(Db(), d))
    {
      snapshot := SaveSnapshot(d, observed, now);
      ghost var t := Db();
      wanRows, segmentRows := ReplaceChildRows(d, observed, input);
      assert SnapshotsOf(Db(), d) == SnapshotsOf(t, d);
    }

    method ReplaceChildRows(d: nat, observed: string, input: ReportInput) returns (wanRows: seq<Wan>, segmentRows: seq<Segment>)
      modifies this`wans, this`segments, this`nextWan, this`nextSegment
      ensures wans == Others(old(wans), WanDevice, d) + NewWans(parser, old(nextWan), d, observed, input.wans)
      ensures segments == Others(old(segments), SegmentDevice, d) + NewSegments(old(nextSegment), d, input.networks)
      ensures nextWan == old(nextWan) + |input.wans| && nextSegment == old(nextSegment) + |input.networks|
      ensures Lists(wanRows, RowsOf(wans, WanDevice, d)) && Lists(segmentRows, RowsOf(segments, SegmentDevice, d))
    {
      DeleteChildren(d);
      wanRows := InsertWans(d, observed, input.wans);
      segmentRows := InsertSegments(d, input.networks);
    }

    method DeleteChildren(d: nat)
      modifies this`wans, this`segments
      ensures wans == Others(old(wans), WanDevice, d) && segments == Others(old(segments), SegmentDevice, d)
    {
      wans := map i | i in wans && wans[i].deviceId != d :: wans[i];
      segments := map i | i in segments && segments[i].deviceId != d :: segments[i];
    }

    /** What others commit between two queries. */
    method Interleave(others: seq<Step>)
      modifies this
      ensures Db() == Run(parser, old(Db()), others)
    {
      var after := Run(parser, Tables(devices, snapshots, wans, segments, nextDevice, nextSnapshot, nextWan, nextSegment), others);
      devices, snapshots, wans, segments := after.devices, after.snapshots, after.wans, after.segments;
      nextDevice, nextSnapshot, nextWan, nextSegment := after.nextDevice, after.nextSnapshot, after.nextWan, after.nextSegment;
    }

    /** wanRows and segmentRows are what the two queries for child rows answer,
        whenever they are asked. */
    method GetContext(d: nat, beforeSnapshot: seq<Step>, wanRows: seq<Wan>, segmentRows: seq<Segment>)
      returns (result: Result<Context, Error>)
      modifies this
      ensures Db() == if d in old(devices) then Run(parser, old(Db()), beforeSnapshot) else old(Db())
      ensures result == ContextRead(old(Db()), Db(), d, wanRows, segmentRows)
    {
      if d !in devices { return Err(DeviceNotFound); }
      var device := devices[d];
      Interleave(beforeSnapshot);
      var found := set i | i in snapshots && snapshots[i].deviceId == d;
      assert found == SnapshotsOf(Db(), d);
      if found == {} { return Ok(Context(device, false, None, [], [])); }
      return Ok(Context(device, true, Some(snapshots[First(found).value]), wanRows, segmentRows));
    }

    /** The four queries' answers: devices by name, snapshots in any order, child
        rows in the order of a device's own view. Reports may come in between. */
    method ListContexts(deviceRows: seq<Device>, snapshotRows: seq<Snapshot>, wanRows: seq<Wan>,
                        segmentRows: seq<Segment>)
      returns (result: seq<Context>)
      ensures |result| == |deviceRows|
      ensures forall k :: 0 <= k < |result| ==> result[k] == Entry(deviceRows[k], snapshotRows, wanRows, segmentRows)
    {
      var snapshotByDevice := SnapshotsByDevice(snapshotRows);
      var wansByDevice := GroupByDevice(wanRows, WanDevice);
      var networksByDevice := GroupByDevice(segmentRows, SegmentDevice);
      result := [];
      for i := 0 to |deviceRows|
        invariant |result| == i
        invariant forall k :: 0 <= k < i ==> result[k] == Entry(deviceRows[k], snapshotRows, wanRows, segmentRows)
      {
        EntryFrom(deviceRows[i], snapshotRows, wanRows, segmentRows, snapshotByDevice, wansByDevice, networksByDevice);
        result := result + [Gathered(deviceRows[i], snapshotByDevice, wansByDevice, networksByDevice)];
      }
    }

    /** What the three maps hold for a device. */
    static function Gathered(device: Device, snapshots: map<nat, Snapshot>, wans: map<nat, seq<Wan>>,
                             networks: map<nat, seq<Segment>>): Context {
      var snapshot := if device.id in snapshots then Some(snapshots[device.id]) else None;
      Context(device, snapshot.Some?, snapshot, if device.id in wans then wans[device.id] else [],
              if device.id in networks then networks[device.id] else [])
    }

    /** It makes up its entry. */
    static lemma EntryFrom(device: Device, snapshotRows: seq<Snapshot>, wanRows: seq<Wan>, segmentRows: seq<Segment>,
                           snapshots: map<nat, Snapshot>, wans: map<nat, seq<Wan>>, networks: map<nat, seq<Segment>>)
      requires (if device.id in snapshots then Some(snapshots[device.id]) else None) == SnapshotAmong(snapshotRows, device.id)
      requires (if device.id in wans then wans[device.id] else []) == Grouped(wanRows, WanDevice, device.id)
      requires (if device.id in networks then networks[device.id] else []) == Grouped(segmentRows, SegmentDevice, device.id)
      ensures Gathered(device, snapshots, wans, networks) == Entry(device, snapshotRows, wanRows, segmentRows)
    {
    }

    static method SnapshotsByDevice(rows: seq<Snapshot>) returns (byDevice: map<nat, Snapshot>)
      ensures forall d :: (if d in byDevice then Some(byDevice[d]) else None) == SnapshotAmong(rows, d)
    {
      byDevice := map[];
      for i := 0 to |rows|
        invariant forall d :: (if d in byDevice then Some(byDevice[d]) else None) == SnapshotAmong(rows[..i], d)
      {
        byDevice := byDevice[rows[i].deviceId := rows[i]];
        assert rows[..i + 1][..i] == rows[..i];
      }
      assert rows[..|rows|] == rows;
    }

    static method GroupByDevice<R>(rows: seq<R>, deviceOf: R -> nat) returns (groups: map<nat, seq<R>>)
      ensures forall d :: (if d in groups then groups[d] else []) == Grouped(rows, deviceOf, d)
    {
      groups := map[];
      for i := 0 to |rows|
        invariant forall d :: (if d in groups then groups[d] else []) == Grouped(rows[..i], deviceOf, d)
      {
        var d := deviceOf(rows[i]);
        var group := if d in groups then groups[d] else [];
        groups := groups[d := group + [rows[i]]];
        OneMoreGrouped(rows, i, deviceOf);
      }
      assert rows[..|rows|] == rows;
    }

    static lemma OneMoreGrouped<R>(rows: seq<R>, i: nat, deviceOf: R -> nat)
      requires i < |rows|
      ensures forall d :: Grouped(rows[..i + 1], deviceOf, d)
                       == Grouped(rows[..i], deviceOf, d) + if deviceOf(rows[i]) == d then [rows[i]] else []
    {
      assert rows[..i + 1][..i] == rows[..i] && rows[..i + 1][i] == rows[i];
    }
  }
}
