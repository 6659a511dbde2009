// The network identity tables and what Report of networkcontext/service.go
// makes of a device's report. Parsing of textual addresses is a parameter.
module NetworkTables {
  import opened Clock
  import opened Wrappers
  import opened Text
  import opened AddressScopes

  datatype WanInput = WanInput(
    interfaceName: string,
    role: string,
    defaultRoute: bool,
    ipv4: string,
    gatewayIpv4: string,
    ipv6: string,
    publicIpv4: string)

  datatype SegmentInput = SegmentInput(name: string, vlanId: Option<int>, ipv4Cidr: string, gatewayIpv4: string, purpose: string)

  datatype ReportInput = ReportInput(wans: seq<WanInput>, networks: seq<SegmentInput>)

  datatype Device = Device(id: nat, name: string, active: bool)

  datatype Snapshot = Snapshot(id: nat, deviceId: nat, reportedAt: Time, serverObservedIp: string)

  datatype NatState = Direct | DoubleNat | CarrierNat | PublicMismatch | UnknownNat

  datatype Source = NoSource | AgentProbe | ServerPeer

  /** The columns that say how a WAN reaches the Internet. */
  datatype Translation = Translation(
    natState: NatState,
    upstreamNat: bool,
    doubleNat: bool,
    cgnat: bool,
    publicIpMatch: Option<bool>)

  datatype Wan = Wan(
    id: nat,
    deviceId: nat,
    interfaceName: string,
    role: string,
    defaultRoute: bool,
    ipv4: string,
    gatewayIpv4: string,
    ipv6: string,
    observedPublicIpv4: string,
    publicIpSource: Source,
    scope: Scope,
    translation: Translation)

  datatype Segment = Segment(
    id: nat,
    deviceId: nat,
    name: string,
    vlanId: Option<int>,
    ipv4Cidr: string,
    gatewayIpv4: string,
    purpose: string)

  datatype Tables = Tables(
    devices: map<nat, Device>,
    snapshots: map<nat, Snapshot>,
    wans: map<nat, Wan>,
    segments: map<nat, Segment>,
    nextDevice: nat,
    nextSnapshot: nat,
    nextWan: nat,
    nextSegment: nat)

  const EMPTY := Tables(map[], map[], map[], map[], 1, 1, 1, 1)

  /** netip.ParseAddr, and netip.ParsePrefix for IPv4 prefixes. */
  datatype Parser = Parser(address: string -> Option<Address>, prefix: string -> Option<Prefix>)

  datatype Error =
    | DeviceNotFound
    | NoWan
    | InvalidInterface
    | DuplicateInterface
    | MultipleDefaultRoutes
    | InvalidWanRole
    | InvalidIpAddress
    | InvalidPublicIpv4
    | InvalidNetworkName
    | InvalidVlan
    | InvalidCidr
    | InvalidGateway
    | UniqueViolation

  // ----- one WAN --------------------------------------------------------------

  function ParseIpv4(p: Parser, value: string): Option<IPv4> {
    match p.address(TrimSpace(value))
    case Some(V4(a)) => Some(a)
    case _ => None
  }

  predicate IsPublicText(p: Parser, value: string) {
    ParseIpv4(p, value).Some? && IsPublic(ParseIpv4(p, value).value)
  }

  /** classifyIPv4 */
  function ScopeOf(p: Parser, value: string): Scope {
    match ParseIpv4(p, value)
    case Some(a) => Classify(a)
    case None => if TrimSpace(value) == "" then Unknown else Special
  }

  function NormalRole(role: string): string {
    var r := ToLower(TrimSpace(role));
    if r == "" then "other" else r
  }

  function ObservedBy(p: Parser, serverIp: string, w: WanInput): (string, Source) {
    var observed := TrimSpace(w.publicIpv4);
    if observed != "" then (observed, AgentProbe)
    else if w.defaultRoute && IsPublicText(p, serverIp) then (TrimSpace(serverIp), ServerPeer)
    else ("", NoSource)
  }

  /** The second half of buildWAN. */
  function Translate(p: Parser, scope: Scope, local: string, observed: string): Translation {
    var start := Translation(UnknownNat, false, false, false, None);
    var first := if scope == Cgnat then Translation(CarrierNat, true, false, true, None) else start;
    if local == "" || observed == "" then first
    else
      match (ParseIpv4(p, local), ParseIpv4(p, observed))
      case (Some(a), Some(b)) =>
        var matched := first.(publicIpMatch := Some(a == b));
        if scope == Public && a == b then matched.(natState := Direct)
        else if scope == Public then matched.(natState := PublicMismatch)
        else if scope == Private && IsPublic(b) then matched.(natState := DoubleNat, upstreamNat := true, doubleNat := true)
        else matched
      case _ => first
  }

  /** buildWAN */
  function BuildWan(p: Parser, id: nat, d: nat, serverIp: string, w: WanInput): Wan {
    var local, observed := TrimSpace(w.ipv4), ObservedBy(p, serverIp, w);
    var scope := ScopeOf(p, local);
    Wan(id, d, TrimSpace(w.interfaceName), NormalRole(w.role), w.defaultRoute, local, TrimSpace(w.gatewayIpv4),
        TrimSpace(w.ipv6), observed.0, observed.1, scope, Translate(p, scope, local, observed.0))
  }

  function BuildSegment(id: nat, d: nat, n: SegmentInput): Segment {
    Segment(id, d, TrimSpace(n.name), n.vlanId, TrimSpace(n.ipv4Cidr), TrimSpace(n.gatewayIpv4), TrimSpace(n.purpose))
  }

  // ----- validation --------------------------------------------------------------

  predicate Ipv4Fits(p: Parser, value: string) {
    TrimSpace(value) != "" ==> ParseIpv4(p, value).Some?
  }

  predicate Ipv6Fits(p: Parser, value: string) {
    TrimSpace(value) != "" ==> p.address(TrimSpace(value)).Some? && p.address(TrimSpace(value)).value.V6?
  }

  predicate PublicFits(p: Parser, value: string) {
    TrimSpace(value) != "" ==> IsPublicText(p, value)
  }

  function NameKey(w: WanInput): string { ToLower(TrimSpace(w.interfaceName)) }

  /** The first thing wrong with a WAN, after those with the given names and
      number of default routes. */
  function WanFault(p: Parser, w: WanInput, seen: set<string>, defaults: nat): Option<Error> {
    if TrimSpace(w.interfaceName) == "" then Some(InvalidInterface)
    else if NameKey(w) in seen then Some(DuplicateInterface)
    else if w.defaultRoute && defaults > 0 then Some(MultipleDefaultRoutes)
    else if NormalRole(w.role) !in {"primary", "secondary", "other"} then Some(InvalidWanRole)
    else if !Ipv4Fits(p, w.ipv4) || !Ipv4Fits(p, w.gatewayIpv4) || !Ipv6Fits(p, w.ipv6) then Some(InvalidIpAddress)
    else if !PublicFits(p, w.publicIpv4) then Some(InvalidPublicIpv4)
    else None
  }

  function WansFault(p: Parser, wans: seq<WanInput>, seen: set<string>, defaults: nat): Option<Error>
    decreases |wans|
  {
    if wans == [] then None
    else
      var w := wans[0];
      match WanFault(p, w, seen, defaults)
      case Some(e) => Some(e)
      case None => WansFault(p, wans[1..], seen + {NameKey(w)}, if w.defaultRoute then defaults + 1 else defaults)
  }

  function SegmentFault(p: Parser, n: SegmentInput): Option<Error> {
    var cidr, gateway := TrimSpace(n.ipv4Cidr), TrimSpace(n.gatewayIpv4);
    if TrimSpace(n.name) == "" then Some(InvalidNetworkName)
    else if n.vlanId.Some? && !(1 <= n.vlanId.value <= 4094) then Some(InvalidVlan)
    else if cidr == "" && gateway == "" then None
    else if p.prefix(cidr).None? then Some(InvalidCidr)
    else if gateway == "" then None
    else if ParseIpv4(p, gateway).None? then Some(InvalidIpAddress)
    else if !Contains(Masked(p.prefix(cidr).value), ParseIpv4(p, gateway).value) then Some(InvalidGateway)
    else None
  }

  function SegmentsFault(p: Parser, networks: seq<SegmentInput>): Option<Error>
    decreases |networks|
  {
    if networks == [] then None
    else
      match SegmentFault(p, networks[0])
      case Some(e) => Some(e)
      case None => SegmentsFault(p, networks[1..])
  }

  /** validateInput */
  function Fault(p: Parser, input: ReportInput): Option<Error> {
    if input.wans == [] then Some(NoWan)
    else
      match WansFault(p, input.wans, {}, 0)
      case Some(e) => Some(e)
      case None => SegmentsFault(p, input.networks)
  }

  // ----- tables --------------------------------------------------------------------

  function SnapshotsOf(t: Tables, d: nat): set<nat> {
    set i | i in t.snapshots && t.snapshots[i].deviceId == d
  }

  function CreateDevice(t: Tables, name: string): Tables {
    if exists d :: d in t.devices && t.devices[d].name == name then t
    else t.(devices := t.devices[t.nextDevice := Device(t.nextDevice, name, true)], nextDevice := t.nextDevice + 1)
  }

  /** The ids that count inserts take. */
  function Ids(first: nat, count: nat): (r: set<nat>)
    ensures forall i :: i in r <==> first <= i < first + count
  {
    if count == 0 then {} else Ids(first, count - 1) + {first + count - 1}
  }

  /** The rows built from the parts of a report, with consecutive ids. */
  function NewRows<I, R>(build: (nat, I) -> R, first: nat, inputs: seq<I>): map<nat, R> {
    map i | i in Ids(first, |inputs|) :: build(i, inputs[i - first])
  }

  function NewWans(p: Parser, first: nat, d: nat, serverIp: string, wans: seq<WanInput>): map<nat, Wan> {
    NewRows((i, w) => BuildWan(p, i, d, serverIp, w), first, wans)
  }

  function NewSegments(first: nat, d: nat, networks: seq<SegmentInput>): map<nat, Segment> {
    NewRows((i, n) => BuildSegment(i, d, n), first, networks)
  }

  /** What is left of a table after DELETE ... WHERE device_id = d */
  function Others<R>(table: map<nat, R>, deviceOf: R -> nat, d: nat): map<nat, R> {
    map i | i in table && deviceOf(table[i]) != d :: table[i]
  }

  /** The one snapshot row of a device, written again or made. */
  function PutSnapshot(t: Tables, d: nat, serverIp: string, now: Time): Tables {
    match First(SnapshotsOf(t, d))
    case Some(i) => t.(snapshots := t.snapshots[i := Snapshot(i, d, now, serverIp)])
    case None =>
      t.(snapshots := t.snapshots[t.nextSnapshot := Snapshot(t.nextSnapshot, d, now, serverIp)],
         nextSnapshot := t.nextSnapshot + 1)
  }

  function ReplaceChildren(t: Tables, d: nat, wans: map<nat, Wan>, wanCount: nat, segments: map<nat, Segment>,
                           segmentCount: nat): Tables {
    t.(wans := Others(t.wans, WanDevice, d) + wans, segments := Others(t.segments, SegmentDevice, d) + segments,
       nextWan := t.nextWan + wanCount, nextSegment := t.nextSegment + segmentCount)
  }

  /** What an accepted report leaves: the device's child rows are replaced. */
  function Replaced(p: Parser, t: Tables, d: nat, serverIp: string, input: ReportInput, now: Time): Tables {
    ReplaceChildren(PutSnapshot(t, d, serverIp, now), d,
                    NewWans(p, t.nextWan, d, serverIp, input.wans), |input.wans|,
                    NewSegments(t.nextSegment, d, input.networks), |input.networks|)
  }

  function Report(p: Parser, t: Tables, d: nat, serverIp: string, input: ReportInput, now: Time): Result<Tables,
                  Error> {
    match Fault(p, input)
    case Some(e) => Err(e)
    case None =>
      if d !in t.devices || !t.devices[d].active then Err(DeviceNotFound)
      else Ok(Replaced(p, t, d, TrimSpace(serverIp), input, now))
  }

  // ----- reading --------------------------------------------------------------------

  datatype Context = Context(
    device: Device,
    reported: bool,
    snapshot: Option<Snapshot>,
    wans: seq<Wan>,
    networks: seq<Segment>)

  function WanDevice(r: Wan): nat { r.deviceId }

  function SegmentDevice(r: Segment): nat { r.deviceId }

  /** SELECT ... WHERE device_id = d */
  function RowsOf<R>(table: map<nat, R>, deviceOf: R -> nat, d: nat): set<R> {
    set i | i in table && deviceOf(table[i]) == d :: table[i]
  }

  function WansOf(t: Tables, d: nat): set<Wan> { RowsOf(t.wans, WanDevice, d) }

  function SegmentsOf(t: Tables, d: nat): set<Segment> { RowsOf(t.segments, SegmentDevice, d) }

  /** ORDER BY default_route DESC, interface_name ASC */
  predicate WanBefore(a: Wan, b: Wan) {
    if a.defaultRoute != b.defaultRoute then a.defaultRoute else Less(a.interfaceName, b.interfaceName)
  }

  predicate WanMayPrecede(a: Wan, b: Wan) { !WanBefore(b, a) }

  predicate SegmentMayPrecede(a: Segment, b: Segment) { !Less(b.name, a.name) }

  ghost predicate WanAnswer(rows: seq<Wan>, s: set<Wan>) { Lists(rows, s) && Pairwise(rows, WanMayPrecede) }

  ghost predicate SegmentAnswer(rows: seq<Segment>, s: set<Segment>) { Lists(rows, s) && Pairwise(rows,
                                SegmentMayPrecede) }

  /** Context, given the answers to its two queries for child rows. */
  function ContextOf(t: Tables, d: nat, wans: seq<Wan>, networks: seq<Segment>): Result<Context, Error> {
    if d !in t.devices then Err(DeviceNotFound)
    else
      match First(SnapshotsOf(t, d))
      case None => Ok(Context(t.devices[d], false, None, [], []))
      case Some(i) => Ok(Context(t.devices[d], true, Some(t.snapshots[i]), wans, networks))
  }

  /** The rows of one device, in the order they come in. */
  function Grouped<R>(rows: seq<R>, deviceOf: R -> nat, d: nat): seq<R> {
    if rows == [] then []
    else
      var last := rows[|rows| - 1];
      Grouped(rows[..|rows| - 1], deviceOf, d) + if deviceOf(last) == d then [last] else []
  }

  function SnapshotAmong(rows: seq<Snapshot>, d: nat): Option<Snapshot> {
    if rows == [] then None
    else if rows[|rows| - 1].deviceId == d then Some(rows[|rows| - 1])
    else SnapshotAmong(rows[..|rows| - 1], d)
  }

  /** One entry of the fleet view, from the answers to its four queries. */
  function Entry(device: Device, snapshots: seq<Snapshot>, wans: seq<Wan>, networks: seq<Segment>): Context {
    var snapshot := SnapshotAmong(snapshots, device.id);
    Context(device, snapshot.Some?, snapshot, Grouped(wans, WanDevice, device.id),
            Grouped(networks, SegmentDevice, device.id))
  }

  // ----- runs --------------------------------------------------------------------------

  datatype Step =
    | CreateDeviceStep(name: string)
    | ReportStep(deviceId: nat, serverIp: string, input: ReportInput, now: Time)

  function Apply(p: Parser, t: Tables, s: Step): Tables {
    match s
    case CreateDeviceStep(name) => CreateDevice(t, name)
    case ReportStep(d, serverIp, input, now) =>
      match Report(p, t, d, serverIp, input, now)
      case Ok(u) => u
      case Err(_) => t
  }

  function Run(p: Parser, t: Tables, steps: seq<Step>): Tables
    decreases |steps|
  {
    if steps == [] then t else Run(p, Apply(p, t, steps[0]), steps[1..])
  }
}
