// What an accepted report leaves in the tables, column by column and told on the
// report itself; and exactly which reports are refused, each error for a reason
// of its own.
module NetworkRows {
  import opened Clock
  import opened Wrappers
  import opened Text
  import opened AddressScopes
  import opened NetworkTables
  import opened NetworkProperties
  import opened NetworkInvariant
  import opened NetworkReads

  /** The text, without white space around it, is the IPv4 address a. */
  predicate IsV4(p: Parser, text: string, a: IPv4) { p.address(TrimSpace(text)) == Some(V4(a)) }

  ghost predicate IsSomeV4(p: Parser, text: string) { exists a :: IsV4(p, text, a) }

  ghost predicate IsPublicV4(p: Parser, text: string) { exists a :: IsV4(p, text, a) && IsPublic(a) }

  predicate Blank(text: string) { TrimSpace(text) == "" }

  // ----- one WAN ------------------------------------------------------------------

  /** The columns a row takes from its input as they are. */
  predicate Copies(r: Wan, i: nat, d: nat, w: WanInput) {
    && r.id == i && r.deviceId == d && r.interfaceName == TrimSpace(w.interfaceName) && r.defaultRoute == w.defaultRoute
    && r.role == (if Blank(w.role) then "other" else ToLower(TrimSpace(w.role)))
    && r.ipv4 == TrimSpace(w.ipv4) && r.gatewayIpv4 == TrimSpace(w.gatewayIpv4) && r.ipv6 == TrimSpace(w.ipv6)
  }

  /** The public address a row is given: what the agent saw, else for the default
      route what the server saw, if that is public. */
  ghost predicate Observes(p: Parser, r: Wan, serverIp: string, w: WanInput) {
    if !Blank(w.publicIpv4) then r.observedPublicIpv4 == TrimSpace(w.publicIpv4) && r.publicIpSource == AgentProbe
    else if w.defaultRoute && IsPublicV4(p, serverIp) then r.observedPublicIpv4 == TrimSpace(serverIp) && r.publicIpSource == ServerPeer
    else r.observedPublicIpv4 == "" && r.publicIpSource == NoSource
  }

  /** The state of a WAN with its own address a, seen from outside as b. */
  predicate Behind(state: NatState, a: IPv4, b: IPv4) {
    state == if InCgnatRange(a) then CarrierNat
             else if IsPublic(a) then (if a == b then Direct else PublicMismatch)
             else if InPrivateRanges(a) then DoubleNat
             else UnknownNat
  }

  predicate InScope(scope: Scope, a: IPv4) {
    scope == if InCgnatRange(a) then Cgnat else if InPrivateRanges(a) then Private else if IsPublic(a) then Public else Special
  }

  /** Scope and NAT state, from the addresses the report and the server give. */
  ghost predicate Judges(p: Parser, r: Wan, serverIp: string, w: WanInput) {
    && (Blank(w.ipv4) ==> r.scope == Unknown && r.translation == Translation(UnknownNat, false, false, false, None))
    && (forall a :: IsV4(p, w.ipv4, a) ==>
          && InScope(r.scope, a)
          && (r.observedPublicIpv4 == "" ==> r.translation.publicIpMatch == None
                                             && r.translation.natState == if InCgnatRange(a) then CarrierNat else UnknownNat)
          && (forall b :: r.observedPublicIpv4 != "" && IsV4(p, r.observedPublicIpv4, b) ==>
                r.translation.publicIpMatch == Some(a == b) && Behind(r.translation.natState, a, b)))
    && r.translation.cgnat == (r.translation.natState == CarrierNat)
    && r.translation.doubleNat == (r.translation.natState == DoubleNat)
    && r.translation.upstreamNat == (r.translation.natState in {CarrierNat, DoubleNat})
  }

  lemma PublicTextIff(p: Parser, text: string)
    ensures IsPublicText(p, text) <==> IsPublicV4(p, text)
    ensures IsPublicText(p, TrimSpace(text)) <==> IsPublicV4(p, text)
  {
    TrimSpaceAgain(text);
    if IsPublicText(p, text) { assert IsV4(p, text, ParseIpv4(p, text).value); }
  }

  lemma BuiltObserves(p: Parser, i: nat, d: nat, serverIp: string, w: WanInput)
    ensures Copies(BuildWan(p, i, d, serverIp, w), i, d, w) && Observes(p, BuildWan(p, i, d, serverIp, w), serverIp, w)
  {
    PublicTextIff(p, serverIp);
    assert ToLower(TrimSpace(w.role)) == "" <==> TrimSpace(w.role) == "";
  }

  lemma JudgedUnseen(p: Parser, a: IPv4, local: string)
    requires p.address(local) == Some(V4(a)) && TrimSpace(local) == local && local != ""
    ensures InScope(ScopeOf(p, local), a)
    ensures Translate(p, ScopeOf(p, local), local, "")
         == if InCgnatRange(a) then Translation(CarrierNat, true, false, true, None) else Translation(UnknownNat, false, false, false, None)
  {
    ScopesAreRanges(a);
    RangesAreDisjoint(a);
    PublicIsTheRest(a);
  }

  lemma JudgedSeen(p: Parser, a: IPv4, b: IPv4, local: string, observed: string)
    requires p.address(local) == Some(V4(a)) && TrimSpace(local) == local && local != ""
    requires p.address(observed) == Some(V4(b)) && TrimSpace(observed) == observed && observed != "" && IsPublic(b)
    ensures var r := Translate(p, ScopeOf(p, local), local, observed);
            && r.publicIpMatch == Some(a == b) && Behind(r.natState, a, b)
            && r.cgnat == (r.natState == CarrierNat) && r.doubleNat == (r.natState == DoubleNat)
            && r.upstreamNat == (r.natState in {CarrierNat, DoubleNat})
  {
    ScopesAreRanges(a);
    RangesAreDisjoint(a);
    PublicIsTheRest(a);
  }

  lemma BuiltJudges(p: Parser, i: nat, d: nat, serverIp: string, w: WanInput)
    requires p.address("").None? && WanFits(p, w)
    ensures Judges(p, BuildWan(p, i, d, serverIp, w), serverIp, w)
  {
    var r := BuildWan(p, i, d, serverIp, w);
    TrimSpaceAgain(w.ipv4);
    BuiltIsSound(p, i, d, serverIp, w);
    if Blank(w.ipv4) {
      EmptyIsUnknown(p);
    } else {
      var a := ParseIpv4(p, w.ipv4).value;
      assert IsV4(p, w.ipv4, a);
      JudgedUnseen(p, a, r.ipv4);
      if r.observedPublicIpv4 != "" {
        ObservedIsPublic(p, serverIp, w);
        var b := ParseIpv4(p, r.observedPublicIpv4).value;
        TrimSpaceAgain(w.publicIpv4);
        TrimSpaceAgain(serverIp);
        JudgedSeen(p, a, b, r.ipv4, r.observedPublicIpv4);
      }
    }
  }

  /** The scope of any text: none where it is blank, and special where it is no IPv4
      address. */
  lemma ScopeOfText(p: Parser, text: string)
    ensures ScopeOf(p, text) == Unknown <==> !IsSomeV4(p, text) && Blank(text)
    ensures !IsSomeV4(p, text) && !Blank(text) ==> ScopeOf(p, text) == Special
    ensures forall a :: IsV4(p, text, a) ==> InScope(ScopeOf(p, text), a)
  {
    V4Iff(p, text);
    if ParseIpv4(p, text).Some? {
      var a := ParseIpv4(p, text).value;
      ScopesAreRanges(a);
      RangesAreDisjoint(a);
      PublicIsTheRest(a);
    }
  }

  // ----- one segment -----------------------------------------------------------------

  predicate CopiesSegment(r: Segment, i: nat, d: nat, n: SegmentInput) {
    && r.id == i && r.deviceId == d && r.name == TrimSpace(n.name) && r.vlanId == n.vlanId && r.ipv4Cidr == TrimSpace(n.ipv4Cidr)
    && r.gatewayIpv4 == TrimSpace(n.gatewayIpv4) && r.purpose == TrimSpace(n.purpose)
  }

  // ----- the rows of a report ------------------------------------------------------------

  /** Each WAN of the report has its row, with the ids from first on, and the device
      has no other. */
  ghost predicate WansReported(p: Parser, table: map<nat, Wan>, first: nat, d: nat, serverIp: string, wans: seq<WanInput>) {
    && (forall k: nat :: k < |wans| ==> HasRow(p, table, first, d, serverIp, wans, k))
    && (forall i :: i in table && table[i].deviceId == d ==> first <= i < first + |wans|)
  }

  /** The k-th WAN of the report has its row. */
  ghost predicate HasRow(p: Parser, table: map<nat, Wan>, first: nat, d: nat, serverIp: string, wans: seq<WanInput>, k: nat)
    requires k < |wans|
  {
    first + k in table && WanReported(p, table[first + k], first + k, d, serverIp, wans[k])
  }

  ghost predicate WanReported(p: Parser, r: Wan, i: nat, d: nat, serverIp: string, w: WanInput) {
    Copies(r, i, d, w) && Observes(p, r, serverIp, w) && Judges(p, r, serverIp, w)
  }

  ghost predicate SegmentsReported(table: map<nat, Segment>, first: nat, d: nat, networks: seq<SegmentInput>) {
    && (forall k: nat :: k < |networks| ==> HasSegment(table, first, d, networks, k))
    && (forall i :: i in table && table[i].deviceId == d ==> first <= i < first + |networks|)
  }

  /** The k-th network of the report has its row. */
  ghost predicate HasSegment(table: map<nat, Segment>, first: nat, d: nat, networks: seq<SegmentInput>, k: nat)
    requires k < |networks|
  {
    first + k in table && CopiesSegment(table[first + k], first + k, d, networks[k])
  }

  lemma NewRowAt<I, R>(build: (nat, I) -> R, first: nat, inputs: seq<I>, k: nat)
    requires k < |inputs|
    ensures first + k in NewRows(build, first, inputs) && NewRows(build, first, inputs)[first + k] == build(first + k, inputs[k])
    ensures forall i :: i in NewRows(build, first, inputs) ==> first <= i < first + |inputs|
  {
    assert first + k in Ids(first, |inputs|);
  }

  lemma NewWanAt(p: Parser, first: nat, d: nat, serverIp: string, wans: seq<WanInput>, k: nat)
    requires k < |wans|
    ensures first + k in NewWans(p, first, d, serverIp, wans)
    ensures NewWans(p, first, d, serverIp, wans)[first + k] == BuildWan(p, first + k, d, serverIp, wans[k])
  {
    NewRowAt((i, w) => BuildWan(p, i, d, serverIp, w), first, wans, k);
  }

  /** The device's rows are the new ones. */
  lemma OwnedAreNew<R>(table: map<nat, R>, rows: map<nat, R>, deviceOf: R -> nat, d: nat)
    ensures forall i :: i in Others(table, deviceOf, d) + rows && deviceOf((Others(table, deviceOf, d) + rows)[i]) == d ==> i in rows
    ensures forall i :: i in rows ==> i in Others(table, deviceOf, d) + rows && (Others(table, deviceOf, d) + rows)[i] == rows[i]
  {
  }

  lemma NewWanIsBuilt(p: Parser, table: map<nat, Wan>, first: nat, d: nat, serverIp: string, wans: seq<WanInput>, k: nat)
    requires k < |wans|
    ensures var all := Others(table, WanDevice, d) + NewWans(p, first, d, serverIp, wans);
            first + k in all && all[first + k] == BuildWan(p, first + k, d, serverIp, wans[k])
  {
    NewWanAt(p, first, d, serverIp, wans, k);
  }

  lemma ReportedHasRow(p: Parser, table: map<nat, Wan>, first: nat, d: nat, serverIp: string, wans: seq<WanInput>, k: nat, r: Wan)
    requires k < |wans| && first + k in table && table[first + k] == r && WanReported(p, r, first + k, d, serverIp, wans[k])
    ensures HasRow(p, table, first, d, serverIp, wans, k)
  {
  }

  lemma NewWanReported(p: Parser, table: map<nat, Wan>, first: nat, d: nat, serverIp: string, wans: seq<WanInput>, k: nat)
    requires p.address("").None? && k < |wans| && WanFits(p, wans[k])
    ensures HasRow(p, Others(table, WanDevice, d) + NewWans(p, first, d, TrimSpace(serverIp), wans), first, d, serverIp, wans, k)
  {
    var all := Others(table, WanDevice, d) + NewWans(p, first, d, TrimSpace(serverIp), wans);
    NewWanIsBuilt(p, table, first, d, TrimSpace(serverIp), wans, k);
    BuiltIsReported(p, first + k, d, serverIp, wans[k]);
    ReportedHasRow(p, all, first, d, serverIp, wans, k, BuildWan(p, first + k, d, TrimSpace(serverIp), wans[k]));
  }

  lemma NewWansRange(p: Parser, table: map<nat, Wan>, first: nat, d: nat, serverIp: string, wans: seq<WanInput>)
    ensures var all := Others(table, WanDevice, d) + NewWans(p, first, d, serverIp, wans);
            forall i :: i in all && all[i].deviceId == d ==> first <= i < first + |wans|
  {
    var rows := NewWans(p, first, d, serverIp, wans);
    var all := Others(table, WanDevice, d) + rows;
    NewWansFit(p, first, d, serverIp, wans);
    OwnedAreNew(table, rows, WanDevice, d);
    forall i | i in all && all[i].deviceId == d ensures first <= i < first + |wans| { assert WanDevice(all[i]) == d; }
  }

  lemma NewWansReported(p: Parser, table: map<nat, Wan>, first: nat, d: nat, serverIp: string, wans: seq<WanInput>)
    requires p.address("").None? && forall w :: w in wans ==> WanFits(p, w)
    ensures WansReported(p, Others(table, WanDevice, d) + NewWans(p, first, d, TrimSpace(serverIp), wans), first, d, serverIp, wans)
  {
    var all := Others(table, WanDevice, d) + NewWans(p, first, d, TrimSpace(serverIp), wans);
    NewWansRange(p, table, first, d, TrimSpace(serverIp), wans);
    forall k: nat | k < |wans| ensures HasRow(p, all, first, d, serverIp, wans, k) {
      NewWanReported(p, table, first, d, serverIp, wans, k);
    }
  }

  lemma BuiltIsReported(p: Parser, i: nat, d: nat, serverIp: string, w: WanInput)
    requires p.address("").None? && WanFits(p, w)
    ensures WanReported(p, BuildWan(p, i, d, TrimSpace(serverIp), w), i, d, serverIp, w)
  {
    BuiltObserves(p, i, d, TrimSpace(serverIp), w);
    BuiltJudges(p, i, d, TrimSpace(serverIp), w);
    TrimSpaceAgain(serverIp);
    assert IsPublicV4(p, TrimSpace(serverIp)) <==> IsPublicV4(p, serverIp) by {
      PublicTextIff(p, serverIp);
      PublicTextIff(p, TrimSpace(serverIp));
    }
  }

  lemma AcceptedSegmentsAre(p: Parser, t: Tables, s: Step, d: nat)
    requires Accepts(p, t, s, d)
    ensures Apply(p, t, s).segments == Others(t.segments, SegmentDevice, d) + NewSegments(t.nextSegment, d, s.input.networks)
  {
  }

  lemma NewSegmentAt(first: nat, d: nat, networks: seq<SegmentInput>, k: nat)
    requires k < |networks|
    ensures first + k in NewSegments(first, d, networks)
    ensures NewSegments(first, d, networks)[first + k] == BuildSegment(first + k, d, networks[k])
  {
    NewRowAt((i, n) => BuildSegment(i, d, n), first, networks, k);
  }

  lemma NewSegmentReported(table: map<nat, Segment>, first: nat, d: nat, networks: seq<SegmentInput>, k: nat)
    requires k < |networks|
    ensures HasSegment(Others(table, SegmentDevice, d) + NewSegments(first, d, networks), first, d, networks, k)
  {
    NewSegmentAt(first, d, networks, k);
  }

  lemma NewSegmentsRange(table: map<nat, Segment>, first: nat, d: nat, networks: seq<SegmentInput>)
    ensures var all := Others(table, SegmentDevice, d) + NewSegments(first, d, networks);
            forall i :: i in all && all[i].deviceId == d ==> first <= i < first + |networks|
  {
    var rows := NewSegments(first, d, networks);
    var all := Others(table, SegmentDevice, d) + rows;
    NewSegmentsFit(first, d, networks);
    OwnedAreNew(table, rows, SegmentDevice, d);
    forall i | i in all && all[i].deviceId == d ensures first <= i < first + |networks| { assert SegmentDevice(all[i]) == d; }
  }

  lemma NewSegmentsReported(table: map<nat, Segment>, first: nat, d: nat, networks: seq<SegmentInput>)
    ensures SegmentsReported(Others(table, SegmentDevice, d) + NewSegments(first, d, networks), first, d, networks)
  {
    var all := Others(table, SegmentDevice, d) + NewSegments(first, d, networks);
    NewSegmentsRange(table, first, d, networks);
    forall k: nat | k < |networks| ensures HasSegment(all, first, d, networks, k) { NewSegmentReported(table, first, d, networks, k); }
  }

  /** From every reachable state an accepted report leaves exactly the rows it
      describes, and one snapshot with its own clock and peer. */
  lemma ReportIsStored(p: Parser, steps: seq<Step>, s: Step, d: nat)
    requires p.address("").None? && Accepts(p, Run(p, EMPTY, steps), s, d)
    ensures var t, u := Run(p, EMPTY, steps), Apply(p, Run(p, EMPTY, steps), s);
            && WansReported(p, u.wans, t.nextWan, d, s.serverIp, s.input.wans)
            && SegmentsReported(u.segments, t.nextSegment, d, s.input.networks)
            && (exists i :: i in u.snapshots && u.snapshots[i] == Snapshot(i, d, s.now, TrimSpace(s.serverIp)))
            && (forall i, j :: i in u.snapshots && j in u.snapshots && u.snapshots[i].deviceId == d && u.snapshots[j].deviceId == d ==> i == j)
  {
    var t, u := Run(p, EMPTY, steps), Apply(p, Run(p, EMPTY, steps), s);
    ReachableSane(p, steps);
    StepKeeps(p, t, s);
    AcceptedWansAre(p, t, s, d);
    AcceptedSegmentsAre(p, t, s, d);
    FaultIff(p, s.input);
    NewWansReported(p, t.wans, t.nextWan, d, s.serverIp, s.input.wans);
    NewSegmentsReported(t.segments, t.nextSegment, d, s.input.networks);
    AcceptedRow(p, t, s, d);
    var i := First(SnapshotsOf(u, d)).value;
    assert u.snapshots[i].id == i;
  }

  // ----- which reports are refused ---------------------------------------------------------

  ghost predicate WanIsFine(p: Parser, w: WanInput) {
    && !Blank(w.interfaceName) && ToLower(TrimSpace(w.role)) in {"", "primary", "secondary", "other"}
    && (Blank(w.ipv4) || IsSomeV4(p, w.ipv4)) && (Blank(w.gatewayIpv4) || IsSomeV4(p, w.gatewayIpv4))
    && (Blank(w.ipv6) || exists x :: p.address(TrimSpace(w.ipv6)) == Some(V6(x)))
    && (Blank(w.publicIpv4) || IsPublicV4(p, w.publicIpv4))
  }

  ghost predicate SameInterface(wans: seq<WanInput>, i: nat, j: nat) {
    i < j < |wans| && ToLower(TrimSpace(wans[i].interfaceName)) == ToLower(TrimSpace(wans[j].interfaceName))
  }

  ghost predicate BothDefault(wans: seq<WanInput>, i: nat, j: nat) {
    i < j < |wans| && wans[i].defaultRoute && wans[j].defaultRoute
  }

  ghost predicate SegmentIsFine(p: Parser, n: SegmentInput) {
    && !Blank(n.name) && (n.vlanId.Some? ==> 1 <= n.vlanId.value <= 4094)
    && ((Blank(n.ipv4Cidr) && Blank(n.gatewayIpv4)) || p.prefix(TrimSpace(n.ipv4Cidr)).Some?)
    && (Blank(n.gatewayIpv4)
        || (p.prefix(TrimSpace(n.ipv4Cidr)).Some?
            && exists a :: IsV4(p, n.gatewayIpv4, a) && Contains(p.prefix(TrimSpace(n.ipv4Cidr)).value, a)))
  }

  ghost predicate ReportIsFine(p: Parser, input: ReportInput) {
    && input.wans != [] && (forall w :: w in input.wans ==> WanIsFine(p, w)) && (forall n :: n in input.networks ==> SegmentIsFine(p, n))
    && (forall i, j :: !SameInterface(input.wans, i, j)) && (forall i, j :: !BothDefault(input.wans, i, j))
  }

  lemma V4Iff(p: Parser, text: string)
    ensures ParseIpv4(p, text).Some? <==> IsSomeV4(p, text)
  {
    if ParseIpv4(p, text).Some? { assert IsV4(p, text, ParseIpv4(p, text).value); }
  }

  lemma WanFitsIff(p: Parser, w: WanInput)
    ensures WanFits(p, w) <==> WanIsFine(p, w)
  {
    V4Iff(p, w.ipv4);
    V4Iff(p, w.gatewayIpv4);
    PublicTextIff(p, w.publicIpv4);
    var v6 := p.address(TrimSpace(w.ipv6));
    if v6.Some? && v6.value.V6? { assert v6 == Some(V6(v6.value.text)); }
  }

  lemma SegmentFitsIff(p: Parser, n: SegmentInput)
    ensures SegmentFits(p, n) <==> SegmentIsFine(p, n)
  {
    TrimSpaceAgain(n.gatewayIpv4);
    var a := ParseIpv4(p, TrimSpace(n.gatewayIpv4));
    if a.Some? { assert IsV4(p, n.gatewayIpv4, a.value); }
  }

  lemma ApartIff(wans: seq<WanInput>)
    ensures Pairwise(wans, Apart) <==> (forall i, j :: !SameInterface(wans, i, j)) && (forall i, j :: !BothDefault(wans, i, j))
  {
    if (forall i, j :: !SameInterface(wans, i, j)) && (forall i, j :: !BothDefault(wans, i, j)) {
      forall i, j | 0 <= i < j < |wans| ensures Apart(wans[i], wans[j]) {
        assert !SameInterface(wans, i, j) && !BothDefault(wans, i, j);
      }
    }
    if Pairwise(wans, Apart) {
      forall i: nat, j: nat | i < j < |wans| ensures !SameInterface(wans, i, j) && !BothDefault(wans, i, j) { assert Apart(wans[i], wans[j]); }
    }
  }

  /** A report is taken exactly if it is fine and its device is active. */
  lemma ReportIff(p: Parser, t: Tables, d: nat, serverIp: string, input: ReportInput, now: Time)
    ensures var answer := Report(p, t, d, serverIp, input, now);
            && (answer.Ok? <==> ReportIsFine(p, input) && d in t.devices && t.devices[d].active)
            && (answer == Err(DeviceNotFound) <==> ReportIsFine(p, input) && !(d in t.devices && t.devices[d].active))
  {
    FaultIff(p, input);
    forall w ensures WanFits(p, w) <==> WanIsFine(p, w) { WanFitsIff(p, w); }
    forall n ensures SegmentFits(p, n) <==> SegmentIsFine(p, n) { SegmentFitsIff(p, n); }
    ApartIff(input.wans);
    FaultIsNamed(p, input);
  }

  // ----- each error for a reason of its own ----------------------------------------------------

  ghost predicate WanBecause(p: Parser, w: WanInput, e: Error) {
    match e
    case InvalidInterface => Blank(w.interfaceName)
    case InvalidWanRole => ToLower(TrimSpace(w.role)) !in {"", "primary", "secondary", "other"}
    case InvalidIpAddress =>
      || (!Blank(w.ipv4) && !IsSomeV4(p, w.ipv4)) || (!Blank(w.gatewayIpv4) && !IsSomeV4(p, w.gatewayIpv4))
      || (!Blank(w.ipv6) && forall x :: p.address(TrimSpace(w.ipv6)) != Some(V6(x)))
    case InvalidPublicIpv4 => !Blank(w.publicIpv4) && !IsPublicV4(p, w.publicIpv4)
    case _ => false
  }

  ghost predicate SegmentBecause(p: Parser, n: SegmentInput, e: Error) {
    match e
    case InvalidNetworkName => Blank(n.name)
    case InvalidVlan => n.vlanId.Some? && !(1 <= n.vlanId.value <= 4094)
    case InvalidCidr => !(Blank(n.ipv4Cidr) && Blank(n.gatewayIpv4)) && p.prefix(TrimSpace(n.ipv4Cidr)).None?
    case InvalidIpAddress => !Blank(n.gatewayIpv4) && !IsSomeV4(p, n.gatewayIpv4)
    case InvalidGateway =>
      p.prefix(TrimSpace(n.ipv4Cidr)).Some? && exists a :: IsV4(p, n.gatewayIpv4, a) && !Contains(p.prefix(TrimSpace(n.ipv4Cidr)).value, a)
    case _ => false
  }

  /** What an error says of the report is so. */
  ghost predicate Because(p: Parser, input: ReportInput, e: Error) {
    || (e == NoWan && input.wans == [])
    || (e == DuplicateInterface && exists i, j :: SameInterface(input.wans, i, j))
    || (e == MultipleDefaultRoutes && exists i, j :: BothDefault(input.wans, i, j))
    || (exists w :: w in input.wans && WanBecause(p, w, e))
    || (exists n :: n in input.networks && SegmentBecause(p, n, e))
  }

  lemma WanFaultIsTrue(p: Parser, w: WanInput, seen: set<string>, defaults: nat)
    requires WanFault(p, w, seen, defaults).Some?
    ensures var e := WanFault(p, w, seen, defaults).value;
            || WanBecause(p, w, e) || (e == DuplicateInterface && NameKey(w) in seen)
            || (e == MultipleDefaultRoutes && w.defaultRoute && defaults > 0)
  {
    V4Iff(p, w.ipv4);
    V4Iff(p, w.gatewayIpv4);
    PublicTextIff(p, w.publicIpv4);
  }

  /** The WANs before the i-th, as the loop remembers them. */
  ghost predicate Remembered(wans: seq<WanInput>, i: nat, seen: set<string>, defaults: nat)
    requires i <= |wans|
  {
    && (forall key :: key in seen ==> exists k :: 0 <= k < i && NameKey(wans[k]) == key)
    && (defaults > 0 ==> exists k :: 0 <= k < i && wans[k].defaultRoute)
  }

  lemma {:induction false} WansFaultIsTrue(p: Parser, wans: seq<WanInput>, i: nat, seen: set<string>, defaults: nat)
    requires i <= |wans| && Remembered(wans, i, seen, defaults) && WansFault(p, wans[i..], seen, defaults).Some?
    ensures Because(p, ReportInput(wans, []), WansFault(p, wans[i..], seen, defaults).value)
    decreases |wans| - i
  {
    var w := wans[i..][0];
    assert w == wans[i] && wans[i..][1..] == wans[i + 1..] && w in wans;
    match WanFault(p, w, seen, defaults)
    case Some(e) =>
      WanFaultIsTrue(p, w, seen, defaults);
      if NameKey(w) in seen {
        var k :| 0 <= k < i && NameKey(wans[k]) == NameKey(w);
        assert SameInterface(wans, k, i);
      }
      if w.defaultRoute && defaults > 0 {
        var k :| 0 <= k < i && wans[k].defaultRoute;
        assert BothDefault(wans, k, i);
      }
    case None =>
      RememberedMore(wans, i, seen, defaults);
      WansFaultIsTrue(p, wans, i + 1, seen + {NameKey(w)}, if w.defaultRoute then defaults + 1 else defaults);
  }

  lemma RememberedMore(wans: seq<WanInput>, i: nat, seen: set<string>, defaults: nat)
    requires i < |wans| && Remembered(wans, i, seen, defaults)
    ensures Remembered(wans, i + 1, seen + {NameKey(wans[i])}, if wans[i].defaultRoute then defaults + 1 else defaults)
  {
    forall key | key in seen + {NameKey(wans[i])} ensures exists k :: 0 <= k < i + 1 && NameKey(wans[k]) == key {
      if key in seen {
        var k :| 0 <= k < i && NameKey(wans[k]) == key;
        assert k < i + 1;
      } else {
        assert NameKey(wans[i]) == key;
      }
    }
  }

  lemma SegmentFaultIsTrue(p: Parser, n: SegmentInput)
    requires SegmentFault(p, n).Some?
    ensures SegmentBecause(p, n, SegmentFault(p, n).value)
  {
    TrimSpaceAgain(n.gatewayIpv4);
    V4Iff(p, n.gatewayIpv4);
    var prefix, a := p.prefix(TrimSpace(n.ipv4Cidr)), ParseIpv4(p, TrimSpace(n.gatewayIpv4));
    if prefix.Some? && a.Some? {
      MaskedContains(prefix.value, a.value);
      assert IsV4(p, n.gatewayIpv4, a.value);
    }
  }

  lemma {:induction false} SegmentsFaultIsTrue(p: Parser, networks: seq<SegmentInput>)
    requires SegmentsFault(p, networks).Some?
    ensures exists n :: n in networks && SegmentBecause(p, n, SegmentsFault(p, networks).value)
    decreases |networks|
  {
    if SegmentFault(p, networks[0]).Some? {
      SegmentFaultIsTrue(p, networks[0]);
      assert networks[0] in networks;
    } else {
      SegmentsFaultIsTrue(p, networks[1..]);
      var n :| n in networks[1..] && SegmentBecause(p, n, SegmentsFault(p, networks[1..]).value);
      assert n in networks;
    }
  }

  /** Whatever error a report is refused with, it is true of the report. */
  lemma FaultIsTrue(p: Parser, input: ReportInput)
    requires Fault(p, input).Some?
    ensures Because(p, input, Fault(p, input).value)
  {
    if input.wans != [] {
      assert input.wans[0..] == input.wans;
      if WansFault(p, input.wans, {}, 0).Some? {
        WansFaultIsTrue(p, input.wans, 0, {}, 0);
        BecauseOfWans(p, input, WansFault(p, input.wans, {}, 0).value);
      } else {
        SegmentsFaultIsTrue(p, input.networks);
      }
    }
  }

  lemma BecauseOfWans(p: Parser, input: ReportInput, e: Error)
    requires Because(p, ReportInput(input.wans, []), e)
    ensures Because(p, input, e)
  {
  }

  lemma FaultIsNamed(p: Parser, input: ReportInput)
    ensures Fault(p, input) != Some(DeviceNotFound)
  {
    if Fault(p, input).Some? { FaultIsTrue(p, input); }
  }

  // ----- the order of the answers ------------------------------------------------------------------

  /** The default route comes first, the others by name. */
  predicate ComesFirst(v: Wan, w: Wan) {
    !w.defaultRoute && (v.defaultRoute || Less(v.interfaceName, w.interfaceName))
  }

  predicate NamedFirst(m: Segment, n: Segment) { m.name == n.name || Less(m.name, n.name) }

  /** WANs are listed with the default route first and the others by name, networks
      by name. */
  lemma ListedInOrder(p: Parser, steps: seq<Step>, d: nat, wans: seq<Wan>, networks: seq<Segment>)
    requires p.address("").None?
    requires WanAnswer(wans, WansOf(Run(p, EMPTY, steps), d)) && SegmentAnswer(networks, SegmentsOf(Run(p, EMPTY, steps), d))
    ensures Pairwise(wans, ComesFirst) && Pairwise(networks, NamedFirst)
  {
    var t := Run(p, EMPTY, steps);
    ReachableSane(p, steps);
    forall i, j | 0 <= i < j < |wans| ensures ComesFirst(wans[i], wans[j]) {
      assert wans[i] in wans && wans[j] in wans && WanMayPrecede(wans[i], wans[j]) && wans[i] != wans[j];
      DifferentWans(t, d, wans[i], wans[j]);
      LessIsStrict(wans[i].interfaceName, wans[j].interfaceName);
    }
    forall i, j | 0 <= i < j < |networks| ensures NamedFirst(networks[i], networks[j]) {
      assert SegmentMayPrecede(networks[i], networks[j]);
      LessIsStrict(networks[i].name, networks[j].name);
    }
  }

  lemma DifferentWans(t: Tables, d: nat, v: Wan, w: Wan)
    requires WansApart(t.wans) && v in WansOf(t, d) && w in WansOf(t, d) && v != w
    ensures v.interfaceName != w.interfaceName && !(v.defaultRoute && w.defaultRoute)
  {
  }
}
