// Which reports are accepted, and what the rows built from them satisfy.
module NetworkProperties {
  import opened Wrappers
  import opened Text
  import opened AddressScopes
  import opened NetworkTables

  // ----- which reports are accepted ---------------------------------------------

  predicate WanFits(p: Parser, w: WanInput) {
    && TrimSpace(w.interfaceName) != ""
    && NormalRole(w.role) in {"primary", "secondary", "other"}
    && Ipv4Fits(p, w.ipv4) && Ipv4Fits(p, w.gatewayIpv4) && Ipv6Fits(p, w.ipv6) && PublicFits(p, w.publicIpv4)
  }

  /** Each WAN is fine, no two share a name up to case, at most one carries the
      default route. */
  ghost predicate WansAccepted(p: Parser, wans: seq<WanInput>) {
    && (forall w :: w in wans ==> WanFits(p, w))
    && Pairwise(wans, Apart)
  }

  predicate Apart(v: WanInput, w: WanInput) {
    NameKey(v) != NameKey(w) && !(v.defaultRoute && w.defaultRoute)
  }

  /** A gateway lies in the network's prefix, with or without masking it. */
  predicate SegmentFits(p: Parser, n: SegmentInput) {
    var cidr, gateway := TrimSpace(n.ipv4Cidr), TrimSpace(n.gatewayIpv4);
    && TrimSpace(n.name) != ""
    && (n.vlanId.Some? ==> 1 <= n.vlanId.value <= 4094)
    && (cidr != "" || gateway != "" ==> p.prefix(cidr).Some?)
    && (gateway != "" ==> ParseIpv4(p, gateway).Some? && Contains(p.prefix(cidr).value, ParseIpv4(p, gateway).value))
  }

  ghost predicate Accepted(p: Parser, input: ReportInput) {
    && input.wans != [] && WansAccepted(p, input.wans)
    && (forall n :: n in input.networks ==> SegmentFits(p, n))
  }

  /** What the WANs checked so far rule out. */
  ghost predicate After(wans: seq<WanInput>, seen: set<string>, defaults: nat) {
    forall w :: w in wans ==> NameKey(w) !in seen && (defaults > 0 ==> !w.defaultRoute)
  }

  lemma {:induction false} WansFaultIff(p: Parser, wans: seq<WanInput>, seen: set<string>, defaults: nat)
    ensures WansFault(p, wans, seen, defaults).None? <==> WansAccepted(p, wans) && After(wans, seen, defaults)
    decreases |wans|
  {
    if wans != [] {
      var w, rest := wans[0], wans[1..];
      var more := if w.defaultRoute then defaults + 1 else defaults;
      WansFaultIff(p, rest, seen + {NameKey(w)}, more);
      assert wans == [w] + rest;
      FirstAccepted(p, w, rest);
      FirstAfter(w, rest, seen, defaults, more);
      assert WanFault(p, w, seen, defaults).None?
        <==> WanFits(p, w) && NameKey(w) !in seen && (defaults > 0 ==> !w.defaultRoute);
    }
  }

  lemma FirstAccepted(p: Parser, w: WanInput, rest: seq<WanInput>)
    ensures WansAccepted(p, [w] + rest) <==> WanFits(p, w) && WansAccepted(p, rest) && forall v :: v in rest ==> Apart(w, v)
  {
    assert forall v :: v in [w] + rest <==> v == w || v in rest;
    PairwiseFirst(w, rest, Apart);
  }

  lemma FirstAfter(w: WanInput, rest: seq<WanInput>, seen: set<string>, defaults: nat, more: nat)
    requires more == if w.defaultRoute then defaults + 1 else defaults
    ensures After([w] + rest, seen, defaults)
            && (forall v :: v in rest ==> Apart(w, v))
       <==> NameKey(w) !in seen && (defaults > 0 ==> !w.defaultRoute) && After(rest, seen + {NameKey(w)}, more)
  {
    assert forall v :: v in [w] + rest <==> v == w || v in rest;
  }

  lemma {:induction false} SegmentsFaultIff(p: Parser, networks: seq<SegmentInput>)
    ensures SegmentsFault(p, networks).None? <==> forall n :: n in networks ==> SegmentFits(p, n)
    decreases |networks|
  {
    if networks != [] {
      SegmentsFaultIff(p, networks[1..]);
      SegmentFaultIff(p, networks[0]);
      assert forall n :: n in networks <==> n == networks[0] || n in networks[1..];
    }
  }

  lemma SegmentFaultIff(p: Parser, n: SegmentInput)
    ensures SegmentFault(p, n).None? <==> SegmentFits(p, n)
  {
    var prefix, gateway := p.prefix(TrimSpace(n.ipv4Cidr)), ParseIpv4(p, TrimSpace(n.gatewayIpv4));
    if prefix.Some? && gateway.Some? { MaskedContains(prefix.value, gateway.value); }
  }

  /** Validation refuses exactly the reports that are not acceptable. */
  lemma FaultIff(p: Parser, input: ReportInput)
    ensures Fault(p, input).None? <==> Accepted(p, input)
  {
    WansFaultIff(p, input.wans, {}, 0);
    SegmentsFaultIff(p, input.networks);
  }

  // ----- NAT states ------------------------------------------------------------------

  /** The NAT state of a WAN, from the scope of its address and whether it is the
      address it was observed to have. */
  function NatOf(scope: Scope, matched: Option<bool>): NatState {
    match (scope, matched)
    case (Cgnat, _) => CarrierNat
    case (_, None) => UnknownNat
    case (Public, Some(m)) => if m then Direct else PublicMismatch
    case (Private, Some(_)) => DoubleNat
    case _ => UnknownNat
  }

  ghost predicate TranslationSound(p: Parser, scope: Scope, local: string, observed: string, r: Translation) {
    && r.natState == NatOf(scope, r.publicIpMatch)
    && (r.doubleNat <==> r.natState == DoubleNat)
    && (r.cgnat <==> r.natState == CarrierNat)
    && (r.upstreamNat <==> r.natState in {DoubleNat, CarrierNat})
    && (r.publicIpMatch.Some? <==> local != "" && observed != "")
    && (r.publicIpMatch.Some? ==> (r.publicIpMatch.value <==> ParseIpv4(p, local) == ParseIpv4(p, observed)))
  }

  ghost predicate RowSound(p: Parser, wan: Wan) {
    && wan.scope == ScopeOf(p, wan.ipv4)
    && TranslationSound(p, wan.scope, wan.ipv4, wan.observedPublicIpv4, wan.translation)
    && (wan.observedPublicIpv4 == "" <==> wan.publicIpSource == NoSource)
    && (wan.observedPublicIpv4 != "" ==> IsPublicText(p, wan.observedPublicIpv4))
    && (wan.publicIpSource == ServerPeer ==> wan.defaultRoute)
  }

  lemma ObservedIsPublic(p: Parser, serverIp: string, w: WanInput)
    requires WanFits(p, w) && p.address("").None?
    ensures var o := ObservedBy(p, serverIp, w);
            && (o.0 == "" <==> o.1 == NoSource) && (o.0 != "" ==> IsPublicText(p, o.0))
            && (o.1 == ServerPeer ==> w.defaultRoute)
  {
    TrimSpaceAgain(w.publicIpv4);
    TrimSpaceAgain(serverIp);
  }

  lemma TranslateIsSound(p: Parser, local: string, observed: string)
    requires local != "" ==> ParseIpv4(p, local).Some?
    requires local == "" ==> ScopeOf(p, local) == Unknown
    requires observed != "" ==> IsPublicText(p, observed)
    ensures TranslationSound(p, ScopeOf(p, local), local, observed, Translate(p, ScopeOf(p, local), local, observed))
  {
    assert local != "" ==> ScopeOf(p, local) == Classify(ParseIpv4(p, local).value);
  }

  /** The NAT state of every row built for an acceptable WAN is a function of its
      address scope and of whether its address was the observed one; each flag is
      raised exactly when that state says so. Its addresses are the reported ones. */
  lemma BuiltIsSound(p: Parser, id: nat, d: nat, serverIp: string, w: WanInput)
    requires WanFits(p, w) && p.address("").None?
    ensures RowSound(p, BuildWan(p, id, d, serverIp, w))
    ensures var r := BuildWan(p, id, d, serverIp, w);
            && r.ipv4 == TrimSpace(w.ipv4) && r.gatewayIpv4 == TrimSpace(w.gatewayIpv4)
            && (r.observedPublicIpv4 in {TrimSpace(w.publicIpv4), TrimSpace(serverIp), ""})
  {
    ObservedIsPublic(p, serverIp, w);
    TrimSpaceAgain(w.ipv4);
    EmptyIsUnknown(p);
    TranslateIsSound(p, TrimSpace(w.ipv4), ObservedBy(p, serverIp, w).0);
  }

  lemma EmptyIsUnknown(p: Parser)
    requires p.address("").None?
    ensures ScopeOf(p, "") == Unknown
  {
    assert TrimSpace("") == "";
  }
}
