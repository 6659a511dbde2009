// splitManagedFQDN of ddns/service.go: a host name is a label without dots
// under one of the managed zones.
module ManagedNames {
  import opened Wrappers
  import opened Text

  datatype Managed = Managed(hostLabel: string, zone: string)

  /** How both the requested name and the configured zones are normalised. */
  function Normal(name: string): string {
    TrimSuffix(ToLower(TrimSpace(name)), ".")
  }

  function NormalZones(allowed: seq<string>): (r: seq<string>)
    ensures |r| == |allowed| && forall i :: 0 <= i < |allowed| ==> r[i] == Normal(allowed[i])
  {
    seq(|allowed|, i requires 0 <= i < |allowed| => Normal(allowed[i]))
  }

  /** An entry of HERMES_DOMAINS as splitCSV keeps it. */
  function Configured(item: string): string {
    TrimSpace(TrimSuffix(ToLower(item), "."))
  }

  /** An entry is in normal form unless it ends in a dot after all, because white
      space followed the dot. */
  lemma ConfiguredIff(item: string)
    ensures Normal(Configured(item)) == Configured(item) <==> !HasSuffix(Configured(item), ".")
  {
    var lower := TrimSuffix(ToLower(item), ".");
    var entry := Configured(item);
    forall i | 0 <= i < |lower| ensures LowerChar(lower[i]) == lower[i] { assert lower[i] == ToLower(item)[i]; }
    TrimmedIsPart(lower);
    forall i | 0 <= i < |entry| ensures LowerChar(entry[i]) == entry[i] { assert entry[i] in entry && entry[i] in lower; }
    assert ToLower(entry) == entry;
    TrimSpaceAgain(lower);
  }

  lemma {:induction false} TrimmedIsPart(s: string)
    ensures forall x :: x in TrimSpace(s) ==> x in s
  {
    TrimLeftIsPart(s);
  }

  lemma {:induction false} TrimLeftIsPart(s: string)
    ensures forall x :: x in TrimLeft(s) ==> x in s
  {
    if s != [] && IsSpace(s[0]) { TrimLeftIsPart(s[1..]); }
  }

  predicate IsLabel(text: string) {
    text != "" && '.' !in text
  }

  function Join(hostLabel: string, zone: string): string {
    hostLabel + "." + zone
  }

  /** The first zone that is a suffix of the name decides. */
  function SplitName(name: string, zones: seq<string>): Option<Managed>
    decreases |zones|
  {
    if zones == [] then None
    else if HasSuffix(name, "." + zones[0]) then
      var hostLabel := TrimSuffix(name, "." + zones[0]);
      if IsLabel(hostLabel) then Some(Managed(hostLabel, zones[0])) else None
    else SplitName(name, zones[1..])
  }

  function Split(fqdn: string, allowed: seq<string>): Option<Managed> {
    SplitName(Normal(fqdn), NormalZones(allowed))
  }

  method SplitManagedFqdn(fqdn: string, allowed: seq<string>) returns (result: Option<Managed>)
    ensures result == Split(fqdn, allowed)
  {
    var name := TrimSuffix(ToLower(TrimSpace(fqdn)), ".");
    ghost var zones := NormalZones(allowed);
    for i := 0 to |allowed|
      invariant SplitName(name, zones[i..]) == Split(fqdn, allowed)
    {
      var zone := TrimSuffix(ToLower(TrimSpace(allowed[i])), ".");
      var suffix := "." + zone;
      assert zones[i..][0] == zone && zones[i..][1..] == zones[i + 1..];
      if HasSuffix(name, suffix) {
        var hostLabel := TrimSuffix(name, suffix);
        if hostLabel == "" || '.' in hostLabel { return None; }
        return Some(Managed(hostLabel, zone));
      }
    }
    return None;
  }

  // ----- splitting and joining ------------------------------------------------

  /** Joining a label to zone gives a name that ends in outer as well. */
  predicate LiesBelow(zone: string, outer: string) {
    HasSuffix(zone, "." + outer)
  }

  predicate NoneNested(zones: seq<string>) {
    forall z, w :: z in zones && w in zones ==> !LiesBelow(z, w)
  }

  /** What a successful split returns can be joined to the name again. */
  lemma {:induction false} SplitThenJoin(name: string, zones: seq<string>)
    requires SplitName(name, zones).Some?
    ensures var m := SplitName(name, zones).value;
            IsLabel(m.hostLabel) && m.zone in zones && Join(m.hostLabel, m.zone) == name
    decreases |zones|
  {
    if HasSuffix(name, "." + zones[0]) {
      assert name == name[..|name| - |"." + zones[0]|] + ("." + zones[0]);
    } else {
      SplitThenJoin(name, zones[1..]);
    }
  }

  /** The first dot of a joined name is the one after its label. */
  lemma FirstDot(hostLabel: string, zone: string)
    requires IsLabel(hostLabel)
    ensures var name := Join(hostLabel, zone);
            && |hostLabel| < |name| && name[|hostLabel|] == '.'
            && name[..|hostLabel|] == hostLabel && name[|hostLabel| + 1..] == zone
            && forall i :: 0 <= i < |hostLabel| ==> name[i] != '.'
  {
    forall i | 0 <= i < |hostLabel| ensures Join(hostLabel, zone)[i] != '.' { assert hostLabel[i] in hostLabel; }
  }

  /** No two labels and zones join to one name. */
  lemma JoinIsInjective(hostLabel: string, zone: string, otherLabel: string, otherZone: string)
    requires IsLabel(hostLabel) && IsLabel(otherLabel) && Join(hostLabel, zone) == Join(otherLabel, otherZone)
    ensures hostLabel == otherLabel && zone == otherZone
  {
    FirstDot(hostLabel, zone);
    FirstDot(otherLabel, otherZone);
    assert |hostLabel| == |otherLabel|;
  }

  /** A zone catches a joined name exactly when it is the zone or lies above it. */
  lemma CatchesIff(hostLabel: string, zone: string, other: string)
    requires IsLabel(hostLabel)
    ensures HasSuffix(Join(hostLabel, zone), "." + other) <==> other == zone || LiesBelow(zone, other)
    ensures TrimSuffix(Join(hostLabel, zone), "." + zone) == hostLabel
    ensures LiesBelow(zone, other) ==> !IsLabel(TrimSuffix(Join(hostLabel, zone), "." + other))
  {
    var name, suffix := Join(hostLabel, zone), "." + other;
    FirstDot(hostLabel, zone);
    assert name[|hostLabel|..] == "." + zone;
    if HasSuffix(name, suffix) {
      var at := |name| - |suffix|;
      assert name[at] == suffix[0] && name[at + 1..] == other;
      assert |hostLabel| <= at;
      if at > |hostLabel| { assert zone[at - |hostLabel| - 1..] == suffix; }
    }
    if LiesBelow(zone, other) {
      var at := |name| - |suffix|;
      assert name[at..] == zone[|zone| - |suffix|..];
      assert name[..at][|hostLabel|] == '.';
    }
  }

  lemma JoinedLiesBelow(hostLabel: string, zone: string)
    requires IsLabel(hostLabel)
    ensures LiesBelow(Join(hostLabel, zone), zone)
  {
    CatchesIff(hostLabel, zone, zone);
  }

  /** Splitting inverts joining exactly when no zone listed before the joined
      one lies above it. */
  lemma {:induction false} SplitsJoinIff(hostLabel: string, zones: seq<string>, k: nat)
    requires IsLabel(hostLabel) && k < |zones| && zones[k] !in zones[..k]
    ensures SplitName(Join(hostLabel, zones[k]), zones) == Some(Managed(hostLabel, zones[k]))
       <==> forall w :: w in zones[..k] ==> !LiesBelow(zones[k], w)
    decreases k
  {
    CatchesIff(hostLabel, zones[k], zones[0]);
    if k > 0 {
      assert zones[..k] == [zones[0]] + zones[1..][..k - 1];
      if !LiesBelow(zones[k], zones[0]) { SplitsJoinIff(hostLabel, zones[1..], k - 1); }
    }
  }

  lemma {:induction false} FirstOccurrence(zone: string, zones: seq<string>) returns (k: nat)
    requires zone in zones
    ensures k < |zones| && zones[k] == zone && zone !in zones[..k]
    decreases |zones|
  {
    if zones[0] == zone { return 0; }
    var rest := FirstOccurrence(zone, zones[1..]);
    assert zones[..rest + 1] == [zones[0]] + zones[1..][..rest];
    return rest + 1;
  }

  /** Names under the zone can be split at it: nothing listed before it lies above it. */
  ghost predicate Splittable(zone: string, zones: seq<string>) {
    exists k :: 0 <= k < |zones| && zones[k] == zone && forall w :: w in zones[..k] ==> !LiesBelow(zone, w)
  }

  lemma SplittableIff(hostLabel: string, zone: string, zones: seq<string>)
    requires IsLabel(hostLabel)
    ensures SplitName(Join(hostLabel, zone), zones) == Some(Managed(hostLabel, zone)) <==> Splittable(zone, zones)
  {
    if SplitName(Join(hostLabel, zone), zones) == Some(Managed(hostLabel, zone)) {
      SplitThenJoin(Join(hostLabel, zone), zones);
    }
    if zone in zones {
      var first := FirstOccurrence(zone, zones);
      SplitsJoinIff(hostLabel, zones, first);
      if Splittable(zone, zones) {
        var k :| 0 <= k < |zones| && zones[k] == zone && forall w :: w in zones[..k] ==> !LiesBelow(zone, w);
        assert first <= k;
        assert forall w :: w in zones[..first] ==> w in zones[..k];
      }
    }
  }

  /** With no zone nested in another, splitting finds the one label and managed
      zone that join to the normalised name. */
  lemma SplitInvertsJoin(fqdn: string, allowed: seq<string>, hostLabel: string, zone: string)
    requires NoneNested(NormalZones(allowed))
    ensures Split(fqdn, allowed) == Some(Managed(hostLabel, zone))
       <==> IsLabel(hostLabel) && zone in NormalZones(allowed) && Join(hostLabel, zone) == Normal(fqdn)
  {
    var zones := NormalZones(allowed);
    if Split(fqdn, allowed).Some? { SplitThenJoin(Normal(fqdn), zones); }
    if IsLabel(hostLabel) && zone in zones && Join(hostLabel, zone) == Normal(fqdn) {
      var k := FirstOccurrence(zone, zones);
      SplitsJoinIff(hostLabel, zones, k);
    }
  }

  /** Then the order of the configured zones, and repeats, do not matter. */
  lemma OrderDoesNotMatter(fqdn: string, allowed: seq<string>, reordered: seq<string>)
    requires NoneNested(NormalZones(allowed))
    requires forall zone :: zone in NormalZones(allowed) <==> zone in NormalZones(reordered)
    ensures Split(fqdn, allowed) == Split(fqdn, reordered)
  {
    var a, b := Split(fqdn, allowed), Split(fqdn, reordered);
    if a.Some? {
      SplitInvertsJoin(fqdn, allowed, a.value.hostLabel, a.value.zone);
      SplitInvertsJoin(fqdn, reordered, a.value.hostLabel, a.value.zone);
    } else if b.Some? {
      SplitInvertsJoin(fqdn, reordered, b.value.hostLabel, b.value.zone);
      SplitInvertsJoin(fqdn, allowed, b.value.hostLabel, b.value.zone);
    }
  }

  /** A label under a managed zone is split from it again exactly when
      normalising leaves the joined name as it is. */
  lemma JoinSplitsIff(hostLabel: string, zone: string, allowed: seq<string>)
    requires NoneNested(NormalZones(allowed)) && zone in NormalZones(allowed) && IsLabel(hostLabel)
    ensures Split(Join(hostLabel, zone), allowed) == Some(Managed(hostLabel, zone))
       <==> Normal(Join(hostLabel, zone)) == Join(hostLabel, zone)
  {
    SplitInvertsJoin(Join(hostLabel, zone), allowed, hostLabel, zone);
  }

  // ----- wildcard companions --------------------------------------------------

  /** A companion is a host's own name only for the host "*" of a zone directly
      below, and the companion of only one host. */
  lemma CompanionMeetsIff(hostLabel: string, zone: string, otherLabel: string, otherZone: string)
    requires IsLabel(hostLabel) && IsLabel(otherLabel)
    ensures Join("*", Join(hostLabel, zone)) == Join(otherLabel, otherZone)
       <==> otherLabel == "*" && otherZone == Join(hostLabel, zone)
    ensures Join("*", Join(hostLabel, zone)) == Join("*", Join(otherLabel, otherZone))
       <==> hostLabel == otherLabel && zone == otherZone
  {
    if Join("*", Join(hostLabel, zone)) == Join(otherLabel, otherZone) {
      JoinIsInjective("*", Join(hostLabel, zone), otherLabel, otherZone);
    }
    if Join("*", Join(hostLabel, zone)) == Join("*", Join(otherLabel, otherZone)) {
      JoinIsInjective("*", Join(hostLabel, zone), "*", Join(otherLabel, otherZone));
      JoinIsInjective(hostLabel, zone, otherLabel, otherZone);
    }
  }
}
