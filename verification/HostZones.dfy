// Exactly when the host table and the DNS records always agree, from any tables
// without hosts and, in particular, from those with which the server begins to
// listen. Where two managed zones meet, two updates lose the agreement, whatever
// the name server held before and whatever the policy on creating hosts.
module HostZones {
  import opened Wrappers
  import opened Text
  import opened ManagedNames
  import opened DnsZone
  import opened HostTables
  import opened HostSoundness
  import opened HostAgreement
  import opened HostProperties

  // ----- names as requests spell them ----------------------------------------------

  lemma LowerAgain(s: string)
    ensures ToLower(ToLower(s)) == ToLower(s)
  {
  }

  /** Normal names are in lower case and do not begin with a space. */
  lemma NormalShape(name: string)
    ensures ToLower(Normal(name)) == Normal(name)
    ensures Normal(name) != "" ==> !IsSpace(Normal(name)[0])
  {
    var trimmed := ToLower(TrimSpace(name));
    LowerAgain(TrimSpace(name));
    assert Normal(name) <= trimmed;
    assert trimmed != "" ==> trimmed[0] == LowerChar(TrimSpace(name)[0]);
    forall i | 0 <= i < |Normal(name)| ensures LowerChar(Normal(name)[i]) == Normal(name)[i] {
      assert Normal(name)[i] == trimmed[i];
    }
  }

  predicate Plain(name: string) { name != "" && !IsSpace(name[0]) && ToLower(name) == name }

  /** Written with a final dot, such a name is normalised to itself. */
  lemma NormalOfDotted(name: string)
    requires Plain(name)
    ensures Normal(name + ".") == name
  {
    var dotted := name + ".";
    assert dotted[0] == name[0] && dotted[|dotted| - 1] == '.';
    assert TrimLeft(dotted) == dotted && TrimRight(dotted) == dotted;
    assert ToLower(dotted) == dotted;
    assert dotted[..|dotted| - 1] == name && dotted[|dotted| - 1..] == ".";
  }

  lemma JoinedIsPlain(hostLabel: string, zone: string)
    requires Plain(hostLabel) && ToLower(zone) == zone
    ensures Plain(Join(hostLabel, zone))
  {
    var name := Join(hostLabel, zone);
    forall i | 0 <= i < |name| ensures LowerChar(name[i]) == name[i] {
      if i < |hostLabel| {
        assert name[i] == hostLabel[i] == ToLower(hostLabel)[i];
      } else if i > |hostLabel| {
        assert name[i] == zone[i - |hostLabel| - 1] == ToLower(zone)[i - |hostLabel| - 1];
      }
    }
    assert name[0] == hostLabel[0];
  }

  lemma PartsArePlain(hostLabel: string, zone: string)
    requires IsLabel(hostLabel) && Plain(Join(hostLabel, zone))
    ensures Plain(hostLabel)
  {
    var name := Join(hostLabel, zone);
    assert name[0] == hostLabel[0];
    forall i | 0 <= i < |hostLabel| ensures LowerChar(hostLabel[i]) == hostLabel[i] {
      assert name[i] == hostLabel[i] == ToLower(name)[i];
    }
  }

  /** A device name that may create the label under every policy, and is long
      enough for the endpoint that creates devices. */
  function NameFor(hostLabel: string): string { hostLabel + "  " }

  lemma MayCreate(policy: string, hostLabel: string)
    requires Plain(hostLabel)
    ensures CanAutocreate(policy, NameFor(hostLabel), hostLabel)
  {
    var padded := NameFor(hostLabel);
    assert padded[0] == hostLabel[0];
    assert TrimLeft(padded) == padded && TrimLeft(hostLabel) == hostLabel;
    assert padded[..|padded| - 1] == hostLabel + " " && (hostLabel + " ")[..|hostLabel|] == hostLabel;
    assert TrimRight(padded) == TrimRight(hostLabel + " ") == TrimRight(hostLabel);
  }

  // ----- one update that creates a host ---------------------------------------------

  function RequestFor(device: nat, hostLabel: string, zone: string, ip: string): Request {
    Request(Device(device, NameFor(hostLabel)), Join(hostLabel, zone) + ".", "", ip, 0, true)
  }

  lemma RequestSplits(c: Config, hostLabel: string, zone: string)
    requires IsLabel(hostLabel) && Plain(hostLabel) && Splittable(zone, Zones(c))
    ensures Split(Join(hostLabel, zone) + ".", c.allowedDomains) == Some(Managed(hostLabel, zone))
  {
    var i :| 0 <= i < |Zones(c)| && Zones(c)[i] == zone;
    NormalShape(c.allowedDomains[i]);
    JoinedIsPlain(hostLabel, zone);
    NormalOfDotted(Join(hostLabel, zone));
    SplittableIff(hostLabel, zone, Zones(c));
  }

  /** In a zone without hosts the request creates one; s has the zone's domain. */
  lemma Creates(c: Config, t: Tables, device: nat, hostLabel: string, zone: string, ip: string) returns (s: Tables, d: nat)
    requires Sound(c, t) && c.parseIp(ip).Some?
    requires IsLabel(hostLabel) && Plain(hostLabel) && Splittable(zone, Zones(c))
    requires forall h :: h in t.hosts ==> t.domains[t.hosts[h].domainId].name != zone
    ensures s == t || (s == PutDomain(t, NewDomain(c, zone)) && !DomainExists(t, zone))
    ensures d in s.domains && s.domains[d].name == zone && HostsAt(s, d, hostLabel) == {}
    ensures var q, target := RequestFor(device, hostLabel, zone, ip), c.parseIp(ip).value;
            Update(c, t, q) == Publish(c, s, q, None, FreshHost(s, q, d, hostLabel, target), target)
  {
    var q := RequestFor(device, hostLabel, zone, ip);
    RequestSplits(c, hostLabel, zone);
    MayCreate(c.policy, hostLabel);
    assert TrimSpace("") == "";
    if DomainExists(t, zone) {
      var e :| e in t.domains && t.domains[e].name == zone;
      assert e in EnabledNamed(t, zone);
      s, d := t, First(EnabledNamed(t, zone)).value;
    } else {
      assert EnabledNamed(t, zone) == {};
      s, d := PutDomain(t, NewDomain(c, zone)), t.nextDomain;
    }
    forall h | h in s.hosts ensures s.hosts[h].domainId != d { assert HostFits(c, t, t.hosts[h]); }
  }

  // ----- two records for one name -------------------------------------------------------

  /** Host h has a companion, and host is the "*" of the zone directly below. */
  ghost predicate AtCompanion(c: Config, t: Tables, h: nat, host: Host) {
    && h in t.hosts && h != t.nextHost && HostFits(c, t, t.hosts[h]) && host.domainId in t.domains && host.hostname == "*"
    && var zone := t.domains[t.hosts[h].domainId];
       zone.wildcard && t.domains[host.domainId].name == Join(t.hosts[h].hostname, zone.name)
  }

  function Companion(t: Tables, host: Host): string
    requires host.domainId in t.domains
  {
    Join("*", Join(host.hostname, t.domains[host.domainId].name))
  }

  /** Publishing for such a host puts its record where the companion was. */
  lemma CompanionTaken(c: Config, t: Tables, q: Request, h: nat, host: Host, target: Target)
    requires AtCompanion(c, t, h, host) && q.dnsAccepts
    ensures Holds(Publish(c, t, q, None, host, target).tables.records, Companion(t, t.hosts[h]),
                  RecordType(target), Record(host.ttl, target.text))
  {
    var below := t.domains[host.domainId];
    UpsertServes(c, t.records, "*", below, target, host.ttl);
    assert Companion(t, t.hosts[h]) == Names("*", below.name, below.wildcard)[0];
  }

  lemma CompanionIsLost(c: Config, t: Tables, q: Request, h: nat, host: Host, target: Target)
    requires AtCompanion(c, t, h, host) && q.dnsAccepts
    requires RecordType(target) != t.hosts[h].recordType || target.text != t.hosts[h].ipAddress
    ensures !InAgreement(Publish(c, t, q, None, host, target).tables)
  {
    var u, row := Publish(c, t, q, None, host, target).tables, t.hosts[h];
    var name := Companion(t, row);
    CompanionTaken(c, t, q, h, host, target);
    AddressTokens(RecordType(target));
    HoldsOne(u.records, name, RecordType(target), Record(host.ttl, target.text), row.recordType, Record(row.ttl, row.ipAddress));
    assert name == HostNames(u, row)[1];
    assert name in HostNames(u, u.hosts[h]) && !Holds(u.records, name, row.recordType, Record(row.ttl, row.ipAddress));
    assert !Served(u, u.hosts[h]);
  }

  // ----- the run ----------------------------------------------------------------------------

  /** The zone z has a wildcard domain, or will have by default. */
  ghost predicate Prepared(c: Config, t: Tables, z: string) {
    && HostFree(c, t)
    && ((exists d :: d in t.domains && t.domains[d].name == z && t.domains[d].wildcard) || (!DomainExists(t, z) && c.allowWildcard))
  }

  lemma CreatedFirst(c: Config, t: Tables, name: string, z: string)
    requires HostFree(c, t) && Creatable(c, name, z) && !DomainExists(t, z)
    ensures Prepared(c, Apply(c, t, CreateDomainStep(name, 0, true)), z)
  {
    CreateDomainSound(c, t, name, 0, true);
    var u := CreateDomain(c, t, name, 0, true).tables;
    assert t.nextDomain in u.domains && u.domains[t.nextDomain] == Domain(z, c.defaultTtl, true, true);
  }

  /** If need be, the administrator creates the domain. */
  lemma Prepare(c: Config, t: Tables, z: string) returns (before: seq<Step>)
    requires HostFree(c, t) && MayBeWildcard(c, t, z)
    ensures Prepared(c, Run(c, t, before), z)
    ensures DomainExists(t, z) || c.allowWildcard ==> before == []
    ensures before != [] ==> exists name :: Creatable(c, name, z) && before == [CreateDomainStep(name, 0, true)]
  {
    before := [];
    if !DomainExists(t, z) && !c.allowWildcard {
      var name :| Creatable(c, name, z);
      before := [CreateDomainStep(name, 0, true)];
      CreatedFirst(c, t, name, z);
      RunOne(c, t, before[0]);
    }
  }

  /** One host in the prepared zone, with its companion. */
  ghost predicate HasWildcardHost(c: Config, t: Tables, z: string, hostLabel: string, target: Target, h: nat) {
    && Sound(c, t) && t.hosts.Keys == {h}
    && var row := t.hosts[h];
       && row.domainId in t.domains && t.domains[row.domainId].name == z && t.domains[row.domainId].wildcard
       && row.hostname == hostLabel && row.deviceId == 1
       && row.ipAddress == target.text && row.recordType == RecordType(target)
  }

  lemma FirstHost(c: Config, t: Tables, z: string, hostLabel: string, ip: string)
    requires Prepared(c, t, z) && c.parseIp(ip).Some? && IsLabel(hostLabel) && Plain(hostLabel) && Splittable(z, Zones(c))
    ensures HasWildcardHost(c, Apply(c, t, UpdateStep(RequestFor(1, hostLabel, z, ip))), z, hostLabel, c.parseIp(ip).value, t.nextHost)
  {
    var q, target := RequestFor(1, hostLabel, z, ip), c.parseIp(ip).value;
    var s, d := Creates(c, t, 1, hostLabel, z, ip);
    StepSound(c, t, UpdateStep(q));
    WildcardKept(c, t, s, z, d);
    PublishedFirst(c, s, q, FreshHost(s, q, d, hostLabel, target), target);
  }

  lemma WildcardKept(c: Config, t: Tables, s: Tables, z: string, d: nat)
    requires Prepared(c, t, z) && (s == t || (s == PutDomain(t, NewDomain(c, z)) && !DomainExists(t, z)))
    requires d in s.domains && s.domains[d].name == z
    ensures s.domains[d].wildcard && s.hosts == map[] && s.nextHost == t.nextHost
  {
  }

  lemma PublishedFirst(c: Config, s: Tables, q: Request, host: Host, target: Target)
    requires host.domainId in s.domains && s.hosts == map[] && q.dnsAccepts
    ensures var u := Publish(c, s, q, None, host, target).tables;
            && u.domains == s.domains
            && u.hosts == map[s.nextHost := host.(ipAddress := target.text, recordType := RecordType(target), lastUpdate := q.now)]
  {
  }

  lemma SecondHost(c: Config, t: Tables, z: string, hostLabel: string, target: Target, ip: string, h: nat)
    requires HasWildcardHost(c, t, z, hostLabel, target, h) && StandsBelow(c, z, Join(hostLabel, z), hostLabel)
    requires c.parseIp(ip).Some? && c.parseIp(ip).value != target
    ensures !InAgreement(Apply(c, t, UpdateStep(RequestFor(2, "*", Join(hostLabel, z), ip))))
  {
    var w, q := Join(hostLabel, z), RequestFor(2, "*", Join(hostLabel, z), ip);
    assert |w| > |z|;
    var s, d := Creates(c, t, 2, "*", w, ip);
    DomainsKept(c, t, s, w, h);
    CompanionIsLost(c, s, q, h, FreshHost(s, q, d, "*", c.parseIp(ip).value), c.parseIp(ip).value);
  }

  /** A row is the only one of its zone and label, and its domain the only one of
      that name. */
  lemma RowIsFound(c: Config, t: Tables, h: nat)
    requires Sound(c, t) && h in t.hosts
    ensures var row := t.hosts[h];
            && row.domainId in t.domains && First(HostsAt(t, row.domainId, row.hostname)) == Some(h)
            && First(EnabledNamed(t, t.domains[row.domainId].name)) == Some(row.domainId)
  {
    assert HostFits(c, t, t.hosts[h]);
    HostIsFound(c, t, h);
    DomainIsFound(t, t.hosts[h].domainId);
  }

  lemma HostIsFound(c: Config, t: Tables, h: nat)
    requires HostsSound(c, t) && h in t.hosts
    ensures First(HostsAt(t, t.hosts[h].domainId, t.hosts[h].hostname)) == Some(h)
  {
    var found := HostsAt(t, t.hosts[h].domainId, t.hosts[h].hostname);
    assert found == {h};
    FirstOfSingleton(found, h);
  }

  lemma DomainIsFound(t: Tables, d: nat)
    requires DomainsSound(t) && d in t.domains
    ensures First(EnabledNamed(t, t.domains[d].name)) == Some(d)
  {
    var found := EnabledNamed(t, t.domains[d].name);
    assert found == {d};
    FirstOfSingleton(found, d);
  }

  /** Asked again, the first host is told that nothing has changed. */
  lemma FirstIsTold(c: Config, t: Tables, z: string, hostLabel: string, ip: string, h: nat)
    requires Sound(c, t) && h in t.hosts && c.parseIp(ip).Some?
    requires IsLabel(hostLabel) && Plain(hostLabel) && Splittable(z, Zones(c))
    requires var row := t.hosts[h];
             && row.domainId in t.domains && t.domains[row.domainId].name == z && row.hostname == hostLabel && row.deviceId == 1
             && row.ipAddress == c.parseIp(ip).value.text && row.recordType == RecordType(c.parseIp(ip).value)
    ensures var q, row := RequestFor(1, hostLabel, z, ip), t.hosts[h];
            var o := Update(c, t, q);
            && AnsweredNoChange(o) && o.tables.records == t.records && o.tables.domains == t.domains
            && o.result.value.host == row.(lastUpdate := q.now) && AskedIp(q) == ip
  {
    var q, target := RequestFor(1, hostLabel, z, ip), c.parseIp(ip).value;
    RowIsFound(c, t, h);
    assert AskedIp(q) == ip by { assert TrimSpace("") == ""; }
    assert Split(q.fqdn, c.allowedDomains) == Some(Managed(hostLabel, z)) by { RequestSplits(c, hostLabel, z); }
    assert Update(c, t, q) == UpdateIn(c, t, q, t.hosts[h].domainId, hostLabel, target);
  }

  /** And that is wrong: its upsert would have changed the companion's record. */
  lemma SecondMisleads(c: Config, t: Tables, z: string, hostLabel: string, ip: string, otherIp: string, h: nat)
    requires c.parseIp(ip).Some? && c.parseIp(otherIp).Some? && c.parseIp(ip) != c.parseIp(otherIp)
    requires HasWildcardHost(c, t, z, hostLabel, c.parseIp(ip).value, h) && StandsBelow(c, z, Join(hostLabel, z), hostLabel)
    ensures var u := Apply(c, t, UpdateStep(RequestFor(2, "*", Join(hostLabel, z), otherIp)));
            var again := RequestFor(1, hostLabel, z, ip);
            var o := Update(c, u, again);
            AnsweredNoChange(o) && !Idle(c, u, again, o.tables, o.result.value.host)
  {
    var w, q := Join(hostLabel, z), RequestFor(2, "*", Join(hostLabel, z), otherIp);
    var target, other := c.parseIp(ip).value, c.parseIp(otherIp).value;
    assert |w| > |z|;
    var s, d := Creates(c, t, 2, "*", w, otherIp);
    DomainsKept(c, t, s, w, h);
    var host := FreshHost(s, q, d, "*", other);
    var u := Publish(c, s, q, None, host, other).tables;
    CompanionTaken(c, s, q, h, host, other);
    UpdateSound(c, t, q);
    BelowIsPlain(c, z, hostLabel);
    FirstIsTold(c, u, z, hostLabel, ip, h);
    UpsertTakesBack(c, u, u.hosts[h], target, other, host.ttl);
  }

  /** An upsert for a host whose companion holds another record changes the records. */
  lemma UpsertTakesBack(c: Config, u: Tables, row: Host, target: Target, other: Target, ttl: int)
    requires row.domainId in u.domains && u.domains[row.domainId].wildcard && target != other
    requires Holds(u.records, Companion(u, row), RecordType(other), Record(ttl, other.text))
    ensures Upsert(c, u.records, row.hostname, u.domains[row.domainId], target, row.ttl) != u.records
  {
    var zone := u.domains[row.domainId];
    var after := Upsert(c, u.records, row.hostname, zone, target, row.ttl);
    UpsertServes(c, u.records, row.hostname, zone, target, row.ttl);
    assert Companion(u, row) == Names(row.hostname, zone.name, zone.wildcard)[1];
    AddressTokens(RecordType(target));
    AddressTokens(RecordType(other));
    HoldsOne(u.records, Companion(u, row), RecordType(other), Record(ttl, other.text), RecordType(target), Record(row.ttl, target.text));
  }

  lemma DomainsKept(c: Config, t: Tables, s: Tables, zone: string, h: nat)
    requires Sound(c, t) && h in t.hosts && (s == t || s == PutDomain(t, NewDomain(c, zone)))
    ensures s.hosts == t.hosts && s.nextHost == t.nextHost && HostFits(c, s, s.hosts[h])
    ensures s.domains[s.hosts[h].domainId] == t.domains[t.hosts[h].domainId]
  {
    assert HostFits(c, t, t.hosts[h]);
  }

  lemma BelowIsPlain(c: Config, z: string, hostLabel: string)
    requires StandsBelow(c, z, Join(hostLabel, z), hostLabel)
    ensures Plain(hostLabel)
  {
    var i :| 0 <= i < |Zones(c)| && Zones(c)[i] == Join(hostLabel, z);
    NormalShape(c.allowedDomains[i]);
    PartsArePlain(hostLabel, z);
  }

  /** The updates that lose the agreement. */
  function Breaking(z: string, hostLabel: string, ip: string, otherIp: string): seq<Step> {
    [UpdateStep(RequestFor(1, hostLabel, z, ip)), UpdateStep(RequestFor(2, "*", Join(hostLabel, z), otherIp))]
  }

  /** The agreement is lost, and the first device is then told nochg wrongly. */
  ghost predicate Broken(c: Config, t: Tables, again: Request) {
    && !InAgreement(t) && AnsweredNoChange(Update(c, t, again))
    && !Idle(c, t, again, Update(c, t, again).tables, Update(c, t, again).result.value.host)
  }

  lemma BreakingBreaks(c: Config, t: Tables, z: string, hostLabel: string, ip: string, otherIp: string)
    requires Prepared(c, t, z) && StandsBelow(c, z, Join(hostLabel, z), hostLabel)
    requires c.parseIp(ip).Some? && c.parseIp(otherIp).Some? && c.parseIp(ip) != c.parseIp(otherIp)
    ensures Broken(c, Run(c, t, Breaking(z, hostLabel, ip, otherIp)), RequestFor(1, hostLabel, z, ip))
  {
    var steps := Breaking(z, hostLabel, ip, otherIp);
    var u := Apply(c, t, steps[0]);
    BelowIsPlain(c, z, hostLabel);
    FirstHost(c, t, z, hostLabel, ip);
    SecondHost(c, u, z, hostLabel, c.parseIp(ip).value, otherIp, t.nextHost);
    SecondMisleads(c, u, z, hostLabel, ip, otherIp, t.nextHost);
    RunTwo(c, t, steps[0], steps[1]);
  }

  /** From tables in which two zones meet: at most one domain is created, where the
      default would not give it the flag; then the two updates. */
  lemma MeetingBreaks(c: Config, start: Tables, z: string, hostLabel: string, ip: string, otherIp: string)
    returns (before: seq<Step>)
    requires HostFree(c, start) && Meet(c, start, z, Join(hostLabel, z), hostLabel)
    requires c.parseIp(ip).Some? && c.parseIp(otherIp).Some? && c.parseIp(ip) != c.parseIp(otherIp)
    ensures DomainExists(start, z) || c.allowWildcard ==> before == []
    ensures before != [] ==> exists name :: Creatable(c, name, z) && before == [CreateDomainStep(name, 0, true)]
    ensures Broken(c, Run(c, start, before + Breaking(z, hostLabel, ip, otherIp)), RequestFor(1, hostLabel, z, ip))
  {
    before := Prepare(c, start, z);
    BreakingBreaks(c, Run(c, start, before), z, hostLabel, ip, otherIp);
    RunBoth(c, start, before, Breaking(z, hostLabel, ip, otherIp));
  }

  lemma {:induction false} RunBoth(c: Config, t: Tables, before: seq<Step>, later: seq<Step>)
    ensures Run(c, t, before + later) == Run(c, Run(c, t, before), later)
    decreases |before|
  {
    if before == [] {
      assert before + later == later;
    } else {
      assert (before + later)[0] == before[0] && (before + later)[1..] == before[1..] + later;
      RunBoth(c, Apply(c, t, before[0]), before[1..], later);
    }
  }

  lemma RunOne(c: Config, t: Tables, s: Step)
    ensures Run(c, t, [s]) == Apply(c, t, s)
  {
    assert [s][1..] == [];
  }

  lemma RunTwo(c: Config, t: Tables, first: Step, second: Step)
    ensures Run(c, t, [first, second]) == Apply(c, Apply(c, t, first), second)
  {
    assert [first, second] == [first] + [second];
    RunBoth(c, t, [first], [second]);
    RunOne(c, t, first);
    RunOne(c, Apply(c, t, first), second);
  }

  // ----- the exact condition ----------------------------------------------------------------

  ghost predicate AlwaysAgrees(c: Config, start: Tables) {
    forall steps :: InAgreement(Run(c, start, steps))
  }

  /** The nochg answer always leaves the records as the upsert would. */
  ghost predicate NoChangeIsRight(c: Config, start: Tables) {
    forall steps, q ::
      var t := Run(c, start, steps);
      AnsweredNoChange(Update(c, t, q)) ==> Idle(c, t, q, Update(c, t, q).tables, Update(c, t, q).result.value.host)
  }

  ghost predicate TwoAddresses(c: Config) {
    exists ip, otherIp :: c.parseIp(ip).Some? && c.parseIp(otherIp).Some? && c.parseIp(ip) != c.parseIp(otherIp)
  }

  lemma MeetingIsLost(c: Config, start: Tables)
    requires HostFree(c, start) && TwoAddresses(c) && !NoneMeet(c, start)
    ensures !AlwaysAgrees(c, start) && !NoChangeIsRight(c, start)
  {
    var z, w, hostLabel :| Meet(c, start, z, w, hostLabel);
    var ip, otherIp :| c.parseIp(ip).Some? && c.parseIp(otherIp).Some? && c.parseIp(ip) != c.parseIp(otherIp);
    var before := MeetingBreaks(c, start, z, hostLabel, ip, otherIp);
    BrokenIsLost(c, start, before + Breaking(z, hostLabel, ip, otherIp), RequestFor(1, hostLabel, z, ip));
  }

  lemma BrokenIsLost(c: Config, start: Tables, steps: seq<Step>, again: Request)
    requires Broken(c, Run(c, start, steps), again)
    ensures !AlwaysAgrees(c, start) && !NoChangeIsRight(c, start)
  {
  }

  /** With addresses to tell apart, table and records agree after every run if and
      only if no two managed zones meet at its beginning. */
  lemma AgreementIff(c: Config, start: Tables)
    requires HostFree(c, start) && TwoAddresses(c)
    ensures AlwaysAgrees(c, start) <==> NoneMeet(c, start)
  {
    if NoneMeet(c, start) {
      forall steps ensures InAgreement(Run(c, start, steps)) { ReachableAgrees(c, start, steps); }
    } else {
      MeetingIsLost(c, start);
    }
  }

  lemma NoChangeIff(c: Config, start: Tables)
    requires HostFree(c, start) && TwoAddresses(c)
    ensures NoChangeIsRight(c, start) <==> NoneMeet(c, start)
  {
    if NoneMeet(c, start) {
      forall steps, q ensures
        var t := Run(c, start, steps);
        AnsweredNoChange(Update(c, t, q)) ==> Idle(c, t, q, Update(c, t, q).tables, Update(c, t, q).result.value.host) {
        NoChangeIsExact(c, start, steps, q);
      }
    } else {
      MeetingIsLost(c, start);
    }
  }

  // ----- the tables the server starts with --------------------------------------------------

  /** The zones are configured as they are normalised. */
  predicate InNormalForm(c: Config) {
    forall x :: x in c.allowedDomains ==> Normal(x) == x
  }

  /** No zone that names can be split at is another with one label in front. */
  ghost predicate NoneStandsBelow(c: Config) {
    forall z, w, hostLabel :: !StandsBelow(c, z, w, hostLabel)
  }

  /** Every zone then has its row, and all rows have the default flag. */
  lemma SeededFlags(c: Config, records: Records, z: string)
    requires InNormalForm(c) && z in Zones(c)
    ensures HostFree(c, Seeded(c, Empty(records))) && DomainExists(Seeded(c, Empty(records)), z)
    ensures MayBeWildcard(c, Seeded(c, Empty(records)), z) <==> c.allowWildcard
  {
    var i :| 0 <= i < |Zones(c)| && Zones(c)[i] == z;
    assert c.allowedDomains[i] in c.allowedDomains;
    SeedIsFree(c, Empty(records), c.allowedDomains);
  }

  lemma SeededMeetIff(c: Config, records: Records)
    requires InNormalForm(c)
    ensures NoneMeet(c, Seeded(c, Empty(records))) <==> !c.allowWildcard || NoneStandsBelow(c)
  {
    var start := Seeded(c, Empty(records));
    forall z, w, hostLabel ensures Meet(c, start, z, w, hostLabel) <==> StandsBelow(c, z, w, hostLabel) && c.allowWildcard {
      if StandsBelow(c, z, w, hostLabel) { SeededFlags(c, records, z); }
    }
  }

  /** From the start of the server, with its zones in normal form: table and records
      always agree, and nochg is always right, if and only if new domains get no
      wildcards or no zone stands directly below another. */
  lemma SeededAgreementIff(c: Config, records: Records)
    requires InNormalForm(c) && TwoAddresses(c)
    ensures var start := Seeded(c, Empty(records));
            && (AlwaysAgrees(c, start) <==> !c.allowWildcard || NoneStandsBelow(c))
            && (NoChangeIsRight(c, start) <==> !c.allowWildcard || NoneStandsBelow(c))
  {
    SeedIsFree(c, Empty(records), c.allowedDomains);
    SeededMeetIff(c, records);
    AgreementIff(c, Seeded(c, Empty(records)));
    NoChangeIff(c, Seeded(c, Empty(records)));
  }

  /** Then no domain can be created any more: the endpoint that does answers with
      an error and changes nothing, whatever has been updated. */
  lemma SeededCreatesNothing(c: Config, records: Records, steps: seq<Step>, name: string, ttl: int, wildcard: bool)
    requires InNormalForm(c)
    ensures var t := Run(c, Seeded(c, Empty(records)), steps);
            CreateDomain(c, t, name, ttl, wildcard).tables == t && CreateDomain(c, t, name, ttl, wildcard).result.Err?
  {
    var start, zone := Seeded(c, Empty(records)), TrimSuffix(ToLower(name), ".");
    if i :| 0 <= i < |c.allowedDomains| && ToLower(c.allowedDomains[i]) == zone {
      SeedIsFree(c, Empty(records), c.allowedDomains);
      assert c.allowedDomains[i] in c.allowedDomains;
      NormalShape(c.allowedDomains[i]);
      DomainStays(c, start, steps, zone);
    }
  }

  lemma {:induction false} DomainStays(c: Config, t: Tables, steps: seq<Step>, zone: string)
    requires Sound(c, t) && DomainExists(t, zone)
    ensures DomainExists(Run(c, t, steps), zone)
    decreases |steps|
  {
    if steps != [] {
      SoundIsFresh(c, t);
      StepGrows(c, t, steps[0]);
      StepSound(c, t, steps[0]);
      var u := Apply(c, t, steps[0]);
      var d :| d in t.domains && t.domains[d].name == zone;
      assert d in u.domains && u.domains[d].name == zone;
      DomainStays(c, u, steps[1..], zone);
    }
  }
}
