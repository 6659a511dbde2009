// What every step keeps of the domain and host tables, for every configuration.
module HostSoundness {
  import opened Clock
  import opened Wrappers
  import opened Text
  import opened ManagedNames
  import opened DnsZone
  import opened HostTables

  function Zones(c: Config): seq<string> { NormalZones(c.allowedDomains) }

  /** The administrator can create a domain of this name by asking for name. */
  predicate Creatable(c: Config, name: string, zone: string) {
    && c.isFqdn(name) && TrimSuffix(ToLower(name), ".") == zone
    && exists i :: 0 <= i < |c.allowedDomains| && ToLower(c.allowedDomains[i]) == zone
  }

  /** A new domain row of this name may get the wildcard flag: by default, or
      because the administrator can create it with the flag. */
  ghost predicate CanBeWildcard(c: Config, zone: string) {
    c.allowWildcard || exists name :: Creatable(c, name, zone)
  }

  /** A domain row of this name has the wildcard flag, or there is none and it may
      still get the flag. */
  ghost predicate MayBeWildcard(c: Config, t: Tables, zone: string) {
    (exists d :: d in t.domains && t.domains[d].name == zone && t.domains[d].wildcard)
    || (!DomainExists(t, zone) && CanBeWildcard(c, zone))
  }

  ghost predicate DomainsSound(t: Tables) {
    && (forall d :: d in t.domains ==> d < t.nextDomain && t.domains[d].enabled)
    && (forall d, e :: d in t.domains && e in t.domains && t.domains[d].name == t.domains[e].name ==> d == e)
  }

  ghost predicate HostFits(c: Config, t: Tables, host: Host) {
    && host.domainId in t.domains && Splittable(t.domains[host.domainId].name, Zones(c))
    && IsLabel(host.hostname) && host.recordType in ADDRESS_TYPES
  }

  ghost predicate HostsSound(c: Config, t: Tables) {
    && (forall h :: h in t.hosts ==> h < t.nextHost && HostFits(c, t, t.hosts[h]))
    && NamesAlone(t.hosts)
  }

  /** No two rows have the same name in the same domain. */
  ghost predicate NamesAlone(hosts: map<nat, Host>) {
    forall h, g ::
      (h in hosts && g in hosts && hosts[h].domainId == hosts[g].domainId && hosts[h].hostname == hosts[g].hostname) ==> h == g
  }

  ghost predicate Sound(c: Config, t: Tables) {
    DomainsSound(t) && HostsSound(c, t)
  }

  lemma AddressTokens(rtype: string)
    requires rtype == "A" || rtype == "AAAA"
    ensures TypeOf(rtype) == rtype && IsAddress(rtype) && rtype in ADDRESS_TYPES
  {
    assert ADDRESS_TYPES[0] == "A" && ADDRESS_TYPES[1] == "AAAA";
    assert TypeOf("A") == "A" && TypeOf("AAAA") == "AAAA";
  }

  /** Records and log play no part. */
  lemma SameRowsSound(c: Config, t: Tables, u: Tables)
    requires u.domains == t.domains && u.hosts == t.hosts && u.nextDomain == t.nextDomain && u.nextHost == t.nextHost
    ensures Sound(c, t) ==> Sound(c, u)
  {
    assert forall h :: h in t.hosts ==> (HostFits(c, t, t.hosts[h]) <==> HostFits(c, u, u.hosts[h]));
  }

  lemma PutDomainSound(c: Config, t: Tables, domain: Domain)
    requires Sound(c, t) && domain.enabled && !DomainExists(t, domain.name)
    ensures Sound(c, PutDomain(t, domain))
  {
    var u := PutDomain(t, domain);
    forall h | h in u.hosts ensures HostFits(c, u, u.hosts[h]) { assert HostFits(c, t, t.hosts[h]); }
  }

  lemma OtherHost(t: Tables, h: nat, host: Host, g: nat)
    requires HostsAt(t, host.domainId, host.hostname) <= {h} && g in t.hosts && g != h
    ensures t.hosts[g].domainId != host.domainId || t.hosts[g].hostname != host.hostname
  {
    assert g !in HostsAt(t, host.domainId, host.hostname);
  }

  lemma RowSound(c: Config, t: Tables, h: nat, host: Host, next: nat)
    requires Sound(c, t) && HostFits(c, t, host) && h < next && t.nextHost <= next
    requires HostsAt(t, host.domainId, host.hostname) <= {h}
    ensures Sound(c, t.(hosts := t.hosts[h := host], nextHost := next))
  {
    var u := t.(hosts := t.hosts[h := host], nextHost := next);
    forall g | g in u.hosts ensures HostFits(c, u, u.hosts[g]) {
      if g != h { assert HostFits(c, t, t.hosts[g]); }
    }
    RowAlone(t, h, host);
  }

  lemma RowAlone(t: Tables, h: nat, host: Host)
    requires NamesAlone(t.hosts) && HostsAt(t, host.domainId, host.hostname) <= {h}
    ensures NamesAlone(t.hosts[h := host])
  {
    var hosts := t.hosts[h := host];
    forall f, g | f in hosts && g in hosts && hosts[f].domainId == hosts[g].domainId && hosts[f].hostname == hosts[g].hostname
      ensures f == g {
      if f == h && g != h { OtherHost(t, h, host, g); }
      if g == h && f != h { OtherHost(t, h, host, f); }
    }
  }

  /** The row a write to the host table belongs to. */
  ghost predicate WritesRow(t: Tables, existing: Option<nat>, host: Host) {
    match existing
    case None => HostsAt(t, host.domainId, host.hostname) == {}
    case Some(h) => h in t.hosts && t.hosts[h] == host
  }

  lemma PublishSound(c: Config, t: Tables, q: Request, existing: Option<nat>, host: Host, target: Target)
    requires Sound(c, t) && HostFits(c, t, host) && WritesRow(t, existing, host)
    ensures Sound(c, Publish(c, t, q, existing, host, target).tables)
  {
    var u := Publish(c, t, q, existing, host, target).tables;
    if q.dnsAccepts {
      assert existing.Some? ==> existing.value < t.nextHost && HostsAt(t, host.domainId, host.hostname) <= {existing.value};
      var stored := host.(ipAddress := target.text, recordType := RecordType(target), lastUpdate := q.now);
      var h := if existing.Some? then existing.value else t.nextHost;
      AddressTokens(RecordType(target));
      RowSound(c, t, h, stored, u.nextHost);
      SameRowsSound(c, t.(hosts := t.hosts[h := stored], nextHost := u.nextHost), u);
    } else {
      SameRowsSound(c, t, u);
    }
  }

  lemma SeenSound(c: Config, t: Tables, h: nat, now: Time, u: Tables)
    requires Sound(c, t) && h in t.hosts
    requires u == t.(hosts := t.hosts[h := t.hosts[h].(lastUpdate := now)], log := u.log)
    ensures Sound(c, u)
  {
    assert HostFits(c, t, t.hosts[h]);
    RowSound(c, t, h, t.hosts[h].(lastUpdate := now), t.nextHost);
    SameRowsSound(c, t.(hosts := u.hosts), u);
  }

  function FreshHost(t: Tables, q: Request, d: nat, hostLabel: string, target: Target): Host
    requires d in t.domains
  {
    Host(d, q.device.id, hostLabel, "", RecordType(target), t.domains[d].defaultTtl, 0)
  }

  lemma UpdateInSound(c: Config, t: Tables, q: Request, d: nat, hostLabel: string, target: Target)
    requires Sound(c, t) && d in t.domains && Splittable(t.domains[d].name, Zones(c)) && IsLabel(hostLabel)
    ensures Sound(c, UpdateIn(c, t, q, d, hostLabel, target).tables)
  {
    match First(HostsAt(t, d, hostLabel))
    case None =>
      if CanAutocreate(c.policy, q.device.name, hostLabel) {
        AddressTokens(RecordType(target));
        PublishSound(c, t, q, None, FreshHost(t, q, d, hostLabel, target), target);
      } else {
        SameRowsSound(c, t, UpdateIn(c, t, q, d, hostLabel, target).tables);
      }
    case Some(h) => KnownSound(c, t, q, h, target);
  }

  lemma KnownSound(c: Config, t: Tables, q: Request, h: nat, target: Target)
    requires Sound(c, t) && h in t.hosts && First(HostsAt(t, t.hosts[h].domainId, t.hosts[h].hostname)) == Some(h)
    requires t.hosts[h].domainId in t.domains
    ensures Sound(c, UpdateIn(c, t, q, t.hosts[h].domainId, t.hosts[h].hostname, target).tables)
  {
    var host := t.hosts[h];
    var u := UpdateIn(c, t, q, host.domainId, host.hostname, target).tables;
    assert HostFits(c, t, host);
    if host.deviceId != q.device.id {
      SameRowsSound(c, t, u);
    } else if host.ipAddress == target.text && host.recordType == RecordType(target) {
      SeenSound(c, t, h, q.now, u);
    } else {
      PublishSound(c, t, q, Some(h), host, target);
    }
  }

  /** A zone the splitting returns is one that names can be split at. */
  lemma SplitZone(c: Config, fqdn: string)
    requires Split(fqdn, c.allowedDomains).Some?
    ensures var m := Split(fqdn, c.allowedDomains).value;
            IsLabel(m.hostLabel) && Splittable(m.zone, Zones(c))
  {
    var m := Split(fqdn, c.allowedDomains).value;
    SplitThenJoin(Normal(fqdn), Zones(c));
    SplittableIff(m.hostLabel, m.zone, Zones(c));
  }

  lemma UpdateSound(c: Config, t: Tables, q: Request)
    requires Sound(c, t)
    ensures Sound(c, Update(c, t, q).tables)
  {
    match Split(q.fqdn, c.allowedDomains)
    case None => SameRowsSound(c, t, Update(c, t, q).tables);
    case Some(m) =>
      SplitZone(c, q.fqdn);
      match c.parseIp(AskedIp(q))
      case None => SameRowsSound(c, t, Update(c, t, q).tables);
      case Some(target) =>
        match First(EnabledNamed(t, m.zone))
        case Some(d) => UpdateInSound(c, t, q, d, m.hostLabel, target);
        case None =>
          if !DomainExists(t, m.zone) {
            PutDomainSound(c, t, NewDomain(c, m.zone));
            UpdateInSound(c, PutDomain(t, NewDomain(c, m.zone)), q, t.nextDomain, m.hostLabel, target);
          }
  }

  lemma CreateDomainSound(c: Config, t: Tables, name: string, ttl: int, wildcard: bool)
    requires Sound(c, t)
    ensures Sound(c, CreateDomain(c, t, name, ttl, wildcard).tables)
  {
    if CreateDomain(c, t, name, ttl, wildcard).result.Ok? {
      PutDomainSound(c, t, CreateDomain(c, t, name, ttl, wildcard).tables.domains[t.nextDomain]);
    }
  }

  lemma StepSound(c: Config, t: Tables, s: Step)
    requires Sound(c, t)
    ensures Sound(c, Apply(c, t, s))
  {
    match s
    case UpdateStep(q) => UpdateSound(c, t, q);
    case CreateDomainStep(name, ttl, wildcard) => CreateDomainSound(c, t, name, ttl, wildcard);
  }

  lemma {:induction false} RunSound(c: Config, t: Tables, steps: seq<Step>)
    requires Sound(c, t)
    ensures Sound(c, Run(c, t, steps))
    decreases |steps|
  {
    if steps != [] {
      StepSound(c, t, steps[0]);
      RunSound(c, Apply(c, t, steps[0]), steps[1..]);
    }
  }

  // ----- where runs begin -------------------------------------------------------------

  /** Sound tables without hosts, such as empty ones and those of a first start. */
  ghost predicate HostFree(c: Config, t: Tables) {
    Sound(c, t) && t.hosts == map[]
  }

  /** Every configured name has a row after start-up, a new one with the defaults. */
  lemma {:induction false} SeedIsFree(c: Config, t: Tables, names: seq<string>)
    requires HostFree(c, t)
    ensures HostFree(c, Seed(c, t, names)) && Seed(c, t, names).records == t.records
    ensures forall z :: DomainExists(Seed(c, t, names), z) <==> DomainExists(t, z) || z in names
    ensures var u := Seed(c, t, names);
            forall d :: d in u.domains ==> (d in t.domains && u.domains[d] == t.domains[d])
                                           || (u.domains[d].wildcard == c.allowWildcard && !DomainExists(t, u.domains[d].name))
    decreases |names|
  {
    if names != [] {
      var u := if DomainExists(t, names[0]) then t else PutDomain(t, NewDomain(c, names[0]));
      if !DomainExists(t, names[0]) {
        PutDomainSound(c, t, NewDomain(c, names[0]));
        PutDomainAdds(t, NewDomain(c, names[0]));
      }
      SeedIsFree(c, u, names[1..]);
      assert forall z :: z in names <==> z == names[0] || z in names[1..];
    }
  }

  lemma PutDomainAdds(t: Tables, domain: Domain)
    requires DomainsSound(t)
    ensures forall z :: DomainExists(PutDomain(t, domain), z) <==> DomainExists(t, z) || z == domain.name
  {
    var u := PutDomain(t, domain);
    forall z ensures DomainExists(u, z) <==> DomainExists(t, z) || z == domain.name {
      if DomainExists(t, z) {
        var d :| d in t.domains && t.domains[d].name == z;
        assert d in u.domains && u.domains[d] == t.domains[d];
      }
      if z == domain.name { assert t.nextDomain in u.domains && u.domains[t.nextDomain].name == z; }
    }
  }

  /** After every run from such tables, of every configuration: domain names and
      host names are unique, ids fresh, no domain is disabled, and hosts lie in
      zones that names can be split at. */
  lemma ReachableSound(c: Config, start: Tables, steps: seq<Step>)
    requires HostFree(c, start)
    ensures Sound(c, Run(c, start, steps))
  {
    RunSound(c, start, steps);
  }
}
