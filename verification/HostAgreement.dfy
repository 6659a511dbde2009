// The host table and the DNS records agree after every run of updates, whatever
// records the name server held before, unless two managed zones meet: the domain
// of one has wildcard hosts or may come to have them, the other is it with a
// single label in front, and names can be split at both.
module HostAgreement {
  import opened Clock
  import opened Wrappers
  import opened Text
  import opened ManagedNames
  import opened DnsZone
  import opened HostTables
  import opened HostSoundness

  /** The DNS names of a host: its own and, in a wildcard domain, its companion. */
  function HostNames(t: Tables, host: Host): seq<string>
    requires host.domainId in t.domains
  {
    Names(host.hostname, t.domains[host.domainId].name, t.domains[host.domainId].wildcard)
  }

  function OtherFamily(rtype: string): string { if rtype == "A" then "AAAA" else "A" }

  /** name holds the record rr and no other address record. */
  ghost predicate Holds(records: Records, name: string, rtype: string, rr: Record) {
    && Key(name, rtype) in records && records[Key(name, rtype)] == {rr}
    && Key(name, OtherFamily(rtype)) !in records
  }

  /** A name that holds one address record does not hold another. */
  lemma HoldsOne(records: Records, name: string, rtype: string, rr: Record, otherType: string, other: Record)
    requires rtype in ADDRESS_TYPES && otherType in ADDRESS_TYPES && (rtype != otherType || rr != other)
    requires Holds(records, name, rtype, rr)
    ensures !Holds(records, name, otherType, other)
  {
  }

  /** Only address records at the given names may differ. */
  ghost predicate SameElsewhere(before: Records, after: Records, names: seq<string>) {
    forall k: Key :: (k.name !in names || k.rtype !in ADDRESS_TYPES) ==>
        ((k in after <==> k in before) && (k in before ==> after[k] == before[k]))
  }

  ghost predicate Served(t: Tables, host: Host)
    requires host.domainId in t.domains
  {
    forall name :: name in HostNames(t, host) ==> Holds(t.records, name, host.recordType, Record(host.ttl, host.ipAddress))
  }

  /** Each host's names hold its record and no other address record. */
  ghost predicate InAgreement(t: Tables) {
    forall h :: h in t.hosts ==> t.hosts[h].domainId in t.domains && Served(t, t.hosts[h])
  }

  // ----- names ------------------------------------------------------------------

  /** Names can be split at both zones, and the second is the first with one label
      in front. */
  ghost predicate StandsBelow(c: Config, z: string, w: string, hostLabel: string) {
    Splittable(z, Zones(c)) && Splittable(w, Zones(c)) && IsLabel(hostLabel) && Join(hostLabel, z) == w
  }

  /** Besides, the domain of the first has wildcard hosts or may come to. */
  ghost predicate Meet(c: Config, t: Tables, z: string, w: string, hostLabel: string) {
    StandsBelow(c, z, w, hostLabel) && MayBeWildcard(c, t, z)
  }

  ghost predicate NoneMeet(c: Config, t: Tables) {
    forall z, w, hostLabel :: !Meet(c, t, z, w, hostLabel)
  }

  lemma UnnestedDoNotMeet(c: Config, z: string, w: string, hostLabel: string)
    requires NoneNested(Zones(c))
    ensures !StandsBelow(c, z, w, hostLabel)
  {
    if Splittable(z, Zones(c)) && Splittable(w, Zones(c)) {
      assert z in Zones(c) && w in Zones(c) && !LiesBelow(w, z);
      if IsLabel(hostLabel) { JoinedLiesBelow(hostLabel, z); }
    }
  }

  /** Zones of which none is nested in another do not meet. */
  lemma NoneNestedNoneMeet(c: Config, t: Tables)
    requires NoneNested(Zones(c))
    ensures NoneMeet(c, t)
  {
    forall z, w, hostLabel ensures !Meet(c, t, z, w, hostLabel) { UnnestedDoNotMeet(c, z, w, hostLabel); }
  }

  /** A new domain row gets the flag only where it might. */
  lemma PutDomainMeets(c: Config, t: Tables, domain: Domain)
    requires DomainsSound(t) && NoneMeet(c, t) && !DomainExists(t, domain.name)
    requires domain.wildcard ==> CanBeWildcard(c, domain.name)
    ensures NoneMeet(c, PutDomain(t, domain))
  {
    var u := PutDomain(t, domain);
    forall z, w, hostLabel | StandsBelow(c, z, w, hostLabel) && MayBeWildcard(c, u, z) ensures MayBeWildcard(c, t, z) {
      if DomainExists(t, z) {
        var d :| d in t.domains && t.domains[d].name == z;
        assert d in u.domains && u.domains[d] == t.domains[d];
      }
    }
    forall z, w, hostLabel ensures !Meet(c, u, z, w, hostLabel) { assert !Meet(c, t, z, w, hostLabel); }
  }

  lemma CreateDomainMeets(c: Config, t: Tables, name: string, ttl: int, wildcard: bool)
    requires DomainsSound(t) && NoneMeet(c, t)
    ensures NoneMeet(c, CreateDomain(c, t, name, ttl, wildcard).tables)
  {
    if CreateDomain(c, t, name, ttl, wildcard).result.Ok? {
      assert Creatable(c, name, TrimSuffix(ToLower(name), "."));
      PutDomainMeets(c, t, CreateDomain(c, t, name, ttl, wildcard).tables.domains[t.nextDomain]);
    }
  }

  lemma SameDomainsMeet(c: Config, t: Tables, u: Tables)
    requires u.domains == t.domains && NoneMeet(c, t)
    ensures NoneMeet(c, u)
  {
    forall z, w, hostLabel ensures !Meet(c, u, z, w, hostLabel) { assert !Meet(c, t, z, w, hostLabel); }
  }

  lemma NamesKeepApart(c: Config, t: Tables, a: string, z: string, w: bool, b: string, y: string, v: bool)
    requires NoneMeet(c, t) && Splittable(z, Zones(c)) && Splittable(y, Zones(c)) && IsLabel(a) && IsLabel(b)
    requires (a != b || z != y) && (w ==> MayBeWildcard(c, t, z)) && (v ==> MayBeWildcard(c, t, y))
    ensures forall name :: name in Names(a, z, w) ==> name !in Names(b, y, v)
  {
    CompanionMeetsIff(a, z, b, y);
    CompanionMeetsIff(b, y, a, z);
    assert !Meet(c, t, z, y, a) && !Meet(c, t, y, z, b);
    if Join(a, z) == Join(b, y) { JoinIsInjective(a, z, b, y); }
  }

  /** No two host rows share a DNS name. */
  lemma HostsKeepApart(c: Config, t: Tables, host: Host, other: Host)
    requires NoneMeet(c, t) && DomainsSound(t) && HostFits(c, t, host) && HostFits(c, t, other)
    requires host.domainId != other.domainId || host.hostname != other.hostname
    ensures forall name :: name in HostNames(t, host) ==> name !in HostNames(t, other)
  {
    var p, q := t.domains[host.domainId], t.domains[other.domainId];
    NamesKeepApart(c, t, host.hostname, p.name, p.wildcard, other.hostname, q.name, q.wildcard);
  }

  // ----- one upsert -----------------------------------------------------------------

  lemma UpsertIs(c: Config, records: Records, hostLabel: string, domain: Domain, target: Target, ttl: int)
    ensures Upsert(c, records, hostLabel, domain, target, ttl)
         == Upserted(records, Names(hostLabel, domain.name, domain.wildcard), ADDRESS_TYPES, RecordType(target), Record(ttl, target.text))
  {
    AddressTokens(RecordType(target));
    UpsertMeans(records, c.server, hostLabel, domain.name, RecordType(target), Record(ttl, target.text), domain.wildcard);
  }

  lemma UpsertedHolds(records: Records, names: seq<string>, rtype: string, rr: Record)
    requires rtype in ADDRESS_TYPES
    ensures var after := Upserted(records, names, ADDRESS_TYPES, rtype, rr);
            (forall name :: name in names ==> Holds(after, name, rtype, rr)) && SameElsewhere(records, after, names)
  {
    assert OtherFamily(rtype) in ADDRESS_TYPES by { assert ADDRESS_TYPES[0] == "A" && ADDRESS_TYPES[1] == "AAAA"; }
  }

  lemma UpsertServes(c: Config, records: Records, hostLabel: string, domain: Domain, target: Target, ttl: int)
    ensures var after := Upsert(c, records, hostLabel, domain, target, ttl);
            var names := Names(hostLabel, domain.name, domain.wildcard);
            && (forall name :: name in names ==> Holds(after, name, RecordType(target), Record(ttl, target.text)))
            && SameElsewhere(records, after, names)
  {
    UpsertIs(c, records, hostLabel, domain, target, ttl);
    AddressTokens(RecordType(target));
    UpsertedHolds(records, Names(hostLabel, domain.name, domain.wildcard), RecordType(target), Record(ttl, target.text));
  }

  lemma UpsertedIsIdle(records: Records, names: seq<string>, rtype: string, rr: Record)
    requires rtype in ADDRESS_TYPES && forall name :: name in names ==> Holds(records, name, rtype, rr)
    ensures Upserted(records, names, ADDRESS_TYPES, rtype, rr) == records
  {
    var after := Upserted(records, names, ADDRESS_TYPES, rtype, rr);
    UpsertedHolds(records, names, rtype, rr);
    forall k: Key ensures (k in after <==> k in records) && (k in records ==> after[k] == records[k]) {
      if k.name in names && k.rtype in ADDRESS_TYPES {
        assert Holds(records, k.name, rtype, rr) && Holds(after, k.name, rtype, rr);
        assert k == Key(k.name, rtype) || k == Key(k.name, OtherFamily(rtype));
      }
    }
    assert after == records;
  }

  /** Where the names already hold the record, the upsert changes nothing. */
  lemma UpsertIsIdle(c: Config, records: Records, hostLabel: string, domain: Domain, target: Target, ttl: int)
    requires forall name :: name in Names(hostLabel, domain.name, domain.wildcard) ==>
               Holds(records, name, RecordType(target), Record(ttl, target.text))
    ensures Upsert(c, records, hostLabel, domain, target, ttl) == records
  {
    UpsertIs(c, records, hostLabel, domain, target, ttl);
    AddressTokens(RecordType(target));
    UpsertedIsIdle(records, Names(hostLabel, domain.name, domain.wildcard), RecordType(target), Record(ttl, target.text));
  }

  // ----- every step keeps the agreement ------------------------------------------------

  /** Tables that differ in other things than domains, hosts and records agree or
      not together. */
  lemma SameAgreement(t: Tables, u: Tables)
    requires u.domains == t.domains && u.hosts == t.hosts && u.records == t.records
    ensures InAgreement(t) <==> InAgreement(u)
  {
    assert forall h :: h in t.hosts && t.hosts[h].domainId in t.domains ==> (Served(t, t.hosts[h]) <==> Served(u, u.hosts[h]));
  }

  lemma PutDomainAgrees(c: Config, t: Tables, domain: Domain)
    requires Sound(c, t) && InAgreement(t)
    ensures InAgreement(PutDomain(t, domain))
  {
    var u := PutDomain(t, domain);
    forall h | h in u.hosts ensures u.hosts[h].domainId in u.domains && Served(u, u.hosts[h]) {
      assert Served(t, t.hosts[h]) && HostNames(u, u.hosts[h]) == HostNames(t, t.hosts[h]);
    }
  }

  /** Rewriting one host row together with the records at its names. */
  lemma RowAgrees(c: Config, t: Tables, h: nat, host: Host, records: Records)
    requires NoneMeet(c, t) && Sound(c, t) && InAgreement(t) && HostFits(c, t, host)
    requires HostsAt(t, host.domainId, host.hostname) <= {h}
    requires forall name :: name in HostNames(t, host) ==>
               Holds(records, name, host.recordType, Record(host.ttl, host.ipAddress))
    requires SameElsewhere(t.records, records, HostNames(t, host))
    ensures InAgreement(t.(hosts := t.hosts[h := host], records := records))
  {
    var u := t.(hosts := t.hosts[h := host], records := records);
    forall g | g in u.hosts ensures u.hosts[g].domainId in u.domains && Served(u, u.hosts[g]) {
      if g == h {
        assert HostNames(u, host) == HostNames(t, host);
      } else {
        assert HostFits(c, t, t.hosts[g]);
        OtherHost(t, h, host, g);
        HostsKeepApart(c, t, t.hosts[g], host);
        OtherStaysServed(t, u, t.hosts[g], HostNames(t, host));
      }
    }
  }

  lemma OtherStaysServed(t: Tables, u: Tables, host: Host, names: seq<string>)
    requires host.domainId in t.domains && u.domains == t.domains && Served(t, host)
    requires SameElsewhere(t.records, u.records, names)
    requires forall name :: name in HostNames(t, host) ==> name !in names
    ensures Served(u, host)
  {
    forall name | name in HostNames(u, host)
      ensures Holds(u.records, name, host.recordType, Record(host.ttl, host.ipAddress)) {
      assert Holds(t.records, name, host.recordType, Record(host.ttl, host.ipAddress));
    }
  }

  lemma PublishAgrees(c: Config, t: Tables, q: Request, existing: Option<nat>, host: Host, target: Target)
    requires NoneMeet(c, t) && Sound(c, t) && InAgreement(t) && HostFits(c, t, host) && WritesRow(t, existing, host)
    ensures InAgreement(Publish(c, t, q, existing, host, target).tables)
  {
    var u := Publish(c, t, q, existing, host, target).tables;
    if q.dnsAccepts {
      var domain := t.domains[host.domainId];
      var stored := host.(ipAddress := target.text, recordType := RecordType(target), lastUpdate := q.now);
      var h := if existing.Some? then existing.value else t.nextHost;
      UpsertServes(c, t.records, host.hostname, domain, target, host.ttl);
      AddressTokens(RecordType(target));
      assert HostNames(t, stored) == Names(host.hostname, domain.name, domain.wildcard);
      RowAgrees(c, t, h, stored, u.records);
      SameAgreement(t.(hosts := t.hosts[h := stored], records := u.records), u);
    } else {
      SameAgreement(t, u);
    }
  }

  lemma SeenAgrees(c: Config, t: Tables, h: nat, now: Time, u: Tables)
    requires NoneMeet(c, t) && Sound(c, t) && InAgreement(t) && h in t.hosts
    requires u == t.(hosts := t.hosts[h := t.hosts[h].(lastUpdate := now)], log := u.log)
    ensures InAgreement(u)
  {
    var host := t.hosts[h].(lastUpdate := now);
    assert HostFits(c, t, t.hosts[h]) && Served(t, t.hosts[h]) && HostNames(t, host) == HostNames(t, t.hosts[h]);
    RowAgrees(c, t, h, host, t.records);
    SameAgreement(t.(hosts := u.hosts), u);
  }

  lemma UpdateInAgrees(c: Config, t: Tables, q: Request, d: nat, hostLabel: string, target: Target)
    requires NoneMeet(c, t) && Sound(c, t) && InAgreement(t)
    requires d in t.domains && Splittable(t.domains[d].name, Zones(c)) && IsLabel(hostLabel)
    ensures InAgreement(UpdateIn(c, t, q, d, hostLabel, target).tables)
  {
    match First(HostsAt(t, d, hostLabel))
    case None =>
      if CanAutocreate(c.policy, q.device.name, hostLabel) {
        AddressTokens(RecordType(target));
        PublishAgrees(c, t, q, None, FreshHost(t, q, d, hostLabel, target), target);
      } else {
        SameAgreement(t, UpdateIn(c, t, q, d, hostLabel, target).tables);
      }
    case Some(h) => KnownAgrees(c, t, q, h, target);
  }

  lemma KnownAgrees(c: Config, t: Tables, q: Request, h: nat, target: Target)
    requires NoneMeet(c, t) && Sound(c, t) && InAgreement(t) && h in t.hosts && t.hosts[h].domainId in t.domains
    requires First(HostsAt(t, t.hosts[h].domainId, t.hosts[h].hostname)) == Some(h)
    ensures InAgreement(UpdateIn(c, t, q, t.hosts[h].domainId, t.hosts[h].hostname, target).tables)
  {
    var host := t.hosts[h];
    var u := UpdateIn(c, t, q, host.domainId, host.hostname, target).tables;
    assert HostFits(c, t, host);
    if host.deviceId != q.device.id {
      SameAgreement(t, u);
    } else if host.ipAddress == target.text && host.recordType == RecordType(target) {
      SeenAgrees(c, t, h, q.now, u);
    } else {
      PublishAgrees(c, t, q, Some(h), host, target);
    }
  }

  lemma NewDomainAgrees(c: Config, t: Tables, domain: Domain)
    requires NoneMeet(c, t) && Sound(c, t) && InAgreement(t)
    requires domain.enabled && !DomainExists(t, domain.name) && (domain.wildcard ==> CanBeWildcard(c, domain.name))
    ensures NoneMeet(c, PutDomain(t, domain)) && Sound(c, PutDomain(t, domain)) && InAgreement(PutDomain(t, domain))
  {
    PutDomainSound(c, t, domain);
    PutDomainMeets(c, t, domain);
    PutDomainAgrees(c, t, domain);
  }

  lemma UpdateAgrees(c: Config, t: Tables, q: Request)
    requires NoneMeet(c, t) && Sound(c, t) && InAgreement(t)
    ensures InAgreement(Update(c, t, q).tables)
  {
    match Split(q.fqdn, c.allowedDomains)
    case None => SameAgreement(t, Update(c, t, q).tables);
    case Some(m) =>
      SplitZone(c, q.fqdn);
      match c.parseIp(AskedIp(q))
      case None => SameAgreement(t, Update(c, t, q).tables);
      case Some(target) =>
        match First(EnabledNamed(t, m.zone))
        case Some(d) => UpdateInAgrees(c, t, q, d, m.hostLabel, target);
        case None =>
          if !DomainExists(t, m.zone) {
            NewDomainAgrees(c, t, NewDomain(c, m.zone));
            UpdateInAgrees(c, PutDomain(t, NewDomain(c, m.zone)), q, t.nextDomain, m.hostLabel, target);
          }
  }

  lemma StepAgrees(c: Config, t: Tables, s: Step)
    requires NoneMeet(c, t) && Sound(c, t) && InAgreement(t)
    ensures InAgreement(Apply(c, t, s))
  {
    match s
    case UpdateStep(q) => UpdateAgrees(c, t, q);
    case CreateDomainStep(name, ttl, wildcard) =>
      if CreateDomain(c, t, name, ttl, wildcard).result.Ok? {
        PutDomainAgrees(c, t, CreateDomain(c, t, name, ttl, wildcard).tables.domains[t.nextDomain]);
      }
  }

  lemma UpdateMeets(c: Config, t: Tables, q: Request)
    requires DomainsSound(t) && NoneMeet(c, t)
    ensures NoneMeet(c, Update(c, t, q).tables)
  {
    var u := Update(c, t, q).tables;
    if Split(q.fqdn, c.allowedDomains).Some? {
      var domain := NewDomain(c, Split(q.fqdn, c.allowedDomains).value.zone);
      if !DomainExists(t, domain.name) { PutDomainMeets(c, t, domain); }
      UpdateDomains(c, t, q);
      if u.domains != t.domains { SameDomainsMeet(c, PutDomain(t, domain), u); }
    }
    if u.domains == t.domains { SameDomainsMeet(c, t, u); }
  }

  lemma UpdateInKeepsDomains(c: Config, t: Tables, q: Request, d: nat, hostLabel: string, target: Target)
    requires d in t.domains
    ensures UpdateIn(c, t, q, d, hostLabel, target).tables.domains == t.domains
  {
  }

  lemma UpdateDomains(c: Config, t: Tables, q: Request)
    ensures var u := Update(c, t, q).tables;
            u.domains != t.domains ==>
              && Split(q.fqdn, c.allowedDomains).Some?
              && var domain := NewDomain(c, Split(q.fqdn, c.allowedDomains).value.zone);
                 !DomainExists(t, domain.name) && u.domains == PutDomain(t, domain).domains
  {
    if Split(q.fqdn, c.allowedDomains).Some? && c.parseIp(AskedIp(q)).Some? {
      var m, target := Split(q.fqdn, c.allowedDomains).value, c.parseIp(AskedIp(q)).value;
      match First(EnabledNamed(t, m.zone))
      case Some(d) => UpdateInKeepsDomains(c, t, q, d, m.hostLabel, target);
      case None => UpdateInKeepsDomains(c, PutDomain(t, NewDomain(c, m.zone)), q, t.nextDomain, m.hostLabel, target);
    }
  }

  lemma StepMeets(c: Config, t: Tables, s: Step)
    requires DomainsSound(t) && NoneMeet(c, t)
    ensures NoneMeet(c, Apply(c, t, s))
  {
    match s
    case UpdateStep(q) => UpdateMeets(c, t, q);
    case CreateDomainStep(name, ttl, wildcard) => CreateDomainMeets(c, t, name, ttl, wildcard);
  }

  lemma {:induction false} RunAgrees(c: Config, t: Tables, steps: seq<Step>)
    requires NoneMeet(c, t) && Sound(c, t) && InAgreement(t)
    ensures InAgreement(Run(c, t, steps)) && NoneMeet(c, Run(c, t, steps))
    decreases |steps|
  {
    if steps != [] {
      StepSound(c, t, steps[0]);
      StepMeets(c, t, steps[0]);
      StepAgrees(c, t, steps[0]);
      RunAgrees(c, Apply(c, t, steps[0]), steps[1..]);
    }
  }

  /** Whatever the name server held at the start and whatever is asked: in every
      state each host's names hold its record and no other address record. */
  lemma ReachableAgrees(c: Config, start: Tables, steps: seq<Step>)
    requires HostFree(c, start) && NoneMeet(c, start)
    ensures InAgreement(Run(c, start, steps)) && NoneMeet(c, Run(c, start, steps))
  {
    RunAgrees(c, start, steps);
  }

  /** In particular when no managed zone is nested in another. */
  lemma UnnestedAgrees(c: Config, start: Tables, steps: seq<Step>)
    requires HostFree(c, start) && NoneNested(Zones(c))
    ensures InAgreement(Run(c, start, steps))
  {
    NoneNestedNoneMeet(c, start);
    ReachableAgrees(c, start, steps);
  }
}
