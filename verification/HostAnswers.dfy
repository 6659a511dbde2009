// What an update answers and leaves, told on the request: which address is
// published and where, each error for its own reason, what the log says, and who
// may create which name.
module HostAnswers {
  import opened Wrappers
  import opened Text
  import opened ManagedNames
  import opened DnsZone
  import opened HostTables
  import opened HostSoundness
  import opened HostAgreement
  import opened HostProperties
  import opened HostStatements

  // ----- the address that is published ---------------------------------------------

  /** The request asks for this address: the one it names, or the caller's where it
      names none. */
  predicate AsksFor(c: Config, q: Request, target: Target) {
    if TrimSpace(q.requestedIp) != "" then c.parseIp(TrimSpace(q.requestedIp)) == Some(target)
    else c.parseIp(q.callerIp) == Some(target)
  }

  predicate AsksForNothing(c: Config, q: Request) {
    if TrimSpace(q.requestedIp) != "" then c.parseIp(TrimSpace(q.requestedIp)) == None else c.parseIp(q.callerIp) == None
  }

  /** The answer and its row name the address and its family. */
  predicate Gives(r: Updated, target: Target) {
    && r.ip == target.text && r.host.ipAddress == target.text && r.host.recordType == (if target.v4 then "A" else "AAAA")
    && (r.code == "good" || r.code == "nochg") && (r.changed <==> r.code == "good") && (r.created ==> r.changed)
  }

  /** name holds the address with that TTL, and no other address record. */
  ghost predicate Publishes(records: Records, name: string, target: Target, ttl: int) {
    var own, other := if target.v4 then "A" else "AAAA", if target.v4 then "AAAA" else "A";
    Key(name, own) in records && records[Key(name, own)] == {Record(ttl, target.text)} && Key(name, other) !in records
  }

  /** The row is stored, written now by the asking device, under the name that was
      asked for. */
  ghost predicate Stores(t: Tables, q: Request, host: Host) {
    && (exists h :: h in t.hosts && t.hosts[h] == host) && host.deviceId == q.device.id && host.lastUpdate == q.now
    && host.domainId in t.domains && Join(host.hostname, t.domains[host.domainId].name) == Normal(q.fqdn)
  }

  lemma UpsertPublishes(c: Config, records: Records, hostLabel: string, domain: Domain, target: Target, ttl: int)
    ensures var after, name := Upsert(c, records, hostLabel, domain, target, ttl), Join(hostLabel, domain.name);
            Publishes(after, name, target, ttl) && (domain.wildcard ==> Publishes(after, "*." + name, target, ttl))
  {
    var names, name := Names(hostLabel, domain.name, domain.wildcard), Join(hostLabel, domain.name);
    UpsertServes(c, records, hostLabel, domain, target, ttl);
    assert names[0] == name && name in names;
    assert "*." + name == Join("*", name);
    if domain.wildcard { assert names[1] == Join("*", name) && Join("*", name) in names; }
  }

  lemma PublishGives(c: Config, t: Tables, q: Request, existing: Option<nat>, host: Host, target: Target)
    requires host.domainId in t.domains && Publish(c, t, q, existing, host, target).result.Ok?
    ensures var o := Publish(c, t, q, existing, host, target);
            var r, name := o.result.value, Join(host.hostname, t.domains[host.domainId].name);
            && Gives(r, target) && r.code == "good" && r.host.(ipAddress := host.ipAddress, recordType := host.recordType, lastUpdate := host.lastUpdate) == host
            && r.host.lastUpdate == q.now && (exists h :: h in o.tables.hosts && o.tables.hosts[h] == r.host)
            && o.tables.domains == t.domains && (r.created <==> existing.None?)
            && Publishes(o.tables.records, name, target, host.ttl)
            && (t.domains[host.domainId].wildcard ==> Publishes(o.tables.records, "*." + name, target, host.ttl))
  {
    var u := Publish(c, t, q, existing, host, target).tables;
    UpsertPublishes(c, t.records, host.hostname, t.domains[host.domainId], target, host.ttl);
    var h := if existing.Some? then existing.value else t.nextHost;
    assert h in u.hosts && u.hosts[h] == Publish(c, t, q, existing, host, target).result.value.host;
  }

  /** What a successful update leaves. */
  ghost predicate Succeeds(c: Config, t: Tables, q: Request, o: Outcome<Updated>) {
    && o.result.Ok? && (exists target :: AsksFor(c, q, target) && Gives(o.result.value, target))
    && Stores(o.tables, q, o.result.value.host)
    && (o.result.value.code == "nochg" ==> o.tables.records == t.records)
    && (o.result.value.code == "good" ==>
          exists target :: AsksFor(c, q, target) && Publishes(o.tables.records, Normal(q.fqdn), target, o.result.value.host.ttl)
            && (o.tables.domains[o.result.value.host.domainId].wildcard ==>
                  Publishes(o.tables.records, "*." + Normal(q.fqdn), target, o.result.value.host.ttl)))
  }

  lemma UpdateInSucceeds(c: Config, t: Tables, q: Request, d: nat, hostLabel: string, target: Target)
    requires d in t.domains && AsksFor(c, q, target) && Join(hostLabel, t.domains[d].name) == Normal(q.fqdn)
    ensures UpdateIn(c, t, q, d, hostLabel, target).result.Ok? ==> Succeeds(c, t, q, UpdateIn(c, t, q, d, hostLabel, target))
  {
    match First(HostsAt(t, d, hostLabel))
    case None =>
      if CanAutocreate(c.policy, q.device.name, hostLabel) && q.dnsAccepts {
        PublishGives(c, t, q, None, FreshHost(t, q, d, hostLabel, target), target);
      }
    case Some(h) =>
      var host, u := t.hosts[h], UpdateIn(c, t, q, d, hostLabel, target).tables;
      if host.deviceId == q.device.id {
        if host.ipAddress == target.text && host.recordType == RecordType(target) {
          assert h in u.hosts && u.hosts[h] == host.(lastUpdate := q.now);
        } else if q.dnsAccepts {
          PublishGives(c, t, q, Some(h), host, target);
        }
      }
  }

  lemma AskedIs(c: Config, q: Request, target: Target)
    ensures c.parseIp(AskedIp(q)) == Some(target) <==> AsksFor(c, q, target)
    ensures c.parseIp(AskedIp(q)) == None <==> AsksForNothing(c, q)
  {
  }

  /** Every successful update publishes, at the name that was asked for, the address
      that was asked for, and stores and answers it. */
  lemma UpdateSucceeds(c: Config, t: Tables, q: Request)
    ensures Update(c, t, q).result.Ok? ==> Succeeds(c, t, q, Update(c, t, q))
  {
    if Split(q.fqdn, c.allowedDomains).Some? && c.parseIp(AskedIp(q)).Some? {
      var m, target := Split(q.fqdn, c.allowedDomains).value, c.parseIp(AskedIp(q)).value;
      AskedIs(c, q, target);
      SplitThenJoin(Normal(q.fqdn), Zones(c));
      match First(EnabledNamed(t, m.zone))
      case Some(d) => UpdateInSucceeds(c, t, q, d, m.hostLabel, target);
      case None => UpdateInSucceeds(c, PutDomain(t, NewDomain(c, m.zone)), q, t.nextDomain, m.hostLabel, target);
    }
  }

  // ----- the same, statement by statement --------------------------------------------

  /** An update in flight has kept the name and the address it was asked for. */
  ghost predicate KeepsAsked(c: Config, q: Request, f: Flight) {
    match f
    case Asked(p, m, target) => p == q && AsksFor(c, q, target) && Join(m.hostLabel, m.zone) == Normal(q.fqdn)
    case Missing(p, m, target) => p == q && AsksFor(c, q, target) && Join(m.hostLabel, m.zone) == Normal(q.fqdn)
    case Placed(p, d, domain, hostLabel, target) => p == q && AsksFor(c, q, target) && Join(hostLabel, domain.name) == Normal(q.fqdn)
    case Unchanged(p, _, host) => p == q && exists target :: AsksFor(c, q, target) && IsOf(host, target)
    case Chosen(p, _, host, domain, target) => p == q && AsksFor(c, q, target) && Join(host.hostname, domain.name) == Normal(q.fqdn)
    case Written(p, _, host, domain, target) => p == q && AsksFor(c, q, target) && Join(host.hostname, domain.name) == Normal(q.fqdn)
    case Done(Ok(r)) => exists target :: AsksFor(c, q, target) && Gives(r, target)
    case Done(Err(_)) => true
  }

  predicate IsOf(host: Host, target: Target) {
    host.ipAddress == target.text && host.recordType == if target.v4 then "A" else "AAAA"
  }

  /** The record of an update that has written to DNS, or is done with good, is there. */
  ghost predicate IsPublished(q: Request, t: Tables, f: Flight) {
    match f
    case Written(_, _, host, _, target) => Publishes(t.records, Normal(q.fqdn), target, host.ttl)
    case Done(Ok(r)) =>
      r.code == "good" ==> exists target :: Gives(r, target) && Publishes(t.records, Normal(q.fqdn), target, r.host.ttl)
    case _ => true
  }

  /** The row of an update that is done with good is stored. */
  ghost predicate IsStored(q: Request, t: Tables, f: Flight) {
    f.Done? && f.result.Ok? && f.result.value.code == "good" ==>
      f.result.value.host.lastUpdate == q.now && exists h :: h in t.hosts && t.hosts[h] == f.result.value.host
  }

  lemma BeginKeeps(c: Config, t: Tables, q: Request)
    ensures KeepsAsked(c, q, Begin(c, t, q).f) && IsStored(q, Begin(c, t, q).t, Begin(c, t, q).f)
    ensures IsPublished(q, Begin(c, t, q).t, Begin(c, t, q).f)
  {
    if Split(q.fqdn, c.allowedDomains).Some? { SplitThenJoin(Normal(q.fqdn), Zones(c)); }
  }

  lemma FindKeeps(c: Config, t: Tables, q: Request, f: Flight, ok: bool)
    requires KeepsAsked(c, q, f) && (f.Asked? || f.Missing?)
    ensures var m := Next(c, t, f, ok); KeepsAsked(c, q, m.f) && IsPublished(q, m.t, m.f) && IsStored(q, m.t, m.f)
  {
  }

  lemma ChooseKeeps(c: Config, t: Tables, q: Request, f: Flight, ok: bool)
    requires KeepsAsked(c, q, f) && f.Placed?
    ensures var m := Next(c, t, f, ok); KeepsAsked(c, q, m.f) && IsPublished(q, m.t, m.f) && IsStored(q, m.t, m.f)
  {
  }

  lemma WriteKeeps(c: Config, t: Tables, q: Request, f: Flight, ok: bool)
    requires KeepsAsked(c, q, f) && f.Chosen?
    ensures var m := Next(c, t, f, ok); KeepsAsked(c, q, m.f) && IsPublished(q, m.t, m.f) && IsStored(q, m.t, m.f)
  {
    if q.dnsAccepts { UpsertPublishes(c, t.records, f.host.hostname, f.domain, f.target, f.host.ttl); }
  }

  lemma SaveKeeps(c: Config, t: Tables, q: Request, f: Flight, ok: bool)
    requires KeepsAsked(c, q, f) && f.Written?
    ensures var m := Next(c, t, f, ok);
            && KeepsAsked(c, q, m.f) && IsStored(q, m.t, m.f) && (IsPublished(q, t, f) ==> IsPublished(q, m.t, m.f))
  {
    if Saves(t, f.existing, f.host, ok) {
      var u := Next(c, t, f, ok).t;
      var h := if f.existing.Some? then f.existing.value else t.nextHost;
      assert h in u.hosts && u.hosts[h] == Stored(f.q, f.host, f.target);
      assert Gives(Next(c, t, f, ok).f.result.value, f.target);
    }
  }

  lemma SeeKeeps(c: Config, t: Tables, q: Request, f: Flight, ok: bool)
    requires KeepsAsked(c, q, f) && f.Unchanged?
    ensures var m := Next(c, t, f, ok); KeepsAsked(c, q, m.f) && IsPublished(q, m.t, m.f) && IsStored(q, m.t, m.f)
  {
    var target :| AsksFor(c, q, target) && IsOf(f.host, target);
    assert Gives(Next(c, t, f, ok).f.result.value, target);
  }

  lemma NextKeeps(c: Config, t: Tables, q: Request, f: Flight, ok: bool)
    requires KeepsAsked(c, q, f) && !f.Done?
    ensures var m := Next(c, t, f, ok);
            && KeepsAsked(c, q, m.f) && IsStored(q, m.t, m.f) && (IsPublished(q, t, f) ==> IsPublished(q, m.t, m.f))
  {
    match f
    case Asked(_, _, _) => FindKeeps(c, t, q, f, ok);
    case Missing(_, _, _) => FindKeeps(c, t, q, f, ok);
    case Placed(_, _, _, _, _) => ChooseKeeps(c, t, q, f, ok);
    case Unchanged(_, _, _) => SeeKeeps(c, t, q, f, ok);
    case Chosen(_, _, _, _, _) => WriteKeeps(c, t, q, f, ok);
    case Written(_, _, _, _, _) => SaveKeeps(c, t, q, f, ok);
  }

  /** Others leave the records of the name server alone. */
  ghost predicate LeaveRecords(turns: seq<Turn>) {
    forall i, t :: 0 <= i < |turns| ==> turns[i].others(t).records == t.records
  }

  lemma {:induction false} TakenKeeps(c: Config, t: Tables, q: Request, f: Flight, turns: seq<Turn>)
    requires KeepsAsked(c, q, f) && IsStored(q, t, f)
    ensures var m := Taken(c, t, f, turns);
            && KeepsAsked(c, q, m.f) && IsStored(q, m.t, m.f)
            && (LeaveRecords(turns) && IsPublished(q, t, f) ==> IsPublished(q, m.t, m.f))
    decreases |turns|
  {
    if !f.Done? && turns != [] {
      var u := turns[0].others(t);
      var m := Next(c, u, f, turns[0].ok);
      NextKeeps(c, u, q, f, turns[0].ok);
      TakenKeeps(c, m.t, q, m.f, turns[1..]);
      if LeaveRecords(turns) {
        assert u.records == t.records;
        assert forall i, v :: 0 <= i < |turns[1..]| ==> turns[1..][i].others(v).records == v.records by {
          forall i, v | 0 <= i < |turns[1..]| ensures turns[1..][i].others(v).records == v.records { assert turns[1..][i] == turns[i + 1]; }
        }
        if IsPublished(q, t, f) { assert IsPublished(q, u, f); }
      }
    }
  }

  /** Whatever others do and whatever fails: an update that succeeds answers the
      address that was asked for; after good its row is stored, and the record is at
      the name that was asked for unless others write to DNS meanwhile. */
  lemma TriedSucceeds(c: Config, t: Tables, q: Request, turns: seq<Turn>)
    ensures var o := Tried(c, t, q, turns);
            o.result.Ok? ==>
              var r := o.result.value;
              && (exists target :: AsksFor(c, q, target) && Gives(r, target))
              && (r.code == "good" ==> r.host.lastUpdate == q.now && exists h :: h in o.tables.hosts && o.tables.hosts[h] == r.host)
              && (r.code == "good" && LeaveRecords(turns) ==>
                    exists target :: Gives(r, target) && Publishes(o.tables.records, Normal(q.fqdn), target, r.host.ttl))
  {
    BeginKeeps(c, t, q);
    var m := Begin(c, t, q);
    TakenKeeps(c, m.t, q, m.f, turns);
  }

  /** A statement the database does not carry out ends the update with an error and
      writes nothing. */
  lemma FailedStatement(c: Config, t: Tables, f: Flight)
    requires f.Asked? || f.Missing? || f.Placed? || f.Written?
    ensures Next(c, t, f, false) == Move(t, Done(Err(StorageFailure)))
  {
  }

  // ----- who may create which name ------------------------------------------------------

  /** The label is the device's name, or begins with it and a hyphen; spaces around
      them and capitals do not matter. With the policy "any" every label will do. */
  ghost predicate Authorises(policy: string, deviceName: string, hostLabel: string) {
    || policy == "any" || ToLower(TrimSpace(hostLabel)) == ToLower(TrimSpace(deviceName))
    || exists rest :: ToLower(TrimSpace(hostLabel)) == ToLower(TrimSpace(deviceName)) + "-" + rest
  }

  lemma AuthorisesIff(policy: string, deviceName: string, hostLabel: string)
    ensures CanAutocreate(policy, deviceName, hostLabel) <==> Authorises(policy, deviceName, hostLabel)
  {
    var base, name := ToLower(TrimSpace(deviceName)), ToLower(TrimSpace(hostLabel));
    if HasPrefix(name, base + "-") { assert name == base + "-" + name[|base + "-"|..]; }
  }

  /** After every run each host belongs to a device that is authorised to its name. */
  lemma NamesAreAuthorised(c: Config, nameOf: nat -> string, start: Tables, steps: seq<Step>, h: nat)
    requires HostFree(c, start) && h in Run(c, start, steps).hosts
    requires forall s :: s in steps && s.UpdateStep? ==> nameOf(s.q.device.id) == s.q.device.name
    ensures var row := Run(c, start, steps).hosts[h]; Authorises(c.policy, nameOf(row.deviceId), row.hostname)
  {
    RunAuthorises(c, nameOf, start, steps);
    var row := Run(c, start, steps).hosts[h];
    AuthorisesIff(c.policy, nameOf(row.deviceId), row.hostname);
  }

  // ----- each answer for its own reason --------------------------------------------------

  /** h is the row of that label in the domain of that zone. */
  predicate IsAt(t: Tables, h: nat, m: Managed) {
    && h in t.hosts && t.hosts[h].hostname == m.hostLabel && t.hosts[h].domainId in t.domains
    && t.domains[t.hosts[h].domainId].name == m.zone
  }

  ghost predicate Others(t: Tables, m: Managed, device: nat) { exists h :: IsAt(t, h, m) && t.hosts[h].deviceId != device }

  ghost predicate Own(t: Tables, m: Managed, device: nat) { exists h :: IsAt(t, h, m) && t.hosts[h].deviceId == device }

  ghost predicate Unchanging(c: Config, t: Tables, q: Request, m: Managed) {
    exists h, target :: IsAt(t, h, m) && t.hosts[h].deviceId == q.device.id && AsksFor(c, q, target) && IsOf(t.hosts[h], target)
  }

  /** The device may write the name: it owns it, or nobody does and it may create it. */
  ghost predicate MayWrite(c: Config, t: Tables, q: Request, m: Managed) {
    Own(t, m, q.device.id) || (!Others(t, m, q.device.id) && Authorises(c.policy, q.device.name, m.hostLabel))
  }

  /** The answer to an update that names a managed name and an address. */
  ghost predicate AnswersAsDue(c: Config, t: Tables, q: Request, m: Managed, answer: Result<Updated, Error>) {
    && (answer == Err(BadAuth) <==> !MayWrite(c, t, q, m))
    && (answer.Ok? && answer.value.code == "nochg" <==> Unchanging(c, t, q, m))
    && (answer == Err(DnsFailure) <==> MayWrite(c, t, q, m) && !Unchanging(c, t, q, m) && !q.dnsAccepts)
    && (answer.Ok? && answer.value.code == "good" <==> MayWrite(c, t, q, m) && !Unchanging(c, t, q, m) && q.dnsAccepts)
    && (answer.Ok? ==> (answer.value.created <==> answer.value.code == "good" && !Own(t, m, q.device.id)))
  }

  lemma NobodyAnswers(c: Config, t: Tables, q: Request, m: Managed, u: Tables, d: nat, target: Target)
    requires (forall h :: !IsAt(t, h, m)) && d in u.domains && HostsAt(u, d, m.hostLabel) == {}
    ensures AnswersAsDue(c, t, q, m, UpdateIn(c, u, q, d, m.hostLabel, target).result)
  {
    AuthorisesIff(c.policy, q.device.name, m.hostLabel);
  }

  lemma OwnerAnswers(c: Config, t: Tables, q: Request, m: Managed, d: nat, h: nat, target: Target)
    requires d in t.domains && HostsAt(t, d, m.hostLabel) == {h} && IsAt(t, h, m) && (forall g :: IsAt(t, g, m) ==> g == h)
    requires AsksFor(c, q, target)
    ensures AnswersAsDue(c, t, q, m, UpdateIn(c, t, q, d, m.hostLabel, target).result)
  {
    FirstOfSingleton(HostsAt(t, d, m.hostLabel), h);
    var host := t.hosts[h];
    assert Own(t, m, q.device.id) <==> host.deviceId == q.device.id;
    assert Others(t, m, q.device.id) <==> host.deviceId != q.device.id;
    assert Unchanging(c, t, q, m) <==> host.deviceId == q.device.id && IsOf(host, target) by {
      if host.deviceId == q.device.id && IsOf(host, target) { assert IsAt(t, h, m) && AsksFor(c, q, target); }
    }
  }

  lemma AtIs(c: Config, t: Tables, m: Managed, d: nat, h: nat)
    requires Sound(c, t) && d in t.domains && t.domains[d].name == m.zone
    ensures IsAt(t, h, m) <==> h in HostsAt(t, d, m.hostLabel)
  {
  }

  lemma KnownZoneAnswers(c: Config, t: Tables, q: Request, m: Managed, d: nat, target: Target)
    requires Sound(c, t) && d in t.domains && t.domains[d].name == m.zone && AsksFor(c, q, target)
    ensures AnswersAsDue(c, t, q, m, UpdateIn(c, t, q, d, m.hostLabel, target).result)
  {
    forall h: nat ensures IsAt(t, h, m) <==> h in HostsAt(t, d, m.hostLabel) { AtIs(c, t, m, d, h); }
    if h :| h in HostsAt(t, d, m.hostLabel) {
      assert HostsAt(t, d, m.hostLabel) == {h};
      OwnerAnswers(c, t, q, m, d, h, target);
    } else {
      NobodyAnswers(c, t, q, m, t, d, target);
    }
  }

  lemma NewZoneAnswers(c: Config, t: Tables, q: Request, m: Managed, target: Target)
    requires Sound(c, t) && !DomainExists(t, m.zone)
    ensures AnswersAsDue(c, t, q, m, UpdateIn(c, PutDomain(t, NewDomain(c, m.zone)), q, t.nextDomain, m.hostLabel, target).result)
  {
    var u := PutDomain(t, NewDomain(c, m.zone));
    forall h | h in t.hosts ensures t.hosts[h].domainId != t.nextDomain { assert HostFits(c, t, t.hosts[h]); }
    assert HostsAt(u, t.nextDomain, m.hostLabel) == {};
    NobodyAnswers(c, t, q, m, u, t.nextDomain, target);
  }

  /** After every run: a name that is not managed, an address that cannot be read, a
      name the device may not write, a refusal by the name server; else nochg for the
      address the device's host has, and good for every other. */
  lemma UpdateAnswers(c: Config, start: Tables, steps: seq<Step>, q: Request)
    requires HostFree(c, start)
    ensures var t := Run(c, start, steps);
            var answer := Update(c, t, q).result;
            && (answer == Err(NotFqdn) <==> Split(q.fqdn, c.allowedDomains).None?)
            && (answer == Err(BadIp) <==> Split(q.fqdn, c.allowedDomains).Some? && AsksForNothing(c, q))
            && (Split(q.fqdn, c.allowedDomains).Some? && !AsksForNothing(c, q) ==>
                  AnswersAsDue(c, t, q, Split(q.fqdn, c.allowedDomains).value, answer))
  {
    var t := Run(c, start, steps);
    ReachableSound(c, start, steps);
    UpdateAnswersIn(c, t, q);
  }

  lemma UpdateAnswersIn(c: Config, t: Tables, q: Request)
    requires Sound(c, t)
    ensures var answer := Update(c, t, q).result;
            && (answer == Err(NotFqdn) <==> Split(q.fqdn, c.allowedDomains).None?)
            && (answer == Err(BadIp) <==> Split(q.fqdn, c.allowedDomains).Some? && AsksForNothing(c, q))
            && (Split(q.fqdn, c.allowedDomains).Some? && !AsksForNothing(c, q) ==>
                  AnswersAsDue(c, t, q, Split(q.fqdn, c.allowedDomains).value, answer))
  {
    if Split(q.fqdn, c.allowedDomains).Some? && c.parseIp(AskedIp(q)).Some? {
      var m, target := Split(q.fqdn, c.allowedDomains).value, c.parseIp(AskedIp(q)).value;
      AskedIs(c, q, target);
      UpdateLands(c, t, q);
      match First(EnabledNamed(t, m.zone))
      case Some(d) =>
        KnownZoneAnswers(c, t, q, m, d, target);
        OtherErrors(c, t, q, d, m.hostLabel, target);
      case None =>
        NoZone(t, m.zone);
        NewZoneAnswers(c, t, q, m, target);
        OtherErrors(c, PutDomain(t, NewDomain(c, m.zone)), q, t.nextDomain, m.hostLabel, target);
    }
  }

  lemma NoZone(t: Tables, zone: string)
    requires DomainsSound(t) && EnabledNamed(t, zone) == {}
    ensures !DomainExists(t, zone)
  {
    assert forall d :: d in t.domains && t.domains[d].name == zone ==> d in EnabledNamed(t, zone);
  }

  lemma OtherErrors(c: Config, t: Tables, q: Request, d: nat, hostLabel: string, target: Target)
    requires d in t.domains
    ensures UpdateIn(c, t, q, d, hostLabel, target).result !in {Err(NotFqdn), Err(BadIp)}
  {
  }

  /** A domain is created exactly if the name is well formed and the TTL in range, the
      name is one of the configured ones, whatever its capitals and with or without a
      final dot, and has no row; the row has the TTL asked for, or the default. */
  lemma CreateDomainAnswers(c: Config, t: Tables, name: string, ttl: int, wildcard: bool)
    requires t.nextDomain !in t.domains
    ensures var o := CreateDomain(c, t, name, ttl, wildcard);
            var zone := TrimSuffix(ToLower(name), ".");
            var legal := c.isFqdn(name) && (ttl == 0 || 20 <= ttl <= 86400);
            var listed := exists x :: x in c.allowedDomains && ToLower(x) == zone;
            var used := exists d :: d in t.domains && t.domains[d].name == zone;
            && (o.result == Err(BadRequest) <==> !legal) && (o.result == Err(NotFqdn) <==> legal && !listed)
            && (o.result == Err(StorageFailure) <==> legal && listed && used) && (o.result.Ok? <==> legal && listed && !used)
            && (o.result.Err? ==> o.tables == t)
            && (o.result.Ok? ==>
                  && o.result.value !in t.domains && o.result.value in o.tables.domains
                  && o.tables.domains[o.result.value] == Domain(zone, if ttl == 0 then c.defaultTtl else ttl, true, wildcard)
                  && o.tables.domains == t.domains[o.result.value := o.tables.domains[o.result.value]]
                  && o.tables.hosts == t.hosts && o.tables.records == t.records)
  {
    var zone := TrimSuffix(ToLower(name), ".");
    if x :| x in c.allowedDomains && ToLower(x) == zone {
      var i :| 0 <= i < |c.allowedDomains| && c.allowedDomains[i] == x;
    }
    if i :| 0 <= i < |c.allowedDomains| && ToLower(c.allowedDomains[i]) == zone { assert c.allowedDomains[i] in c.allowedDomains; }
  }

  // ----- time to live --------------------------------------------------------------------

  /** Every host has the TTL of its domain. */
  ghost predicate TtlsFit(t: Tables) {
    forall h :: h in t.hosts ==> t.hosts[h].domainId in t.domains && t.hosts[h].ttl == t.domains[t.hosts[h].domainId].defaultTtl
  }

  lemma UpdateInTtls(c: Config, t: Tables, q: Request, d: nat, hostLabel: string, target: Target)
    requires d in t.domains && TtlsFit(t)
    ensures TtlsFit(UpdateIn(c, t, q, d, hostLabel, target).tables)
  {
  }

  lemma PutDomainTtls(c: Config, t: Tables, domain: Domain)
    requires Sound(c, t) && TtlsFit(t)
    ensures TtlsFit(PutDomain(t, domain))
  {
  }

  lemma StepTtls(c: Config, t: Tables, s: Step)
    requires Sound(c, t) && TtlsFit(t)
    ensures TtlsFit(Apply(c, t, s))
  {
    match s
    case CreateDomainStep(name, ttl, wildcard) =>
      if CreateDomain(c, t, name, ttl, wildcard).result.Ok? {
        PutDomainTtls(c, t, CreateDomain(c, t, name, ttl, wildcard).tables.domains[t.nextDomain]);
      }
    case UpdateStep(q) =>
      if Split(q.fqdn, c.allowedDomains).Some? && c.parseIp(AskedIp(q)).Some? {
        var m, target := Split(q.fqdn, c.allowedDomains).value, c.parseIp(AskedIp(q)).value;
        match First(EnabledNamed(t, m.zone))
        case Some(d) => UpdateInTtls(c, t, q, d, m.hostLabel, target);
        case None =>
          PutDomainTtls(c, t, NewDomain(c, m.zone));
          UpdateInTtls(c, PutDomain(t, NewDomain(c, m.zone)), q, t.nextDomain, m.hostLabel, target);
      }
  }

  lemma {:induction false} TtlsStay(c: Config, t: Tables, steps: seq<Step>)
    requires Sound(c, t) && TtlsFit(t)
    ensures TtlsFit(Run(c, t, steps))
    decreases |steps|
  {
    if steps != [] {
      StepTtls(c, t, steps[0]);
      StepSound(c, t, steps[0]);
      TtlsStay(c, Apply(c, t, steps[0]), steps[1..]);
    }
  }

  /** After every run each host has its domain's TTL; and a domain that an update
      adds is the zone of its name, with the defaults. */
  lemma ReachableTtls(c: Config, start: Tables, steps: seq<Step>)
    requires HostFree(c, start)
    ensures TtlsFit(Run(c, start, steps))
  {
    TtlsStay(c, start, steps);
  }

  lemma UpdateAddsDomain(c: Config, t: Tables, q: Request, d: nat)
    requires d in Update(c, t, q).tables.domains && d !in t.domains
    ensures Split(q.fqdn, c.allowedDomains).Some?
    ensures Update(c, t, q).tables.domains[d] == Domain(Split(q.fqdn, c.allowedDomains).value.zone, c.defaultTtl, true, c.allowWildcard)
  {
    UpdateDomains(c, t, q);
  }

  // ----- the log -----------------------------------------------------------------------------

  function ErrorText(e: Error): string {
    match e
    case NotFqdn => "notfqdn"
    case BadIp => "badagent"
    case BadAuth => "badauth"
    case DnsFailure => "dnserr"
    case _ => ""
  }

  /** The log entry of an update tells who asked and what was answered, and about which row. */
  ghost predicate Logs(t: Tables, o: Outcome<Updated>, q: Request) {
    if o.result == Err(StorageFailure) then o.tables.log == t.log
    else
      && |o.tables.log| == |t.log| + 1 && o.tables.log[..|t.log|] == t.log
      && var entry := o.tables.log[|t.log|];
         && entry.deviceId == q.device.id
         && match o.result
            case Ok(r) =>
              && entry.response == r.code
              && entry.operation == (if r.code == "nochg" then "no_change" else if r.created then "create" else "update")
              && entry.hostId.Some? && entry.hostId.value in o.tables.hosts && o.tables.hosts[entry.hostId.value] == r.host
            case Err(e) =>
              entry.response == ErrorText(e) && entry.operation == if e == DnsFailure then "dns_update" else "reject"
  }

  lemma PublishLogs(c: Config, t: Tables, q: Request, existing: Option<nat>, host: Host, target: Target)
    requires host.domainId in t.domains
    ensures Logs(t, Publish(c, t, q, existing, host, target), q)
  {
  }

  lemma UpdateInLogs(c: Config, t: Tables, q: Request, d: nat, hostLabel: string, target: Target)
    requires d in t.domains
    ensures Logs(t, UpdateIn(c, t, q, d, hostLabel, target), q)
  {
    match First(HostsAt(t, d, hostLabel))
    case None =>
      if CanAutocreate(c.policy, q.device.name, hostLabel) { PublishLogs(c, t, q, None, FreshHost(t, q, d, hostLabel, target), target); }
    case Some(h) => PublishLogs(c, t, q, Some(h), t.hosts[h], target);
  }

  /** Every update is logged once, with the device that asked and the answer it got;
      only one that fails in the database is not. */
  lemma UpdateLogs(c: Config, t: Tables, q: Request)
    ensures Logs(t, Update(c, t, q), q)
  {
    if Split(q.fqdn, c.allowedDomains).Some? && c.parseIp(AskedIp(q)).Some? {
      var m, target := Split(q.fqdn, c.allowedDomains).value, c.parseIp(AskedIp(q)).value;
      match First(EnabledNamed(t, m.zone))
      case Some(d) => UpdateInLogs(c, t, q, d, m.hostLabel, target);
      case None => UpdateInLogs(c, PutDomain(t, NewDomain(c, m.zone)), q, t.nextDomain, m.hostLabel, target);
    }
  }
}
