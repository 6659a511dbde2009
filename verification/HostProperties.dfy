// What holds of updates in every reachable state.
module HostProperties {
  import opened Wrappers
  import opened ManagedNames
  import opened DnsZone
  import opened HostTables
  import opened HostSoundness
  import opened HostAgreement

  // ----- nochg ------------------------------------------------------------------

  /** Where an update of a sound table lands. */
  lemma UpdateLands(c: Config, t: Tables, q: Request)
    requires DomainsSound(t)
    ensures Update(c, t, q).result != Err(StorageFailure)
    ensures Update(c, t, q).result.Ok? ==>
              && Split(q.fqdn, c.allowedDomains).Some? && c.parseIp(AskedIp(q)).Some?
              && var m, target := Split(q.fqdn, c.allowedDomains).value, c.parseIp(AskedIp(q)).value;
                 match First(EnabledNamed(t, m.zone))
                 case Some(d) => Update(c, t, q) == UpdateIn(c, t, q, d, m.hostLabel, target)
                 case None => Update(c, t, q) == UpdateIn(c, PutDomain(t, NewDomain(c, m.zone)), q, t.nextDomain, m.hostLabel, target)
  {
    if Split(q.fqdn, c.allowedDomains).Some? {
      var zone := Split(q.fqdn, c.allowedDomains).value.zone;
      assert forall d :: d in t.domains && t.domains[d].name == zone ==> d in EnabledNamed(t, zone);
    }
  }

  /** No reachable update fails for a domain row it cannot insert. */
  lemma ReachableStorageNeverFails(c: Config, start: Tables, steps: seq<Step>, q: Request)
    requires HostFree(c, start)
    ensures Update(c, Run(c, start, steps), q).result != Err(StorageFailure)
  {
    ReachableSound(c, start, steps);
    UpdateLands(c, Run(c, start, steps), q);
  }

  predicate AnsweredNoChange(o: Outcome<Updated>) { o.result.Ok? && o.result.value.code == "nochg" }

  /** The record an answered update would have written is the one that is there. */
  ghost predicate Idle(c: Config, t: Tables, q: Request, u: Tables, host: Host) {
    && u.records == t.records && c.parseIp(AskedIp(q)).Some? && host.domainId in u.domains
    && Upsert(c, t.records, host.hostname, u.domains[host.domainId], c.parseIp(AskedIp(q)).value, host.ttl) == t.records
  }

  lemma NoChangeIn(c: Config, t: Tables, q: Request, d: nat, hostLabel: string, target: Target)
    requires d in t.domains && InAgreement(t) && c.parseIp(AskedIp(q)) == Some(target)
    requires AnsweredNoChange(UpdateIn(c, t, q, d, hostLabel, target))
    ensures var o := UpdateIn(c, t, q, d, hostLabel, target); Idle(c, t, q, o.tables, o.result.value.host)
  {
    var h := First(HostsAt(t, d, hostLabel)).value;
    var host := t.hosts[h];
    assert Served(t, host);
    UpsertIsIdle(c, t.records, host.hostname, t.domains[d], target, host.ttl);
  }

  lemma NoChangeIsIdle(c: Config, t: Tables, q: Request)
    requires Sound(c, t) && InAgreement(t)
    ensures AnsweredNoChange(Update(c, t, q)) ==> Idle(c, t, q, Update(c, t, q).tables, Update(c, t, q).result.value.host)
  {
    UpdateLands(c, t, q);
    if AnsweredNoChange(Update(c, t, q)) {
      var m, target := Split(q.fqdn, c.allowedDomains).value, c.parseIp(AskedIp(q)).value;
      if First(EnabledNamed(t, m.zone)).Some? {
        NoChangeIn(c, t, q, First(EnabledNamed(t, m.zone)).value, m.hostLabel, target);
      } else {
        PutDomainAgrees(c, t, NewDomain(c, m.zone));
        NoChangeIn(c, PutDomain(t, NewDomain(c, m.zone)), q, t.nextDomain, m.hostLabel, target);
      }
    }
  }

  /** Answering nochg leaves the records exactly as performing the upsert would. */
  lemma NoChangeIsExact(c: Config, start: Tables, steps: seq<Step>, q: Request)
    requires HostFree(c, start) && NoneMeet(c, start)
    ensures var t := Run(c, start, steps);
            AnsweredNoChange(Update(c, t, q)) ==> Idle(c, t, q, Update(c, t, q).tables, Update(c, t, q).result.value.host)
  {
    ReachableSound(c, start, steps);
    ReachableAgrees(c, start, steps);
    NoChangeIsIdle(c, Run(c, start, steps), q);
  }

  // ----- repeating an update ---------------------------------------------------------

  predicate SameQuestion(q: Request, again: Request) {
    q.device == again.device && q.fqdn == again.fqdn && AskedIp(q) == AskedIp(again)
  }

  lemma Stores(c: Config, t: Tables, q: Request, d: nat, hostLabel: string, target: Target) returns (h: nat)
    requires d in t.domains && UpdateIn(c, t, q, d, hostLabel, target).result.Ok?
    requires forall h, g :: h in HostsAt(t, d, hostLabel) && g in HostsAt(t, d, hostLabel) ==> h == g
    ensures var u := UpdateIn(c, t, q, d, hostLabel, target).tables;
            && u.domains == t.domains && HostsAt(u, d, hostLabel) == {h} && u.hosts[h].deviceId == q.device.id
            && u.hosts[h].ipAddress == target.text && u.hosts[h].recordType == RecordType(target)
            && UpdateIn(c, t, q, d, hostLabel, target).result.value.ip == target.text
  {
    var u := UpdateIn(c, t, q, d, hostLabel, target).tables;
    var was := HostsAt(t, d, hostLabel);
    h := if was == {} then t.nextHost else First(was).value;
    assert forall g :: g in HostsAt(u, d, hostLabel) ==> g == h || g in was;
  }

  lemma NoChangeAt(c: Config, u: Tables, again: Request, d: nat, hostLabel: string, target: Target, h: nat)
    requires d in u.domains && HostsAt(u, d, hostLabel) == {h} && u.hosts[h].deviceId == again.device.id
    requires u.hosts[h].ipAddress == target.text && u.hosts[h].recordType == RecordType(target)
    ensures var o := UpdateIn(c, u, again, d, hostLabel, target);
            && o.result.Ok? && o.result.value.code == "nochg" && o.result.value.ip == target.text
            && o.tables.records == u.records
  {
  }

  /** Asking again after a success is answered nochg with the same address,
      whether or not the name server would take a script. */
  lemma RepeatIsNoChange(c: Config, t: Tables, q: Request, again: Request)
    requires Sound(c, t) && SameQuestion(q, again)
    ensures Update(c, t, q).result.Ok? ==>
              var o := Update(c, Update(c, t, q).tables, again);
              && o.result.Ok? && o.result.value.code == "nochg" && o.result.value.ip == Update(c, t, q).result.value.ip
              && o.tables.records == Update(c, t, q).tables.records
  {
    UpdateLands(c, t, q);
    if Update(c, t, q).result.Ok? {
      var m, target := Split(q.fqdn, c.allowedDomains).value, c.parseIp(AskedIp(q)).value;
      match First(EnabledNamed(t, m.zone))
      case Some(d) => RepeatFrom(c, t, q, d, m, target, again);
      case None =>
        PutDomainSound(c, t, NewDomain(c, m.zone));
        RepeatFrom(c, PutDomain(t, NewDomain(c, m.zone)), q, t.nextDomain, m, target, again);
    }
  }

  lemma RepeatFrom(c: Config, t: Tables, q: Request, d: nat, m: Managed, target: Target, again: Request)
    requires Sound(c, t) && d in t.domains && t.domains[d].name == m.zone
    requires UpdateIn(c, t, q, d, m.hostLabel, target).result.Ok? && SameQuestion(q, again)
    requires Split(q.fqdn, c.allowedDomains) == Some(m) && c.parseIp(AskedIp(q)) == Some(target)
    ensures var u := UpdateIn(c, t, q, d, m.hostLabel, target).tables;
            var o := Update(c, u, again);
            && o.result.Ok? && o.result.value.code == "nochg" && o.result.value.ip == target.text
            && o.tables.records == u.records
            && UpdateIn(c, t, q, d, m.hostLabel, target).result.value.ip == target.text
  {
    var h := Stores(c, t, q, d, m.hostLabel, target);
    var u := UpdateIn(c, t, q, d, m.hostLabel, target).tables;
    assert EnabledNamed(u, m.zone) == {d};
    FirstOfSingleton(EnabledNamed(u, m.zone), d);
    NoChangeAt(c, u, again, d, m.hostLabel, target, h);
  }

  // ----- what an update leaves alone ---------------------------------------------------

  /** Rows are never removed, and keep their owner, name and TTL. */
  ghost predicate Grows(t: Tables, u: Tables) {
    && (forall d :: d in t.domains ==> d in u.domains && u.domains[d] == t.domains[d])
    && (forall h :: h in t.hosts ==>
          h in u.hosts && u.hosts[h].domainId == t.hosts[h].domainId && u.hosts[h].hostname == t.hosts[h].hostname
          && u.hosts[h].deviceId == t.hosts[h].deviceId && u.hosts[h].ttl == t.hosts[h].ttl)
  }

  /** The records differ at most at address records of one host of device. */
  ghost predicate OneHostsRecords(t: Tables, u: Tables, device: nat) {
    exists h ::
      && h in u.hosts && u.hosts[h].deviceId == device && u.hosts[h].domainId in u.domains
      && SameElsewhere(t.records, u.records, HostNames(u, u.hosts[h]))
  }

  /** Everything an update may write: rows of the asking device and the address
      records at the names of one of them; after a failure, not even that. */
  ghost predicate OnlyOwn(t: Tables, u: Tables, device: nat, failed: bool) {
    && (forall h :: h in u.hosts && (failed || u.hosts[h].deviceId != device) ==> h in t.hosts && u.hosts[h] == t.hosts[h])
    && (u.records == t.records || (!failed && OneHostsRecords(t, u, device)))
  }

  ghost predicate IdsFresh(t: Tables) {
    t.nextDomain !in t.domains && t.nextHost !in t.hosts
  }

  lemma PublishGrows(c: Config, t: Tables, q: Request, existing: Option<nat>, host: Host, target: Target)
    requires host.domainId in t.domains
    requires match existing
             case None => t.nextHost !in t.hosts
             case Some(h) => h in t.hosts && t.hosts[h] == host
    ensures Grows(t, Publish(c, t, q, existing, host, target).tables)
  {
  }

  lemma PublishOwn(c: Config, t: Tables, q: Request, existing: Option<nat>, host: Host, target: Target)
    requires host.domainId in t.domains && host.deviceId == q.device.id
    ensures var o := Publish(c, t, q, existing, host, target);
            OnlyOwn(t, o.tables, q.device.id, o.result.Err?)
  {
    var u := Publish(c, t, q, existing, host, target).tables;
    if q.dnsAccepts {
      var h := if existing.Some? then existing.value else t.nextHost;
      UpsertServes(c, t.records, host.hostname, t.domains[host.domainId], target, host.ttl);
      assert SameElsewhere(t.records, u.records, HostNames(u, u.hosts[h]));
    }
  }

  lemma UpdateInGrows(c: Config, t: Tables, q: Request, d: nat, hostLabel: string, target: Target)
    requires d in t.domains && t.nextHost !in t.hosts
    ensures Grows(t, UpdateIn(c, t, q, d, hostLabel, target).tables)
  {
    match First(HostsAt(t, d, hostLabel))
    case None =>
      PublishGrows(c, t, q, None, Host(d, q.device.id, hostLabel, "", RecordType(target), t.domains[d].defaultTtl, 0), target);
    case Some(h) => PublishGrows(c, t, q, Some(h), t.hosts[h], target);
  }

  lemma UpdateInOwn(c: Config, t: Tables, q: Request, d: nat, hostLabel: string, target: Target)
    requires d in t.domains
    ensures var o := UpdateIn(c, t, q, d, hostLabel, target);
            OnlyOwn(t, o.tables, q.device.id, o.result.Err?)
  {
    match First(HostsAt(t, d, hostLabel))
    case None =>
      PublishOwn(c, t, q, None, Host(d, q.device.id, hostLabel, "", RecordType(target), t.domains[d].defaultTtl, 0), target);
    case Some(h) =>
      if t.hosts[h].deviceId == q.device.id { PublishOwn(c, t, q, Some(h), t.hosts[h], target); }
  }

  lemma UpdateGrows(c: Config, t: Tables, q: Request)
    requires IdsFresh(t)
    ensures Grows(t, Update(c, t, q).tables)
  {
    if Split(q.fqdn, c.allowedDomains).Some? && c.parseIp(AskedIp(q)).Some? {
      var m, target := Split(q.fqdn, c.allowedDomains).value, c.parseIp(AskedIp(q)).value;
      match First(EnabledNamed(t, m.zone))
      case Some(d) => UpdateInGrows(c, t, q, d, m.hostLabel, target);
      case None =>
        var u := PutDomain(t, NewDomain(c, m.zone));
        UpdateInGrows(c, u, q, t.nextDomain, m.hostLabel, target);
        PutDomainGrows(t, u, UpdateIn(c, u, q, t.nextDomain, m.hostLabel, target).tables);
    }
  }

  lemma UpdateOwn(c: Config, t: Tables, q: Request)
    ensures var o := Update(c, t, q);
            OnlyOwn(t, o.tables, q.device.id, o.result.Err?)
  {
    if Split(q.fqdn, c.allowedDomains).Some? && c.parseIp(AskedIp(q)).Some? {
      var m, target := Split(q.fqdn, c.allowedDomains).value, c.parseIp(AskedIp(q)).value;
      match First(EnabledNamed(t, m.zone))
      case Some(d) => UpdateInOwn(c, t, q, d, m.hostLabel, target);
      case None =>
        var u := PutDomain(t, NewDomain(c, m.zone));
        var o := UpdateIn(c, u, q, t.nextDomain, m.hostLabel, target);
        UpdateInOwn(c, u, q, t.nextDomain, m.hostLabel, target);
        SameRowsOwn(t, u, o.tables, q.device.id, o.result.Err?);
    }
  }

  lemma SameRowsOwn(t: Tables, u: Tables, v: Tables, device: nat, failed: bool)
    requires u.hosts == t.hosts && u.records == t.records && OnlyOwn(u, v, device, failed)
    ensures OnlyOwn(t, v, device, failed)
  {
    if v.records != t.records {
      var h :|
        && h in v.hosts && v.hosts[h].deviceId == device && v.hosts[h].domainId in v.domains
        && SameElsewhere(u.records, v.records, HostNames(v, v.hosts[h]));
      assert SameElsewhere(t.records, v.records, HostNames(v, v.hosts[h]));
    }
  }

  lemma PutDomainGrows(t: Tables, u: Tables, v: Tables)
    requires u == t.(domains := u.domains, nextDomain := u.nextDomain) && Grows(u, v)
    requires forall d :: d in t.domains ==> d in u.domains && u.domains[d] == t.domains[d]
    ensures Grows(t, v)
  {
  }

  /** Another device's update leaves a host's row and every record at its names
      as they are. */
  lemma OthersAreSafe(c: Config, start: Tables, steps: seq<Step>, q: Request, h: nat)
    requires HostFree(c, start) && NoneMeet(c, start)
    requires var t := Run(c, start, steps); h in t.hosts && t.hosts[h].deviceId != q.device.id
    ensures var t := Run(c, start, steps);
            var u := Update(c, t, q).tables;
            && h in u.hosts && u.hosts[h] == t.hosts[h] && t.hosts[h].domainId in t.domains
            && forall k: Key :: k.name in HostNames(t, t.hosts[h]) ==>
                 ((k in u.records <==> k in t.records) && (k in t.records ==> u.records[k] == t.records[k]))
  {
    var t := Run(c, start, steps);
    ReachableSound(c, start, steps);
    ReachableAgrees(c, start, steps);
    SoundIsFresh(c, t);
    UpdateMeets(c, t, q);
    UpdateGrows(c, t, q);
    UpdateOwn(c, t, q);
    UpdateSound(c, t, q);
    var u := Update(c, t, q).tables;
    assert HostFits(c, t, t.hosts[h]) && HostFits(c, u, u.hosts[h]);
    if u.records != t.records {
      var g :|
        && g in u.hosts && u.hosts[g].deviceId == q.device.id && u.hosts[g].domainId in u.domains
        && SameElsewhere(t.records, u.records, HostNames(u, u.hosts[g]));
      assert HostFits(c, u, u.hosts[g]) && g != h;
      HostsKeepApart(c, u, u.hosts[h], u.hosts[g]);
      assert HostNames(u, u.hosts[h]) == HostNames(t, t.hosts[h]);
    }
  }

  // ----- records nobody manages ----------------------------------------------------------

  /** k is an address record at a name of some host. */
  ghost predicate IsManaged(t: Tables, k: Key) {
    k.rtype in ADDRESS_TYPES
    && exists h :: h in t.hosts && t.hosts[h].domainId in t.domains && k.name in HostNames(t, t.hosts[h])
  }

  lemma SoundIsFresh(c: Config, t: Tables)
    requires Sound(c, t)
    ensures IdsFresh(t)
  {
  }

  lemma StepGrows(c: Config, t: Tables, s: Step)
    requires IdsFresh(t)
    ensures Grows(t, Apply(c, t, s))
  {
    if s.UpdateStep? { UpdateGrows(c, t, s.q); }
  }

  lemma StepRecords(c: Config, t: Tables, s: Step)
    ensures Apply(c, t, s).records == t.records || (s.UpdateStep? && OneHostsRecords(t, Apply(c, t, s), s.q.device.id))
  {
    if s.UpdateStep? { UpdateOwn(c, t, s.q); }
  }

  lemma StepTouches(c: Config, t: Tables, s: Step, k: Key)
    requires Sound(c, t)
    ensures IsManaged(t, k) ==> IsManaged(Apply(c, t, s), k)
    ensures !IsManaged(Apply(c, t, s), k) ==>
              (k in Apply(c, t, s).records <==> k in t.records)
              && (k in t.records ==> Apply(c, t, s).records[k] == t.records[k])
  {
    var u := Apply(c, t, s);
    SoundIsFresh(c, t);
    StepGrows(c, t, s);
    StepRecords(c, t, s);
    if IsManaged(t, k) {
      var h :| h in t.hosts && t.hosts[h].domainId in t.domains && k.name in HostNames(t, t.hosts[h]);
      assert HostNames(u, u.hosts[h]) == HostNames(t, t.hosts[h]);
    }
  }

  /** Every record outside the hosts' address records is, after any run, what it
      was before the service started. */
  lemma {:induction false} UnmanagedFrom(c: Config, t: Tables, steps: seq<Step>, k: Key)
    requires Sound(c, t) && !IsManaged(Run(c, t, steps), k)
    ensures !IsManaged(t, k)
    ensures k in Run(c, t, steps).records <==> k in t.records
    ensures k in t.records ==> Run(c, t, steps).records[k] == t.records[k]
    decreases |steps|
  {
    if steps != [] {
      StepSound(c, t, steps[0]);
      UnmanagedFrom(c, Apply(c, t, steps[0]), steps[1..], k);
      StepTouches(c, t, steps[0], k);
    }
  }

  lemma UnmanagedRecordsStay(c: Config, start: Tables, steps: seq<Step>, k: Key)
    requires HostFree(c, start) && !IsManaged(Run(c, start, steps), k)
    ensures k in Run(c, start, steps).records <==> k in start.records
    ensures k in start.records ==> Run(c, start, steps).records[k] == start.records[k]
  {
    UnmanagedFrom(c, start, steps, k);
  }

  // ----- who may own a name --------------------------------------------------------------------

  /** Every host carries a name its device was allowed to create. */
  ghost predicate Authorised(policy: string, nameOf: nat -> string, t: Tables) {
    forall h :: h in t.hosts ==> CanAutocreate(policy, nameOf(t.hosts[h].deviceId), t.hosts[h].hostname)
  }

  lemma NewHostIn(c: Config, t: Tables, q: Request, d: nat, hostLabel: string, target: Target, h: nat)
    requires d in t.domains
    ensures var u := UpdateIn(c, t, q, d, hostLabel, target).tables;
            h in u.hosts && h !in t.hosts ==>
              u.hosts[h].deviceId == q.device.id && CanAutocreate(c.policy, q.device.name, u.hosts[h].hostname)
  {
  }

  /** A new row belongs to the asking device and has a name it may create. */
  lemma NewHost(c: Config, t: Tables, s: Step, h: nat)
    ensures h in Apply(c, t, s).hosts && h !in t.hosts ==>
              && s.UpdateStep?
              && var row := Apply(c, t, s).hosts[h];
                 row.deviceId == s.q.device.id && CanAutocreate(c.policy, s.q.device.name, row.hostname)
  {
    if s.UpdateStep? && Split(s.q.fqdn, c.allowedDomains).Some? && c.parseIp(AskedIp(s.q)).Some? {
      var q := s.q;
      var m := Split(q.fqdn, c.allowedDomains).value;
      var target := c.parseIp(AskedIp(q)).value;
      match First(EnabledNamed(t, m.zone))
      case Some(d) => NewHostIn(c, t, q, d, m.hostLabel, target, h);
      case None => NewHostIn(c, PutDomain(t, NewDomain(c, m.zone)), q, t.nextDomain, m.hostLabel, target, h);
    }
  }

  lemma StepAuthorises(c: Config, nameOf: nat -> string, t: Tables, s: Step)
    requires Authorised(c.policy, nameOf, t) && IdsFresh(t)
    requires s.UpdateStep? ==> nameOf(s.q.device.id) == s.q.device.name
    ensures Authorised(c.policy, nameOf, Apply(c, t, s))
  {
    var u := Apply(c, t, s);
    StepGrows(c, t, s);
    forall h | h in u.hosts ensures CanAutocreate(c.policy, nameOf(u.hosts[h].deviceId), u.hosts[h].hostname) {
      if h !in t.hosts { NewHost(c, t, s, h); }
    }
  }

  lemma {:induction false} AuthorisedFrom(c: Config, nameOf: nat -> string, t: Tables, steps: seq<Step>)
    requires Sound(c, t) && Authorised(c.policy, nameOf, t)
    requires forall s :: s in steps && s.UpdateStep? ==> nameOf(s.q.device.id) == s.q.device.name
    ensures Authorised(c.policy, nameOf, Run(c, t, steps))
    decreases |steps|
  {
    if steps != [] {
      assert steps[0] in steps;
      SoundIsFresh(c, t);
      StepAuthorises(c, nameOf, t, steps[0]);
      StepSound(c, t, steps[0]);
      AuthorisedFrom(c, nameOf, Apply(c, t, steps[0]), steps[1..]);
    }
  }

  /** In every state each host has a name that its device was allowed to create. */
  lemma RunAuthorises(c: Config, nameOf: nat -> string, start: Tables, steps: seq<Step>)
    requires HostFree(c, start)
    requires forall s :: s in steps && s.UpdateStep? ==> nameOf(s.q.device.id) == s.q.device.name
    ensures Authorised(c.policy, nameOf, Run(c, start, steps))
  {
    AuthorisedFrom(c, nameOf, start, steps);
  }
}
