// Update of ddns/service.go, createDomain of api/server.go and EnsureDomains of
// database/database.go as the source writes them: statement by statement over
// the domain, host and log tables, with a call to the name server in the middle
// and others at work in between.
module HostService {
  import opened Wrappers
  import opened Text
  import opened ManagedNames
  import opened DnsZone
  import opened HostTables
  import opened HostStatements

  class NameServer {
    var records: Records

    constructor (initial: Records)
      ensures records == initial
    {
      records := initial;
    }

    /** nsupdate: the script is taken as a whole or not at all. */
    method Upsert(server: string, hostLabel: string, zone: string, rtype: string, target: string, ttl: int,
                  wildcard: bool, accepts: bool)
      returns (ok: bool)
      modifies this
      ensures ok == accepts
      ensures records == if ok then Execute(old(records), UpsertScript(server, hostLabel, zone, rtype, Record(ttl, target), wildcard))
                         else old(records)
    {
      var script := BuildUpsertScript(server, hostLabel, zone, rtype, target, ttl, wildcard);
      if !accepts { return false; }
      records := Execute(records, script);
      return true;
    }
  }

  class Service {
    const config: Config
    const nameServer: NameServer
    var domains: map<nat, Domain>
    var hosts: map<nat, Host>
    var nextDomain: nat
    var nextHost: nat
    var log: seq<Entry>

    ghost function State(): Tables
      reads this, nameServer
    {
      Tables(domains, hosts, nextDomain, nextHost, nameServer.records, log)
    }

    constructor (config: Config, nameServer: NameServer)
      ensures this.config == config && this.nameServer == nameServer
      ensures State() == Empty(nameServer.records)
    {
      this.config, this.nameServer := config, nameServer;
      domains, hosts, log := map[], map[], [];
      nextDomain, nextHost := 1, 1;
    }

    method WriteLog(q: Request, hostId: Option<nat>, operation: string, response: string)
      modifies this`log
      ensures log == old(log) + [Entry(q.device.id, hostId, operation, response)]
    {
      log := log + [Entry(q.device.id, hostId, operation, response)];
    }

    /** The statements of Update, each with its turn. */
    method Update(q: Request, turns: seq<Turn>) returns (result: Result<Updated, Error>)
      requires |turns| >= 5
      modifies this, nameServer
      ensures var m := Begin(config, old(State()), q);
              Move(State(), Done(result)) == Taken(config, m.t, m.f, turns)
    {
      var managed := SplitManagedFqdn(q.fqdn, config.allowedDomains);
      if managed.None? {
        WriteLog(q, None, "reject", "notfqdn");
        return Err(NotFqdn);
      }
      var ip := TrimSpace(q.requestedIp);
      if ip == "" { ip := q.callerIp; }
      var parsed := config.parseIp(ip);
      if parsed.None? {
        WriteLog(q, None, "reject", "badagent");
        return Err(BadIp);
      }
      var d, domain, used := FindOrCreateDomain(q, managed.value, parsed.value, turns);
      if d.None? { return Err(StorageFailure); }
      result := UpdateIn(q, d.value, domain, managed.value.hostLabel, parsed.value, turns[used..]);
    }

    method FindOrCreateDomain(ghost q: Request, m: Managed, ghost target: Target, turns: seq<Turn>)
      returns (d: Option<nat>, domain: Domain, used: nat)
      requires |turns| >= 2
      modifies this, nameServer
      ensures used <= 2
      ensures d.None? ==> Move(State(), Done(Err(StorageFailure))) == Taken(config, old(State()), Asked(q, m, target), turns)
      ensures d.Some? ==>
                Taken(config, State(), Placed(q, d.value, domain, m.hostLabel, target), turns[used..])
                == Taken(config, old(State()), Asked(q, m, target), turns)
    {
      d, domain, used := None, NewDomain(config, m.zone), 1;
      TakenNext(config, State(), Asked(q, m, target), turns);
      Interleave(turns[0].others);
      if !turns[0].ok { return; }
      var enabled := set e | e in domains && domains[e].name == m.zone && domains[e].enabled;
      assert enabled == EnabledNamed(State(), m.zone);
      d := First(enabled);
      if d.Some? {
        domain := domains[d.value];
        return;
      }
      used := 2;
      TakenNext(config, State(), Missing(q, m, target), turns[1..]);
      Interleave(turns[1].others);
      if !turns[1].ok || exists e :: e in domains && domains[e].name == m.zone { return; }
      d := Some(nextDomain);
      domains := domains[nextDomain := domain];
      nextDomain := nextDomain + 1;
    }

    /** The rest of Update, once the domain row is at hand. */
    method UpdateIn(q: Request, d: nat, domain: Domain, hostLabel: string, target: Target, turns: seq<Turn>)
      returns (result: Result<Updated, Error>)
      requires |turns| >= 3
      modifies this, nameServer
      ensures Move(State(), Done(result)) == Taken(config, old(State()), Placed(q, d, domain, hostLabel, target), turns)
    {
      var recordType := if target.v4 then "A" else "AAAA";
      TakenNext(config, State(), Placed(q, d, domain, hostLabel, target), turns);
      Interleave(turns[0].others);
      if !turns[0].ok { return Err(StorageFailure); }
      var found := set h | h in hosts && hosts[h].domainId == d && hosts[h].hostname == hostLabel;
      assert found == HostsAt(State(), d, hostLabel);
      var existing := First(found);
      var host: Host;
      var created := existing.None?;
      if created {
        if !CanAutocreate(config.policy, q.device.name, hostLabel) {
          WriteLog(q, None, "reject", "badauth");
          return Err(BadAuth);
        }
        host := Host(d, q.device.id, hostLabel, "", recordType, domain.defaultTtl, 0);
      } else {
        host := hosts[existing.value];
        if host.deviceId != q.device.id {
          WriteLog(q, existing, "reject", "badauth");
          return Err(BadAuth);
        }
      }
      if !created && host.ipAddress == target.text && host.recordType == recordType {
        TakenNext(config, State(), Unchanged(q, existing.value, host), turns[1..]);
        Interleave(turns[1].others);
        host := host.(lastUpdate := q.now);
        if turns[1].ok && existing.value in hosts { hosts := hosts[existing.value := hosts[existing.value].(lastUpdate := q.now)]; }
        WriteLog(q, existing, "no_change", "nochg");
        return Ok(Updated("nochg", target.text, false, false, host));
      }
      result := Publish(q, existing, host, domain, target, turns[1..]);
    }

    /** The end of Update: the name server first, then the host row. */
    method Publish(q: Request, existing: Option<nat>, row: Host, domain: Domain, target: Target, turns: seq<Turn>)
      returns (result: Result<Updated, Error>)
      requires |turns| >= 2
      modifies this, nameServer
      ensures Move(State(), Done(result)) == Taken(config, old(State()), Chosen(q, existing, row, domain, target), turns)
    {
      var recordType := if target.v4 then "A" else "AAAA";
      TakenNext(config, State(), Chosen(q, existing, row, domain, target), turns);
      Interleave(turns[0].others);
      var accepted := nameServer.Upsert(config.server, row.hostname, domain.name, recordType, target.text, row.ttl,
                                        domain.wildcard, q.dnsAccepts);
      if !accepted {
        WriteLog(q, existing, "dns_update", "dnserr");
        return Err(DnsFailure);
      }
      TakenNext(config, State(), Written(q, existing, row, domain, target), turns[1..]);
      Interleave(turns[1].others);
      result := SaveRow(q, existing, row, domain, target, turns[1].ok);
    }

    /** Insert or update; ok is whether the database carries it out. */
    method SaveRow(q: Request, existing: Option<nat>, row: Host, ghost domain: Domain, target: Target, ok: bool)
      returns (result: Result<Updated, Error>)
      modifies this
      ensures Move(State(), Done(result)) == Next(config, old(State()), Written(q, existing, row, domain, target), ok)
    {
      var created := existing.None?;
      var host := row.(ipAddress := target.text, recordType := if target.v4 then "A" else "AAAA", lastUpdate := q.now);
      if created {
        var same := set h | h in hosts && hosts[h].domainId == row.domainId && hosts[h].hostname == row.hostname;
        assert same == HostsAt(State(), row.domainId, row.hostname);
        if !ok || same != {} { return Err(StorageFailure); }
        hosts := hosts[nextHost := host];
        WriteLog(q, Some(nextHost), "create", "good");
        nextHost := nextHost + 1;
      } else {
        if !ok { return Err(StorageFailure); }
        hosts := hosts[existing.value := host];
        WriteLog(q, existing, "update", "good");
      }
      return Ok(Updated("good", target.text, true, created, host));
    }

    /** What others do to the tables between two statements. */
    method Interleave(others: Tables -> Tables)
      modifies this, nameServer
      ensures State() == others(old(State()))
    {
      var after := others(Tables(domains, hosts, nextDomain, nextHost, nameServer.records, log));
      domains, hosts, nextDomain, nextHost, log := after.domains, after.hosts, after.nextDomain, after.nextHost, after.log;
      nameServer.records := after.records;
    }

    /** EnsureDomains of database/database.go, at start-up. */
    method EnsureDomains()
      modifies this`domains, this`nextDomain
      ensures State() == Seeded(config, old(State()))
    {
      var names := config.allowedDomains;
      for i := 0 to |names|
        invariant hosts == old(hosts) && nextHost == old(nextHost) && log == old(log)
        invariant Seed(config, State(), names[i..]) == Seeded(config, old(State()))
      {
        assert names[i..][0] == names[i] && names[i..][1..] == names[i + 1..];
        if !exists d :: d in domains && domains[d].name == names[i] {
          domains := domains[nextDomain := Domain(names[i], config.defaultTtl, true, config.allowWildcard)];
          nextDomain := nextDomain + 1;
        }
      }
    }

    method CreateDomain(name: string, ttl: int, wildcard: bool) returns (result: Result<nat, Error>)
      modifies this`domains, this`nextDomain
      ensures Outcome(State(), result) == HostTables.CreateDomain(config, old(State()), name, ttl, wildcard)
    {
      if !config.isFqdn(name) || (ttl != 0 && !(MIN_TTL <= ttl <= MAX_TTL)) { return Err(BadRequest); }
      var zone := TrimSuffix(ToLower(name), ".");
      var listed := false;
      for i := 0 to |config.allowedDomains|
        invariant listed <==> exists k :: 0 <= k < i && ToLower(config.allowedDomains[k]) == zone
      {
        if ToLower(config.allowedDomains[i]) == zone { listed := true; }
      }
      if !listed { return Err(NotFqdn); }
      if exists d :: d in domains && domains[d].name == zone { return Err(StorageFailure); }
      var id := nextDomain;
      domains := domains[id := Domain(zone, if ttl == 0 then config.defaultTtl else ttl, true, wildcard)];
      nextDomain := id + 1;
      return Ok(id);
    }
  }
}
