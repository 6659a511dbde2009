// The domain and host tables, the update log and the DNS records, and what
// Update of ddns/service.go and createDomain of api/server.go do to them.
module HostTables {
  import opened Clock
  import opened Wrappers
  import opened Text
  import opened ManagedNames
  import opened DnsZone

  datatype Domain = Domain(name: string, defaultTtl: int, enabled: bool, wildcard: bool)

  datatype Host = Host(
    domainId: nat,
    deviceId: nat,
    hostname: string,
    ipAddress: string,
    recordType: string,
    ttl: int,
    lastUpdate: Time)

  datatype Entry = Entry(deviceId: nat, hostId: Option<nat>, operation: string, response: string)

  /** What reading an IP address gives: its canonical text and record type. */
  datatype Target = Target(text: string, v4: bool)

  /** parseIp stands for net.ParseIP, isFqdn for the request validator's fqdn rule. */
  datatype Config = Config(
    server: string,
    allowedDomains: seq<string>,
    defaultTtl: int,
    allowWildcard: bool,
    policy: string,
    parseIp: string -> Option<Target>,
    isFqdn: string -> bool)

  datatype Tables = Tables(
    domains: map<nat, Domain>,
    hosts: map<nat, Host>,
    nextDomain: nat,
    nextHost: nat,
    records: Records,
    log: seq<Entry>)

  /** Empty tables beside a name server with any records at all. */
  function Empty(records: Records): Tables {
    Tables(map[], map[], 1, 1, records, [])
  }

  datatype Device = Device(id: nat, name: string)

  /** One update request; dnsAccepts is whether the name server takes the script. */
  datatype Request = Request(
    device: Device,
    fqdn: string,
    requestedIp: string,
    callerIp: string,
    now: Time,
    dnsAccepts: bool)

  datatype Error = NotFqdn | BadIp | BadAuth | DnsFailure | StorageFailure | BadRequest

  datatype Updated = Updated(code: string, ip: string, changed: bool, created: bool, host: Host)

  datatype Outcome<+T> = Outcome(tables: Tables, result: Result<T, Error>)

  // ----- queries ---------------------------------------------------------------

  function EnabledNamed(t: Tables, zone: string): set<nat> {
    set d | d in t.domains && t.domains[d].name == zone && t.domains[d].enabled
  }

  predicate DomainExists(t: Tables, zone: string) {
    exists d :: d in t.domains && t.domains[d].name == zone
  }

  function HostsAt(t: Tables, d: nat, hostLabel: string): set<nat> {
    set h | h in t.hosts && t.hosts[h].domainId == d && t.hosts[h].hostname == hostLabel
  }

  function RecordType(target: Target): string { if target.v4 then "A" else "AAAA" }

  /** canAutocreate */
  predicate CanAutocreate(policy: string, deviceName: string, hostLabel: string) {
    policy == "any"
    || (var base, name := ToLower(TrimSpace(deviceName)), ToLower(TrimSpace(hostLabel));
        name == base || HasPrefix(name, base + "-"))
  }

  /** The address an update asks for: the caller's own unless it names one. */
  function AskedIp(q: Request): string {
    var ip := TrimSpace(q.requestedIp);
    if ip == "" then q.callerIp else ip
  }

  // ----- Update ------------------------------------------------------------------

  function Log(t: Tables, q: Request, hostId: Option<nat>, operation: string, response: string): Tables {
    t.(log := t.log + [Entry(q.device.id, hostId, operation, response)])
  }

  function Reject(t: Tables, q: Request, hostId: Option<nat>, response: string, e: Error): Outcome<Updated> {
    Outcome(Log(t, q, hostId, "reject", response), Err(e))
  }

  function NewDomain(c: Config, zone: string): Domain {
    Domain(zone, c.defaultTtl, true, c.allowWildcard)
  }

  function PutDomain(t: Tables, domain: Domain): Tables {
    t.(domains := t.domains[t.nextDomain := domain], nextDomain := t.nextDomain + 1)
  }

  function Update(c: Config, t: Tables, q: Request): Outcome<Updated> {
    match Split(q.fqdn, c.allowedDomains)
    case None => Reject(t, q, None, "notfqdn", NotFqdn)
    case Some(m) =>
      match c.parseIp(AskedIp(q))
      case None => Reject(t, q, None, "badagent", BadIp)
      case Some(target) =>
        match First(EnabledNamed(t, m.zone))
        case Some(d) => UpdateIn(c, t, q, d, m.hostLabel, target)
        case None =>
          if DomainExists(t, m.zone) then Outcome(t, Err(StorageFailure))
          else UpdateIn(c, PutDomain(t, NewDomain(c, m.zone)), q, t.nextDomain, m.hostLabel, target)
  }

  function UpdateIn(c: Config, t: Tables, q: Request, d: nat, hostLabel: string, target: Target): Outcome<Updated>
    requires d in t.domains
  {
    match First(HostsAt(t, d, hostLabel))
    case None =>
      if !CanAutocreate(c.policy, q.device.name, hostLabel) then Reject(t, q, None, "badauth", BadAuth)
      else
        Publish(c, t, q, None, Host(d, q.device.id, hostLabel, "", RecordType(target), t.domains[d].defaultTtl, 0), target)
    case Some(h) =>
      var host := t.hosts[h];
      if host.deviceId != q.device.id then Reject(t, q, Some(h), "badauth", BadAuth)
      else if host.ipAddress == target.text && host.recordType == RecordType(target) then
        var seen := host.(lastUpdate := q.now);
        Outcome(Log(t.(hosts := t.hosts[h := seen]), q, Some(h), "no_change", "nochg"),
                Ok(Updated("nochg", target.text, false, false, seen)))
      else Publish(c, t, q, Some(h), host, target)
  }

  function Upsert(c: Config, records: Records, hostLabel: string, domain: Domain, target: Target, ttl: int): Records {
    Execute(records, UpsertScript(c.server, hostLabel, domain.name, RecordType(target), Record(ttl, target.text), domain.wildcard))
  }

  /** DNS first, then the host row. */
  function Publish(c: Config, t: Tables, q: Request, existing: Option<nat>, host: Host,
                   target: Target): Outcome<Updated>
    requires host.domainId in t.domains
  {
    if !q.dnsAccepts then Outcome(Log(t, q, existing, "dns_update", "dnserr"), Err(DnsFailure))
    else
      var records := Upsert(c, t.records, host.hostname, t.domains[host.domainId], target, host.ttl);
      var stored := host.(ipAddress := target.text, recordType := RecordType(target), lastUpdate := q.now);
      var h := if existing.Some? then existing.value else t.nextHost;
      var u := t.(records := records, hosts := t.hosts[h := stored],
                  nextHost := if existing.Some? then t.nextHost else t.nextHost + 1);
      Outcome(Log(u, q, Some(h), if existing.None? then "create" else "update", "good"),
              Ok(Updated("good", target.text, true, existing.None?, stored)))
  }

  const MIN_TTL := 20
  const MAX_TTL := 86400

  /** createDomain; a TTL of 0 asks for the default. */
  function CreateDomain(c: Config, t: Tables, name: string, ttl: int, wildcard: bool): Outcome<nat> {
    var zone := TrimSuffix(ToLower(name), ".");
    if !c.isFqdn(name) || (ttl != 0 && !(MIN_TTL <= ttl <= MAX_TTL)) then Outcome(t, Err(BadRequest))
    else if !exists i :: 0 <= i < |c.allowedDomains| && ToLower(c.allowedDomains[i]) == zone then Outcome(t, Err(NotFqdn))
    else if DomainExists(t, zone) then Outcome(t, Err(StorageFailure))
    else Outcome(PutDomain(t, Domain(zone, if ttl == 0 then c.defaultTtl else ttl, true, wildcard)), Ok(t.nextDomain))
  }

  // ----- start-up -----------------------------------------------------------------

  /** EnsureDomains */
  function Seed(c: Config, t: Tables, names: seq<string>): Tables
    decreases |names|
  {
    if names == [] then t
    else Seed(c, if DomainExists(t, names[0]) then t else PutDomain(t, NewDomain(c, names[0])), names[1..])
  }

  /** The tables with which the server begins to listen. */
  function Seeded(c: Config, t: Tables): Tables { Seed(c, t, c.allowedDomains) }

  // ----- runs -----------------------------------------------------------------------

  datatype Step =
    | UpdateStep(q: Request)
    | CreateDomainStep(name: string, ttl: int, wildcard: bool)

  function Apply(c: Config, t: Tables, s: Step): Tables {
    match s
    case UpdateStep(q) => Update(c, t, q).tables
    case CreateDomainStep(name, ttl, wildcard) => CreateDomain(c, t, name, ttl, wildcard).tables
  }

  function Run(c: Config, t: Tables, steps: seq<Step>): Tables
    decreases |steps|
  {
    if steps == [] then t else Run(c, Apply(c, t, steps[0]), steps[1..])
  }
}
