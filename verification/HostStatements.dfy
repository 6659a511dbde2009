// Update of ddns/service.go taken apart: it has no transaction, so the statements
// of several updates interleave, and a database statement may fail after the name
// server has taken the script. What the records then hold, and exactly when a
// host row still agrees with them.
module HostStatements {
  import opened Clock
  import opened Wrappers
  import opened ManagedNames
  import opened DnsZone
  import opened HostTables
  import opened HostSoundness
  import opened HostAgreement
  import opened HostProperties

  /** How far an update has come, with the rows it has read. */
  datatype Flight =
    | Asked(q: Request, m: Managed, target: Target)
    | Missing(q: Request, m: Managed, target: Target)
    | Placed(q: Request, d: nat, domain: Domain, hostLabel: string, target: Target)
    | Unchanged(q: Request, h: nat, host: Host)
    | Chosen(q: Request, existing: Option<nat>, host: Host, domain: Domain, target: Target)
    | Written(q: Request, existing: Option<nat>, host: Host, domain: Domain, target: Target)
    | Done(result: Result<Updated, Error>)

  /** The place of a host, and an address record to be put there. */
  datatype Spot = Spot(domainId: nat, hostLabel: string)
  datatype Put = Put(rtype: string, record: Record)

  function SpotOf(host: Host): Spot { Spot(host.domainId, host.hostname) }

  function PutOf(host: Host): Put { Put(host.recordType, Record(host.ttl, host.ipAddress)) }

  function Stored(q: Request, host: Host, target: Target): Host {
    host.(ipAddress := target.text, recordType := RecordType(target), lastUpdate := q.now)
  }

  // ----- one statement --------------------------------------------------------------

  datatype Move = Move(t: Tables, f: Flight)

  function Fail(t: Tables): Move { Move(t, Done(Err(StorageFailure))) }

  function Refuse(t: Tables, q: Request, hostId: Option<nat>, response: string, e: Error): Move {
    Move(Log(t, q, hostId, "reject", response), Done(Err(e)))
  }

  function Begin(c: Config, t: Tables, q: Request): Move {
    match Split(q.fqdn, c.allowedDomains)
    case None => Refuse(t, q, None, "notfqdn", NotFqdn)
    case Some(m) =>
      match c.parseIp(AskedIp(q))
      case None => Refuse(t, q, None, "badagent", BadIp)
      case Some(target) => Move(t, Asked(q, m, target))
  }

  /** The decision on the host row read, or its absence. */
  function Choose(c: Config, t: Tables, q: Request, d: nat, domain: Domain, hostLabel: string, target: Target): Move {
    match First(HostsAt(t, d, hostLabel))
    case None =>
      if !CanAutocreate(c.policy, q.device.name, hostLabel) then Refuse(t, q, None, "badauth", BadAuth)
      else Move(t, Chosen(q, None, Host(d, q.device.id, hostLabel, "", RecordType(target), domain.defaultTtl, 0), domain, target))
    case Some(h) =>
      var host := t.hosts[h];
      if host.deviceId != q.device.id then Refuse(t, q, Some(h), "badauth", BadAuth)
      else if host.ipAddress == target.text && host.recordType == RecordType(target) then Move(t, Unchanged(q, h, host))
      else Move(t, Chosen(q, Some(h), host, domain, target))
  }

  /** Whether the database takes the row; a host name is unique in its domain. */
  predicate Saves(t: Tables, existing: Option<nat>, host: Host, ok: bool) {
    ok && (existing.None? ==> HostsAt(t, host.domainId, host.hostname) == {})
  }

  function Save(t: Tables, q: Request, existing: Option<nat>, host: Host, target: Target): Move {
    var h, stored := if existing.Some? then existing.value else t.nextHost, Stored(q, host, target);
    var u := t.(hosts := t.hosts[h := stored], nextHost := if existing.Some? then t.nextHost else t.nextHost + 1);
    Move(Log(u, q, Some(h), if existing.None? then "create" else "update", "good"),
         Done(Ok(Updated("good", target.text, true, existing.None?, stored))))
  }

  /** The next statement; ok is whether the database carries it out. */
  function Next(c: Config, t: Tables, f: Flight, ok: bool): Move {
    match f
    case Done(_) => Move(t, f)
    case Asked(q, m, target) =>
      if !ok then Fail(t)
      else (match First(EnabledNamed(t, m.zone))
            case Some(d) => Move(t, Placed(q, d, t.domains[d], m.hostLabel, target))
            case None => Move(t, Missing(q, m, target)))
    case Missing(q, m, target) =>
      if !ok || DomainExists(t, m.zone) then Fail(t)
      else Move(PutDomain(t, NewDomain(c, m.zone)), Placed(q, t.nextDomain, NewDomain(c, m.zone), m.hostLabel, target))
    case Placed(q, d, domain, hostLabel, target) =>
      if !ok then Fail(t) else Choose(c, t, q, d, domain, hostLabel, target)
    case Unchanged(q, h, host) =>
      var u := if ok && h in t.hosts then t.(hosts := t.hosts[h := t.hosts[h].(lastUpdate := q.now)]) else t;
      Move(Log(u, q, Some(h), "no_change", "nochg"),
           Done(Ok(Updated("nochg", host.ipAddress, false, false, host.(lastUpdate := q.now)))))
    case Chosen(q, existing, host, domain, target) =>
      if !q.dnsAccepts then Move(Log(t, q, existing, "dns_update", "dnserr"), Done(Err(DnsFailure)))
      else Move(t.(records := Upsert(c, t.records, host.hostname, domain, target, host.ttl)),
                Written(q, existing, host, domain, target))
    case Written(q, existing, host, domain, target) =>
      if !Saves(t, existing, host, ok) then Fail(t) else Save(t, q, existing, host, target)
  }

  /** Before a statement others may do anything to the tables; ok is whether the
      database carries the statement out. */
  datatype Turn = Turn(others: Tables -> Tables, ok: bool)

  /** The statements of one update until it is done, one for each turn. */
  function Taken(c: Config, t: Tables, f: Flight, turns: seq<Turn>): Move
    decreases |turns|
  {
    if f.Done? || turns == [] then Move(t, f)
    else
      var m := Next(c, turns[0].others(t), f, turns[0].ok);
      Taken(c, m.t, m.f, turns[1..])
  }

  /** Nobody else at work, and nothing fails. */
  const WHOLE: seq<Turn> := seq(5, i => Turn(t => t, true))

  /** An update with its turns; one that runs out of them has failed. */
  function Tried(c: Config, t: Tables, q: Request, turns: seq<Turn>): Outcome<Updated> {
    var begun := Begin(c, t, q);
    var end := Taken(c, begun.t, begun.f, turns);
    Outcome(end.t, if end.f.Done? then end.f.result else Err(StorageFailure))
  }

  lemma TakenNext(c: Config, t: Tables, f: Flight, turns: seq<Turn>)
    requires turns != [] && !f.Done?
    ensures var m := Next(c, turns[0].others(t), f, turns[0].ok);
            Taken(c, t, f, turns) == (if m.f.Done? then m else Taken(c, m.t, m.f, turns[1..]))
  {
  }

  // ----- any number of updates --------------------------------------------------------

  /** Tables, updates in flight, and what was last put into DNS for each host. */
  datatype World = World(t: Tables, flights: map<nat, Flight>, ledger: map<Spot, Put>)

  datatype Event =
    | Ask(request: nat, q: Request)
    | Advance(request: nat, ok: bool)
    | Create(name: string, ttl: int, wildcard: bool)

  function Act(c: Config, w: World, e: Event): World {
    match e
    case Ask(request, q) =>
      if request in w.flights then w
      else
        var m := Begin(c, w.t, q);
        World(m.t, w.flights[request := m.f], w.ledger)
    case Advance(request, ok) =>
      if request !in w.flights then w
      else
        var f := w.flights[request];
        var m := Next(c, w.t, f, ok);
        World(m.t, w.flights[request := m.f],
              if f.Chosen? && m.f.Written? then w.ledger[SpotOf(f.host) := PutOf(Stored(f.q, f.host, f.target))] else w.ledger)
    case Create(name, ttl, wildcard) => w.(t := CreateDomain(c, w.t, name, ttl, wildcard).tables)
  }

  function After(c: Config, w: World, events: seq<Event>): World
    decreases |events|
  {
    if events == [] then w else Act(c, After(c, w, events[..|events| - 1]), events[|events| - 1])
  }

  function Start(start: Tables): World { World(start, map[], map[]) }

  lemma {:induction false} AfterBoth(c: Config, w: World, before: seq<Event>, later: seq<Event>)
    ensures After(c, w, before + later) == After(c, After(c, w, before), later)
    decreases |later|
  {
    if later == [] {
      assert before + later == before;
    } else {
      var all, last := before + later, |later| - 1;
      assert all[..|all| - 1] == before + later[..last];
      AfterBoth(c, w, before, later[..last]);
    }
  }

  // ----- what every statement keeps -----------------------------------------------------

  ghost predicate RowRead(c: Config, t: Tables, existing: Option<nat>, host: Host, domain: Domain) {
    && HostFits(c, t, host) && t.domains[host.domainId] == domain
    && (existing.Some? ==>
          && existing.value in t.hosts
          && var row := t.hosts[existing.value];
             row == host.(ipAddress := row.ipAddress, recordType := row.recordType, lastUpdate := row.lastUpdate))
  }

  /** What an update has read is still true, its addresses apart. */
  ghost predicate FlightFits(c: Config, t: Tables, ledger: map<Spot, Put>, f: Flight) {
    match f
    case Done(_) => true
    case Asked(_, m, _) => IsLabel(m.hostLabel) && Splittable(m.zone, Zones(c))
    case Missing(_, m, _) => IsLabel(m.hostLabel) && Splittable(m.zone, Zones(c))
    case Placed(_, d, domain, hostLabel, _) =>
      d in t.domains && t.domains[d] == domain && IsLabel(hostLabel) && Splittable(domain.name, Zones(c))
    case Unchanged(_, h, host) => true
    case Chosen(_, existing, host, domain, _) => RowRead(c, t, existing, host, domain)
    case Written(_, existing, host, domain, _) => RowRead(c, t, existing, host, domain) && SpotOf(host) in ledger
  }

  ghost predicate Consistent(c: Config, w: World) {
    && Sound(c, w.t)
    && (forall r :: r in w.flights ==> FlightFits(c, w.t, w.ledger, w.flights[r]))
    && (forall h :: h in w.t.hosts ==> SpotOf(w.t.hosts[h]) in w.ledger)
    && (forall k :: k in w.ledger ==> SpotFits(c, w.t, k))
  }

  ghost predicate SpotFits(c: Config, t: Tables, k: Spot) {
    k.domainId in t.domains && IsLabel(k.hostLabel) && Splittable(t.domains[k.domainId].name, Zones(c))
  }

  lemma FlightStays(c: Config, t: Tables, ledger: map<Spot, Put>, f: Flight, u: Tables, later: map<Spot, Put>)
    requires FlightFits(c, t, ledger, f) && Grows(t, u) && ledger.Keys <= later.Keys
    ensures FlightFits(c, u, later, f)
  {
  }

  /** The tables and the moved flight after one statement. */
  ghost predicate MoveFits(c: Config, w: World, m: Move, ledger: map<Spot, Put>) {
    && Sound(c, m.t) && Grows(w.t, m.t) && FlightFits(c, m.t, ledger, m.f)
    && (forall h :: h in m.t.hosts ==> SpotOf(m.t.hosts[h]) in ledger)
  }

  predicate SameRows(t: Tables, u: Tables) {
    u.domains == t.domains && u.hosts == t.hosts && u.nextDomain == t.nextDomain && u.nextHost == t.nextHost
  }

  /** Statements that change no domain and no host. */
  lemma QuietFits(c: Config, w: World, m: Move, ledger: map<Spot, Put>)
    requires Consistent(c, w) && w.ledger.Keys <= ledger.Keys && SameRows(w.t, m.t)
    requires FlightFits(c, w.t, ledger, m.f)
    ensures MoveFits(c, w, m, ledger)
  {
    SameRowsSound(c, w.t, m.t);
    FlightStays(c, w.t, ledger, m.f, m.t, ledger);
  }

  lemma PlacingFits(c: Config, w: World, f: Flight, ok: bool)
    requires Consistent(c, w) && FlightFits(c, w.t, w.ledger, f) && (f.Asked? || f.Missing?)
    ensures MoveFits(c, w, Next(c, w.t, f, ok), w.ledger)
  {
    var zone := f.m.zone;
    if f.Missing? && ok && !DomainExists(w.t, zone) {
      PutDomainSound(c, w.t, NewDomain(c, zone));
      SoundIsFresh(c, w.t);
    }
  }

  lemma RowIsRead(c: Config, t: Tables, d: nat, hostLabel: string, h: nat)
    requires Sound(c, t) && d in t.domains && First(HostsAt(t, d, hostLabel)) == Some(h)
    ensures RowRead(c, t, Some(h), t.hosts[h], t.domains[d])
  {
    assert HostFits(c, t, t.hosts[h]);
  }

  lemma FreshIsRead(c: Config, t: Tables, q: Request, d: nat, hostLabel: string, target: Target)
    requires d in t.domains && IsLabel(hostLabel) && Splittable(t.domains[d].name, Zones(c))
    ensures RowRead(c, t, None, FreshHost(t, q, d, hostLabel, target), t.domains[d])
  {
    AddressTokens(RecordType(target));
  }

  /** The row chosen is the one there, or a new one. */
  lemma ChooseReads(c: Config, t: Tables, q: Request, d: nat, domain: Domain, hostLabel: string, target: Target)
    ensures var m, found := Choose(c, t, q, d, domain, hostLabel, target), First(HostsAt(t, d, hostLabel));
            && SameRows(t, m.t) && (m.f.Chosen? || m.f.Unchanged? || m.f.Done?)
            && (m.f.Chosen? ==>
                  && m.f.existing == found && m.f.domain == domain
                  && m.f.host == if found.Some? then t.hosts[found.value]
                                 else Host(d, q.device.id, hostLabel, "", RecordType(target), domain.defaultTtl, 0))
  {
  }

  lemma ChosenFits(c: Config, t: Tables, ledger: map<Spot, Put>, q: Request, d: nat, hostLabel: string, target: Target)
    requires Sound(c, t) && d in t.domains && IsLabel(hostLabel) && Splittable(t.domains[d].name, Zones(c))
    ensures var m := Choose(c, t, q, d, t.domains[d], hostLabel, target);
            SameRows(t, m.t) && FlightFits(c, t, ledger, m.f)
  {
    ChooseReads(c, t, q, d, t.domains[d], hostLabel, target);
    match First(HostsAt(t, d, hostLabel))
    case None => FreshIsRead(c, t, q, d, hostLabel, target);
    case Some(h) => RowIsRead(c, t, d, hostLabel, h);
  }

  lemma ChoosingFits(c: Config, w: World, f: Flight, ok: bool)
    requires Consistent(c, w) && FlightFits(c, w.t, w.ledger, f) && f.Placed?
    ensures MoveFits(c, w, Next(c, w.t, f, ok), w.ledger)
  {
    if ok {
      ChosenFits(c, w.t, w.ledger, f.q, f.d, f.hostLabel, f.target);
      QuietFits(c, w, Choose(c, w.t, f.q, f.d, f.domain, f.hostLabel, f.target), w.ledger);
    } else {
      QuietFits(c, w, Fail(w.t), w.ledger);
    }
  }

  lemma SeenGrows(t: Tables, h: nat, now: Time)
    requires h in t.hosts
    ensures var u := t.(hosts := t.hosts[h := t.hosts[h].(lastUpdate := now)]);
            Grows(t, u) && forall g :: g in u.hosts ==> g in t.hosts && SpotOf(u.hosts[g]) == SpotOf(t.hosts[g])
  {
  }

  lemma SeeingFits(c: Config, w: World, f: Flight, ok: bool)
    requires Consistent(c, w) && f.Unchanged?
    ensures MoveFits(c, w, Next(c, w.t, f, ok), w.ledger)
  {
    if ok && f.h in w.t.hosts {
      SeenSound(c, w.t, f.h, f.q.now, Next(c, w.t, f, ok).t);
      SeenGrows(w.t, f.h, f.q.now);
    } else {
      QuietFits(c, w, Next(c, w.t, f, ok), w.ledger);
    }
  }

  lemma WritingFits(c: Config, w: World, f: Flight, ok: bool)
    requires Consistent(c, w) && FlightFits(c, w.t, w.ledger, f) && f.Chosen?
    ensures var m := Next(c, w.t, f, ok);
            && MoveFits(c, w, m, w.ledger[SpotOf(f.host) := PutOf(Stored(f.q, f.host, f.target))])
            && (!m.f.Written? ==> MoveFits(c, w, m, w.ledger))
  {
    var m := Next(c, w.t, f, ok);
    QuietFits(c, w, m, w.ledger[SpotOf(f.host) := PutOf(Stored(f.q, f.host, f.target))]);
    if !m.f.Written? { QuietFits(c, w, m, w.ledger); }
  }

  lemma SavedSound(c: Config, t: Tables, q: Request, existing: Option<nat>, host: Host, domain: Domain, target: Target)
    requires Sound(c, t) && RowRead(c, t, existing, host, domain) && Saves(t, existing, host, true)
    ensures Sound(c, Save(t, q, existing, host, target).t)
  {
    var u := Save(t, q, existing, host, target).t;
    var h, stored := if existing.Some? then existing.value else t.nextHost, Stored(q, host, target);
    AddressTokens(RecordType(target));
    assert HostsAt(t, stored.domainId, stored.hostname) <= {h};
    RowSound(c, t, h, stored, u.nextHost);
    SameRowsSound(c, t.(hosts := u.hosts, nextHost := u.nextHost), u);
  }

  lemma SavedGrows(c: Config, w: World, f: Flight)
    requires Consistent(c, w) && FlightFits(c, w.t, w.ledger, f) && f.Written?
    ensures var u := Save(w.t, f.q, f.existing, f.host, f.target).t;
            Grows(w.t, u) && forall h :: h in u.hosts ==> SpotOf(u.hosts[h]) in w.ledger
  {
    SoundIsFresh(c, w.t);
  }

  lemma SavingFits(c: Config, w: World, f: Flight, ok: bool)
    requires Consistent(c, w) && FlightFits(c, w.t, w.ledger, f) && f.Written?
    ensures MoveFits(c, w, Next(c, w.t, f, ok), w.ledger)
  {
    if Saves(w.t, f.existing, f.host, ok) {
      SavedSound(c, w.t, f.q, f.existing, f.host, f.domain, f.target);
      SavedGrows(c, w, f);
    } else {
      QuietFits(c, w, Fail(w.t), w.ledger);
    }
  }

  lemma StatementFits(c: Config, w: World, f: Flight, ok: bool)
    requires Consistent(c, w) && FlightFits(c, w.t, w.ledger, f)
    ensures var m := Next(c, w.t, f, ok);
            MoveFits(c, w, m, if f.Chosen? && m.f.Written? then w.ledger[SpotOf(f.host) := PutOf(Stored(f.q, f.host, f.target))]
                              else w.ledger)
  {
    match f
    case Done(_) =>
    case Asked(_, _, _) => PlacingFits(c, w, f, ok);
    case Missing(_, _, _) => PlacingFits(c, w, f, ok);
    case Placed(_, _, _, _, _) => ChoosingFits(c, w, f, ok);
    case Unchanged(_, _, _) => SeeingFits(c, w, f, ok);
    case Chosen(_, _, _, _, _) => WritingFits(c, w, f, ok);
    case Written(_, _, _, _, _) => SavingFits(c, w, f, ok);
  }

  lemma BegunFits(c: Config, t: Tables, ledger: map<Spot, Put>, q: Request)
    ensures SameRows(t, Begin(c, t, q).t) && FlightFits(c, t, ledger, Begin(c, t, q).f)
  {
    if Split(q.fqdn, c.allowedDomains).Some? { SplitZone(c, q.fqdn); }
  }

  lemma BeginFits(c: Config, w: World, q: Request)
    requires Consistent(c, w)
    ensures MoveFits(c, w, Begin(c, w.t, q), w.ledger)
  {
    BegunFits(c, w.t, w.ledger, q);
    QuietFits(c, w, Begin(c, w.t, q), w.ledger);
  }

  lemma MovedIsConsistent(c: Config, w: World, request: nat, m: Move, ledger: map<Spot, Put>)
    requires Consistent(c, w) && MoveFits(c, w, m, ledger) && w.ledger.Keys <= ledger.Keys
    requires forall k :: k in ledger && k !in w.ledger ==> SpotFits(c, w.t, k)
    ensures Consistent(c, World(m.t, w.flights[request := m.f], ledger))
  {
    var v := World(m.t, w.flights[request := m.f], ledger);
    forall r | r in v.flights ensures FlightFits(c, v.t, v.ledger, v.flights[r]) {
      if r != request { FlightStays(c, w.t, w.ledger, w.flights[r], v.t, v.ledger); }
    }
    forall k | k in v.ledger ensures SpotFits(c, v.t, k) { assert SpotFits(c, w.t, k); }
  }

  lemma AdvanceIsConsistent(c: Config, w: World, request: nat, ok: bool)
    requires Consistent(c, w) && request in w.flights
    ensures Consistent(c, Act(c, w, Advance(request, ok))) && Grows(w.t, Act(c, w, Advance(request, ok)).t)
  {
    var f, ledger := w.flights[request], Act(c, w, Advance(request, ok)).ledger;
    StatementFits(c, w, f, ok);
    MovedIsConsistent(c, w, request, Next(c, w.t, f, ok), ledger);
  }

  lemma GrownIsConsistent(c: Config, w: World, u: Tables)
    requires Consistent(c, w) && Sound(c, u) && Grows(w.t, u) && u.hosts == w.t.hosts
    ensures Consistent(c, w.(t := u))
  {
    var v := w.(t := u);
    forall r | r in v.flights ensures FlightFits(c, v.t, v.ledger, v.flights[r]) { FlightStays(c, w.t, w.ledger, w.flights[r], v.t, v.ledger); }
    forall k | k in v.ledger ensures SpotFits(c, v.t, k) { assert SpotFits(c, w.t, k); }
  }

  lemma CreateGrows(c: Config, t: Tables, name: string, ttl: int, wildcard: bool)
    requires DomainsSound(t)
    ensures var u := CreateDomain(c, t, name, ttl, wildcard).tables; Grows(t, u) && u.hosts == t.hosts
  {
  }

  lemma ActIsConsistent(c: Config, w: World, e: Event)
    requires Consistent(c, w)
    ensures Consistent(c, Act(c, w, e)) && Grows(w.t, Act(c, w, e).t)
  {
    match e
    case Ask(request, q) =>
      if request !in w.flights {
        BeginFits(c, w, q);
        MovedIsConsistent(c, w, request, Begin(c, w.t, q), w.ledger);
      }
    case Advance(request, ok) =>
      if request in w.flights { AdvanceIsConsistent(c, w, request, ok); }
    case Create(name, ttl, wildcard) =>
      CreateDomainSound(c, w.t, name, ttl, wildcard);
      CreateGrows(c, w.t, name, ttl, wildcard);
      GrownIsConsistent(c, w, Act(c, w, e).t);
  }

  lemma {:induction false} ReachableIsConsistent(c: Config, start: Tables, events: seq<Event>)
    requires HostFree(c, start)
    ensures Consistent(c, After(c, Start(start), events))
    decreases |events|
  {
    if events != [] {
      ReachableIsConsistent(c, start, events[..|events| - 1]);
      ActIsConsistent(c, After(c, Start(start), events[..|events| - 1]), events[|events| - 1]);
    }
  }

  // ----- the records hold what was put there last -----------------------------------------

  function NamesAt(t: Tables, k: Spot): seq<string>
    requires k.domainId in t.domains
  {
    Names(k.hostLabel, t.domains[k.domainId].name, t.domains[k.domainId].wildcard)
  }

  ghost predicate HoldsLast(t: Tables, k: Spot, put: Put)
    requires k.domainId in t.domains
  {
    put.rtype in ADDRESS_TYPES && forall name :: name in NamesAt(t, k) ==> Holds(t.records, name, put.rtype, put.record)
  }

  ghost predicate Tracked(c: Config, w: World) {
    && Consistent(c, w) && NoneMeet(c, w.t)
    && forall k :: k in w.ledger ==> k.domainId in w.t.domains && HoldsLast(w.t, k, w.ledger[k])
  }

  lemma WriteHolds(c: Config, t: Tables, q: Request, host: Host, domain: Domain, target: Target)
    requires host.domainId in t.domains && t.domains[host.domainId] == domain
    ensures var u := t.(records := Upsert(c, t.records, host.hostname, domain, target, host.ttl));
            && HoldsLast(u, SpotOf(host), PutOf(Stored(q, host, target)))
            && SameElsewhere(t.records, u.records, NamesAt(t, SpotOf(host)))
  {
    UpsertServes(c, t.records, host.hostname, domain, target, host.ttl);
    AddressTokens(RecordType(target));
  }

  lemma NextMeets(c: Config, t: Tables, f: Flight, ok: bool)
    requires DomainsSound(t) && NoneMeet(c, t)
    ensures NoneMeet(c, Next(c, t, f, ok).t)
  {
    var u := Next(c, t, f, ok).t;
    if f.Missing? && ok && !DomainExists(t, f.m.zone) {
      PutDomainMeets(c, t, NewDomain(c, f.m.zone));
    } else {
      KeepsDomains(c, t, f, ok);
      SameDomainsMeet(c, t, u);
    }
  }

  lemma KeepsDomains(c: Config, t: Tables, f: Flight, ok: bool)
    requires !(f.Missing? && ok && !DomainExists(t, f.m.zone))
    ensures Next(c, t, f, ok).t.domains == t.domains
  {
  }

  lemma ActMeets(c: Config, w: World, e: Event)
    requires DomainsSound(w.t) && NoneMeet(c, w.t)
    ensures NoneMeet(c, Act(c, w, e).t)
  {
    match e
    case Ask(request, q) => if request !in w.flights { SameDomainsMeet(c, w.t, Begin(c, w.t, q).t); }
    case Advance(request, ok) => if request in w.flights { NextMeets(c, w.t, w.flights[request], ok); }
    case Create(name, ttl, wildcard) => CreateDomainMeets(c, w.t, name, ttl, wildcard);
  }

  lemma WriteTracks(c: Config, w: World, request: nat, ok: bool)
    requires Tracked(c, w) && request in w.flights && w.flights[request].Chosen?
    requires w.flights[request].q.dnsAccepts
    ensures Tracked(c, Act(c, w, Advance(request, ok)))
  {
    var f, v := w.flights[request], Act(c, w, Advance(request, ok));
    var written := SpotOf(f.host);
    assert FlightFits(c, w.t, w.ledger, f);
    ActIsConsistent(c, w, Advance(request, ok));
    ActMeets(c, w, Advance(request, ok));
    WriteHolds(c, w.t, f.q, f.host, f.domain, f.target);
    forall k | k in v.ledger ensures k.domainId in v.t.domains && HoldsLast(v.t, k, v.ledger[k]) {
      if k != written { OtherSpotHolds(c, w, v.t, k, written); }
    }
  }

  lemma OtherSpotHolds(c: Config, w: World, u: Tables, k: Spot, written: Spot)
    requires Tracked(c, w) && k in w.ledger && k != written && SpotFits(c, w.t, written)
    requires u.domains == w.t.domains && SameElsewhere(w.t.records, u.records, NamesAt(w.t, written))
    ensures HoldsLast(u, k, w.ledger[k])
  {
    assert SpotFits(c, w.t, k);
    var p, q := w.t.domains[k.domainId], w.t.domains[written.domainId];
    NamesKeepApart(c, w.t, k.hostLabel, p.name, p.wildcard, written.hostLabel, q.name, q.wildcard);
    forall name | name in NamesAt(u, k) ensures Holds(u.records, name, w.ledger[k].rtype, w.ledger[k].record) {
      assert Holds(w.t.records, name, w.ledger[k].rtype, w.ledger[k].record);
    }
  }

  /** The event puts a record into DNS. */
  predicate WritesDns(w: World, e: Event) {
    e.Advance? && e.request in w.flights && w.flights[e.request].Chosen? && w.flights[e.request].q.dnsAccepts
  }

  lemma OthersLeaveRecords(c: Config, w: World, e: Event)
    requires !WritesDns(w, e)
    ensures Act(c, w, e).t.records == w.t.records && Act(c, w, e).ledger == w.ledger
  {
    match e
    case Ask(_, _) =>
    case Advance(request, ok) => if request in w.flights { QuietRecords(c, w.t, w.flights[request], ok); }
    case Create(_, _, _) =>
  }

  lemma QuietRecords(c: Config, t: Tables, f: Flight, ok: bool)
    requires !(f.Chosen? && f.q.dnsAccepts)
    ensures Next(c, t, f, ok).t.records == t.records && (f.Chosen? ==> !Next(c, t, f, ok).f.Written?)
  {
  }

  lemma ActTracks(c: Config, w: World, e: Event)
    requires Tracked(c, w)
    ensures Tracked(c, Act(c, w, e))
  {
    if WritesDns(w, e) {
      WriteTracks(c, w, e.request, e.ok);
    } else {
      var v := Act(c, w, e);
      ActIsConsistent(c, w, e);
      ActMeets(c, w, e);
      OthersLeaveRecords(c, w, e);
      forall k | k in v.ledger ensures k.domainId in v.t.domains && HoldsLast(v.t, k, v.ledger[k]) {
        assert HoldsLast(w.t, k, w.ledger[k]);
      }
    }
  }

  /** However updates interleave and whatever fails: the names of a host hold
      exactly the record that was last put there for it. */
  lemma {:induction false} ReachableTracks(c: Config, start: Tables, events: seq<Event>)
    requires HostFree(c, start) && NoneMeet(c, start)
    ensures Tracked(c, After(c, Start(start), events))
    decreases |events|
  {
    if events != [] {
      ReachableTracks(c, start, events[..|events| - 1]);
      ActTracks(c, After(c, Start(start), events[..|events| - 1]), events[|events| - 1]);
    }
  }

  // ----- exactly when a row agrees ------------------------------------------------------------

  lemma FirstName(t: Tables, k: Spot)
    requires k.domainId in t.domains
    ensures NamesAt(t, k) != [] && NamesAt(t, k)[0] in NamesAt(t, k)
  {
  }

  lemma ServedIff(c: Config, w: World, h: nat)
    requires Tracked(c, w) && h in w.t.hosts
    ensures var row := w.t.hosts[h];
            && row.domainId in w.t.domains && SpotOf(row) in w.ledger
            && (Served(w.t, row) <==> w.ledger[SpotOf(row)] == PutOf(row))
  {
    var row := w.t.hosts[h];
    var k := SpotOf(row);
    assert HostFits(c, w.t, row) && HoldsLast(w.t, k, w.ledger[k]) && HostNames(w.t, row) == NamesAt(w.t, k);
    FirstName(w.t, k);
    var put, own := w.ledger[k], PutOf(row);
    if put != own { HoldsOne(w.t.records, NamesAt(w.t, k)[0], put.rtype, put.record, own.rtype, own.record); }
  }

  /** The write of every host's row was its last write to DNS. */
  ghost predicate LastWritesSaved(w: World) {
    forall h :: h in w.t.hosts ==> SpotOf(w.t.hosts[h]) in w.ledger && w.ledger[SpotOf(w.t.hosts[h])] == PutOf(w.t.hosts[h])
  }

  /** However updates interleave and whatever fails: table and records agree exactly
      when for every host the last address written to DNS is the one in its row. */
  lemma AgreesIffSaved(c: Config, start: Tables, events: seq<Event>)
    requires HostFree(c, start) && NoneMeet(c, start)
    ensures InAgreement(After(c, Start(start), events).t) <==> LastWritesSaved(After(c, Start(start), events))
  {
    var w := After(c, Start(start), events);
    ReachableTracks(c, start, events);
    forall h | h in w.t.hosts
      ensures var row := w.t.hosts[h];
              && row.domainId in w.t.domains && SpotOf(row) in w.ledger
              && (Served(w.t, row) <==> w.ledger[SpotOf(row)] == PutOf(row)) {
      ServedIff(c, w, h);
    }
  }

  lemma UpsertIdleIff(c: Config, records: Records, hostLabel: string, domain: Domain, target: Target, ttl: int, put: Put)
    requires put.rtype in ADDRESS_TYPES
    requires forall name :: name in Names(hostLabel, domain.name, domain.wildcard) ==> Holds(records, name, put.rtype, put.record)
    ensures Upsert(c, records, hostLabel, domain, target, ttl) == records <==> put == Put(RecordType(target), Record(ttl, target.text))
  {
    var wanted, names := Put(RecordType(target), Record(ttl, target.text)), Names(hostLabel, domain.name, domain.wildcard);
    AddressTokens(RecordType(target));
    if put == wanted {
      UpsertIsIdle(c, records, hostLabel, domain, target, ttl);
    } else {
      UpsertServes(c, records, hostLabel, domain, target, ttl);
      assert names[0] in names;
      HoldsOne(records, names[0], put.rtype, put.record, wanted.rtype, wanted.record);
    }
  }

  /** The nochg answer is right exactly when the row holds the last write. */
  lemma NoChangeIsRightIff(c: Config, start: Tables, events: seq<Event>, request: nat)
    requires HostFree(c, start) && NoneMeet(c, start)
    requires var w := After(c, Start(start), events);
             request in w.flights && w.flights[request].Placed? && Next(c, w.t, w.flights[request], true).f.Unchanged?
    ensures var w := After(c, Start(start), events);
            var f, h := w.flights[request], Next(c, w.t, w.flights[request], true).f.h;
            && h in w.t.hosts && SpotOf(w.t.hosts[h]) in w.ledger
            && (Upsert(c, w.t.records, f.hostLabel, f.domain, f.target, w.t.hosts[h].ttl) == w.t.records
                <==> w.ledger[SpotOf(w.t.hosts[h])] == PutOf(w.t.hosts[h]))
  {
    var w := After(c, Start(start), events);
    ReachableTracks(c, start, events);
    ToldIff(c, w, w.flights[request]);
  }

  lemma ToldIff(c: Config, w: World, f: Flight)
    requires Tracked(c, w) && FlightFits(c, w.t, w.ledger, f) && f.Placed? && Next(c, w.t, f, true).f.Unchanged?
    ensures var h := Next(c, w.t, f, true).f.h;
            && h in w.t.hosts && SpotOf(w.t.hosts[h]) in w.ledger
            && (Upsert(c, w.t.records, f.hostLabel, f.domain, f.target, w.t.hosts[h].ttl) == w.t.records
                <==> w.ledger[SpotOf(w.t.hosts[h])] == PutOf(w.t.hosts[h]))
  {
    var h := First(HostsAt(w.t, f.d, f.hostLabel)).value;
    var row := w.t.hosts[h];
    var k := SpotOf(row);
    assert k in w.ledger && HoldsLast(w.t, k, w.ledger[k]);
    UpsertIdleIff(c, w.t.records, f.hostLabel, f.domain, f.target, row.ttl, w.ledger[k]);
  }
}
