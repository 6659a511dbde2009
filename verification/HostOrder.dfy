// When the statements of several updates still leave table and records in
// agreement, and two runs that do not: a save that fails, and two updates of one
// host at the same time.
module HostOrder {
  import opened Wrappers
  import opened Text
  import opened ManagedNames
  import opened HostTables
  import opened HostSoundness
  import opened HostAgreement
  import opened HostStatements
  import opened HostZones

  // ----- one update alone -----------------------------------------------------------

  /** n statements that nothing comes between, and of which none fails. */
  function Through(c: Config, m: Move, n: nat): Move
    decreases n
  {
    if n == 0 then m else Through(c, Next(c, m.t, m.f, true), n - 1)
  }

  lemma {:induction false} DoneStays(c: Config, t: Tables, result: Result<Updated, Error>, n: nat)
    ensures Through(c, Move(t, Done(result)), n) == Move(t, Done(result))
  {
    if n > 0 { DoneStays(c, t, result, n - 1); }
  }

  lemma ThroughOne(c: Config, m: Move, n: nat)
    requires n > 0
    ensures Through(c, m, n) == Through(c, Next(c, m.t, m.f, true), n - 1)
  {
  }

  function Finished(o: Outcome<Updated>): Move { Move(o.tables, Done(o.result)) }

  lemma WrittenThrough(c: Config, t: Tables, q: Request, existing: Option<nat>, host: Host, target: Target, n: nat)
    requires host.domainId in t.domains && n >= 2 && Saves(t, existing, host, true)
    ensures Through(c, Move(t, Chosen(q, existing, host, t.domains[host.domainId], target)), n)
         == Finished(Publish(c, t, q, existing, host, target))
  {
    var m := Move(t, Chosen(q, existing, host, t.domains[host.domainId], target));
    var o := Publish(c, t, q, existing, host, target);
    ThroughOne(c, m, n);
    var written := Next(c, m.t, m.f, true);
    if q.dnsAccepts {
      ThroughOne(c, written, n - 1);
      assert HostsAt(written.t, host.domainId, host.hostname) == HostsAt(t, host.domainId, host.hostname);
      assert Next(c, written.t, written.f, true) == Finished(o);
      DoneStays(c, o.tables, o.result, n - 2);
    } else {
      assert written == Finished(o);
      DoneStays(c, o.tables, o.result, n - 1);
    }
  }

  lemma PlacedThrough(c: Config, t: Tables, q: Request, d: nat, hostLabel: string, target: Target, n: nat)
    requires d in t.domains && n >= 3
    ensures Through(c, Move(t, Placed(q, d, t.domains[d], hostLabel, target)), n)
         == Finished(UpdateIn(c, t, q, d, hostLabel, target))
  {
    var m := Choose(c, t, q, d, t.domains[d], hostLabel, target);
    var o := UpdateIn(c, t, q, d, hostLabel, target);
    ThroughOne(c, Move(t, Placed(q, d, t.domains[d], hostLabel, target)), n);
    ChooseReads(c, t, q, d, t.domains[d], hostLabel, target);
    match m.f
    case Chosen(_, existing, host, _, _) => WrittenThrough(c, t, q, existing, host, target, n - 1);
    case Unchanged(_, _, _) =>
      ThroughOne(c, m, n - 1);
      DoneStays(c, o.tables, o.result, n - 2);
    case Done(_) => DoneStays(c, o.tables, o.result, n - 1);
  }

  lemma AskedThrough(c: Config, t: Tables, q: Request, m: Managed, target: Target, n: nat)
    requires n >= 5 && Split(q.fqdn, c.allowedDomains) == Some(m) && c.parseIp(AskedIp(q)) == Some(target)
    ensures Through(c, Move(t, Asked(q, m, target)), n) == Finished(Update(c, t, q))
  {
    var asked := Move(t, Asked(q, m, target));
    ThroughOne(c, asked, n);
    match First(EnabledNamed(t, m.zone))
    case Some(d) => PlacedThrough(c, t, q, d, m.hostLabel, target, n - 1);
    case None => MissingThrough(c, t, q, m, target, n - 1);
  }

  lemma MissingThrough(c: Config, t: Tables, q: Request, m: Managed, target: Target, n: nat)
    requires n >= 4
    ensures Through(c, Move(t, Missing(q, m, target)), n)
         == Finished(if DomainExists(t, m.zone) then Outcome(t, Err(StorageFailure))
                     else UpdateIn(c, PutDomain(t, NewDomain(c, m.zone)), q, t.nextDomain, m.hostLabel, target))
  {
    ThroughOne(c, Move(t, Missing(q, m, target)), n);
    if DomainExists(t, m.zone) {
      DoneStays(c, t, Err(StorageFailure), n - 1);
    } else {
      PlacedThrough(c, PutDomain(t, NewDomain(c, m.zone)), q, t.nextDomain, m.hostLabel, target, n - 1);
    }
  }

  lemma BegunThrough(c: Config, t: Tables, q: Request, n: nat)
    requires n >= 5
    ensures Through(c, Begin(c, t, q), n) == Finished(Update(c, t, q))
  {
    var o := Update(c, t, q);
    if Split(q.fqdn, c.allowedDomains).None? || c.parseIp(AskedIp(q)).None? {
      DoneStays(c, o.tables, o.result, n);
    } else {
      AskedThrough(c, t, q, Split(q.fqdn, c.allowedDomains).value, c.parseIp(AskedIp(q)).value, n);
    }
  }

  lemma AfterOne(c: Config, w: World, e: Event)
    ensures After(c, w, [e]) == Act(c, w, e)
  {
    assert [e][..0] == [] && After(c, w, []) == w;
  }

  /** Turns in which nobody else is at work and nothing fails. */
  ghost predicate Undisturbed(turns: seq<Turn>) {
    forall i :: 0 <= i < |turns| ==> turns[i].ok && forall t :: turns[i].others(t) == t
  }

  lemma {:induction false} UndisturbedGoesThrough(c: Config, m: Move, turns: seq<Turn>)
    requires Undisturbed(turns)
    ensures Taken(c, m.t, m.f, turns) == Through(c, m, |turns|)
    decreases |turns|
  {
    if m.f.Done? {
      DoneStays(c, m.t, m.f.result, |turns|);
    } else if turns != [] {
      UndisturbedGoesThrough(c, Next(c, m.t, m.f, true), turns[1..]);
      ThroughOne(c, m, |turns|);
    }
  }

  /** Left to itself, an update does what Update says. */
  lemma WholeIsUpdate(c: Config, t: Tables, q: Request)
    ensures Tried(c, t, q, WHOLE) == Update(c, t, q)
  {
    UndisturbedGoesThrough(c, Begin(c, t, q), WHOLE);
    BegunThrough(c, t, q, |WHOLE|);
  }

  function Advances(request: nat, n: nat): seq<Event> { seq(n, i => Advance(request, true)) }

  lemma {:induction false} AdvancesGoThrough(c: Config, w: World, request: nat, n: nat)
    requires request in w.flights
    ensures var v, m := After(c, w, Advances(request, n)), Through(c, Move(w.t, w.flights[request]), n);
            v.t == m.t && v.flights == w.flights[request := m.f]
    decreases n
  {
    if n > 0 {
      var v := Act(c, w, Advance(request, true));
      assert Advances(request, n) == [Advance(request, true)] + Advances(request, n - 1);
      AfterBoth(c, w, [Advance(request, true)], Advances(request, n - 1));
      AfterOne(c, w, Advance(request, true));
      AdvancesGoThrough(c, v, request, n - 1);
      ThroughOne(c, Move(w.t, w.flights[request]), n);
    }
  }

  lemma AskedIs(c: Config, w: World, request: nat, q: Request)
    requires request !in w.flights
    ensures var m := Begin(c, w.t, q); Act(c, w, Ask(request, q)) == World(m.t, w.flights[request := m.f], w.ledger)
  {
  }

  /** An update that nothing comes between and of which no save fails is the whole
      update, whatever else is in flight; it has five statements at most. */
  lemma AloneIsUpdate(c: Config, w: World, request: nat, q: Request, n: nat)
    requires request !in w.flights && n >= 5
    ensures var v := After(c, w, [Ask(request, q)] + Advances(request, n));
            && v.t == Update(c, w.t, q).tables
            && v.flights == w.flights[request := Done(Update(c, w.t, q).result)]
  {
    var m := Begin(c, w.t, q);
    var asked := World(m.t, w.flights[request := m.f], w.ledger);
    AskedFirst(c, w, request, q, Advances(request, n));
    BegunThrough(c, w.t, q, n);
    AdvancesFinish(c, asked, request, n, Update(c, w.t, q));
    assert asked.flights[request := Done(Update(c, w.t, q).result)] == w.flights[request := Done(Update(c, w.t, q).result)];
  }

  lemma AskedFirst(c: Config, w: World, request: nat, q: Request, later: seq<Event>)
    requires request !in w.flights
    ensures var m := Begin(c, w.t, q);
            After(c, w, [Ask(request, q)] + later) == After(c, World(m.t, w.flights[request := m.f], w.ledger), later)
  {
    AfterBoth(c, w, [Ask(request, q)], later);
    AfterOne(c, w, Ask(request, q));
    AskedIs(c, w, request, q);
  }

  lemma AdvancesFinish(c: Config, w: World, request: nat, n: nat, o: Outcome<Updated>)
    requires request in w.flights && Through(c, Move(w.t, w.flights[request]), n) == Finished(o)
    ensures var v := After(c, w, Advances(request, n)); v.t == o.tables && v.flights == w.flights[request := Done(o.result)]
  {
    AdvancesGoThrough(c, w, request, n);
  }

  // ----- orderly runs ---------------------------------------------------------------------------

  /** No other update of the host has written to DNS and not yet saved its row. */
  ghost predicate Free(w: World, k: Spot) {
    forall r :: r in w.flights && w.flights[r].Written? ==> SpotOf(w.flights[r].host) != k
  }

  /** The event writes to DNS only where that is so, and saves without failing. */
  ghost predicate Orderly(w: World, e: Event) {
    e.Advance? && e.request in w.flights ==>
      var f := w.flights[e.request];
      (f.Chosen? ==> Free(w, SpotOf(f.host))) && (f.Written? ==> Saves(w.t, f.existing, f.host, e.ok))
  }

  ghost predicate SavedLast(w: World, host: Host) {
    SpotOf(host) in w.ledger && w.ledger[SpotOf(host)] == PutOf(host)
  }

  ghost predicate WroteLast(w: World, f: Flight)
    requires f.Written?
  {
    SavedLast(w, Stored(f.q, f.host, f.target))
  }

  ghost predicate SameWritten(w: World, r: nat, s: nat) {
    && r in w.flights && s in w.flights && w.flights[r].Written? && w.flights[s].Written?
    && SpotOf(w.flights[r].host) == SpotOf(w.flights[s].host)
  }

  ghost predicate Ordered(w: World) {
    && (forall h :: h in w.t.hosts && Free(w, SpotOf(w.t.hosts[h])) ==> SavedLast(w, w.t.hosts[h]))
    && (forall r :: r in w.flights && w.flights[r].Written? ==> WroteLast(w, w.flights[r]))
    && (forall r, s :: SameWritten(w, r, s) ==> r == s)
  }

  /** Events that neither write nor save. */
  lemma OthersStayOrdered(c: Config, w: World, v: World)
    requires Ordered(w) && v.ledger == w.ledger
    requires forall r :: (r in v.flights && v.flights[r].Written?) <==> (r in w.flights && w.flights[r].Written?)
    requires forall r :: r in w.flights && w.flights[r].Written? ==> v.flights[r] == w.flights[r]
    requires forall h :: h in v.t.hosts ==>
               h in w.t.hosts && SpotOf(v.t.hosts[h]) == SpotOf(w.t.hosts[h]) && PutOf(v.t.hosts[h]) == PutOf(w.t.hosts[h])
    ensures Ordered(v)
  {
    forall h | h in v.t.hosts && Free(v, SpotOf(v.t.hosts[h])) ensures SavedLast(v, v.t.hosts[h]) {
      assert Free(w, SpotOf(w.t.hosts[h]));
    }
    forall r, s | SameWritten(v, r, s) ensures r == s { assert SameWritten(w, r, s); }
  }

  lemma WriteStaysOrdered(c: Config, w: World, request: nat, ok: bool)
    requires Ordered(w) && request in w.flights && w.flights[request].Chosen? && w.flights[request].q.dnsAccepts
    requires Free(w, SpotOf(w.flights[request].host))
    ensures Ordered(Act(c, w, Advance(request, ok)))
  {
    var f, v := w.flights[request], Act(c, w, Advance(request, ok));
    forall h | h in v.t.hosts && Free(v, SpotOf(v.t.hosts[h])) ensures SavedLast(v, v.t.hosts[h]) {
      assert v.flights[request].Written? && SpotOf(v.flights[request].host) == SpotOf(f.host);
      assert SpotOf(v.t.hosts[h]) != SpotOf(f.host);
      forall r | r in w.flights && w.flights[r].Written? ensures SpotOf(w.flights[r].host) != SpotOf(w.t.hosts[h]) {
        assert v.flights[r] == w.flights[r];
      }
    }
    forall r | r in v.flights && v.flights[r].Written? ensures WroteLast(v, v.flights[r]) {
      if r != request { assert WroteLast(w, w.flights[r]); }
    }
    forall r, s | SameWritten(v, r, s) ensures r == s {
      if r != request && s != request { assert SameWritten(w, r, s); }
    }
  }

  lemma SavedRowsAreLast(c: Config, w: World, request: nat, ok: bool, h: nat)
    requires Consistent(c, w) && Ordered(w) && request in w.flights && w.flights[request].Written?
    requires Saves(w.t, w.flights[request].existing, w.flights[request].host, ok)
    requires var v := Act(c, w, Advance(request, ok)); h in v.t.hosts && Free(v, SpotOf(v.t.hosts[h]))
    ensures SavedLast(Act(c, w, Advance(request, ok)), Act(c, w, Advance(request, ok)).t.hosts[h])
  {
    var f, v := w.flights[request], Act(c, w, Advance(request, ok));
    assert WroteLast(w, f) && FlightFits(c, w.t, w.ledger, f);
    SaveIs(c, w, request, ok);
    if h != (if f.existing.Some? then f.existing.value else w.t.nextHost) {
      OthersKeepTheirSpot(c, w.t, f.existing, f.host, f.domain, h);
      StaysFree(w, v, request, SpotOf(w.t.hosts[h]));
    }
  }

  lemma StaysFree(w: World, v: World, request: nat, k: Spot)
    requires Free(v, k) && request in w.flights && w.flights[request].Written? && SpotOf(w.flights[request].host) != k
    requires v.flights.Keys == w.flights.Keys && forall r :: r in w.flights && r != request ==> v.flights[r] == w.flights[r]
    ensures Free(w, k)
  {
    forall r | r in w.flights && w.flights[r].Written? ensures SpotOf(w.flights[r].host) != k {
      if r != request { assert r in v.flights && v.flights[r] == w.flights[r]; }
    }
  }

  lemma SaveStaysOrdered(c: Config, w: World, request: nat, ok: bool)
    requires Consistent(c, w) && Ordered(w) && request in w.flights && w.flights[request].Written?
    requires Saves(w.t, w.flights[request].existing, w.flights[request].host, ok)
    ensures Ordered(Act(c, w, Advance(request, ok)))
  {
    var v := Act(c, w, Advance(request, ok));
    forall h | h in v.t.hosts && Free(v, SpotOf(v.t.hosts[h])) ensures SavedLast(v, v.t.hosts[h]) {
      SavedRowsAreLast(c, w, request, ok, h);
    }
    FewerWritten(w, v);
  }

  lemma FewerWritten(w: World, v: World)
    requires Ordered(w) && v.ledger == w.ledger
    requires forall r :: r in v.flights && v.flights[r].Written? ==> r in w.flights && v.flights[r] == w.flights[r]
    ensures forall r :: r in v.flights && v.flights[r].Written? ==> WroteLast(v, v.flights[r])
    ensures forall r, s :: SameWritten(v, r, s) ==> r == s
  {
    forall r | r in v.flights && v.flights[r].Written? ensures WroteLast(v, v.flights[r]) { assert WroteLast(w, w.flights[r]); }
    forall r, s | SameWritten(v, r, s) ensures r == s { assert SameWritten(w, r, s); }
  }

  lemma OthersKeepTheirSpot(c: Config, t: Tables, existing: Option<nat>, host: Host, domain: Domain, h: nat)
    requires Sound(c, t) && RowRead(c, t, existing, host, domain) && Saves(t, existing, host, true)
    requires h in t.hosts && existing != Some(h)
    ensures SpotOf(t.hosts[h]) != SpotOf(host)
  {
    if existing.None? { assert h !in HostsAt(t, host.domainId, host.hostname); }
  }

  lemma QuietRows(c: Config, t: Tables, f: Flight, ok: bool)
    requires !f.Written?
    ensures forall h :: h in Next(c, t, f, ok).t.hosts ==>
              h in t.hosts && SpotOf(Next(c, t, f, ok).t.hosts[h]) == SpotOf(t.hosts[h])
              && PutOf(Next(c, t, f, ok).t.hosts[h]) == PutOf(t.hosts[h])
    ensures Next(c, t, f, ok).f.Written? ==> f.Chosen? && f.q.dnsAccepts
  {
    if f.Placed? && ok { ChooseReads(c, t, f.q, f.d, f.domain, f.hostLabel, f.target); }
  }

  lemma AdvanceStaysOrdered(c: Config, w: World, request: nat, ok: bool)
    requires Consistent(c, w) && Ordered(w) && request in w.flights && Orderly(w, Advance(request, ok))
    ensures Ordered(Act(c, w, Advance(request, ok)))
  {
    var f := w.flights[request];
    if f.Chosen? && f.q.dnsAccepts {
      WriteStaysOrdered(c, w, request, ok);
    } else if f.Written? {
      SaveStaysOrdered(c, w, request, ok);
    } else {
      QuietStaysOrdered(c, w, request, ok);
    }
  }

  lemma QuietStaysOrdered(c: Config, w: World, request: nat, ok: bool)
    requires Ordered(w) && request in w.flights && !w.flights[request].Written?
    requires !(w.flights[request].Chosen? && w.flights[request].q.dnsAccepts)
    ensures Ordered(Act(c, w, Advance(request, ok)))
  {
    QuietRows(c, w.t, w.flights[request], ok);
    OthersStayOrdered(c, w, Act(c, w, Advance(request, ok)));
  }

  lemma AskStaysOrdered(c: Config, w: World, request: nat, q: Request)
    requires Ordered(w) && request !in w.flights
    ensures Ordered(Act(c, w, Ask(request, q)))
  {
    var m := Begin(c, w.t, q);
    assert m.t.hosts == w.t.hosts && !m.f.Written?;
    OthersStayOrdered(c, w, World(m.t, w.flights[request := m.f], w.ledger));
  }

  lemma CreateStaysOrdered(c: Config, w: World, name: string, ttl: int, wildcard: bool)
    requires Ordered(w)
    ensures Ordered(Act(c, w, Create(name, ttl, wildcard)))
  {
    var u := CreateDomain(c, w.t, name, ttl, wildcard).tables;
    assert u.hosts == w.t.hosts;
    OthersStayOrdered(c, w, w.(t := u));
  }

  lemma ActStaysOrdered(c: Config, w: World, e: Event)
    requires Consistent(c, w) && Ordered(w) && Orderly(w, e)
    ensures Ordered(Act(c, w, e))
  {
    match e
    case Ask(request, q) => if request !in w.flights { AskStaysOrdered(c, w, request, q); }
    case Advance(request, ok) => if request in w.flights { AdvanceStaysOrdered(c, w, request, ok); }
    case Create(name, ttl, wildcard) => CreateStaysOrdered(c, w, name, ttl, wildcard);
  }

  ghost predicate OrderlyRun(c: Config, start: Tables, events: seq<Event>) {
    forall j :: 0 <= j < |events| ==> Orderly(After(c, Start(start), events[..j]), events[j])
  }

  lemma {:induction false} OrderlyIsOrdered(c: Config, start: Tables, events: seq<Event>)
    requires HostFree(c, start) && OrderlyRun(c, start, events)
    ensures Ordered(After(c, Start(start), events))
    decreases |events|
  {
    if events != [] {
      var last := |events| - 1;
      forall j | 0 <= j < last ensures Orderly(After(c, Start(start), events[..last][..j]), events[..last][j]) {
        assert events[..last][..j] == events[..j] && Orderly(After(c, Start(start), events[..j]), events[j]);
      }
      OrderlyIsOrdered(c, start, events[..last]);
      ReachableIsConsistent(c, start, events[..last]);
      assert Orderly(After(c, Start(start), events[..last]), events[last]);
      ActStaysOrdered(c, After(c, Start(start), events[..last]), events[last]);
    }
  }

  /** In orderly runs every host agrees with DNS whenever no update of it is
      between its write to DNS and its save. */
  lemma OrderlyAgrees(c: Config, start: Tables, events: seq<Event>, h: nat)
    requires HostFree(c, start) && NoneMeet(c, start) && OrderlyRun(c, start, events)
    requires var w := After(c, Start(start), events); h in w.t.hosts && Free(w, SpotOf(w.t.hosts[h]))
    ensures var t := After(c, Start(start), events).t; t.hosts[h].domainId in t.domains && Served(t, t.hosts[h])
  {
    OrderlyIsOrdered(c, start, events);
    ReachableTracks(c, start, events);
    ServedIff(c, After(c, Start(start), events), h);
  }

  /** A save leaves its host in agreement exactly when no other record has been
      written for the host since the update wrote its own. */
  lemma SaveAgreesIff(c: Config, w: World, request: nat)
    requires Tracked(c, w) && request in w.flights && w.flights[request].Written?
    requires Saves(w.t, w.flights[request].existing, w.flights[request].host, true)
    ensures var f, v := w.flights[request], Act(c, w, Advance(request, true));
            var h := if f.existing.Some? then f.existing.value else w.t.nextHost;
            h in v.t.hosts && v.t.hosts[h].domainId in v.t.domains && (Served(v.t, v.t.hosts[h]) <==> WroteLast(w, f))
  {
    var f := w.flights[request];
    var h := if f.existing.Some? then f.existing.value else w.t.nextHost;
    ActTracks(c, w, Advance(request, true));
    SaveIs(c, w, request, true);
    ServedIff(c, Act(c, w, Advance(request, true)), h);
  }

  lemma WriteThenSave(c: Config, w: World, request: nat) returns (h: nat)
    requires request in w.flights && w.flights[request].Chosen?
    requires var f := w.flights[request]; f.q.dnsAccepts && Saves(w.t, f.existing, f.host, true)
    ensures var v, f := Act(c, Act(c, w, Advance(request, true)), Advance(request, true)), w.flights[request];
            && h in v.t.hosts && v.t.hosts[h] == Stored(f.q, f.host, f.target) && SavedLast(v, v.t.hosts[h])
            && v.flights[request].Done? && v.flights[request].result.Ok?
  {
    var f, u := w.flights[request], Act(c, w, Advance(request, true));
    h := if f.existing.Some? then f.existing.value else w.t.nextHost;
    assert HostsAt(u.t, f.host.domainId, f.host.hostname) == HostsAt(w.t, f.host.domainId, f.host.hostname);
    assert u.flights[request] == Written(f.q, f.existing, f.host, f.domain, f.target);
    assert Act(c, u, Advance(request, true)).t == Save(u.t, f.q, f.existing, f.host, f.target).t;
  }

  /** Whatever went wrong before, a save right after its own write to DNS leaves
      its host in agreement. */
  lemma GoodHeals(c: Config, w: World, request: nat)
    requires Tracked(c, w) && request in w.flights && w.flights[request].Chosen?
    requires var f := w.flights[request]; f.q.dnsAccepts && Saves(w.t, f.existing, f.host, true)
    ensures var v := Act(c, Act(c, w, Advance(request, true)), Advance(request, true));
            var stored := Stored(w.flights[request].q, w.flights[request].host, w.flights[request].target);
            stored in v.t.hosts.Values && stored.domainId in v.t.domains && Served(v.t, stored)
  {
    var u := Act(c, w, Advance(request, true));
    ActTracks(c, w, Advance(request, true));
    ActTracks(c, u, Advance(request, true));
    var h := WriteThenSave(c, w, request);
    ServedIff(c, Act(c, u, Advance(request, true)), h);
  }

  // ----- two runs that lose the agreement -------------------------------------------------

  lemma AfterMore(c: Config, w: World, events: seq<Event>, e: Event)
    ensures After(c, w, events + [e]) == Act(c, After(c, w, events), e)
  {
    assert (events + [e])[..|events|] == events;
  }

  lemma AfterTwo(c: Config, w: World, e: Event, f: Event)
    ensures After(c, w, [e, f]) == Act(c, Act(c, w, e), f)
  {
    AfterOne(c, w, e);
    AfterMore(c, w, [e], f);
    assert [e] + [f] == [e, f];
  }

  lemma AfterThree(c: Config, w: World, e: Event, f: Event, g: Event)
    ensures After(c, w, [e, f, g]) == Act(c, Act(c, Act(c, w, e), f), g)
  {
    AfterTwo(c, w, e, f);
    AfterMore(c, w, [e, f], g);
    assert [e, f] + [g] == [e, f, g];
  }

  lemma AfterFour(c: Config, w: World, e: Event, f: Event, g: Event, h: Event)
    ensures After(c, w, [e, f, g, h]) == Act(c, Act(c, Act(c, Act(c, w, e), f), g), h)
  {
    AfterThree(c, w, e, f, g);
    AfterMore(c, w, [e, f, g], h);
    assert [e, f, g] + [h] == [e, f, g, h];
  }

  /** q asks for hostLabel under z at target, and may create it. */
  ghost predicate Asks(c: Config, q: Request, hostLabel: string, z: string, target: Target) {
    && Split(q.fqdn, c.allowedDomains) == Some(Managed(hostLabel, z)) && c.parseIp(AskedIp(q)) == Some(target)
    && CanAutocreate(c.policy, q.device.name, hostLabel) && q.dnsAccepts
  }

  lemma RequestAsks(c: Config, device: nat, hostLabel: string, z: string, ip: string)
    requires IsLabel(hostLabel) && Plain(hostLabel) && Splittable(z, Zones(c)) && c.parseIp(ip).Some?
    ensures Asks(c, RequestFor(device, hostLabel, z, ip), hostLabel, z, c.parseIp(ip).value)
  {
    RequestSplits(c, hostLabel, z);
    MayCreate(c.policy, hostLabel);
    assert TrimSpace("") == "";
  }

  lemma AskIs(c: Config, w: World, request: nat, q: Request, hostLabel: string, z: string, target: Target)
    requires Asks(c, q, hostLabel, z, target) && request !in w.flights
    ensures Act(c, w, Ask(request, q)) == w.(flights := w.flights[request := Asked(q, Managed(hostLabel, z), target)])
  {
  }

  lemma AdvanceIs(c: Config, w: World, request: nat)
    requires request in w.flights && !w.flights[request].Chosen?
    ensures var m := Next(c, w.t, w.flights[request], true);
            Act(c, w, Advance(request, true)) == World(m.t, w.flights[request := m.f], w.ledger)
  {
  }

  lemma FindIs(c: Config, w: World, request: nat, q: Request, hostLabel: string, d: nat, target: Target)
    requires DomainsSound(w.t) && d in w.t.domains && request in w.flights
    requires w.flights[request] == Asked(q, Managed(hostLabel, w.t.domains[d].name), target)
    ensures Act(c, w, Advance(request, true)) == w.(flights := w.flights[request := Placed(q, d, w.t.domains[d], hostLabel, target)])
  {
    AdvanceIs(c, w, request);
    DomainIsFound(w.t, d);
  }

  function Look(request: nat, q: Request): seq<Event> { [Ask(request, q), Advance(request, true), Advance(request, true)] }

  lemma LookFinds(c: Config, w: World, request: nat, q: Request, hostLabel: string, d: nat, target: Target)
    requires DomainsSound(w.t) && d in w.t.domains && request !in w.flights
    requires Asks(c, q, hostLabel, w.t.domains[d].name, target)
    ensures var placed := w.(flights := w.flights[request := Placed(q, d, w.t.domains[d], hostLabel, target)]);
            After(c, w, Look(request, q)) == Act(c, placed, Advance(request, true))
  {
    var z := w.t.domains[d].name;
    var asked := w.(flights := w.flights[request := Asked(q, Managed(hostLabel, z), target)]);
    var placed := w.(flights := w.flights[request := Placed(q, d, w.t.domains[d], hostLabel, target)]);
    assert Act(c, w, Ask(request, q)) == asked by { AskIs(c, w, request, q, hostLabel, z, target); }
    assert Act(c, asked, Advance(request, true)) == placed by {
      FindIs(c, asked, request, q, hostLabel, d, target);
      assert asked.flights[request := placed.flights[request]] == placed.flights;
    }
    Continues(c, w, asked, placed, Ask(request, q), Advance(request, true), Advance(request, true));
  }

  /** An update that finds its zone decides on the host row. */
  lemma LookIs(c: Config, w: World, request: nat, q: Request, hostLabel: string, d: nat, target: Target)
    requires DomainsSound(w.t) && d in w.t.domains && request !in w.flights
    requires Asks(c, q, hostLabel, w.t.domains[d].name, target)
    ensures var m := Choose(c, w.t, q, d, w.t.domains[d], hostLabel, target);
            After(c, w, Look(request, q)) == World(m.t, w.flights[request := m.f], w.ledger)
  {
    LookFinds(c, w, request, q, hostLabel, d, target);
    AdvanceIs(c, w.(flights := w.flights[request := Placed(q, d, w.t.domains[d], hostLabel, target)]), request);
  }

  lemma ContinuesAgain(c: Config, w: World, u: World, v: World, x: World, e: Event, f: Event)
    requires Act(c, w, e) == u && Act(c, u, f) == v && Act(c, v, f) == x
    ensures After(c, w, [e, f, f, f]) == Act(c, x, f)
  {
    AfterFour(c, w, e, f, f, f);
  }

  lemma Continues(c: Config, w: World, u: World, v: World, e: Event, f: Event, g: Event)
    requires Act(c, w, e) == u && Act(c, u, f) == v
    ensures After(c, w, [e, f, g]) == Act(c, v, g)
  {
    AfterThree(c, w, e, f, g);
  }

  function NewRow(q: Request, d: nat, domain: Domain, hostLabel: string, target: Target): Host {
    Host(d, q.device.id, hostLabel, "", RecordType(target), domain.defaultTtl, 0)
  }

  function Choice(q: Request, d: nat, domain: Domain, hostLabel: string, target: Target): Flight {
    Chosen(q, None, NewRow(q, d, domain, hostLabel, target), domain, target)
  }

  lemma ChooseNew(c: Config, t: Tables, q: Request, d: nat, domain: Domain, hostLabel: string, target: Target)
    requires t.hosts == map[] && CanAutocreate(c.policy, q.device.name, hostLabel)
    ensures Choose(c, t, q, d, domain, hostLabel, target) == Move(t, Choice(q, d, domain, hostLabel, target))
  {
    assert HostsAt(t, d, hostLabel) == {};
  }

  lemma MissIs(c: Config, w: World, request: nat, q: Request, m: Managed, target: Target)
    requires request in w.flights && w.flights[request] == Asked(q, m, target) && !DomainExists(w.t, m.zone)
    ensures Act(c, w, Advance(request, true)) == w.(flights := w.flights[request := Missing(q, m, target)])
  {
    AdvanceIs(c, w, request);
    assert EnabledNamed(w.t, m.zone) == {};
  }

  lemma InsertIs(c: Config, w: World, request: nat, q: Request, m: Managed, target: Target)
    requires request in w.flights && w.flights[request] == Missing(q, m, target) && !DomainExists(w.t, m.zone)
    ensures Act(c, w, Advance(request, true))
         == World(PutDomain(w.t, NewDomain(c, m.zone)),
                  w.flights[request := Placed(q, w.t.nextDomain, NewDomain(c, m.zone), m.hostLabel, target)], w.ledger)
  {
    AdvanceIs(c, w, request);
  }

  /** A first update that does not find its host, and may have to add its zone. */
  function Opening(t: Tables, z: string, q: Request): seq<Event> {
    if DomainExists(t, z) then Look(1, q) else [Ask(1, q), Advance(1, true), Advance(1, true), Advance(1, true)]
  }

  lemma PlacedIs(c: Config, w: World, request: nat, q: Request, d: nat, domain: Domain, hostLabel: string, target: Target)
    requires request in w.flights && w.flights[request] == Placed(q, d, domain, hostLabel, target)
    requires w.t.hosts == map[] && CanAutocreate(c.policy, q.device.name, hostLabel)
    ensures Act(c, w, Advance(request, true)) == w.(flights := w.flights[request := Choice(q, d, domain, hostLabel, target)])
  {
    ChooseNew(c, w.t, q, d, domain, hostLabel, target);
    AdvanceIs(c, w, request);
  }

  lemma MissAlone(c: Config, t: Tables, q: Request, m: Managed, target: Target)
    requires !DomainExists(t, m.zone)
    ensures Act(c, World(t, map[1 := Asked(q, m, target)], map[]), Advance(1, true)) == World(t, map[1 := Missing(q, m, target)], map[])
  {
    MissIs(c, World(t, map[1 := Asked(q, m, target)], map[]), 1, q, m, target);
  }

  lemma InsertAlone(c: Config, t: Tables, q: Request, m: Managed, target: Target)
    requires !DomainExists(t, m.zone)
    ensures Act(c, World(t, map[1 := Missing(q, m, target)], map[]), Advance(1, true))
         == World(PutDomain(t, NewDomain(c, m.zone)), map[1 := Placed(q, t.nextDomain, NewDomain(c, m.zone), m.hostLabel, target)], map[])
  {
    InsertIs(c, World(t, map[1 := Missing(q, m, target)], map[]), 1, q, m, target);
  }

  lemma OpeningMisses(c: Config, t: Tables, q: Request, hostLabel: string, z: string, target: Target)
    requires t.hosts == map[] && !DomainExists(t, z) && Asks(c, q, hostLabel, z, target)
    ensures After(c, Start(t), [Ask(1, q), Advance(1, true), Advance(1, true), Advance(1, true)])
         == World(PutDomain(t, NewDomain(c, z)), map[1 := Choice(q, t.nextDomain, NewDomain(c, z), hostLabel, target)], map[])
  {
    var u, m := PutDomain(t, NewDomain(c, z)), Managed(hostLabel, z);
    var asked, missing := World(t, map[1 := Asked(q, m, target)], map[]), World(t, map[1 := Missing(q, m, target)], map[]);
    var placed := World(u, map[1 := Placed(q, t.nextDomain, NewDomain(c, z), hostLabel, target)], map[]);
    AskIs(c, Start(t), 1, q, hostLabel, z, target);
    MissAlone(c, t, q, m, target);
    InsertAlone(c, t, q, m, target);
    ContinuesAgain(c, Start(t), asked, missing, placed, Ask(1, q), Advance(1, true));
    PlacedIs(c, placed, 1, q, t.nextDomain, NewDomain(c, z), hostLabel, target);
  }

  lemma OpeningIs(c: Config, t: Tables, q: Request, hostLabel: string, z: string, target: Target) returns (u: Tables, d: nat)
    requires HostFree(c, t) && Asks(c, q, hostLabel, z, target)
    ensures DomainsSound(u) && u.hosts == map[] && d in u.domains && u.domains[d].name == z
    ensures After(c, Start(t), Opening(t, z, q)) == World(u, map[1 := Choice(q, d, u.domains[d], hostLabel, target)], map[])
  {
    if DomainExists(t, z) {
      u := t;
      d :| d in t.domains && t.domains[d].name == z;
      LookIs(c, Start(t), 1, q, hostLabel, d, target);
      ChooseNew(c, t, q, d, t.domains[d], hostLabel, target);
    } else {
      u, d := PutDomain(t, NewDomain(c, z)), t.nextDomain;
      PutDomainSound(c, t, NewDomain(c, z));
      OpeningMisses(c, t, q, hostLabel, z, target);
    }
  }

  lemma WriteIs(c: Config, w: World, request: nat, q: Request, existing: Option<nat>, host: Host, domain: Domain, target: Target)
    requires request in w.flights && w.flights[request] == Chosen(q, existing, host, domain, target) && q.dnsAccepts
    ensures Act(c, w, Advance(request, true))
         == World(w.t.(records := Upsert(c, w.t.records, host.hostname, domain, target, host.ttl)),
                  w.flights[request := Written(q, existing, host, domain, target)],
                  w.ledger[SpotOf(host) := PutOf(Stored(q, host, target))])
  {
  }

  lemma SaveIs(c: Config, w: World, request: nat, ok: bool)
    requires request in w.flights && w.flights[request].Written?
    ensures var f, v := w.flights[request], Act(c, w, Advance(request, ok));
            && v.ledger == w.ledger && v.t.domains == w.t.domains && v.t.nextDomain == w.t.nextDomain && v.flights.Keys == w.flights.Keys
            && (forall r :: r in w.flights && r != request ==> v.flights[r] == w.flights[r])
            && v.t.hosts == if !Saves(w.t, f.existing, f.host, ok) then w.t.hosts
                            else w.t.hosts[(if f.existing.Some? then f.existing.value else w.t.nextHost) := Stored(f.q, f.host, f.target)]
  {
  }

  // ----- two new updates of one host ------------------------------------------------------

  function Race(t: Tables, z: string, q: Request, other: Request): seq<Event> {
    Opening(t, z, q) + (Look(2, other) + [Advance(1, true), Advance(2, true), Advance(1, true), Advance(2, true)])
  }

  /** Both have found no host row. The record is that of the second to write, the
      row that of the first to save. */
  lemma RaceBreaks(c: Config, start: Tables, q: Request, other: Request, hostLabel: string, z: string, target: Target, otherTarget: Target)
    requires HostFree(c, start) && NoneMeet(c, start)
    requires Asks(c, q, hostLabel, z, target) && Asks(c, other, hostLabel, z, otherTarget) && target != otherTarget
    ensures !InAgreement(After(c, Start(start), Race(start, z, q, other)).t)
  {
    var u, d := OpeningIs(c, start, q, hostLabel, z, target);
    var w := World(u, map[1 := Choice(q, d, u.domains[d], hostLabel, target)], map[]);
    var looked := w.(flights := w.flights[2 := Choice(other, d, u.domains[d], hostLabel, otherTarget)]);
    var last := [Advance(1, true), Advance(2, true), Advance(1, true), Advance(2, true)];
    LookIs(c, w, 2, other, hostLabel, d, otherTarget);
    ChooseNew(c, u, other, d, u.domains[d], hostLabel, otherTarget);
    AfterBoth(c, Start(start), Opening(start, z, q), Look(2, other) + last);
    AfterBoth(c, w, Look(2, other), last);
    assert After(c, w, Look(2, other)) == looked;
    RaceEnds(c, looked, q, other, d, u.domains[d], hostLabel, target, otherTarget);
    Misplaced(c, start, Race(start, z, q, other), u.nextHost);
  }

  /** The row of host h is not what was last written for it. */
  ghost predicate Apart(w: World, h: nat) {
    h in w.t.hosts && !SavedLast(w, w.t.hosts[h])
  }

  lemma RaceEnds(c: Config, w: World, q: Request, other: Request, d: nat, domain: Domain, hostLabel: string, target: Target, otherTarget: Target)
    requires w.t.hosts == map[] && q.dnsAccepts && other.dnsAccepts && target != otherTarget
    requires w.flights == map[1 := Choice(q, d, domain, hostLabel, target), 2 := Choice(other, d, domain, hostLabel, otherTarget)]
    ensures Apart(After(c, w, [Advance(1, true), Advance(2, true), Advance(1, true), Advance(2, true)]), w.t.nextHost)
  {
    var row, otherRow := NewRow(q, d, domain, hostLabel, target), NewRow(other, d, domain, hostLabel, otherTarget);
    AfterFour(c, w, Advance(1, true), Advance(2, true), Advance(1, true), Advance(2, true));
    WriteIs(c, w, 1, q, None, row, domain, target);
    var first := Act(c, w, Advance(1, true));
    WriteIs(c, first, 2, other, None, otherRow, domain, otherTarget);
    var second := Act(c, first, Advance(2, true));
    assert HostsAt(second.t, d, hostLabel) == {};
    SaveIs(c, second, 1, true);
    var third := Act(c, second, Advance(1, true));
    assert w.t.nextHost in HostsAt(third.t, d, hostLabel);
    SaveIs(c, third, 2, true);
  }

  lemma Misplaced(c: Config, start: Tables, events: seq<Event>, h: nat)
    requires HostFree(c, start) && NoneMeet(c, start) && Apart(After(c, Start(start), events), h)
    ensures !InAgreement(After(c, Start(start), events).t)
  {
    ReachableTracks(c, start, events);
    ServedIff(c, After(c, Start(start), events), h);
  }

  // ----- a save that fails --------------------------------------------------------------------

  function FirstSave(): seq<Event> { [Advance(1, true), Advance(1, true)] }

  function SecondSave(): seq<Event> { [Advance(2, true), Advance(2, false)] }

  function LostSave(t: Tables, z: string, q: Request, other: Request): seq<Event> {
    Opening(t, z, q) + (FirstSave() + (Look(2, other) + SecondSave()))
  }

  /** The tables once the first update has saved its row h. */
  ghost predicate HasRow(w: World, t: Tables, h: nat, row: Host) {
    w.t.domains == t.domains && w.t.nextDomain == t.nextDomain && w.t.hosts == map[h := row] && w.flights.Keys == {1}
  }

  lemma FirstIsSaved(c: Config, w: World, q: Request, d: nat, domain: Domain, hostLabel: string, target: Target)
    requires w.t.hosts == map[] && q.dnsAccepts && w.flights == map[1 := Choice(q, d, domain, hostLabel, target)]
    ensures HasRow(After(c, w, FirstSave()), w.t, w.t.nextHost,
                   Stored(q, NewRow(q, d, domain, hostLabel, target), target))
  {
    AfterTwo(c, w, Advance(1, true), Advance(1, true));
    WriteIs(c, w, 1, q, None, NewRow(q, d, domain, hostLabel, target), domain, target);
    var written := Act(c, w, Advance(1, true));
    assert HostsAt(written.t, d, hostLabel) == {};
    SaveIs(c, written, 1, true);
  }

  lemma ChooseKnown(c: Config, t: Tables, h: nat, row: Host, other: Request, domain: Domain, target: Target)
    requires t.hosts == map[h := row] && row.deviceId == other.device.id && PutOf(Stored(other, row, target)) != PutOf(row)
    ensures Choose(c, t, other, row.domainId, domain, row.hostname, target) == Move(t, Chosen(other, Some(h), row, domain, target))
  {
    assert HostsAt(t, row.domainId, row.hostname) == {h};
    FirstOfSingleton(HostsAt(t, row.domainId, row.hostname), h);
  }

  lemma SecondFails(c: Config, w: World, h: nat, other: Request, domain: Domain, target: Target)
    requires h in w.t.hosts && 2 in w.flights && w.flights[2] == Chosen(other, Some(h), w.t.hosts[h], domain, target)
    requires other.dnsAccepts && PutOf(Stored(other, w.t.hosts[h], target)) != PutOf(w.t.hosts[h])
    ensures Apart(After(c, w, SecondSave()), h)
  {
    AfterTwo(c, w, Advance(2, true), Advance(2, false));
    WriteIs(c, w, 2, other, Some(h), w.t.hosts[h], domain, target);
    SaveIs(c, Act(c, w, Advance(2, true)), 2, false);
  }

  lemma LostSaveEnds(c: Config, w: World, h: nat, row: Host, other: Request, target: Target)
    requires DomainsSound(w.t) && row.domainId in w.t.domains && HasRow(w, w.t, h, row) && row.deviceId == other.device.id
    requires Asks(c, other, row.hostname, w.t.domains[row.domainId].name, target) && PutOf(Stored(other, row, target)) != PutOf(row)
    ensures Apart(After(c, w, Look(2, other) + SecondSave()), h)
  {
    var domain := w.t.domains[row.domainId];
    AfterBoth(c, w, Look(2, other), SecondSave());
    LookIs(c, w, 2, other, row.hostname, row.domainId, target);
    ChooseKnown(c, w.t, h, row, other, domain, target);
    SecondFails(c, After(c, w, Look(2, other)), h, other, domain, target);
  }

  lemma OtherPut(q: Request, other: Request, row: Host, target: Target, otherTarget: Target)
    requires target != otherTarget
    ensures PutOf(Stored(other, Stored(q, row, target), otherTarget)) != PutOf(Stored(q, row, target))
  {
    assert "A" != "AAAA" by { assert |"A"| != |"AAAA"|; }
  }

  lemma LostSaveFrom(c: Config, w: World, q: Request, d: nat, domain: Domain, hostLabel: string, target: Target, other: Request, otherTarget: Target)
    requires DomainsSound(w.t) && w.t.hosts == map[] && d in w.t.domains && w.t.domains[d] == domain
    requires w.flights == map[1 := Choice(q, d, domain, hostLabel, target)]
    requires q.dnsAccepts && Asks(c, other, hostLabel, domain.name, otherTarget)
    requires target != otherTarget && q.device.id == other.device.id
    ensures Apart(After(c, w, FirstSave() + (Look(2, other) + SecondSave())), w.t.nextHost)
  {
    var v, row := After(c, w, FirstSave()), Stored(q, NewRow(q, d, domain, hostLabel, target), target);
    FirstIsSaved(c, w, q, d, domain, hostLabel, target);
    OtherPut(q, other, NewRow(q, d, domain, hostLabel, target), target, otherTarget);
    LostSaveEnds(c, v, w.t.nextHost, row, other, otherTarget);
    AfterBoth(c, w, FirstSave(), Look(2, other) + SecondSave());
  }

  /** The record is new, the row is not. */
  lemma LostSaveBreaks(c: Config, start: Tables, q: Request, other: Request, hostLabel: string, z: string, target: Target, otherTarget: Target)
    requires HostFree(c, start) && NoneMeet(c, start)
    requires Asks(c, q, hostLabel, z, target) && Asks(c, other, hostLabel, z, otherTarget)
    requires target != otherTarget && q.device.id == other.device.id
    ensures !InAgreement(After(c, Start(start), LostSave(start, z, q, other)).t)
  {
    var u, d := OpeningIs(c, start, q, hostLabel, z, target);
    var w := World(u, map[1 := Choice(q, d, u.domains[d], hostLabel, target)], map[]);
    LostSaveFrom(c, w, q, d, u.domains[d], hostLabel, target, other, otherTarget);
    AfterBoth(c, Start(start), Opening(start, z, q), FirstSave() + (Look(2, other) + SecondSave()));
    Misplaced(c, start, LostSave(start, z, q, other), u.nextHost);
  }

  /** With two addresses, both can happen to the updates of one device. */
  lemma BothHappen(c: Config, start: Tables, hostLabel: string, z: string, ip: string, otherIp: string)
    requires HostFree(c, start) && NoneMeet(c, start) && IsLabel(hostLabel) && Plain(hostLabel) && Splittable(z, Zones(c))
    requires c.parseIp(ip).Some? && c.parseIp(otherIp).Some? && c.parseIp(ip) != c.parseIp(otherIp)
    ensures var q, other := RequestFor(1, hostLabel, z, ip), RequestFor(1, hostLabel, z, otherIp);
            && !InAgreement(After(c, Start(start), Race(start, z, q, other)).t)
            && !InAgreement(After(c, Start(start), LostSave(start, z, q, other)).t)
  {
    var q, other := RequestFor(1, hostLabel, z, ip), RequestFor(1, hostLabel, z, otherIp);
    RequestAsks(c, 1, hostLabel, z, ip);
    RequestAsks(c, 1, hostLabel, z, otherIp);
    RaceBreaks(c, start, q, other, hostLabel, z, c.parseIp(ip).value, c.parseIp(otherIp).value);
    LostSaveBreaks(c, start, q, other, hostLabel, z, c.parseIp(ip).value, c.parseIp(otherIp).value);
  }
}
