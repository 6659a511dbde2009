// The history of a host: which record was last written to DNS for it, and which
// one was last saved in its row. And the statements of one update in a history.
module HostHistory {
  import opened Wrappers
  import opened HostTables
  import opened HostSoundness
  import opened HostAgreement
  import opened HostStatements
  import opened HostOrder

  /** What the flight of the event puts into DNS, and into its row. */
  function PutBy(w: World, e: Event): Put
    requires e.Advance? && e.request in w.flights && (w.flights[e.request].Chosen? || w.flights[e.request].Written?)
  {
    var f := w.flights[e.request];
    PutOf(Stored(f.q, f.host, f.target))
  }

  predicate WritesAt(w: World, e: Event, k: Spot) {
    WritesDns(w, e) && SpotOf(w.flights[e.request].host) == k
  }

  predicate SavesRow(w: World, e: Event) {
    && e.Advance? && e.request in w.flights && w.flights[e.request].Written?
    && Saves(w.t, w.flights[e.request].existing, w.flights[e.request].host, e.ok)
  }

  predicate SavesAt(w: World, e: Event, k: Spot) {
    SavesRow(w, e) && SpotOf(w.flights[e.request].host) == k
  }

  /** The record of the last write to DNS for the host at k. */
  function LastWrite(c: Config, start: Tables, events: seq<Event>, k: Spot): Option<Put>
    decreases |events|
  {
    if events == [] then None
    else
      var before, e := events[..|events| - 1], events[|events| - 1];
      var w := After(c, Start(start), before);
      if WritesAt(w, e, k) then Some(PutBy(w, e)) else LastWrite(c, start, before, k)
  }

  /** The record of the last update that saved a row for the host at k. */
  function LastSave(c: Config, start: Tables, events: seq<Event>, k: Spot): Option<Put>
    decreases |events|
  {
    if events == [] then None
    else
      var before, e := events[..|events| - 1], events[|events| - 1];
      var w := After(c, Start(start), before);
      if SavesAt(w, e, k) then Some(PutBy(w, e)) else LastSave(c, start, before, k)
  }

  lemma WriteIsListed(c: Config, w: World, e: Event)
    requires WritesDns(w, e)
    ensures Act(c, w, e).ledger == w.ledger[SpotOf(w.flights[e.request].host) := PutBy(w, e)]
  {
  }

  lemma {:induction false} LedgerIsLastWrite(c: Config, start: Tables, events: seq<Event>, k: Spot)
    ensures var ledger := After(c, Start(start), events).ledger;
            LastWrite(c, start, events, k) == if k in ledger then Some(ledger[k]) else None
    decreases |events|
  {
    if events != [] {
      var before, e := events[..|events| - 1], events[|events| - 1];
      var w := After(c, Start(start), before);
      LedgerIsLastWrite(c, start, before, k);
      if WritesDns(w, e) { WriteIsListed(c, w, e); } else { OthersLeaveRecords(c, w, e); }
    }
  }

  lemma SavedIs(c: Config, w: World, e: Event, h: nat)
    requires Consistent(c, w) && SavesRow(w, e) && h in Act(c, w, e).t.hosts
    ensures var f, row := w.flights[e.request], Act(c, w, e).t.hosts[h];
            if h == (if f.existing.Some? then f.existing.value else w.t.nextHost) then SpotOf(row) == SpotOf(f.host) && PutOf(row) == PutBy(w, e)
            else h in w.t.hosts && row == w.t.hosts[h] && SpotOf(row) != SpotOf(f.host)
  {
    var f := w.flights[e.request];
    assert FlightFits(c, w.t, w.ledger, f);
    SaveIs(c, w, e.request, e.ok);
    if h != (if f.existing.Some? then f.existing.value else w.t.nextHost) {
      OthersKeepTheirSpot(c, w.t, f.existing, f.host, f.domain, h);
    }
  }

  lemma OthersKeepRows(c: Config, w: World, e: Event, h: nat)
    requires !SavesRow(w, e) && h in Act(c, w, e).t.hosts
    ensures h in w.t.hosts
    ensures SpotOf(Act(c, w, e).t.hosts[h]) == SpotOf(w.t.hosts[h]) && PutOf(Act(c, w, e).t.hosts[h]) == PutOf(w.t.hosts[h])
  {
    match e
    case Ask(_, _) =>
    case Create(_, _, _) =>
    case Advance(request, ok) =>
      if request in w.flights {
        if w.flights[request].Written? { SaveIs(c, w, request, ok); } else { QuietRows(c, w.t, w.flights[request], ok); }
      }
  }

  lemma {:induction false} RowIsLastSave(c: Config, start: Tables, events: seq<Event>, h: nat)
    requires HostFree(c, start) && h in After(c, Start(start), events).t.hosts
    ensures var row := After(c, Start(start), events).t.hosts[h]; LastSave(c, start, events, SpotOf(row)) == Some(PutOf(row))
    decreases |events|
  {
    var before, e := events[..|events| - 1], events[|events| - 1];
    var w := After(c, Start(start), before);
    ReachableIsConsistent(c, start, before);
    if SavesRow(w, e) { SavedIs(c, w, e, h); } else { OthersKeepRows(c, w, e, h); }
    if !SavesAt(w, e, SpotOf(Act(c, w, e).t.hosts[h])) { RowIsLastSave(c, start, before, h); }
  }

  /** However updates interleave and whatever fails: a host agrees with DNS exactly
      when the last write to DNS for it and the last save of its row are of one
      update, or of updates that asked for the same record. */
  lemma HostAgreesIff(c: Config, start: Tables, events: seq<Event>, h: nat)
    requires HostFree(c, start) && NoneMeet(c, start) && h in After(c, Start(start), events).t.hosts
    ensures var t := After(c, Start(start), events).t;
            && t.hosts[h].domainId in t.domains
            && (Served(t, t.hosts[h])
                <==> LastWrite(c, start, events, SpotOf(t.hosts[h])) == LastSave(c, start, events, SpotOf(t.hosts[h])))
  {
    var w := After(c, Start(start), events);
    ReachableTracks(c, start, events);
    ServedIff(c, w, h);
    LedgerIsLastWrite(c, start, events, SpotOf(w.t.hosts[h]));
    RowIsLastSave(c, start, events, h);
  }

  lemma AgreementIsHistory(c: Config, start: Tables, events: seq<Event>)
    requires HostFree(c, start) && NoneMeet(c, start)
    ensures var t := After(c, Start(start), events).t;
            InAgreement(t) <==> forall h :: h in t.hosts ==>
              LastWrite(c, start, events, SpotOf(t.hosts[h])) == LastSave(c, start, events, SpotOf(t.hosts[h]))
  {
    var t := After(c, Start(start), events).t;
    forall h | h in t.hosts ensures
      && t.hosts[h].domainId in t.domains
      && (Served(t, t.hosts[h])
          <==> LastWrite(c, start, events, SpotOf(t.hosts[h])) == LastSave(c, start, events, SpotOf(t.hosts[h]))) {
      HostAgreesIff(c, start, events, h);
    }
  }

  // ----- the statements of one update in a history ----------------------------------------

  /** The event does not belong to the request. */
  predicate Foreign(e: Event, request: nat) {
    match e
    case Ask(r, _) => r != request
    case Advance(r, _) => r != request
    case Create(_, _, _) => true
  }

  lemma {:induction false} ForeignLeavesFlight(c: Config, w: World, events: seq<Event>, request: nat)
    requires request in w.flights && forall e :: e in events ==> Foreign(e, request)
    ensures request in After(c, w, events).flights && After(c, w, events).flights[request] == w.flights[request]
    decreases |events|
  {
    if events != [] {
      assert events[|events| - 1] in events;
      ForeignLeavesFlight(c, w, events[..|events| - 1], request);
    }
  }

  /** Before each statement of the request, the events of others in a gap. */
  function Interleaved(request: nat, gaps: seq<seq<Event>>, oks: seq<bool>): seq<Event>
    requires |gaps| == |oks|
  {
    if gaps == [] then [] else gaps[0] + ([Advance(request, oks[0])] + Interleaved(request, gaps[1..], oks[1..]))
  }

  /** The same as turns: what others leave before each statement. */
  function TurnsOf(c: Config, w: World, request: nat, gaps: seq<seq<Event>>, oks: seq<bool>): seq<Turn>
    requires |gaps| == |oks|
    decreases |gaps|
  {
    if gaps == [] then []
    else
      var u := After(c, w, gaps[0]);
      [Turn(_ => u.t, oks[0])] + TurnsOf(c, Act(c, u, Advance(request, oks[0])), request, gaps[1..], oks[1..])
  }

  /** The request has a statement left for every gap. */
  ghost predicate Running(c: Config, w: World, request: nat, gaps: seq<seq<Event>>, oks: seq<bool>)
    requires |gaps| == |oks|
    decreases |gaps|
  {
    gaps != [] ==>
      && request in w.flights && !w.flights[request].Done?
      && Running(c, Act(c, After(c, w, gaps[0]), Advance(request, oks[0])), request, gaps[1..], oks[1..])
  }

  /** An update whose statements take turns with others is one request of a history
      of interleaved statements. */
  lemma {:induction false} TurnsAreHistory(c: Config, w: World, request: nat, gaps: seq<seq<Event>>, oks: seq<bool>)
    requires |gaps| == |oks| && request in w.flights && Running(c, w, request, gaps, oks)
    requires forall g, e :: g in gaps && e in g ==> Foreign(e, request)
    ensures var v := After(c, w, Interleaved(request, gaps, oks));
            && request in v.flights
            && Taken(c, w.t, w.flights[request], TurnsOf(c, w, request, gaps, oks)) == Move(v.t, v.flights[request])
    decreases |gaps|
  {
    if gaps != [] {
      var mine := [Advance(request, oks[0])];
      var u := After(c, w, gaps[0]);
      var v := Act(c, u, mine[0]);
      assert gaps[0] in gaps;
      ForeignLeavesFlight(c, w, gaps[0], request);
      AfterOne(c, u, mine[0]);
      AfterBoth(c, w, gaps[0], mine + Interleaved(request, gaps[1..], oks[1..]));
      AfterBoth(c, u, mine, Interleaved(request, gaps[1..], oks[1..]));
      TurnsAreHistory(c, v, request, gaps[1..], oks[1..]);
      FirstTurn(c, w, request, gaps, oks);
    }
  }

  lemma FirstTurn(c: Config, w: World, request: nat, gaps: seq<seq<Event>>, oks: seq<bool>)
    requires gaps != [] && |gaps| == |oks| && request in w.flights && !w.flights[request].Done?
    requires request in After(c, w, gaps[0]).flights && After(c, w, gaps[0]).flights[request] == w.flights[request]
    ensures var v := Act(c, After(c, w, gaps[0]), Advance(request, oks[0]));
            && request in v.flights
            && Taken(c, w.t, w.flights[request], TurnsOf(c, w, request, gaps, oks))
               == Taken(c, v.t, v.flights[request], TurnsOf(c, v, request, gaps[1..], oks[1..]))
  {
    var u := After(c, w, gaps[0]);
    var turns, rest := TurnsOf(c, w, request, gaps, oks), TurnsOf(c, Act(c, u, Advance(request, oks[0])), request, gaps[1..], oks[1..]);
    assert turns[0].others(w.t) == u.t && turns[0].ok == oks[0] && turns[1..] == rest;
    TakenNext(c, w.t, w.flights[request], turns);
  }
}
