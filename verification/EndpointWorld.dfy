// The update endpoint over the rotation tables, the host tables and the requests
// in flight together: the success that lets a request confirm its credential is
// the success of its own update of the host tables and of DNS.
module EndpointWorld {
  import opened Clock
  import opened Wrappers
  import R = RotationTables
  import Q = RotationRequests
  import H = HostTables
  import S = HostStatements
  import opened UpdateEndpoint

  datatype World = World(t: R.Tables, h: H.Tables, flights: map<nat, Q.Flight>)

  datatype Event =
    | Rotation(step: R.Step)
    | Hosts(hostStep: H.Step)
    | Accept(request: nat, credentialId: nat, name: string, keyHash: string, now: Time)
    | Update(request: nat, q: Query, now: Time, turns: seq<S.Turn>)
    | Confirm(request: nat, now: Time)

  predicate InFlight(flights: map<nat, Q.Flight>, request: nat) {
    request in flights && flights[request].Accepted?
  }

  /** The update of a request is made in the name of its credential's device. */
  function RequestBy(t: R.Tables, c: nat, q: Query, now: Time): H.Request {
    var d := if c in t.credentials then t.credentials[c].deviceId else 0;
    RequestOf(d, if d in t.devices then t.devices[d].name else "", q, now)
  }

  function Attempt(config: H.Config, w: World, request: nat, q: Query, now: Time, turns: seq<S.Turn>): H.Outcome<H.Updated>
    requires request in w.flights
  {
    S.Tried(config, w.h, RequestBy(w.t, w.flights[request].credentialId, q, now), turns)
  }

  /** Confirmations and updates belong to requests; the other writers do neither. */
  function Act(config: H.Config, w: World, e: Event): World {
    match e
    case Rotation(s) => if s.ConfirmStep? then w else w.(t := R.Apply(w.t, s))
    case Hosts(s) => if s.UpdateStep? then w else w.(h := H.Apply(config, w.h, s))
    case Accept(q, c, name, keyHash, now) =>
      if q in w.flights || c !in R.Admissible(w.t, name, keyHash, now) then w
      else w.(flights := w.flights[q := Q.Accepted(c)])
    case Update(request, q, now, turns) =>
      if !InFlight(w.flights, request) then w
      else
        var o := Attempt(config, w, request, q, now, turns);
        World(w.t, o.tables,
              if o.result.Ok? then w.flights[request := Q.Updated(w.flights[request].credentialId)]
              else w.flights - {request})
    case Confirm(request, now) =>
      if request !in w.flights || !w.flights[request].Updated? then w
      else World(R.ConfirmCredentialUse(w.t, w.flights[request].credentialId, now).tables, w.h, w.flights - {request})
  }

  /** The state after a history of events, from any host tables and DNS records. */
  function After(config: H.Config, h0: H.Tables, events: seq<Event>): World
    decreases |events|
  {
    if events == [] then World(R.EMPTY, h0, map[])
    else Act(config, After(config, h0, events[..|events| - 1]), events[|events| - 1])
  }

  // ----- the requests alone --------------------------------------------------------

  /** The same event without the host tables. A confirmation outside any request
      is an event that does nothing. */
  function Shadow(config: H.Config, w: World, e: Event): Q.Event {
    match e
    case Rotation(s) => Q.Other(s)
    case Hosts(_) => Q.Other(R.ConfirmStep(0, 0))
    case Accept(q, c, name, keyHash, now) => Q.Accept(q, c, name, keyHash, now)
    case Update(request, q, now, turns) =>
      Q.Report(request, InFlight(w.flights, request) && Attempt(config, w, request, q, now, turns).result.Ok?)
    case Confirm(request, now) => Q.Confirm(request, now)
  }

  function Shadows(config: H.Config, h0: H.Tables, events: seq<Event>): seq<Q.Event>
    decreases |events|
  {
    if events == [] then []
    else
      var before := events[..|events| - 1];
      Shadows(config, h0, before) + [Shadow(config, After(config, h0, before), events[|events| - 1])]
  }

  function Seen(w: World): Q.World { Q.World(w.t, w.flights) }

  lemma ShadowActs(config: H.Config, w: World, e: Event)
    ensures Seen(Act(config, w, e)) == Q.Act(Seen(w), Shadow(config, w, e))
  {
  }

  lemma {:induction false} ShadowsAgree(config: H.Config, h0: H.Tables, events: seq<Event>)
    ensures |Shadows(config, h0, events)| == |events|
    ensures Q.After(Shadows(config, h0, events)) == Seen(After(config, h0, events))
    decreases |events|
  {
    if events != [] {
      var before := events[..|events| - 1];
      var shadows := Shadows(config, h0, events);
      ShadowsAgree(config, h0, before);
      ShadowActs(config, After(config, h0, before), events[|events| - 1]);
      assert shadows[..|shadows| - 1] == Shadows(config, h0, before);
    }
  }

  lemma {:induction false} ShadowsTo(config: H.Config, h0: H.Tables, events: seq<Event>, j: nat)
    requires j < |events|
    ensures |Shadows(config, h0, events)| == |events|
    ensures Shadows(config, h0, events)[..j] == Shadows(config, h0, events[..j])
    ensures Shadows(config, h0, events)[j] == Shadow(config, After(config, h0, events[..j]), events[j])
    decreases |events|
  {
    var last := |events| - 1;
    ShadowsGrow(config, h0, events);
    if j < last {
      ShadowsTo(config, h0, events[..last], j);
      assert events[..last][..j] == events[..j];
      assert Shadows(config, h0, events)[..j] == Shadows(config, h0, events)[..last][..j];
    }
  }

  lemma ShadowsGrow(config: H.Config, h0: H.Tables, events: seq<Event>)
    requires events != []
    ensures var last, shadows := |events| - 1, Shadows(config, h0, events);
            && |shadows| == |events| && shadows[..last] == Shadows(config, h0, events[..last])
            && shadows[last] == Shadow(config, After(config, h0, events[..last]), events[last])
  {
    ShadowsAgree(config, h0, events[..|events| - 1]);
  }

  // ----- evidence ----------------------------------------------------------------------

  ghost predicate AcceptedAt(config: H.Config, h0: H.Tables, events: seq<Event>, i: nat, request: nat, c: nat) {
    && i < |events| && events[i].Accept? && events[i].request == request && events[i].credentialId == c
    && var e, w := events[i], After(config, h0, events[..i]);
       request !in w.flights && c in R.Admissible(w.t, e.name, e.keyHash, e.now)
  }

  /** At event j the update of a request in flight with credential c succeeded. */
  ghost predicate UpdatedAt(config: H.Config, h0: H.Tables, events: seq<Event>, j: nat, request: nat, c: nat) {
    && j < |events| && events[j].Update? && events[j].request == request
    && var e, w := events[j], After(config, h0, events[..j]);
       request in w.flights && w.flights[request] == Q.Accepted(c)
       && Attempt(config, w, request, e.q, e.now, e.turns).result.Ok?
  }

  /** Some request accepted with credential c has updated a host with it. */
  ghost predicate HasUpdated(config: H.Config, h0: H.Tables, events: seq<Event>, c: nat) {
    exists i: nat, j: nat, request: nat :: i < j
      && AcceptedAt(config, h0, events, i, request, c) && UpdatedAt(config, h0, events, j, request, c)
  }

  lemma ShadowAccepted(config: H.Config, h0: H.Tables, events: seq<Event>, i: nat, request: nat, c: nat)
    requires Q.AcceptedAt(Shadows(config, h0, events), i, request, c) && i < |events|
    ensures AcceptedAt(config, h0, events, i, request, c)
  {
    ShadowsTo(config, h0, events, i);
    ShadowsAgree(config, h0, events[..i]);
  }

  lemma ShadowUpdated(config: H.Config, h0: H.Tables, events: seq<Event>, j: nat, request: nat, c: nat)
    requires Q.UpdatedAt(Shadows(config, h0, events), j, request, c) && j < |events|
    ensures UpdatedAt(config, h0, events, j, request, c)
  {
    ShadowsTo(config, h0, events, j);
    ShadowsAgree(config, h0, events[..j]);
  }

  lemma ProvenHasUpdated(config: H.Config, h0: H.Tables, events: seq<Event>, c: nat)
    requires Q.Proven(Shadows(config, h0, events), c)
    ensures HasUpdated(config, h0, events, c)
  {
    var shadows := Shadows(config, h0, events);
    ShadowsAgree(config, h0, events);
    var i: nat, j: nat, request: nat :| i < j && Q.AcceptedAt(shadows, i, request, c) && Q.UpdatedAt(shadows, j, request, c);
    ShadowAccepted(config, h0, events, i, request, c);
    ShadowUpdated(config, h0, events, j, request, c);
  }

  /** A rotation in grace or completed was preceded by a request accepted with its
      new credential whose update of the host tables and of DNS succeeded. */
  lemma ConfirmationNeedsUpdate(config: H.Config, h0: H.Tables, events: seq<Event>, r: nat)
    requires var t := After(config, h0, events).t;
             r in t.rotations && t.rotations[r].status in {R.InGrace, R.Completed}
    ensures var row := After(config, h0, events).t.rotations[r];
            row.newId.Some? && HasUpdated(config, h0, events, row.newId.value)
  {
    ShadowsAgree(config, h0, events);
    Q.ConfirmationNeedsEvidence(Shadows(config, h0, events), r);
    ProvenHasUpdated(config, h0, events, After(config, h0, events).t.rotations[r].newId.value);
  }

  /** Credential c lets device d in at time now, and is known to work. */
  ghost predicate Dependable(config: H.Config, h0: H.Tables, events: seq<Event>, d: nat, c: nat, now: Time) {
    var t := After(config, h0, events).t;
    && c in t.credentials && t.credentials[c].deviceId == d && R.Usable(t.credentials[c], now)
    && (t.credentials[c].replacesId == None || HasUpdated(config, h0, events, c))
  }

  /** No device is ever locked out, nor left with a key that never updated a host. */
  lemma NoLockout(config: H.Config, h0: H.Tables, events: seq<Event>, d: nat, now: Time)
    requires d in After(config, h0, events).t.devices
    ensures exists c :: Dependable(config, h0, events, d, c, now)
  {
    ShadowsAgree(config, h0, events);
    Q.NoLockout(Shadows(config, h0, events), d, now);
    var c :| Q.Dependable(Shadows(config, h0, events), d, c, now);
    if Q.Proven(Shadows(config, h0, events), c) { ProvenHasUpdated(config, h0, events, c); }
    assert Dependable(config, h0, events, d, c, now);
  }
}
