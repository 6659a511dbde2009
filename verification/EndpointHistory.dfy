// One request handled by the endpoint is a piece of the endpoint's history, with
// the events of any other requests and writers between its own: what is proved of
// every history holds around the endpoint.
module EndpointHistory {
  import opened Wrappers
  import R = RotationTables
  import RL = RotationLives
  import RP = RotationProgress
  import RS = RotationService
  import Q = RotationRequests
  import H = HostTables
  import S = HostStatements
  import opened UpdateEndpoint
  import opened EndpointWorld

  function ActAll(config: H.Config, w: World, events: seq<Event>): World
    decreases |events|
  {
    if events == [] then w else ActAll(config, Act(config, w, events[0]), events[1..])
  }

  lemma {:induction false} ActInTurn(config: H.Config, w: World, a: seq<Event>, b: seq<Event>)
    ensures ActAll(config, w, a + b) == ActAll(config, ActAll(config, w, a), b)
    decreases |a|
  {
    if a == [] {
      assert a + b == b;
    } else {
      assert (a + b)[0] == a[0] && (a + b)[1..] == a[1..] + b;
      ActInTurn(config, Act(config, w, a[0]), a[1..], b);
    }
  }

  lemma {:induction false} AfterIsActAll(config: H.Config, h0: H.Tables, events: seq<Event>, more: seq<Event>)
    ensures After(config, h0, events + more) == ActAll(config, After(config, h0, events), more)
    decreases |more|
  {
    if more == [] {
      assert events + more == events;
    } else {
      assert (events + [more[0]])[..|events|] == events;
      AfterIsActAll(config, h0, events + [more[0]], more[1..]);
      assert events + more == events + [more[0]] + more[1..];
    }
  }

  // ----- the events of others ------------------------------------------------------

  /** The event does not belong to the request. */
  predicate IsForeign(e: Event, request: nat) {
    match e
    case Accept(q, _, _, _, _) => q != request
    case Update(q, _, _, _) => q != request
    case Confirm(q, _) => q != request
    case _ => true
  }

  /** What an update does to the host tables. */
  function Trial(config: H.Config, asked: H.Request, turns: seq<S.Turn>): H.Tables -> H.Tables {
    h => S.Tried(config, h, asked, turns).tables
  }

  /** What an event writes to the rotation tables and to the host tables. */
  function Writes(config: H.Config, w: World, e: Event): Gap {
    match e
    case Rotation(s) => Gap(if s.ConfirmStep? then [] else [s], h => h)
    case Hosts(s) => Gap([], if s.UpdateStep? then h => h else h => H.Apply(config, h, s))
    case Accept(_, _, _, _, _) => Gap([], h => h)
    case Update(request, q, now, turns) =>
      if !InFlight(w.flights, request) then Gap([], h => h)
      else
        Gap([], Trial(config, RequestBy(w.t, w.flights[request].credentialId, q, now), turns))
    case Confirm(request, now) =>
      Gap(if request in w.flights && w.flights[request].Updated? then [R.ConfirmStep(w.flights[request].credentialId, now)] else [], h => h)
  }

  function Committed(config: H.Config, w: World, events: seq<Event>): Gap
    decreases |events|
  {
    if events == [] then Gap([], h => h)
    else
      var first, rest := Writes(config, w, events[0]), Committed(config, Act(config, w, events[0]), events[1..]);
      Gap(first.rotation + rest.rotation, h => rest.hosts(first.hosts(h)))
  }

  ghost predicate SameFlight(w: World, u: World, request: nat) {
    (request in w.flights <==> request in u.flights)
    && (request in w.flights ==> u.flights[request] == w.flights[request])
  }

  lemma AttemptWrites(config: H.Config, w: World, e: Event, request: nat)
    requires e.Update? && e.request != request
    ensures var u := Act(config, w, e);
            && SameFlight(w, u, request) && u.t == w.t
            && u.h == if InFlight(w.flights, e.request)
                      then S.Tried(config, w.h, RequestBy(w.t, w.flights[e.request].credentialId, e.q, e.now), e.turns).tables else w.h
  {
  }

  lemma UpdateCommits(config: H.Config, w: World, e: Event)
    requires e.Update?
    ensures Writes(config, w, e).rotation == []
    ensures Writes(config, w, e).hosts(w.h)
         == if InFlight(w.flights, e.request)
            then S.Tried(config, w.h, RequestBy(w.t, w.flights[e.request].credentialId, e.q, e.now), e.turns).tables else w.h
  {
  }

  lemma UpdateWrites(config: H.Config, w: World, e: Event, request: nat)
    requires e.Update? && e.request != request
    ensures var u, g := Act(config, w, e), Writes(config, w, e);
            SameFlight(w, u, request) && g.rotation == [] && u.t == w.t && u.h == g.hosts(w.h)
  {
    UpdateCommits(config, w, e);
    AttemptWrites(config, w, e, request);
  }

  lemma ConfirmWrites(config: H.Config, w: World, e: Event, request: nat)
    requires e.Confirm? && e.request != request
    ensures var u, g := Act(config, w, e), Writes(config, w, e);
            && SameFlight(w, u, request) && |g.rotation| <= 1 && u.h == g.hosts(w.h)
            && u.t == (if g.rotation == [] then w.t else R.Apply(w.t, g.rotation[0]))
  {
  }

  lemma OneWrites(config: H.Config, w: World, e: Event, request: nat)
    requires IsForeign(e, request)
    ensures var u, g := Act(config, w, e), Writes(config, w, e);
            && SameFlight(w, u, request) && |g.rotation| <= 1 && u.h == g.hosts(w.h)
            && u.t == (if g.rotation == [] then w.t else R.Apply(w.t, g.rotation[0]))
  {
    match e
    case Update(_, _, _, _) => UpdateWrites(config, w, e, request);
    case Confirm(_, _) => ConfirmWrites(config, w, e, request);
    case _ =>
  }

  lemma RunFirst(t: R.Tables, first: seq<R.Step>, rest: seq<R.Step>)
    requires |first| <= 1
    ensures R.Run(t, first + rest) == R.Run(if first == [] then t else R.Apply(t, first[0]), rest)
  {
    assert first == [] ==> first + rest == rest;
    assert first != [] ==> (first + rest)[1..] == rest;
  }

  /** The events of others write what they commit, and leave the request's flight
      alone. */
  lemma {:induction false} GapActs(config: H.Config, w: World, events: seq<Event>, request: nat)
    requires forall e :: e in events ==> IsForeign(e, request)
    ensures var u, g := ActAll(config, w, events), Committed(config, w, events);
            u.t == R.Run(w.t, g.rotation) && u.h == g.hosts(w.h) && SameFlight(w, u, request)
    decreases |events|
  {
    if events != [] {
      var u, first := Act(config, w, events[0]), Writes(config, w, events[0]);
      var rest := Committed(config, u, events[1..]);
      OneWrites(config, w, events[0], request);
      GapActs(config, u, events[1..], request);
      RunFirst(w.t, first.rotation, rest.rotation);
    }
  }

  // ----- one request ---------------------------------------------------------------------

  /** The events others contribute at the four points of a request. */
  datatype Others = Others(
    beforeRows: seq<Event>,
    beforeStamp: seq<Event>,
    beforeUpdate: seq<Event>,
    beforeConfirm: seq<Event>)

  ghost predicate AllForeign(o: Others, request: nat) {
    forall e :: e in o.beforeRows + o.beforeStamp + o.beforeUpdate + o.beforeConfirm ==> IsForeign(e, request)
  }

  /** A request, what it asks, the credential it is accepted with, and its clocks. */
  datatype Call = Call(request: nat, auth: Credentials, q: Query, credentialId: nat, s: Schedule)

  function AcceptOf(k: Call): Event {
    Accept(k.request, k.credentialId, k.auth.username, k.auth.keyHash, k.s.authenticatedAt)
  }

  function StampOf(k: Call): Event { Rotation(R.StampStep(k.credentialId, k.q.callerIp, k.s.authenticatedAt)) }

  function UpdateOf(k: Call): Event { Update(k.request, k.q, k.s.updatedAt, k.s.turns) }

  function ConfirmOf(k: Call): Event { Confirm(k.request, k.s.confirmedAt) }

  function UntilAccepted(k: Call, o: Others): seq<Event> {
    o.beforeRows + [AcceptOf(k)] + o.beforeStamp + [StampOf(k)]
  }

  function Rest(k: Call, o: Others, updated: bool): seq<Event> {
    o.beforeUpdate + [UpdateOf(k)] + (if updated then o.beforeConfirm + [ConfirmOf(k)] else [])
  }

  function Events(k: Call, o: Others, updated: bool): seq<Event> {
    UntilAccepted(k, o) + Rest(k, o, updated)
  }

  /** The schedule in which others do just these events. */
  function Filled(config: H.Config, w: World, k: Call, o: Others): Schedule {
    var w1 := Act(config, ActAll(config, w, o.beforeRows), AcceptOf(k));
    var w2 := Act(config, ActAll(config, w1, o.beforeStamp), StampOf(k));
    var w3 := Act(config, ActAll(config, w2, o.beforeUpdate), UpdateOf(k));
    k.s.(beforeRows := Committed(config, w, o.beforeRows), beforeStamp := Committed(config, w1, o.beforeStamp),
         beforeUpdate := Committed(config, w2, o.beforeUpdate), beforeConfirm := Committed(config, w3, o.beforeConfirm))
  }

  lemma OneActs(config: H.Config, w: World, a: seq<Event>, e: Event)
    ensures ActAll(config, w, a + [e]) == Act(config, ActAll(config, w, a), e)
  {
    ActInTurn(config, w, a, [e]);
    assert [e][1..] == [];
  }

  /** The world once the request is authenticated. */
  lemma AuthenticationActs(config: H.Config, w: World, k: Call, o: Others, s: Schedule)
    requires k.request !in w.flights && AllForeign(o, k.request)
    requires s.beforeRows == Committed(config, w, o.beforeRows)
    requires var w1 := Act(config, ActAll(config, w, o.beforeRows), AcceptOf(k));
             s.beforeStamp == Committed(config, w1, o.beforeStamp)
    requires k.credentialId in R.Admissible(R.Run(w.t, s.beforeRows.rotation), k.auth.username, k.auth.keyHash, k.s.authenticatedAt)
    ensures var u := ActAll(config, w, UntilAccepted(k, o));
            && u.t == R.Stamp(R.Run(R.Run(w.t, s.beforeRows.rotation), s.beforeStamp.rotation),
                              k.credentialId, k.q.callerIp, k.s.authenticatedAt)
            && u.h == s.beforeStamp.hosts(s.beforeRows.hosts(w.h))
            && k.request in u.flights && u.flights[k.request] == Q.Accepted(k.credentialId)
  {
    var w0 := ActAll(config, w, o.beforeRows);
    assert w0.t == R.Run(w.t, s.beforeRows.rotation) && w0.h == s.beforeRows.hosts(w.h) && SameFlight(w, w0, k.request) by {
      GapActs(config, w, o.beforeRows, k.request);
    }
    OneAccepts(config, w0, k);
    var w1 := Act(config, w0, AcceptOf(k));
    var w2 := ActAll(config, w1, o.beforeStamp);
    assert w2.t == R.Run(w1.t, s.beforeStamp.rotation) && w2.h == s.beforeStamp.hosts(w1.h) && SameFlight(w1, w2, k.request) by {
      GapActs(config, w1, o.beforeStamp, k.request);
    }
    OneStamps(config, w2, k);
    UntilAcceptedActs(config, w, k, o);
  }

  lemma OneAccepts(config: H.Config, w: World, k: Call)
    requires k.request !in w.flights && k.credentialId in R.Admissible(w.t, k.auth.username, k.auth.keyHash, k.s.authenticatedAt)
    ensures Act(config, w, AcceptOf(k)) == w.(flights := w.flights[k.request := Q.Accepted(k.credentialId)])
  {
  }

  lemma OneStamps(config: H.Config, w: World, k: Call)
    ensures Act(config, w, StampOf(k)) == w.(t := R.Stamp(w.t, k.credentialId, k.q.callerIp, k.s.authenticatedAt))
  {
  }

  lemma UntilAcceptedActs(config: H.Config, w: World, k: Call, o: Others)
    ensures var w1 := Act(config, ActAll(config, w, o.beforeRows), AcceptOf(k));
            ActAll(config, w, UntilAccepted(k, o)) == Act(config, ActAll(config, w1, o.beforeStamp), StampOf(k))
  {
    OneActs(config, w, o.beforeRows, AcceptOf(k));
    ActInTurn(config, w, o.beforeRows + [AcceptOf(k)], o.beforeStamp);
    OneActs(config, w, o.beforeRows + [AcceptOf(k)] + o.beforeStamp, StampOf(k));
  }

  /** The moment of the update. */
  lemma UpdateActs(config: H.Config, w: World, k: Call, request: H.Request)
    requires k.request in w.flights && w.flights[k.request] == Q.Accepted(k.credentialId)
    requires request == RequestBy(w.t, k.credentialId, k.q, k.s.updatedAt)
    ensures var u, o := Act(config, w, UpdateOf(k)), S.Tried(config, w.h, request, k.s.turns);
            && u.t == w.t && u.h == o.tables
            && (o.result.Ok? ==> k.request in u.flights && u.flights[k.request] == Q.Updated(k.credentialId))
  {
  }

  lemma OneConfirms(config: H.Config, w: World, k: Call)
    requires k.request in w.flights && w.flights[k.request] == Q.Updated(k.credentialId)
    ensures var u := Act(config, w, ConfirmOf(k));
            u.t == R.ConfirmCredentialUse(w.t, k.credentialId, k.s.confirmedAt).tables && u.h == w.h
  {
  }

  /** The end of a request whose update has succeeded. */
  lemma ConfirmActs(config: H.Config, w: World, k: Call, others: seq<Event>, g: Gap)
    requires k.request in w.flights && w.flights[k.request] == Q.Updated(k.credentialId)
    requires (forall e :: e in others ==> IsForeign(e, k.request)) && g == Committed(config, w, others)
    ensures var u := ActAll(config, w, others + [ConfirmOf(k)]);
            && u.t == R.ConfirmCredentialUse(R.Run(w.t, g.rotation), k.credentialId, k.s.confirmedAt).tables
            && u.h == g.hosts(w.h)
  {
    var before := ActAll(config, w, others);
    assert before.t == R.Run(w.t, g.rotation) && before.h == g.hosts(w.h) && SameFlight(w, before, k.request) by {
      GapActs(config, w, others, k.request);
    }
    OneConfirms(config, before, k);
    assert ActAll(config, w, others + [ConfirmOf(k)]) == Act(config, before, ConfirmOf(k)) by { OneActs(config, w, others, ConfirmOf(k)); }
  }

  lemma FailedIs(config: H.Config, t: R.Tables, h: H.Tables, c: nat, request: H.Request, s: Schedule)
    requires S.Tried(config, s.beforeUpdate.hosts(h), request, s.turns).result.Err?
    ensures var d := UpdateEndpoint.Accepted(config, t, h, c, request, s);
            && d.response.status != 200 && d.rotation == R.Run(t, s.beforeUpdate.rotation)
            && d.hosts == S.Tried(config, s.beforeUpdate.hosts(h), request, s.turns).tables
  {
  }

  lemma SucceededIs(config: H.Config, t: R.Tables, h: H.Tables, c: nat, request: H.Request, s: Schedule)
    requires S.Tried(config, s.beforeUpdate.hosts(h), request, s.turns).result.Ok?
    ensures var d := UpdateEndpoint.Accepted(config, t, h, c, request, s);
            var u, o := R.Run(t, s.beforeUpdate.rotation), S.Tried(config, s.beforeUpdate.hosts(h), request, s.turns);
            && d.response.status == 200
            && d.rotation == R.ConfirmCredentialUse(R.Run(u, s.beforeConfirm.rotation), c, s.confirmedAt).tables
            && d.hosts == s.beforeConfirm.hosts(o.tables)
  {
  }

  /** From there to its end. */
  lemma AcceptedActs(config: H.Config, w: World, k: Call, o: Others, s: Schedule, request: H.Request)
    requires k.request in w.flights && w.flights[k.request] == Q.Accepted(k.credentialId) && AllForeign(o, k.request)
    requires s.beforeUpdate == Committed(config, w, o.beforeUpdate) && s.confirmedAt == k.s.confirmedAt && s.turns == k.s.turns
    requires var w1 := Act(config, ActAll(config, w, o.beforeUpdate), UpdateOf(k));
             s.beforeConfirm == Committed(config, w1, o.beforeConfirm)
    requires request == RequestBy(R.Run(w.t, s.beforeUpdate.rotation), k.credentialId, k.q, k.s.updatedAt)
    ensures var d := UpdateEndpoint.Accepted(config, w.t, w.h, k.credentialId, request, s);
            var u := ActAll(config, w, Rest(k, o, d.response.status == 200));
            u.t == d.rotation && u.h == d.hosts
  {
    var w0 := ActAll(config, w, o.beforeUpdate);
    assert w0.t == R.Run(w.t, s.beforeUpdate.rotation) && w0.h == s.beforeUpdate.hosts(w.h) && SameFlight(w, w0, k.request) by {
      GapActs(config, w, o.beforeUpdate, k.request);
    }
    UpdateActs(config, w0, k, request);
    RestActs(config, w, k, o);
    if S.Tried(config, w0.h, request, s.turns).result.Ok? {
      SucceededIs(config, w.t, w.h, k.credentialId, request, s);
      ConfirmActs(config, Act(config, w0, UpdateOf(k)), k, o.beforeConfirm, s.beforeConfirm);
    } else {
      FailedIs(config, w.t, w.h, k.credentialId, request, s);
    }
  }

  lemma RestActs(config: H.Config, w: World, k: Call, o: Others)
    ensures var w1 := Act(config, ActAll(config, w, o.beforeUpdate), UpdateOf(k));
            && ActAll(config, w, Rest(k, o, false)) == w1
            && ActAll(config, w, Rest(k, o, true)) == ActAll(config, w1, o.beforeConfirm + [ConfirmOf(k)])
  {
    OneActs(config, w, o.beforeUpdate, UpdateOf(k));
    ActInTurn(config, w, o.beforeUpdate + [UpdateOf(k)], o.beforeConfirm + [ConfirmOf(k)]);
    assert o.beforeUpdate + [UpdateOf(k)] + [] == o.beforeUpdate + [UpdateOf(k)];
  }

  lemma StampIsStep(u: R.Tables, before: seq<R.Step>, stamp: R.Step, later: seq<R.Step>)
    ensures R.Run(u, before + [stamp] + later) == R.Run(R.Apply(R.Run(u, before), stamp), later)
  {
    R.RunAppend(u, before + [stamp], later);
    R.RunAppend(u, before, [stamp]);
    RunFirst(R.Run(u, before), [stamp], []);
    assert [stamp] + [] == [stamp];
  }

  /** The device a request updates hosts for owns the credential it was accepted with. */
  lemma RequestIsOwners(t: R.Tables, lives: RL.Lives, k: Call, s: Schedule)
    requires RL.Represents(t, lives) && Authentication(t, k.auth, k.q, s).result == Ok(k.credentialId)
    ensures var d := First(R.DevicesNamed(t, k.auth.username));
            && d.Some?
            && RequestBy(R.Run(Authentication(t, k.auth, k.q, s).tables, s.beforeUpdate.rotation), k.credentialId, k.q, k.s.updatedAt)
               == RequestOf(d.value, k.auth.username, k.q, k.s.updatedAt)
  {
    var d, c := First(R.DevicesNamed(t, k.auth.username)).value, k.credentialId;
    var u := R.Run(t, s.beforeRows.rotation);
    var later := s.beforeStamp.rotation + [R.StampStep(c, k.q.callerIp, s.authenticatedAt)] + s.beforeUpdate.rotation;
    StampIsStep(u, s.beforeStamp.rotation, R.StampStep(c, k.q.callerIp, s.authenticatedAt), s.beforeUpdate.rotation);
    RP.NumbersStay(t, s.beforeRows.rotation);
    RP.DevicesStay(t, s.beforeRows.rotation, d);
    RP.DevicesStay(u, later, d);
    RP.OwnerStays(u, later, c);
  }

  /** Whatever others do between its statements, a request that is accepted leaves
      the rotation and host tables that its events leave in the history: accepted,
      stamped, updated and, if that succeeded, confirmed. */
  lemma RequestIsHistory(config: H.Config, h0: H.Tables, events: seq<Event>, k: Call, o: Others)
    requires k.request !in After(config, h0, events).flights && AllForeign(o, k.request)
    requires var w := After(config, h0, events);
             var s := Filled(config, w, k, o);
             && R.DevicesNamed(w.t, k.auth.username) != {}
             && RS.CandidateRows(R.Run(w.t, s.beforeRows.rotation), First(R.DevicesNamed(w.t, k.auth.username)).value, s.rows)
             && Authentication(w.t, k.auth, k.q, s).result == Ok(k.credentialId)
    ensures var w := After(config, h0, events);
            var d := DdnsUpdate(config, w.t, w.h, Some(k.auth), k.q, Filled(config, w, k, o));
            var u := After(config, h0, events + Events(k, o, d.response.status == 200));
            u.t == d.rotation && u.h == d.hosts
  {
    var w := After(config, h0, events);
    var shadows := Shadows(config, h0, events);
    ShadowsAgree(config, h0, events);
    Q.HistoryRepresents(shadows);
    RequestActs(config, w, Q.LivesAfter(shadows), k, o);
    var d := DdnsUpdate(config, w.t, w.h, Some(k.auth), k.q, Filled(config, w, k, o));
    AfterIsActAll(config, h0, events, Events(k, o, d.response.status == 200));
  }

  lemma RequestActs(config: H.Config, w: World, lives: RL.Lives, k: Call, o: Others)
    requires RL.Represents(w.t, lives) && k.request !in w.flights && AllForeign(o, k.request)
    requires var s := Filled(config, w, k, o);
             && R.DevicesNamed(w.t, k.auth.username) != {}
             && RS.CandidateRows(R.Run(w.t, s.beforeRows.rotation), First(R.DevicesNamed(w.t, k.auth.username)).value, s.rows)
             && Authentication(w.t, k.auth, k.q, s).result == Ok(k.credentialId)
    ensures var d := DdnsUpdate(config, w.t, w.h, Some(k.auth), k.q, Filled(config, w, k, o));
            var u := ActAll(config, w, Events(k, o, d.response.status == 200));
            u.t == d.rotation && u.h == d.hosts
  {
    var s := Filled(config, w, k, o);
    Q.AuthenticationAdmits(w.t, lives, k.auth.username, k.auth.keyHash, k.q.callerIp, s.authenticatedAt,
                           s.beforeRows.rotation, s.rows, s.beforeStamp.rotation);
    AuthenticationActs(config, w, k, o, s);
    var u := ActAll(config, w, UntilAccepted(k, o));
    FilledLater(config, w, k, o);
    RequestIsOwners(w.t, lives, k, s);
    var request := RequestOf(First(R.DevicesNamed(w.t, k.auth.username)).value, k.auth.username, k.q, k.s.updatedAt);
    AcceptedActs(config, u, k, o, s, request);
    var d := UpdateEndpoint.Accepted(config, u.t, u.h, k.credentialId, request, s);
    ActInTurn(config, w, UntilAccepted(k, o), Rest(k, o, d.response.status == 200));
  }

  /** The last two gaps of the schedule, seen from the moment of acceptance. */
  lemma FilledLater(config: H.Config, w: World, k: Call, o: Others)
    ensures var u, s := ActAll(config, w, UntilAccepted(k, o)), Filled(config, w, k, o);
            && s.beforeUpdate == Committed(config, u, o.beforeUpdate)
            && s.beforeConfirm == Committed(config, Act(config, ActAll(config, u, o.beforeUpdate), UpdateOf(k)), o.beforeConfirm)
  {
    UntilAcceptedActs(config, w, k, o);
  }
}
