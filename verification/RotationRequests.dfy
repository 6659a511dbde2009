// The update endpoint around the rotation tables. A request is accepted, then
// reports a DNS update, then confirms the credential it was accepted with: three
// separate steps, interleaved with those of other requests and of every other
// client of the tables.
module RotationRequests {
  import opened Clock
  import opened Wrappers
  import opened RotationTables
  import opened RotationLives
  import opened RotationRefinement
  import opened RotationProperties
  import opened RotationProgress
  import opened RotationService

  /** Where a request stands, with the credential it was accepted with. */
  datatype Flight = Accepted(credentialId: nat) | Updated(credentialId: nat)

  datatype World = World(t: Tables, flights: map<nat, Flight>)

  /** Accept is the moment a request reads the credential it is accepted with. The
      stamp that follows may come at any time, as one of the other steps. */
  datatype Event =
    | Other(step: Step)
    | Accept(request: nat, credentialId: nat, name: string, keyHash: string, now: Time)
    | Report(request: nat, succeeded: bool)
    | Confirm(request: nat, now: Time)

  /** The endpoint is the only caller of ConfirmCredentialUse. */
  function Act(w: World, e: Event): World {
    match e
    case Other(s) => if s.ConfirmStep? then w else w.(t := Apply(w.t, s))
    case Accept(q, c, name, keyHash, now) =>
      if q in w.flights || c !in Admissible(w.t, name, keyHash, now) then w
      else w.(flights := w.flights[q := Accepted(c)])
    case Report(q, succeeded) =>
      if q !in w.flights || !w.flights[q].Accepted? then w
      else if succeeded then w.(flights := w.flights[q := Updated(w.flights[q].credentialId)])
      else w.(flights := w.flights - {q})
    case Confirm(q, now) =>
      if q !in w.flights || !w.flights[q].Updated? then w
      else World(ConfirmCredentialUse(w.t, w.flights[q].credentialId, now).tables, w.flights - {q})
  }

  /** The state after a history of events, newest last. */
  function After(events: seq<Event>): World
    decreases |events|
  {
    if events == [] then World(EMPTY, map[])
    else Act(After(events[..|events| - 1]), events[|events| - 1])
  }

  /** The database write an event commits, if any. */
  function Transaction(w: World, e: Event): Option<Step> {
    match e
    case Other(s) => if s.ConfirmStep? then None else Some(s)
    case Confirm(q, now) =>
      if q !in w.flights || !w.flights[q].Updated? then None else Some(ConfirmStep(w.flights[q].credentialId, now))
    case _ => None
  }

  ghost function LivesAfter(events: seq<Event>): Lives
    decreases |events|
  {
    if events == [] then map[]
    else
      var before := events[..|events| - 1];
      match Transaction(After(before), events[|events| - 1])
      case None => LivesAfter(before)
      case Some(s) => Follow(After(before).t, LivesAfter(before), s)
  }

  lemma TransactionIsAct(w: World, e: Event)
    ensures Act(w, e).t == match Transaction(w, e) case None => w.t case Some(s) => Apply(w.t, s)
  {
  }

  lemma {:induction false} HistoryRepresents(events: seq<Event>)
    ensures Represents(After(events).t, LivesAfter(events))
    decreases |events|
  {
    if events == [] {
      ReachableRepresents([]);
    } else {
      var before, e := events[..|events| - 1], events[|events| - 1];
      HistoryRepresents(before);
      TransactionIsAct(After(before), e);
      match Transaction(After(before), e)
      case None =>
      case Some(s) => StepRefines(After(before).t, LivesAfter(before), s);
    }
  }

  // ----- evidence ------------------------------------------------------------

  /** Event i accepted request q with credential c. */
  predicate AcceptedAt(events: seq<Event>, i: nat, q: nat, c: nat) {
    && i < |events| && events[i].Accept? && events[i].request == q && events[i].credentialId == c
    && var e, w := events[i], After(events[..i]);
       q !in w.flights && c in Admissible(w.t, e.name, e.keyHash, e.now)
  }

  ghost predicate WasAccepted(events: seq<Event>, q: nat, c: nat) {
    exists i: nat :: AcceptedAt(events, i, q, c)
  }

  /** At event j request q, in flight with credential c, reported a successful
      update of DNS. */
  predicate UpdatedAt(events: seq<Event>, j: nat, q: nat, c: nat) {
    && j < |events| && events[j] == Report(q, true)
    && var flights := After(events[..j]).flights;
       q in flights && flights[q] == Accepted(c)
  }

  /** Some request was accepted with credential c and, in flight with it, updated
      DNS. */
  ghost predicate Proven(events: seq<Event>, c: nat) {
    exists i: nat, j: nat, q: nat :: i < j && AcceptedAt(events, i, q, c) && UpdatedAt(events, j, q, c)
  }

  lemma AcceptedStays(events: seq<Event>, e: Event, i: nat, q: nat, c: nat)
    requires AcceptedAt(events, i, q, c)
    ensures AcceptedAt(events + [e], i, q, c)
  {
    assert (events + [e])[..i] == events[..i];
  }

  lemma UpdatedStays(events: seq<Event>, e: Event, j: nat, q: nat, c: nat)
    requires UpdatedAt(events, j, q, c)
    ensures UpdatedAt(events + [e], j, q, c)
  {
    assert (events + [e])[..j] == events[..j] && (events + [e])[j] == events[j];
  }

  lemma ProvenStays(events: seq<Event>, e: Event, c: nat)
    requires Proven(events, c)
    ensures Proven(events + [e], c)
  {
    var i: nat, j: nat, q: nat :| i < j && AcceptedAt(events, i, q, c) && UpdatedAt(events, j, q, c);
    AcceptedStays(events, e, i, q, c);
    UpdatedStays(events, e, j, q, c);
  }

  /** A flight after an event was there before, or the event has just accepted it. */
  lemma FlightOrigin(w: World, e: Event, q: nat)
    requires q in Act(w, e).flights
    ensures var f := Act(w, e).flights[q];
            if q in w.flights then
              f == w.flights[q] || (e == Report(q, true) && w.flights[q] == Accepted(f.credentialId))
            else
              && e.Accept? && e.request == q && f == Accepted(e.credentialId)
              && e.credentialId in Admissible(w.t, e.name, e.keyHash, e.now)
  {
  }

  lemma {:induction false} FlightsHaveEvidence(events: seq<Event>, q: nat)
    requires q in After(events).flights
    ensures var f := After(events).flights[q];
            WasAccepted(events, q, f.credentialId) && (f.Updated? ==> Proven(events, f.credentialId))
    decreases |events|
  {
    var before, e := events[..|events| - 1], events[|events| - 1];
    var w, f := After(before), After(events).flights[q];
    FlightOrigin(w, e, q);
    assert events == before + [e];
    if q !in w.flights {
      assert AcceptedAt(events, |before|, q, f.credentialId);
    } else {
      FlightsHaveEvidence(before, q);
      var i: nat :| AcceptedAt(before, i, q, f.credentialId);
      AcceptedStays(before, e, i, q, f.credentialId);
      if f != w.flights[q] {
        assert UpdatedAt(events, |before|, q, f.credentialId);
      } else if f.Updated? {
        ProvenStays(before, e, f.credentialId);
      }
    }
  }

  /** Credential c has taken over on device d, or is doing so. */
  predicate Established(lives: Lives, d: nat, c: nat) {
    d in lives && lives[d].chain != []
    && (c in lives[d].chain[1..] || (lives[d].phase.Handover? && lives[d].phase.candidate == c))
  }

  lemma OnlyConfirmEstablishes(t: Tables, lives: Lives, s: Step, d: nat, c: nat)
    requires Established(Follow(t, lives, s), d, c)
    ensures Established(lives, d, c) || (s.ConfirmStep? && s.credentialId == c)
  {
    if d in lives && lives[d].chain != [] {
      if s.ReconcileStep? && Follow(t, lives, s)[d] != lives[d] {
        assert Follow(t, lives, s)[d].chain[1..] == lives[d].chain[1..] + [lives[d].phase.candidate];
      }
    }
  }

  lemma {:induction false} EstablishedMeansProven(events: seq<Event>, d: nat, c: nat)
    requires Established(LivesAfter(events), d, c)
    ensures Proven(events, c)
    decreases |events|
  {
    var before, e := events[..|events| - 1], events[|events| - 1];
    var w := After(before);
    assert events == before + [e];
    HistoryRepresents(before);
    if Transaction(w, e).Some? {
      OnlyConfirmEstablishes(w.t, LivesAfter(before), Transaction(w, e).value, d, c);
    }
    if Established(LivesAfter(before), d, c) {
      EstablishedMeansProven(before, d, c);
    } else {
      FlightsHaveEvidence(before, e.request);
    }
    ProvenStays(before, e, c);
  }

  /** A rotation in grace or completed was preceded by a request that was
      accepted with its new credential and, in flight with it, updated DNS. */
  lemma ConfirmationNeedsEvidence(events: seq<Event>, r: nat)
    requires r in After(events).t.rotations && After(events).t.rotations[r].status in {InGrace, Completed}
    ensures var row := After(events).t.rotations[r];
            row.newId.Some? && Proven(events, row.newId.value)
  {
    var t, lives := After(events).t, LivesAfter(events);
    HistoryRepresents(events);
    var d := t.rotations[r].deviceId;
    DeviceOf(t, lives, d);
    var life := lives[d];
    if t.rotations[r].status == Completed {
      assert LifeFits(t, d, life);
      CompletedInOrder(t, d, life);
      var i :| 0 <= i < |life.completed| && life.completed[i] == r;
      assert t.rotations[life.completed[i]].newId == Some(life.chain[i + 1]);
      assert life.chain[1..][i] == life.chain[i + 1];
    }
    EstablishedMeansProven(events, d, t.rotations[r].newId.value);
  }

  /** A confirmation that finds its rotation anywhere but in validation changes
      nothing: after a rollback, on a repeat, or for an ordinary credential. In
      particular no grace deadline is ever moved. */
  lemma StaleConfirmIsNoOp(events: seq<Event>, q: nat, now: Time)
    requires q in After(events).flights && After(events).flights[q].Updated?
    ensures var w := After(events);
            var c := w.flights[q].credentialId;
            var after := Act(w, Confirm(q, now)).t;
            && (after == w.t <==> ValidatingWith(w.t, c) == {})
            && (forall r :: r in w.t.rotations && w.t.rotations[r].status == InGrace ==>
                  r in after.rotations && after.rotations[r] == w.t.rotations[r])
  {
    var w := After(events);
    HistoryRepresents(events);
    ConfirmRefines(w.t, LivesAfter(events), w.flights[q].credentialId, now);
    ValidatingAre(w.t, LivesAfter(events), w.flights[q].credentialId);
    var c := w.flights[q].credentialId;
    if OnTrial(w.t, LivesAfter(events), c) {
      ConfirmMovesOne(w.t, LivesAfter(events), c, now);
    }
  }

  lemma ConfirmMovesOne(t: Tables, lives: Lives, c: nat, now: Time)
    requires Represents(t, lives) && OnTrial(t, lives, c)
    ensures var r, after := lives[t.credentials[c].deviceId].phase.rotation, ConfirmCredentialUse(t, c, now).tables;
            && r in t.rotations && t.rotations[r].status == Validating
            && after.rotations.Keys == t.rotations.Keys && after.rotations[r].status == InGrace
            && (forall q :: q in t.rotations && q != r ==> after.rotations[q] == t.rotations[q])
  {
    var d := t.credentials[c].deviceId;
    ValidatingAre(t, lives, c);
    DeviceOf(t, lives, d);
    ConfirmResult(t, d, lives[d], c, now);
  }

  // ----- no lockout --------------------------------------------------------------

  /** Credential c lets device d in at time now, and is known to work. */
  ghost predicate Dependable(events: seq<Event>, d: nat, c: nat, now: Time) {
    var t := After(events).t;
    && c in t.credentials && t.credentials[c].deviceId == d && Usable(t.credentials[c], now)
    && (t.credentials[c].replacesId == None || Proven(events, c))
  }

  /** At every moment of every history each device has a credential that lets it
      in and is either the one it was created with or has updated DNS. */
  lemma NoLockout(events: seq<Event>, d: nat, now: Time)
    requires d in After(events).t.devices
    ensures exists c :: Dependable(events, d, c, now)
  {
    var t, lives := After(events).t, LivesAfter(events);
    HistoryRepresents(events);
    DeviceOf(t, lives, d);
    var life := lives[d];
    assert LifeFits(t, d, life);
    if life.phase.Handover? {
      EstablishedMeansProven(events, d, life.phase.candidate);
      assert Dependable(events, d, life.phase.candidate, now);
    } else {
      var c := Current(life);
      assert LinkFits(t, d, life, |life.chain| - 1);
      if |life.chain| > 1 {
        assert life.chain[1..][|life.chain| - 2] == c;
        EstablishedMeansProven(events, d, c);
      }
      assert Dependable(events, d, c, now);
    }
  }

  /** Presenting the key of a usable credential of an active device succeeds. */
  lemma UsableKeyIsAccepted(events: seq<Event>, d: nat, c: nat, now: Time)
    requires var t := After(events).t;
             && d in t.devices && t.devices[d].active
             && c in t.credentials && t.credentials[c].deviceId == d && Usable(t.credentials[c], now)
    ensures var t := After(events).t;
            c in Admissible(t, t.devices[d].name, t.credentials[c].secretHash, now)
  {
    var t := After(events).t;
    HistoryRepresents(events);
    assert DevicesNamed(t, t.devices[d].name) == {d};
    FirstOfSingleton(DevicesNamed(t, t.devices[d].name), d);
  }

  /** Authentication, with anything between its statements, accepts some credential
      admissible when it reads them, a live one of the device of that name with the
      hash of the key, and fails only if there is none, or no such device when it
      began. */
  lemma AuthenticationAdmits(t: Tables, lives: Lives, name: string, keyHash: string, ip: string, now: Time,
                             beforeRows: seq<Step>, rows: seq<nat>, beforeStamp: seq<Step>)
    requires Represents(t, lives)
    requires DevicesNamed(t, name) != {} ==> CandidateRows(Run(t, beforeRows), First(DevicesNamed(t, name)).value, rows)
    ensures var o, u := Authentication(t, name, keyHash, ip, now, beforeRows, rows, beforeStamp), Run(t, beforeRows);
            && (o.result.Ok? <==> DevicesNamed(t, name) != {} && Admissible(u, name, keyHash, now) != {})
            && (o.result.Ok? ==> o.result.value in Admissible(u, name, keyHash, now))
            && (o.result.Ok? ==>
                  var row := u.credentials[o.result.value];
                  && row.deviceId in u.devices && u.devices[row.deviceId].name == name && row.secretHash == keyHash
                  && (row.status == Active || (row.status == Grace && row.graceUntil.Some? && now < row.graceUntil.value)))
  {
    if DevicesNamed(t, name) != {} {
      var d, u := First(DevicesNamed(t, name)).value, Run(t, beforeRows);
      NameStays(t, lives, beforeRows, d);
      assert Matching(u, d, keyHash, now) <= CredentialsIn(u, d, Active) + CredentialsIn(u, d, Grace);
    }
  }

  lemma NameStays(t: Tables, lives: Lives, steps: seq<Step>, d: nat)
    requires Represents(t, lives) && d in t.devices && t.devices[d].active
    ensures First(DevicesNamed(Run(t, steps), t.devices[d].name)) == Some(d)
  {
    RunRefines(t, lives, steps);
    DevicesStay(t, steps, d);
    assert DevicesNamed(Run(t, steps), t.devices[d].name) == {d};
    FirstOfSingleton(DevicesNamed(Run(t, steps), t.devices[d].name), d);
  }
}
