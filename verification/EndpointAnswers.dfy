// What the endpoint answers, told on the rows and the request: 401 for a key that
// fits no row of the device, and otherwise exactly what the request's own update
// came to, with the address that was asked for.
module EndpointAnswers {
  import opened Clock
  import opened Wrappers
  import R = RotationTables
  import RK = RotationKeys
  import H = HostTables
  import HA = HostAnswers
  import S = HostStatements
  import opened UpdateEndpoint

  /** s.rows lists the rows of the device of that name. */
  ghost predicate RowsListed(t: R.Tables, username: string, s: Schedule) {
    forall d :: RK.Bears(t, d, username) ==> RK.Listed(R.Run(t, s.beforeRows.rotation), d, s.rows)
  }

  /** The key fits a row of the device of that name, as the rows are read. */
  ghost predicate LetIn(t: R.Tables, auth: Credentials, s: Schedule) {
    RK.KeyFits(t, R.Run(t, s.beforeRows.rotation), auth.username, auth.keyHash, s.authenticatedAt)
  }

  /** Without a key that fits, the answer is 401 and the request has written nothing
      of its own, neither hosts nor credentials. */
  lemma WrongKeyIsRefused(config: H.Config, steps: seq<R.Step>, h: H.Tables, auth: Option<Credentials>, q: Query, s: Schedule)
    requires auth.Some? ==> RowsListed(R.Run(R.EMPTY, steps), auth.value.username, s)
    requires auth.Some? ==> !LetIn(R.Run(R.EMPTY, steps), auth.value, s)
    ensures var t := R.Run(R.EMPTY, steps);
            var o := DdnsUpdate(config, t, h, auth, q, s);
            && o.response == Response(401, "badauth", "")
            && ((o.rotation == t && o.hosts == h)
                || (o.rotation == R.Run(t, s.beforeRows.rotation) && o.hosts == s.beforeRows.hosts(h)))
  {
    if auth.Some? {
      var t := R.Run(R.EMPTY, steps);
      RK.ReachableNames(steps, auth.value.username);
      RK.AuthenticationIff(t, auth.value.username, auth.value.keyHash, q.callerIp, s.authenticatedAt,
                           s.beforeRows.rotation, s.rows, s.beforeStamp.rotation);
    }
  }

  /** The request the endpoint makes of what it was asked, for device d. */
  predicate IsRequestOf(r: H.Request, d: nat, username: string, q: Query, now: Time) {
    && r.device.id == d && r.device.name == username && r.fqdn == q.hostname && r.requestedIp == q.myIp && r.callerIp == q.callerIp
    && r.now == now && r.dnsAccepts == q.dnsAccepts
  }

  /** How the outcome of the update is put. */
  predicate Tells(response: Response, result: Result<H.Updated, H.Error>) {
    match result
    case Ok(r) => response == Response(200, r.code, r.ip)
    case Err(NotFqdn) => response == Response(400, "notfqdn", "")
    case Err(BadIp) => response == Response(400, "badagent", "")
    case Err(BadAuth) => response == Response(401, "badauth", "")
    case Err(_) => response == Response(503, "dnserr", "")
  }

  /** What the request's own update came to. */
  function Own(config: H.Config, h: H.Tables, request: H.Request, s: Schedule): H.Outcome<H.Updated> {
    S.Tried(config, s.beforeUpdate.hosts(s.beforeStamp.hosts(s.beforeRows.hosts(h))), request, s.turns)
  }

  /** With a key that fits, the answer is that of the update the request makes for
      the device of that name; 200 carries the address that was asked for. */
  lemma AnswerIsItsUpdate(config: H.Config, steps: seq<R.Step>, h: H.Tables, auth: Credentials, q: Query, s: Schedule)
    requires RowsListed(R.Run(R.EMPTY, steps), auth.username, s) && LetIn(R.Run(R.EMPTY, steps), auth, s)
    ensures var t := R.Run(R.EMPTY, steps);
            var response := DdnsUpdate(config, t, h, Some(auth), q, s).response;
            exists d, request ::
              && RK.Bears(t, d, auth.username) && IsRequestOf(request, d, auth.username, q, s.updatedAt)
              && Tells(response, Own(config, h, request, s).result)
              && (response.status == 200 ==> exists target :: HA.AsksFor(config, request, target) && response.ip == target.text)
  {
    var t := R.Run(R.EMPTY, steps);
    RK.ReachableNames(steps, auth.username);
    RK.AuthenticationIff(t, auth.username, auth.keyHash, q.callerIp, s.authenticatedAt,
                         s.beforeRows.rotation, s.rows, s.beforeStamp.rotation);
    var d :| RK.Bears(t, d, auth.username);
    RK.NamedIs(t, auth.username, d);
    var request := RequestOf(d, auth.username, q, s.updatedAt);
    AnswerTells(config, t, h, d, auth, q, s, request);
    HA.TriedSucceeds(config, s.beforeUpdate.hosts(s.beforeStamp.hosts(s.beforeRows.hosts(h))), request, s.turns);
    assert IsRequestOf(request, d, auth.username, q, s.updatedAt);
  }

  lemma AnswerTells(config: H.Config, t: R.Tables, h: H.Tables, d: nat, auth: Credentials, q: Query, s: Schedule, request: H.Request)
    requires First(R.DevicesNamed(t, auth.username)) == Some(d) && Authentication(t, auth, q, s).result.Ok?
    requires request == RequestOf(d, auth.username, q, s.updatedAt)
    ensures Tells(DdnsUpdate(config, t, h, Some(auth), q, s).response, Own(config, h, request, s).result)
  {
  }
}
