// ddnsUpdate of api/server.go: authenticate, update, confirm, with other clients
// at work between any two of its database statements.
module UpdateEndpoint {
  import opened Clock
  import opened Wrappers
  import R = RotationTables
  import RS = RotationService
  import H = HostTables
  import S = HostStatements
  import HS = HostService

  datatype Response = Response(status: nat, code: string, ip: string)

  /** Basic credentials, the key given as its SHA-256 text. */
  datatype Credentials = Credentials(username: string, keyHash: string)

  datatype Query = Query(hostname: string, myIp: string, callerIp: string, dnsAccepts: bool)

  const BAD_AUTH := Response(401, "badauth", "")

  function Refusal(e: H.Error): Response {
    match e
    case BadAuth => BAD_AUTH
    case NotFqdn => Response(400, "notfqdn", "")
    case BadIp => Response(400, "badagent", "")
    case _ => Response(503, "dnserr", "")
  }

  /** What other clients write at one point of a request. */
  datatype Gap = Gap(rotation: seq<R.Step>, hosts: H.Tables -> H.Tables)

  /** Clock readings, the order of the credential rows, the gaps, and the turns of
      the statements of the update. */
  datatype Schedule = Schedule(
    authenticatedAt: Time,
    updatedAt: Time,
    confirmedAt: Time,
    rows: seq<nat>,
    beforeRows: Gap,
    beforeStamp: Gap,
    beforeUpdate: Gap,
    turns: seq<S.Turn>,
    beforeConfirm: Gap)

  datatype Outcome = Outcome(rotation: R.Tables, hosts: H.Tables, response: Response)

  function RequestOf(d: nat, username: string, q: Query, now: Time): H.Request {
    H.Request(H.Device(d, username), q.hostname, q.myIp, q.callerIp, now, q.dnsAccepts)
  }

  function Authentication(t: R.Tables, auth: Credentials, q: Query, s: Schedule): R.Outcome<nat> {
    RS.Authentication(t, auth.username, auth.keyHash, q.callerIp, s.authenticatedAt,
                      s.beforeRows.rotation, s.rows, s.beforeStamp.rotation)
  }

  function DdnsUpdate(config: H.Config, t: R.Tables, h: H.Tables, auth: Option<Credentials>, q: Query, s: Schedule): Outcome {
    if auth.None? || First(R.DevicesNamed(t, auth.value.username)).None? then Outcome(t, h, BAD_AUTH)
    else
      var a, k := Authentication(t, auth.value, q, s), s.beforeRows.hosts(h);
      match a.result
      case Err(_) => Outcome(a.tables, k, BAD_AUTH)
      case Ok(c) =>
        var d := First(R.DevicesNamed(t, auth.value.username)).value;
        Accepted(config, a.tables, s.beforeStamp.hosts(k), c, RequestOf(d, auth.value.username, q, s.updatedAt), s)
  }

  /** The rest, once the request is authenticated with credential c. */
  function Accepted(config: H.Config, t: R.Tables, h: H.Tables, c: nat, request: H.Request, s: Schedule): Outcome {
    var u := R.Run(t, s.beforeUpdate.rotation);
    var o := S.Tried(config, s.beforeUpdate.hosts(h), request, s.turns);
    match o.result
    case Err(e) => Outcome(u, o.tables, Refusal(e))
    case Ok(r) =>
      Outcome(R.ConfirmCredentialUse(R.Run(u, s.beforeConfirm.rotation), c, s.confirmedAt).tables,
              s.beforeConfirm.hosts(o.tables), Response(200, r.code, r.ip))
  }

  class Endpoint {
    const rotation: RS.Database
    const hosts: HS.Service

    constructor (rotation: RS.Database, hosts: HS.Service)
      ensures this.rotation == rotation && this.hosts == hosts
    {
      this.rotation, this.hosts := rotation, hosts;
    }

    method Handle(auth: Option<Credentials>, q: Query, s: Schedule) returns (response: Response)
      requires |s.turns| >= 5
      requires auth.Some? && First(R.DevicesNamed(rotation.Db(), auth.value.username)).Some? ==>
                 RS.CandidateRows(R.Run(rotation.Db(), s.beforeRows.rotation),
                                  First(R.DevicesNamed(rotation.Db(), auth.value.username)).value, s.rows)
      modifies rotation, hosts, hosts.nameServer
      ensures Outcome(rotation.Db(), hosts.State(), response)
           == DdnsUpdate(hosts.config, old(rotation.Db()), old(hosts.State()), auth, q, s)
    {
      if auth.None? { return BAD_AUTH; }
      var username := auth.value.username;
      var named := set d | d in rotation.devices && rotation.devices[d].name == username && rotation.devices[d].active;
      assert named == R.DevicesNamed(rotation.Db(), username);
      var owner := First(named);
      var accepted := rotation.Authenticate(username, auth.value.keyHash, q.callerIp, s.authenticatedAt,
                                            s.beforeRows.rotation, s.rows, s.beforeStamp.rotation);
      if owner.None? { return BAD_AUTH; }
      hosts.Interleave(s.beforeRows.hosts);
      if accepted.Err? { return BAD_AUTH; }
      hosts.Interleave(s.beforeStamp.hosts);
      response := HandleAccepted(accepted.value, RequestOf(owner.value, username, q, s.updatedAt), s);
    }

    method HandleAccepted(c: nat, request: H.Request, s: Schedule) returns (response: Response)
      requires |s.turns| >= 5
      modifies rotation, hosts, hosts.nameServer
      ensures Outcome(rotation.Db(), hosts.State(), response)
           == Accepted(hosts.config, old(rotation.Db()), old(hosts.State()), c, request, s)
    {
      rotation.Interleave(s.beforeUpdate.rotation);
      hosts.Interleave(s.beforeUpdate.hosts);
      var updated := hosts.Update(request, s.turns);
      match updated
      case Err(e) => return Refusal(e);
      case Ok(r) =>
        rotation.Interleave(s.beforeConfirm.rotation);
        hosts.Interleave(s.beforeConfirm.hosts);
        var _ := rotation.ConfirmCredentialUse(c, s.confirmedAt);
        return Response(200, r.code, r.ip);
    }
  }
}
