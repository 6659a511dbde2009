// The tables behind agent enrollment and permanent agent identities, and what
// the calls of enrollment/service.go and agentauth/service.go do to them. Keys
// are seen as the services see them: an id and the SHA-256 text of the whole
// key, so that verifying a key is comparing two texts.
module EnrollmentTables {
  import opened Clock
  import opened Wrappers

  const MIN_TTL_MINUTES := 1
  const MAX_TTL_MINUTES := 1440

  datatype Device = Device(name: string, active: bool, lastSeenAt: Option<Time>, lastIp: string, agentVersion: string)

  datatype EnrollmentStatus = Pending | Issued | Completed | Revoked | Expired

  datatype Enrollment = Enrollment(
    deviceId: nat,
    tokenId: string,
    secretHash: string,
    status: EnrollmentStatus,
    expiresAt: Time,
    issuedAt: Option<Time>,
    completedAt: Option<Time>,
    revokedAt: Option<Time>,
    usedIp: string,
    identityId: Option<nat>)

  datatype IdentityStatus = Live | Withdrawn

  datatype Identity = Identity(
    deviceId: nat,
    keyId: string,
    secretHash: string,
    status: IdentityStatus,
    activatedAt: Time,
    expiresAt: Option<Time>,
    revokedAt: Option<Time>,
    lastUsedAt: Option<Time>,
    lastUsedIp: string)

  datatype Tables = Tables(
    devices: map<nat, Device>,
    enrollments: map<nat, Enrollment>,
    identities: map<nat, Identity>,
    nextDevice: nat,
    nextEnrollment: nat,
    nextIdentity: nat)

  const EMPTY := Tables(map[], map[], map[], 1, 1, 1)

  datatype Key = Key(id: string, hash: string)

  datatype Error =
    | BadAuth
    | DeviceNotFound
    | EnrollmentNotFound
    | EnrollmentInProgress
    | InvalidState
    | InvalidTtl
    | ActiveCredentialExists
    | CredentialNotFound
    | UniqueViolation

  /** What a call hands back to its caller. */
  datatype Answer =
    | Refused(error: Error)
    | Done
    | Id(id: nat)
    | Shown(enrollment: Enrollment)
    | Listed(rows: seq<(nat, Enrollment)>)
    | Exchanged(enrollmentId: nat, identityId: nat)

  datatype Reply = Reply(tables: Tables, answer: Answer)

  predicate IsOpen(s: EnrollmentStatus) { s in {Pending, Issued} }

  // ----- queries ------------------------------------------------------------

  function OpenEnrollments(t: Tables, d: nat): set<nat> {
    set e | e in t.enrollments && t.enrollments[e].deviceId == d && IsOpen(t.enrollments[e].status)
  }

  function LiveIdentities(t: Tables, d: nat): set<nat> {
    set c | c in t.identities && t.identities[c].deviceId == d && t.identities[c].status == Live
  }

  function WithToken(t: Tables, tokenId: string): set<nat> {
    set e | e in t.enrollments && t.enrollments[e].tokenId == tokenId
  }

  function LiveWithKey(t: Tables, keyId: string): set<nat> {
    set c | c in t.identities && t.identities[c].keyId == keyId && t.identities[c].status == Live
  }

  function Confirmable(t: Tables, d: nat, c: nat): set<nat> {
    set e | e in t.enrollments && t.enrollments[e].deviceId == d && t.enrollments[e].identityId == Some(c)
            && t.enrollments[e].status in {Issued, Completed}
  }

  predicate IsActive(t: Tables, d: nat) { d in t.devices && t.devices[d].active }

  predicate HasEnrollment(t: Tables, e: nat, d: nat) { e in t.enrollments && t.enrollments[e].deviceId == d }

  predicate HasIdentity(t: Tables, c: nat, d: nat, s: IdentityStatus) {
    c in t.identities && t.identities[c].deviceId == d && t.identities[c].status == s
  }

  predicate KeyTaken(t: Tables, keyId: string) {
    exists c :: c in t.identities && t.identities[c].keyId == keyId
  }

  // ----- transactions -----------------------------------------------------------

  predicate IsOverdue(row: Enrollment, d: nat, now: Time) {
    row.status == Pending && row.expiresAt <= now && (d != 0 ==> row.deviceId == d)
  }

  function ExpireRow(row: Enrollment, d: nat, now: Time): Enrollment {
    if IsOverdue(row, d, now) then row.(status := Expired) else row
  }

  /** expirePending; device 0 stands for every device. */
  function Expire(t: Tables, d: nat, now: Time): Tables {
    t.(enrollments := map e | e in t.enrollments :: ExpireRow(t.enrollments[e], d, now))
  }

  function PutEnrollment(t: Tables, e: nat, row: Enrollment): Tables {
    t.(enrollments := t.enrollments[e := row])
  }

  function NewEnrollment(d: nat, key: Key, expiresAt: Time): Enrollment {
    Enrollment(d, key.id, key.hash, Pending, expiresAt, None, None, None, "", None)
  }

  function CreateDevice(t: Tables, name: string): Reply {
    if exists d :: d in t.devices && t.devices[d].name == name then Reply(t, Refused(UniqueViolation))
    else
      Reply(t.(devices := t.devices[t.nextDevice := Device(name, true, None, "", "")], nextDevice := t.nextDevice + 1),
            Id(t.nextDevice))
  }

  /** A refusal rolls the expiry back as well. */
  function Create(t: Tables, d: nat, ttlMinutes: int, key: Key, now: Time): Reply {
    if ttlMinutes < MIN_TTL_MINUTES || ttlMinutes > MAX_TTL_MINUTES then Reply(t, Refused(InvalidTtl))
    else
      var u := Expire(t, d, now);
      if !IsActive(u, d) then Reply(t, Refused(DeviceNotFound))
      else if OpenEnrollments(u, d) != {} then Reply(t, Refused(EnrollmentInProgress))
      else if LiveIdentities(u, d) != {} then Reply(t, Refused(ActiveCredentialExists))
      else if WithToken(u, key.id) != {} then Reply(t, Refused(UniqueViolation))
      else
        Reply(PutEnrollment(u, u.nextEnrollment, NewEnrollment(d, key, now + ttlMinutes * MINUTE))
              .(nextEnrollment := u.nextEnrollment + 1),
              Id(u.nextEnrollment))
  }

  function NewIdentity(d: nat, key: Key, now: Time): Identity {
    Identity(d, key.id, key.hash, Live, now, None, None, None, "")
  }

  /** IssueCredentialTx, also the manual administrative path. */
  function Issue(t: Tables, d: nat, key: Key, now: Time): Reply {
    if !IsActive(t, d) then Reply(t, Refused(DeviceNotFound))
    else if LiveIdentities(t, d) != {} then Reply(t, Refused(ActiveCredentialExists))
    else if KeyTaken(t, key.id) then Reply(t, Refused(UniqueViolation))
    else
      Reply(t.(identities := t.identities[t.nextIdentity := NewIdentity(d, key, now)], nextIdentity := t.nextIdentity + 1),
            Id(t.nextIdentity))
  }

  /** token is the parsed token id, or None when the token does not parse. */
  function Exchange(t: Tables, token: Option<string>, hash: string, ip: string, key: Key, now: Time,
                    issuedAt: Time): Reply {
    if token.None? then Reply(t, Refused(BadAuth))
    else
      match First(WithToken(t, token.value))
      case None => Reply(t, Refused(BadAuth))
      case Some(e) =>
        var row := t.enrollments[e];
        if row.status != Pending || hash != row.secretHash then Reply(t, Refused(BadAuth))
        else if row.expiresAt <= now then Reply(PutEnrollment(t, e, row.(status := Expired)), Refused(BadAuth))
        else
          var claimed := row.(status := Issued, issuedAt := Some(now), usedIp := ip);
          var issued := Issue(PutEnrollment(t, e, claimed), row.deviceId, key, issuedAt);
          if issued.answer.Refused? then Reply(t, issued.answer)
          else
            Reply(PutEnrollment(issued.tables, e, claimed.(identityId := Some(issued.answer.id))),
                  Exchanged(e, issued.answer.id))
  }

  /** The newest of the matching enrollments is confirmed. */
  function Confirm(t: Tables, d: nat, c: nat, ip: string, version: string, now: Time): Reply {
    match Last(Confirmable(t, d, c))
    case None => Reply(t, Refused(EnrollmentNotFound))
    case Some(e) =>
      var row := t.enrollments[e];
      var after := if row.status == Issued then row.(status := Completed, completedAt := Some(now)) else row;
      Reply(Seen(PutEnrollment(t, e, after), d, ip, version, now), Shown(after))
  }

  function Seen(t: Tables, d: nat, ip: string, version: string, now: Time): Tables {
    if d !in t.devices then t
    else
      var row := t.devices[d];
      t.(devices := t.devices[d := row.(lastSeenAt := Some(now), lastIp := ip,
                                        agentVersion := if version != "" then version else row.agentVersion)])
  }

  function EnrollmentsOf(t: Tables, d: nat): set<nat> {
    set e | e in t.enrollments && t.enrollments[e].deviceId == d
  }

  /** Newest first, as ids grow with creation. */
  function NewestFirst(ids: set<nat>): (r: seq<nat>)
    ensures forall x :: x in r <==> x in ids
    ensures forall i, j :: 0 <= i < j < |r| ==> r[i] > r[j]
  {
    match Last(ids)
    case None => []
    case Some(x) => [x] + NewestFirst(ids - {x})
  }

  function RowsFor(t: Tables, ids: seq<nat>): seq<(nat, Enrollment)>
    requires forall e :: e in ids ==> e in t.enrollments
  {
    seq(|ids|, i requires 0 <= i < |ids| => (ids[i], t.enrollments[ids[i]]))
  }

  function ListRead(t: Tables, d: nat): Answer {
    Listed(RowsFor(t, NewestFirst(EnrollmentsOf(t, d))))
  }

  function List(t: Tables, d: nat, now: Time): Reply {
    if d !in t.devices then Reply(t, Refused(DeviceNotFound))
    else Reply(Expire(t, d, now), ListRead(Expire(t, d, now), d))
  }

  function GetRead(t: Tables, d: nat, e: nat): Answer {
    if HasEnrollment(t, e, d) then Shown(t.enrollments[e]) else Refused(EnrollmentNotFound)
  }

  function Get(t: Tables, d: nat, e: nat, now: Time): Reply {
    Reply(Expire(t, d, now), GetRead(Expire(t, d, now), d, e))
  }

  function Withdraw(row: Identity, now: Time): Identity {
    row.(status := Withdrawn, revokedAt := Some(now))
  }

  /** RevokeCredentialTx, also the manual administrative path. */
  function RevokeIdentity(t: Tables, d: nat, c: nat, now: Time): Reply {
    if !HasIdentity(t, c, d, Live) then Reply(t, Refused(CredentialNotFound))
    else Reply(t.(identities := t.identities[c := Withdraw(t.identities[c], now)]), Done)
  }

  /** The second transaction of Revoke. */
  function RevokeTx(t: Tables, d: nat, e: nat, now: Time, withdrawnAt: Time): Reply {
    if !HasEnrollment(t, e, d) then Reply(t, Refused(EnrollmentNotFound))
    else
      var row := t.enrollments[e];
      var revoked := row.(status := Revoked, revokedAt := Some(now));
      match row.status
      case Revoked => Reply(t, Shown(row))
      case Pending => Reply(PutEnrollment(t, e, revoked), Shown(revoked))
      case Issued =>
        if row.identityId.None? then Reply(t, Refused(InvalidState))
        else
          var o := RevokeIdentity(t, d, row.identityId.value, withdrawnAt);
          if o.answer.Refused? && !HasIdentity(t, row.identityId.value, d, Withdrawn) then Reply(t, Refused(InvalidState))
          else Reply(PutEnrollment(o.tables, e, revoked), Shown(revoked))
      case _ => Reply(t, Refused(InvalidState))
  }

  function Revoke(t: Tables, d: nat, e: nat, now: Time, withdrawnAt: Time): Reply {
    RevokeTx(Expire(t, d, now), d, e, now, withdrawnAt)
  }

  /** The credential agentauth Authenticate finds for a key; keyId is the parsed
      key id. */
  function Found(t: Tables, keyId: Option<string>, hash: string, now: Time): (r: Option<nat>)
    ensures r.Some? ==> r.value in t.identities && t.identities[r.value].status == Live
  {
    if keyId.None? then None
    else
      match First(LiveWithKey(t, keyId.value))
      case None => None
      case Some(c) =>
        var row := t.identities[c];
        if (row.expiresAt.Some? && row.expiresAt.value <= now) || hash != row.secretHash then None else Some(c)
  }

  /** What it answers when nothing happens between its statements. */
  function Admit(t: Tables, keyId: Option<string>, hash: string, now: Time): Answer {
    match Found(t, keyId, hash, now)
    case None => Refused(BadAuth)
    case Some(c) =>
      if IsActive(t, t.identities[c].deviceId) then Id(c) else Refused(BadAuth)
  }

  /** It ends with an update by primary key that checks nothing: the row may have
      changed since it was read. */
  function Stamp(t: Tables, c: nat, ip: string, now: Time): Tables {
    if c !in t.identities then t
    else t.(identities := t.identities[c := t.identities[c].(lastUsedAt := Some(now), lastUsedIp := ip)])
  }

  /** An identity row without its usage columns. */
  function Strip(row: Identity): Identity {
    row.(lastUsedAt := None, lastUsedIp := "")
  }

  /** Authentication with what other clients do between its three statements. */
  function Authentication(t: Tables, keyId: Option<string>, hash: string, ip: string, now: Time,
                          beforeDevice: seq<Call>, beforeStamp: seq<Call>): Reply {
    match Found(t, keyId, hash, now)
    case None => Reply(t, Refused(BadAuth))
    case Some(c) =>
      var u := Run(t, beforeDevice);
      if !IsActive(u, t.identities[c].deviceId) then Reply(u, Refused(BadAuth)) else Reply(Stamp(Run(u, beforeStamp), c, ip, now), Id(c))
  }

  // ----- runs ----------------------------------------------------------------------

  /** One call, or one step of a call that has several. Every call reads the
      clock once (now); the second reading only stamps a row. */
  datatype Call =
    | CreateDeviceCall(name: string, now: Time)
    | CreateCall(deviceId: nat, ttlMinutes: int, key: Key, now: Time)
    | ExchangeCall(token: Option<string>, hash: string, ip: string, key: Key, now: Time, issuedAt: Time)
    | ConfirmCall(deviceId: nat, identityId: nat, ip: string, version: string, now: Time)
    | ListCall(deviceId: nat, now: Time)
    | GetCall(deviceId: nat, enrollmentId: nat, now: Time)
    | RevokeCall(deviceId: nat, enrollmentId: nat, now: Time, withdrawnAt: Time)
    | ExpireCall(deviceId: nat, now: Time)
    | RevokeTxCall(deviceId: nat, enrollmentId: nat, now: Time, withdrawnAt: Time)
    | IssueCall(deviceId: nat, key: Key, now: Time)
    | RevokeIdentityCall(deviceId: nat, identityId: nat, now: Time)
    | AdmitCall(keyId: Option<string>, hash: string, now: Time)
    | StampCall(identityId: nat, ip: string, now: Time)

  function Perform(t: Tables, k: Call): Reply {
    match k
    case CreateDeviceCall(name, _) => CreateDevice(t, name)
    case CreateCall(d, ttlMinutes, key, now) => Create(t, d, ttlMinutes, key, now)
    case ExchangeCall(token, hash, ip, key, now, issuedAt) => Exchange(t, token, hash, ip, key, now, issuedAt)
    case ConfirmCall(d, c, ip, version, now) => Confirm(t, d, c, ip, version, now)
    case ListCall(d, now) => List(t, d, now)
    case GetCall(d, e, now) => Get(t, d, e, now)
    case RevokeCall(d, e, now, withdrawnAt) => Revoke(t, d, e, now, withdrawnAt)
    case ExpireCall(d, now) => Reply(Expire(t, d, now), Done)
    case RevokeTxCall(d, e, now, withdrawnAt) => RevokeTx(t, d, e, now, withdrawnAt)
    case IssueCall(d, key, now) => Issue(t, d, key, now)
    case RevokeIdentityCall(d, c, now) => RevokeIdentity(t, d, c, now)
    case AdmitCall(keyId, hash, now) => Reply(t, Admit(t, keyId, hash, now))
    case StampCall(c, ip, now) => Reply(Stamp(t, c, ip, now), Done)
  }

  function Run(t: Tables, calls: seq<Call>): Tables
    decreases |calls|
  {
    if calls == [] then t else Run(Perform(t, calls[0]).tables, calls[1..])
  }
}
