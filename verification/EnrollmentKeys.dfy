// Which tokens and agent keys are taken, told on the rows alone and in every
// reachable state; what an accepted token leaves behind; and which answer each
// call gives.
module EnrollmentKeys {
  import opened Clock
  import opened Wrappers
  import opened EnrollmentTables
  import opened EnrollmentInvariant

  // ----- agent keys ------------------------------------------------------------

  /** c is a live identity with this key id and hash that has not run out. */
  predicate Bears(t: Tables, c: nat, keyId: string, hash: string, now: Time) {
    && c in t.identities && t.identities[c].keyId == keyId && t.identities[c].secretHash == hash && t.identities[c].status == Live
    && (t.identities[c].expiresAt == None || now < t.identities[c].expiresAt.value)
  }

  predicate ActiveDevice(t: Tables, d: nat) { d in t.devices && t.devices[d].active }

  /** An answer to a query for live identities with a key id, where ids are unique. */
  lemma LiveIs(t: Tables, keyId: string, c: nat)
    requires UniqueTexts(t) && c in t.identities && t.identities[c].keyId == keyId && t.identities[c].status == Live
    ensures First(LiveWithKey(t, keyId)) == Some(c)
  {
    assert LiveWithKey(t, keyId) == {c};
    FirstOfSingleton(LiveWithKey(t, keyId), c);
  }

  lemma NoneLive(t: Tables, keyId: string)
    requires forall c :: c in t.identities && t.identities[c].status == Live ==> t.identities[c].keyId != keyId
    ensures First(LiveWithKey(t, keyId)) == None
  {
    assert LiveWithKey(t, keyId) == {};
  }

  lemma FoundIff(t: Tables, keyId: string, hash: string, now: Time, c: nat)
    requires UniqueTexts(t)
    ensures Found(t, Some(keyId), hash, now) == Some(c) <==> Bears(t, c, keyId, hash, now)
  {
    if b :| b in t.identities && t.identities[b].keyId == keyId && t.identities[b].status == Live {
      LiveIs(t, keyId, b);
    } else {
      NoneLive(t, keyId);
    }
  }

  /** Whatever others do between its statements: a key is accepted as identity c
      exactly when c, as it is read, is live and bears its id and its hash, and its
      device is active when that is read. The row is stamped; else nothing of the
      call's own is written, and the answer is always the same. */
  lemma AuthenticationIff(calls: seq<Call>, keyId: Option<string>, hash: string, ip: string, now: Time,
                          beforeDevice: seq<Call>, beforeStamp: seq<Call>)
    ensures var t, o := Run(EMPTY, calls), Authentication(Run(EMPTY, calls), keyId, hash, ip, now, beforeDevice, beforeStamp);
            var u := Run(t, beforeDevice);
            && (forall c :: o.answer == Id(c) <==>
                  keyId.Some? && Bears(t, c, keyId.value, hash, now) && ActiveDevice(u, t.identities[c].deviceId))
            && (o.answer.Id? || o.answer == Refused(BadAuth))
            && (o.answer.Id? ==> StampedOnly(Run(u, beforeStamp), o.tables, o.answer.id, ip, now))
            && (o.answer.Refused? ==> o.tables == t || o.tables == u)
  {
    var t := Run(EMPTY, calls);
    ReachableJoint(calls);
    if keyId.Some? {
      forall c: nat ensures Found(t, keyId, hash, now) == Some(c) <==> Bears(t, c, keyId.value, hash, now) {
        FoundIff(t, keyId.value, hash, now, c);
      }
    }
  }

  /** Asked at one moment, it answers the same way. */
  lemma AdmitIff(calls: seq<Call>, keyId: Option<string>, hash: string, now: Time)
    ensures var t := Run(EMPTY, calls);
            && (forall c :: Admit(t, keyId, hash, now) == Id(c) <==>
                  keyId.Some? && Bears(t, c, keyId.value, hash, now) && ActiveDevice(t, t.identities[c].deviceId))
            && (Admit(t, keyId, hash, now).Id? || Admit(t, keyId, hash, now) == Refused(BadAuth))
  {
    AuthenticationIff(calls, keyId, hash, "", now, [], []);
  }

  ghost predicate StampedOnly(v: Tables, after: Tables, c: nat, ip: string, now: Time) {
    after == if c !in v.identities then v
             else v.(identities := v.identities[c := v.identities[c].(lastUsedAt := Some(now), lastUsedIp := ip)])
  }

  // ----- enrollment tokens --------------------------------------------------------

  /** e is pending and in time, with this token id and hash. */
  predicate Redeems(t: Tables, e: nat, token: Option<string>, hash: string, now: Time) {
    && e in t.enrollments && token == Some(t.enrollments[e].tokenId) && t.enrollments[e].secretHash == hash
    && t.enrollments[e].status == Pending && now < t.enrollments[e].expiresAt
  }

  ghost predicate HasLive(t: Tables, d: nat) {
    exists c :: c in t.identities && t.identities[c].deviceId == d && t.identities[c].status == Live
  }

  ghost predicate KeyIdUsed(t: Tables, keyId: string) { exists c :: c in t.identities && t.identities[c].keyId == keyId }

  lemma TokenIs(t: Tables, e: nat)
    requires UniqueTexts(t) && e in t.enrollments
    ensures First(WithToken(t, t.enrollments[e].tokenId)) == Some(e)
  {
    assert WithToken(t, t.enrollments[e].tokenId) == {e};
    FirstOfSingleton(WithToken(t, t.enrollments[e].tokenId), e);
  }

  lemma LiveIff(t: Tables, d: nat)
    ensures LiveIdentities(t, d) != {} <==> HasLive(t, d)
  {
    if c :| c in t.identities && t.identities[c].deviceId == d && t.identities[c].status == Live { assert c in LiveIdentities(t, d); }
  }

  /** The rows of an exchange that succeeded: the enrollment is issued, and the new
      identity bears the key that was handed out; all others stay. */
  ghost predicate ExchangedRows(t: Tables, u: Tables, e: nat, c: nat, ip: string, key: Key, now: Time, issuedAt: Time) {
    && e in t.enrollments && e in u.enrollments && c !in t.identities && c in u.identities
    && u.enrollments[e] == t.enrollments[e].(status := Issued, issuedAt := Some(now), usedIp := ip, identityId := Some(c))
    && u.identities[c].deviceId == t.enrollments[e].deviceId && u.identities[c].keyId == key.id
    && u.identities[c].secretHash == key.hash && u.identities[c].status == Live && u.identities[c].activatedAt == issuedAt
    && u.identities[c].expiresAt == None && u.identities[c].revokedAt == None && u.identities[c].lastUsedAt == None
    && u.identities[c].lastUsedIp == ""
    && u.enrollments == t.enrollments[e := u.enrollments[e]] && u.identities == t.identities[c := u.identities[c]]
    && u.devices == t.devices
  }

  lemma RedeemedExchange(t: Tables, e: nat, token: Option<string>, hash: string, ip: string, key: Key, now: Time, issuedAt: Time)
    requires Joint(t) && Redeems(t, e, token, hash, now)
    ensures var o, d := Exchange(t, token, hash, ip, key, now, issuedAt), t.enrollments[e].deviceId;
            && o.answer == (if !ActiveDevice(t, d) then Refused(DeviceNotFound)
                            else if HasLive(t, d) then Refused(ActiveCredentialExists)
                            else if KeyIdUsed(t, key.id) then Refused(UniqueViolation)
                            else Exchanged(e, t.nextIdentity))
            && (o.answer.Refused? ==> o.tables == t)
            && (o.answer.Exchanged? ==> ExchangedRows(t, o.tables, e, t.nextIdentity, ip, key, now, issuedAt))
  {
    TokenIs(t, e);
    LiveIff(t, t.enrollments[e].deviceId);
    var claimed := t.enrollments[e].(status := Issued, issuedAt := Some(now), usedIp := ip);
    assert LiveIdentities(PutEnrollment(t, e, claimed), t.enrollments[e].deviceId) == LiveIdentities(t, t.enrollments[e].deviceId);
  }

  /** e is pending and out of time, with this token id and hash. */
  predicate RunsOut(t: Tables, e: nat, token: Option<string>, hash: string, now: Time) {
    && e in t.enrollments && token == Some(t.enrollments[e].tokenId) && t.enrollments[e].secretHash == hash
    && t.enrollments[e].status == Pending && t.enrollments[e].expiresAt <= now
  }

  /** A token that is found to have run out is marked, no other. */
  lemma OverdueExchange(t: Tables, token: Option<string>, hash: string, ip: string, key: Key, now: Time, issuedAt: Time)
    requires Joint(t) && forall e :: !Redeems(t, e, token, hash, now)
    ensures var u := Exchange(t, token, hash, ip, key, now, issuedAt).tables;
            && (forall e :: RunsOut(t, e, token, hash, now) ==> u == t.(enrollments := t.enrollments[e := t.enrollments[e].(status := Expired)]))
            && ((forall e :: !RunsOut(t, e, token, hash, now)) ==> u == t)
  {
    if e :| RunsOut(t, e, token, hash, now) {
      TokenIs(t, e);
      forall f | RunsOut(t, f, token, hash, now) ensures f == e { TokenIs(t, f); }
    } else if token.Some? && First(WithToken(t, token.value)).Some? {
      var e := First(WithToken(t, token.value)).value;
      assert !Redeems(t, e, token, hash, now) && !RunsOut(t, e, token, hash, now);
    }
  }

  lemma UnredeemedExchange(t: Tables, token: Option<string>, hash: string, ip: string, key: Key, now: Time, issuedAt: Time)
    requires Joint(t) && forall e :: !Redeems(t, e, token, hash, now)
    ensures Exchange(t, token, hash, ip, key, now, issuedAt).answer == Refused(BadAuth)
  {
    if token.Some? && First(WithToken(t, token.value)).Some? {
      var e := First(WithToken(t, token.value)).value;
      assert !Redeems(t, e, token, hash, now);
    }
  }

  /** In every reachable state a token is exchanged exactly if a pending enrollment
      in time bears its id and its hash, its device is active and has no live
      identity, and the id of the key to hand out is new. Each refusal says which of
      these failed first. */
  lemma ExchangeIff(calls: seq<Call>, token: Option<string>, hash: string, ip: string, key: Key, now: Time, issuedAt: Time)
    ensures var t := Run(EMPTY, calls);
            var o := Exchange(t, token, hash, ip, key, now, issuedAt);
            && (o.answer == Refused(BadAuth) <==> forall e :: !Redeems(t, e, token, hash, now))
            && (o.answer == Refused(DeviceNotFound) <==>
                  exists e :: Redeems(t, e, token, hash, now) && !ActiveDevice(t, t.enrollments[e].deviceId))
            && (o.answer == Refused(ActiveCredentialExists) <==>
                  exists e :: Redeems(t, e, token, hash, now) && ActiveDevice(t, t.enrollments[e].deviceId)
                              && HasLive(t, t.enrollments[e].deviceId))
            && (o.answer.Exchanged? <==>
                  exists e :: Redeems(t, e, token, hash, now) && ActiveDevice(t, t.enrollments[e].deviceId)
                              && !HasLive(t, t.enrollments[e].deviceId) && !KeyIdUsed(t, key.id))
            && (o.answer.Exchanged? ==>
                  && Redeems(t, o.answer.enrollmentId, token, hash, now)
                  && ExchangedRows(t, o.tables, o.answer.enrollmentId, o.answer.identityId, ip, key, now, issuedAt))
            && (o.answer.Exchanged? || o.answer.Refused?)
            && (o.answer.Refused? && !(exists e :: RunsOut(t, e, token, hash, now)) ==> o.tables == t)
            && (forall e :: RunsOut(t, e, token, hash, now) ==>
                  o.tables == t.(enrollments := t.enrollments[e := t.enrollments[e].(status := Expired)]))
  {
    var t := Run(EMPTY, calls);
    ReachableJoint(calls);
    ExchangeMarks(t, token, hash, ip, key, now, issuedAt);
    if e :| Redeems(t, e, token, hash, now) {
      RedeemedExchange(t, e, token, hash, ip, key, now, issuedAt);
      forall f | Redeems(t, f, token, hash, now) ensures f == e {}
    } else {
      UnredeemedExchange(t, token, hash, ip, key, now, issuedAt);
    }
  }

  lemma ExchangeMarks(t: Tables, token: Option<string>, hash: string, ip: string, key: Key, now: Time, issuedAt: Time)
    requires Joint(t)
    ensures var o := Exchange(t, token, hash, ip, key, now, issuedAt);
            && (o.answer.Refused? && !(exists e :: RunsOut(t, e, token, hash, now)) ==> o.tables == t)
            && (forall e :: RunsOut(t, e, token, hash, now) ==>
                  o.tables == t.(enrollments := t.enrollments[e := t.enrollments[e].(status := Expired)]))
  {
    if e :| Redeems(t, e, token, hash, now) {
      RedeemedExchange(t, e, token, hash, ip, key, now, issuedAt);
      TokenIs(t, e);
      forall f | RunsOut(t, f, token, hash, now) ensures false { TokenIs(t, f); }
    } else {
      OverdueExchange(t, token, hash, ip, key, now, issuedAt);
    }
  }

  // ----- answers of the other calls ---------------------------------------------------

  /** A device is given a pending enrollment with the token and the lifetime asked
      for, exactly if it is active, its older ones are closed or overdue, it has no
      live identity and the token's id is new. */
  lemma CreateAnswers(t: Tables, d: nat, ttlMinutes: int, key: Key, now: Time)
    requires Numbered(t)
    ensures var o := Create(t, d, ttlMinutes, key, now);
            var legal := 1 <= ttlMinutes <= 1440;
            var open := exists e :: e in t.enrollments && t.enrollments[e].deviceId == d
                          && (t.enrollments[e].status == Issued || (t.enrollments[e].status == Pending && now < t.enrollments[e].expiresAt));
            var used := exists e :: e in t.enrollments && t.enrollments[e].tokenId == key.id;
            && (o.answer == Refused(InvalidTtl) <==> !legal)
            && (o.answer == Refused(DeviceNotFound) <==> legal && !ActiveDevice(t, d))
            && (o.answer == Refused(EnrollmentInProgress) <==> legal && ActiveDevice(t, d) && open)
            && (o.answer == Refused(ActiveCredentialExists) <==> legal && ActiveDevice(t, d) && !open && HasLive(t, d))
            && (o.answer == Refused(UniqueViolation) <==> legal && ActiveDevice(t, d) && !open && !HasLive(t, d) && used)
            && (o.answer.Id? <==> legal && ActiveDevice(t, d) && !open && !HasLive(t, d) && !used)
            && (o.answer.Id? ==> CreatedRow(t, o.tables, o.answer.id, d, key, now + ttlMinutes * 60 * 1_000_000_000))
            && (o.answer.Refused? ==> o.tables == t)
  {
    var u := Expire(t, d, now);
    OpenIff(t, d, now);
    LiveIff(t, d);
    assert LiveIdentities(u, d) == LiveIdentities(t, d);
    UsedIff(t, d, key.id, now);
  }

  ghost predicate CreatedRow(t: Tables, u: Tables, e: nat, d: nat, key: Key, expiresAt: Time) {
    && e !in t.enrollments && e in u.enrollments
    && var row := u.enrollments[e];
       && row.deviceId == d && row.tokenId == key.id && row.secretHash == key.hash && row.status == Pending && row.expiresAt == expiresAt
       && row.issuedAt == row.completedAt == row.revokedAt == None && row.usedIp == "" && row.identityId == None
  }

  lemma OpenIff(t: Tables, d: nat, now: Time)
    ensures OpenEnrollments(Expire(t, d, now), d) != {} <==>
              exists e :: e in t.enrollments && t.enrollments[e].deviceId == d
                && (t.enrollments[e].status == Issued || (t.enrollments[e].status == Pending && now < t.enrollments[e].expiresAt))
  {
    var u := Expire(t, d, now);
    if e :| e in t.enrollments && t.enrollments[e].deviceId == d
            && (t.enrollments[e].status == Issued || (t.enrollments[e].status == Pending && now < t.enrollments[e].expiresAt)) {
      assert e in OpenEnrollments(u, d);
    }
    if OpenEnrollments(u, d) != {} {
      var e :| e in OpenEnrollments(u, d);
      assert e in t.enrollments;
    }
  }

  lemma UsedIff(t: Tables, d: nat, tokenId: string, now: Time)
    ensures WithToken(Expire(t, d, now), tokenId) != {} <==> exists e :: e in t.enrollments && t.enrollments[e].tokenId == tokenId
  {
    if e :| e in t.enrollments && t.enrollments[e].tokenId == tokenId { assert e in WithToken(Expire(t, d, now), tokenId); }
  }

  /** The administrator's way to give a device an identity. */
  lemma IssueAnswers(t: Tables, d: nat, key: Key, now: Time)
    requires Numbered(t)
    ensures var o := Issue(t, d, key, now);
            && (o.answer == Refused(DeviceNotFound) <==> !ActiveDevice(t, d))
            && (o.answer == Refused(ActiveCredentialExists) <==> ActiveDevice(t, d) && HasLive(t, d))
            && (o.answer == Refused(UniqueViolation) <==> ActiveDevice(t, d) && !HasLive(t, d) && KeyIdUsed(t, key.id))
            && (o.answer.Id? <==> ActiveDevice(t, d) && !HasLive(t, d) && !KeyIdUsed(t, key.id))
            && (o.answer.Refused? ==> o.tables == t)
  {
    LiveIff(t, d);
  }

  /** Confirming succeeds exactly if an enrollment of the device names the identity
      and is issued or completed; the newest is completed, and the device seen. */
  lemma ConfirmAnswers(t: Tables, d: nat, c: nat, ip: string, version: string, now: Time)
    ensures var o := Confirm(t, d, c, ip, version, now);
            var mine := exists e :: Links(t, e, d, c);
            && (o.answer == if !mine then Refused(EnrollmentNotFound) else o.answer)
            && (mine ==> o.answer.Shown? && exists e ::
                  && Links(t, e, d, c) && (forall f :: Links(t, f, d, c) ==> f <= e)
                  && ConfirmedRows(t, o.tables, e, d, ip, version, now) && o.answer.enrollment == o.tables.enrollments[e])
  {
    if e :| Links(t, e, d, c) { assert e in Confirmable(t, d, c); }
    if Confirmable(t, d, c) != {} {
      var e := Last(Confirmable(t, d, c)).value;
      assert Links(t, e, d, c);
      forall f | Links(t, f, d, c) ensures f <= e { assert f in Confirmable(t, d, c); }
      ConfirmWrites(t, d, c, ip, version, now, e);
    }
  }

  predicate Links(t: Tables, e: nat, d: nat, c: nat) {
    e in t.enrollments && t.enrollments[e].deviceId == d && t.enrollments[e].identityId == Some(c)
    && t.enrollments[e].status in {Issued, Completed}
  }

  ghost predicate ConfirmedRows(t: Tables, u: Tables, e: nat, d: nat, ip: string, version: string, now: Time) {
    && e in t.enrollments && e in u.enrollments && u.enrollments == t.enrollments[e := u.enrollments[e]]
    && u.enrollments[e].status == Completed
    && u.enrollments[e].completedAt == (if t.enrollments[e].status == Issued then Some(now) else t.enrollments[e].completedAt)
    && u.enrollments[e].(status := t.enrollments[e].status, completedAt := t.enrollments[e].completedAt) == t.enrollments[e]
    && u.identities == t.identities
    && (d in t.devices ==>
          && d in u.devices && u.devices == t.devices[d := u.devices[d]]
          && u.devices[d].name == t.devices[d].name && u.devices[d].active == t.devices[d].active
          && u.devices[d].lastSeenAt == Some(now) && u.devices[d].lastIp == ip
          && (version != "" ==> u.devices[d].agentVersion == version)
          && (version == "" ==> u.devices[d].agentVersion == t.devices[d].agentVersion))
  }

  lemma ConfirmWrites(t: Tables, d: nat, c: nat, ip: string, version: string, now: Time, e: nat)
    requires Last(Confirmable(t, d, c)) == Some(e)
    ensures var o := Confirm(t, d, c, ip, version, now);
            ConfirmedRows(t, o.tables, e, d, ip, version, now) && o.answer == Shown(o.tables.enrollments[e])
  {
  }

  /** Reading, and revoking in two transactions, answer for the row of that device
      or for none. */
  lemma ReadAnswers(t: Tables, d: nat, e: nat, now: Time)
    ensures var mine := e in t.enrollments && t.enrollments[e].deviceId == d;
            && (Get(t, d, e, now).answer == Refused(EnrollmentNotFound) <==> !mine)
            && (mine ==> Get(t, d, e, now).answer
                         == Shown(if t.enrollments[e].status == Pending && t.enrollments[e].expiresAt <= now
                                  then t.enrollments[e].(status := Expired) else t.enrollments[e]))
            && (List(t, d, now).answer == Refused(DeviceNotFound) <==> d !in t.devices)
            && (d in t.devices ==> List(t, d, now).answer.Listed?)
            && (forall later :: Revoke(t, d, e, now, later).answer == Refused(EnrollmentNotFound) <==> !mine)
  {
  }
}
