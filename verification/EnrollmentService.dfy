// enrollment/service.go and agentauth/service.go as the source writes them: an
// object over the tables whose methods update rows one statement at a time and
// put them back when a later statement of the same transaction fails. Every
// method is tied to the call of EnrollmentTables it carries out.
module EnrollmentService {
  import opened Clock
  import opened Wrappers
  import opened EnrollmentTables

  class Database {
    var devices: map<nat, Device>
    var enrollments: map<nat, Enrollment>
    var identities: map<nat, Identity>
    var nextDevice: nat
    var nextEnrollment: nat
    var nextIdentity: nat

    ghost function Db(): Tables
      reads this
    {
      Tables(devices, enrollments, identities, nextDevice, nextEnrollment, nextIdentity)
    }

    constructor ()
      ensures Db() == EMPTY
    {
      devices, enrollments, identities := map[], map[], map[];
      nextDevice, nextEnrollment, nextIdentity := 1, 1, 1;
    }

    method CreateDevice(name: string) returns (answer: Answer)
      modifies this`devices, this`nextDevice
      ensures Reply(Db(), answer) == EnrollmentTables.CreateDevice(old(Db()), name)
    {
      if exists d :: d in devices && devices[d].name == name { return Refused(UniqueViolation); }
      var id := nextDevice;
      devices, nextDevice := devices[id := Device(name, true, None, "", "")], id + 1;
      return Id(id);
    }

    /** UPDATE ... SET status = 'expired' WHERE the token is pending and overdue;
        device 0 leaves the device out of the WHERE clause. */
    method ExpirePending(deviceId: nat, now: Time)
      modifies this`enrollments
      ensures Db() == Expire(old(Db()), deviceId, now)
    {
      var overdue := set e | e in enrollments && enrollments[e].status == Pending && enrollments[e].expiresAt <= now;
      if deviceId != 0 { overdue := set e | e in overdue && enrollments[e].deviceId == deviceId; }
      enrollments := enrollments + map e | e in overdue :: enrollments[e].(status := Expired);
      assert enrollments == Expire(old(Db()), deviceId, now).enrollments;
    }

    method Create(deviceId: nat, ttlMinutes: int, key: Key, now: Time) returns (answer: Answer)
      modifies this`enrollments, this`nextEnrollment
      ensures Reply(Db(), answer) == EnrollmentTables.Create(old(Db()), deviceId, ttlMinutes, key, now)
    {
      if ttlMinutes < MIN_TTL_MINUTES || ttlMinutes > MAX_TTL_MINUTES { return Refused(InvalidTtl); }
      var saved := enrollments;
      ExpirePending(deviceId, now);
      ghost var u := Db();
      if deviceId !in devices || !devices[deviceId].active {
        enrollments := saved;
        return Refused(DeviceNotFound);
      }
      var open := set e | e in enrollments && enrollments[e].deviceId == deviceId && IsOpen(enrollments[e].status);
      assert open == OpenEnrollments(u, deviceId);
      if |open| != 0 {
        enrollments := saved;
        return Refused(EnrollmentInProgress);
      }
      var live := set c | c in identities && identities[c].deviceId == deviceId && identities[c].status == Live;
      assert live == LiveIdentities(u, deviceId);
      if |live| != 0 {
        enrollments := saved;
        return Refused(ActiveCredentialExists);
      }
      var taken := set e | e in enrollments && enrollments[e].tokenId == key.id;
      assert taken == WithToken(u, key.id);
      if taken != {} {
        enrollments := saved;
        return Refused(UniqueViolation);
      }
      var id := nextEnrollment;
      enrollments := enrollments[id := NewEnrollment(deviceId, key, now + ttlMinutes * MINUTE)];
      nextEnrollment := id + 1;
      return Id(id);
    }

    /** IssueCredentialTx: the caller owns the transaction, and a refusal leaves
        nothing to roll back here. */
    method IssueCredential(deviceId: nat, key: Key, now: Time) returns (answer: Answer)
      modifies this`identities, this`nextIdentity
      ensures Reply(Db(), answer) == Issue(old(Db()), deviceId, key, now)
    {
      if deviceId !in devices || !devices[deviceId].active { return Refused(DeviceNotFound); }
      var live := set c | c in identities && identities[c].deviceId == deviceId && identities[c].status == Live;
      assert live == LiveIdentities(Db(), deviceId);
      if |live| != 0 { return Refused(ActiveCredentialExists); }
      if exists c :: c in identities && identities[c].keyId == key.id { return Refused(UniqueViolation); }
      var id := nextIdentity;
      identities, nextIdentity := identities[id := NewIdentity(deviceId, key, now)], id + 1;
      return Id(id);
    }

    /** The token is claimed before the identity is issued; a failure puts the
        claim back. */
    method Exchange(token: Option<string>, hash: string, ip: string, key: Key, now: Time,
                    issuedAt: Time) returns (answer: Answer)
      modifies this`enrollments, this`identities, this`nextIdentity
      ensures Reply(Db(), answer) == EnrollmentTables.Exchange(old(Db()), token, hash, ip, key, now, issuedAt)
    {
      if token.None? { return Refused(BadAuth); }
      var found := set e | e in enrollments && enrollments[e].tokenId == token.value;
      assert found == WithToken(Db(), token.value);
      if found == {} { return Refused(BadAuth); }
      var e := First(found).value;
      var row, saved := enrollments[e], enrollments;
      if row.status != Pending || hash != row.secretHash { return Refused(BadAuth); }
      if row.expiresAt <= now {
        enrollments := enrollments[e := row.(status := Expired)];
        return Refused(BadAuth);
      }
      enrollments := enrollments[e := row.(status := Issued, issuedAt := Some(now), usedIp := ip)];
      assert Db() == PutEnrollment(old(Db()), e, row.(status := Issued, issuedAt := Some(now), usedIp := ip));
      var issued := IssueCredential(row.deviceId, key, issuedAt);
      if issued.Refused? {
        enrollments := saved;
        return issued;
      }
      enrollments := enrollments[e := enrollments[e].(identityId := Some(issued.id))];
      return Exchanged(e, issued.id);
    }

    method Confirm(deviceId: nat, identityId: nat, ip: string, version: string, now: Time) returns (answer: Answer)
      modifies this`enrollments, this`devices
      ensures Reply(Db(), answer) == EnrollmentTables.Confirm(old(Db()), deviceId, identityId, ip, version, now)
    {
      var matching := set e | e in enrollments && enrollments[e].deviceId == deviceId
                              && enrollments[e].identityId == Some(identityId) && enrollments[e].status in {Issued, Completed};
      assert matching == Confirmable(Db(), deviceId, identityId);
      if matching == {} { return Refused(EnrollmentNotFound); }
      var e := Last(matching).value;
      assert enrollments == enrollments[e := enrollments[e]];
      if enrollments[e].status == Issued {
        enrollments := enrollments[e := enrollments[e].(status := Completed, completedAt := Some(now))];
      }
      if deviceId in devices {
        var seen := devices[deviceId].(lastSeenAt := Some(now), lastIp := ip);
        if version != "" { seen := seen.(agentVersion := version); }
        devices := devices[deviceId := seen];
      }
      return Shown(enrollments[e]);
    }

    /** others is what the rest of the system commits between the steps of a call. */
    method Interleave(others: seq<Call>)
      modifies this
      ensures Db() == Run(old(Db()), others)
    {
      var after := Run(Tables(devices, enrollments, identities, nextDevice, nextEnrollment, nextIdentity), others);
      devices, enrollments, identities := after.devices, after.enrollments, after.identities;
      nextDevice, nextEnrollment, nextIdentity := after.nextDevice, after.nextEnrollment, after.nextIdentity;
    }

    /** Three statements, with calls of others between them. */
    method ListEnrollments(deviceId: nat, beforeExpiry: seq<Call>, now: Time, beforeRead: seq<Call>) returns (answer: Answer)
      modifies this
      ensures deviceId !in old(devices) ==> Reply(Db(), answer) == Reply(old(Db()), Refused(DeviceNotFound))
      ensures deviceId in old(devices) ==>
                var u := Run(Expire(Run(old(Db()), beforeExpiry), deviceId, now), beforeRead);
                Reply(Db(), answer) == Reply(u, ListRead(u, deviceId))
      ensures beforeExpiry == beforeRead == [] ==> Reply(Db(), answer) == List(old(Db()), deviceId, now)
    {
      if deviceId !in devices { return Refused(DeviceNotFound); }
      Interleave(beforeExpiry);
      ExpirePending(deviceId, now);
      Interleave(beforeRead);
      return ListRead(Tables(devices, enrollments, identities, nextDevice, nextEnrollment, nextIdentity), deviceId);
    }

    method GetEnrollment(deviceId: nat, enrollmentId: nat, now: Time, beforeRead: seq<Call>) returns (answer: Answer)
      modifies this
      ensures var u := Run(Expire(old(Db()), deviceId, now), beforeRead);
              Reply(Db(), answer) == Reply(u, GetRead(u, deviceId, enrollmentId))
      ensures beforeRead == [] ==> Reply(Db(), answer) == Get(old(Db()), deviceId, enrollmentId, now)
    {
      ExpirePending(deviceId, now);
      Interleave(beforeRead);
      if enrollmentId !in enrollments || enrollments[enrollmentId].deviceId != deviceId { return Refused(EnrollmentNotFound); }
      return Shown(enrollments[enrollmentId]);
    }

    /** RevokeCredentialTx */
    method RevokeCredential(deviceId: nat, identityId: nat, now: Time) returns (answer: Answer)
      modifies this`identities
      ensures Reply(Db(), answer) == RevokeIdentity(old(Db()), deviceId, identityId, now)
    {
      if identityId !in identities || identities[identityId].deviceId != deviceId || identities[identityId].status != Live {
        return Refused(CredentialNotFound);
      }
      identities := identities[identityId := identities[identityId].(status := Withdrawn, revokedAt := Some(now))];
      return Done;
    }

    /** Two transactions, each with its own clock reading. */
    method Revoke(deviceId: nat, enrollmentId: nat, expiresAt: Time, others: seq<Call>, now: Time, withdrawnAt: Time)
      returns (answer: Answer)
      modifies this
      ensures Reply(Db(), answer) == RevokeTx(Run(Expire(old(Db()), deviceId, expiresAt), others), deviceId, enrollmentId, now, withdrawnAt)
      ensures others == [] && expiresAt == now ==>
                Reply(Db(), answer) == EnrollmentTables.Revoke(old(Db()), deviceId, enrollmentId, now, withdrawnAt)
    {
      ExpirePending(deviceId, expiresAt);
      Interleave(others);
      ghost var t := Db();
      if enrollmentId !in enrollments || enrollments[enrollmentId].deviceId != deviceId { return Refused(EnrollmentNotFound); }
      var row := enrollments[enrollmentId];
      match row.status {
        case Revoked => return Shown(row);
        case Pending =>
        case Issued =>
          if row.identityId.None? { return Refused(InvalidState); }
          var c := row.identityId.value;
          var revoked := RevokeCredential(deviceId, c, withdrawnAt);
          if revoked.Refused? {
            assert Db() == t;
            if c !in identities || identities[c].deviceId != deviceId || identities[c].status != Withdrawn {
              return Refused(InvalidState);
            }
          }
        case _ => return Refused(InvalidState);
      }
      row := row.(status := Revoked, revokedAt := Some(now));
      enrollments := enrollments[enrollmentId := row];
      return Shown(row);
    }

    /** Three statements, with calls of others between them. */
    method Authenticate(keyId: Option<string>, hash: string, ip: string, now: Time,
                        beforeDevice: seq<Call>, beforeStamp: seq<Call>) returns (answer: Answer)
      modifies this
      ensures Reply(Db(), answer) == Authentication(old(Db()), keyId, hash, ip, now, beforeDevice, beforeStamp)
    {
      if keyId.None? { return Refused(BadAuth); }
      var found := set c | c in identities && identities[c].keyId == keyId.value && identities[c].status == Live;
      assert found == LiveWithKey(Db(), keyId.value);
      if found == {} { return Refused(BadAuth); }
      var c := First(found).value;
      var row := identities[c];
      if row.expiresAt.Some? && row.expiresAt.value <= now { return Refused(BadAuth); }
      if hash != row.secretHash { return Refused(BadAuth); }
      Interleave(beforeDevice);
      if row.deviceId !in devices || !devices[row.deviceId].active { return Refused(BadAuth); }
      Interleave(beforeStamp);
      if c in identities { identities := identities[c := identities[c].(lastUsedAt := Some(now), lastUsedIp := ip)]; }
      return Id(c);
    }
  }
}
