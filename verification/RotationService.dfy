// credential/service.go and ddns.Authenticate as the source writes them: an
// object over the tables whose methods update rows one statement at a time and
// put them back when a later statement of the same transaction fails. Every
// method is tied to the transaction of RotationTables it carries out.
module RotationService {
  import opened Clock
  import opened Wrappers
  import opened Text
  import opened RotationTables

  class Database {
    var devices: map<nat, Device>
    var credentials: map<nat, Credential>
    var rotations: map<nat, Rotation>
    var nextDevice: nat
    var nextCredential: nat
    var nextRotation: nat

    ghost function Db(): Tables
      reads this
    {
      Tables(devices, credentials, rotations, nextDevice, nextCredential, nextRotation)
    }

    constructor ()
      ensures Db() == EMPTY
    {
      devices, credentials, rotations := map[], map[], map[];
      nextDevice, nextCredential, nextRotation := 1, 1, 1;
    }

    /** The WHERE clause of every guarded credential update. */
    predicate Matches(c: nat, deviceId: nat, status: CredentialStatus)
      reads this
    {
      c in credentials && credentials[c].deviceId == deviceId && credentials[c].status == status
    }

    method CreateDevice(name: string, keyId: string, secretHash: string, now: Time) returns (result: Result<nat, Error>)
      modifies this
      ensures Outcome(Db(), result) == RotationTables.CreateDevice(old(Db()), name, keyId, secretHash, now)
    {
      if exists d :: d in devices && devices[d].name == name { return Err(UniqueViolation); }
      var saved, id := devices, nextDevice;
      devices, nextDevice := devices[id := Device(name, true)], id + 1;
      if exists c :: c in credentials && credentials[c].keyId == keyId {
        devices, nextDevice := saved, id;
        return Err(UniqueViolation);
      }
      var row := Credential(id, keyId, secretHash, Active, Some(now), None, None, None, None, None, "", None);
      credentials, nextCredential := credentials[nextCredential := row], nextCredential + 1;
      return Ok(id);
    }

    method RequestRotation(deviceId: nat, graceMinutes: int, now: Time) returns (result: Result<nat, Error>)
      modifies this`rotations, this`nextRotation
      ensures Outcome(Db(), result) == RotationTables.RequestRotation(old(Db()), deviceId, graceMinutes, now)
    {
      if graceMinutes < MIN_GRACE_MINUTES || graceMinutes > MAX_GRACE_MINUTES { return Err(InvalidGracePeriod); }
      if deviceId !in devices || !devices[deviceId].active { return Err(DeviceNotFound); }
      var open := set r | r in rotations && rotations[r].deviceId == deviceId && IsOpen(rotations[r].status);
      assert open == OpenRotations(Db(), deviceId);
      if |open| != 0 { return Err(RotationInProgress); }
      var active := set c | c in credentials && credentials[c].deviceId == deviceId && credentials[c].status == Active;
      assert active == CredentialsIn(Db(), deviceId, Active);
      if |active| == 0 { return Err(NoActiveCredential); }
      var previous := First(active).value;
      if active - {previous} != {} { return Err(MultipleActive); }
      assert active == {previous};
      assert credentials + map[] == credentials;
      var id := nextRotation;
      rotations, nextRotation := rotations[id := NewRotation(deviceId, previous, graceMinutes, now)], id + 1;
      return Ok(id);
    }

    method CurrentRotation(deviceId: nat) returns (current: Option<nat>)
      ensures current.None? <==> OpenRotations(Db(), deviceId) == {}
      ensures current.Some? ==> current.value in OpenRotations(Db(), deviceId)
    {
      var open := set r | r in rotations && rotations[r].deviceId == deviceId && IsOpen(rotations[r].status);
      current := First(open);
    }

    method StageCandidate(rotationId: nat, deviceId: nat, rawKeyId: string, rawHash: string, now: Time)
      returns (result: Result<nat, Error>)
      modifies this`credentials, this`rotations, this`nextCredential
      ensures Outcome(Db(), result) == RotationTables.StageCandidate(old(Db()), rotationId, deviceId, rawKeyId, rawHash, now)
    {
      var keyId := ToLower(TrimSpace(rawKeyId));
      var secretHash := ToLower(TrimSpace(rawHash));
      if !ValidHexBytes(keyId, 8) { return Err(InvalidCandidateKeyId); }
      if !ValidHexBytes(secretHash, 32) { return Err(InvalidCandidateHash); }
      if rotationId !in rotations || rotations[rotationId].deviceId != deviceId { return Err(RotationNotFound); }
      var rotation := rotations[rotationId];
      if rotation.status != Requested || rotation.newId.Some? { return Err(InvalidRotationState); }
      if !Matches(rotation.previousId, deviceId, Active) { return Err(InvalidRotationState); }
      if exists c :: c in credentials && credentials[c].keyId == keyId { return Err(UniqueViolation); }
      var id := nextCredential;
      var candidate := NewCandidate(deviceId, keyId, secretHash, rotation.previousId);
      assert credentials + map[id := candidate] == credentials[id := candidate];
      credentials, nextCredential := credentials[id := candidate], id + 1;
      rotations := rotations[rotationId := rotation.(newId := Some(id), status := Staged, stagedAt := Some(now))];
      return Ok(id);
    }

    method StartValidation(rotationId: nat, deviceId: nat, now: Time) returns (result: Result<nat, Error>)
      modifies this`credentials, this`rotations
      ensures Outcome(Db(), result) == RotationTables.StartValidation(old(Db()), rotationId, deviceId, now)
    {
      if rotationId !in rotations || rotations[rotationId].deviceId != deviceId { return Err(RotationNotFound); }
      var rotation := rotations[rotationId];
      if rotation.status != Staged || rotation.newId.None? { return Err(InvalidRotationState); }
      var c := rotation.newId.value;
      if !Matches(c, deviceId, Pending) { return Err(InvalidRotationState); }
      var activated := credentials[c].(status := Active, activatedAt := Some(now));
      assert credentials + map[c := activated] == credentials[c := activated];
      credentials := credentials[c := activated];
      rotations := rotations[rotationId := rotation.(status := Validating, validationStartedAt := Some(now))];
      return Ok(rotationId);
    }

    method ConfirmCredentialUse(c: nat, now: Time) returns (result: Result<bool, Error>)
      modifies this`credentials, this`rotations
      ensures Outcome(Db(), result) == RotationTables.ConfirmCredentialUse(old(Db()), c, now)
    {
      var validating := set r | r in rotations && rotations[r].newId == Some(c) && rotations[r].status == Validating;
      assert validating == ValidatingWith(Db(), c);
      if validating == {} { return Ok(false); }
      var r := First(validating).value;
      var rotation := rotations[r];
      if !Matches(c, rotation.deviceId, Active) { return Err(InvalidRotationState); }
      var saved, until := credentials, now + rotation.graceMinutes * MINUTE;
      credentials := credentials[c := credentials[c].(confirmedAt := Some(now))];
      var p := rotation.previousId;
      if !Matches(p, rotation.deviceId, Active) {
        credentials := saved;
        return Err(InvalidRotationState);
      }
      credentials := credentials[p := credentials[p].(status := Grace, graceUntil := Some(until))];
      assert credentials == saved + ConfirmEdit(old(Db()), r, c, p, now).rows;
      rotations := rotations[r := rotation.(status := InGrace, confirmedAt := Some(now), graceUntil := Some(until))];
      return Ok(true);
    }

    /** The body of the reconciler's loop: one transaction. */
    method ReconcileRow(r: nat, now: Time) returns (result: Result<bool, Error>)
      modifies this`credentials, this`rotations
      ensures Outcome(Db(), result) == RotationTables.ReconcileRow(old(Db()), r, now)
    {
      if r !in rotations || rotations[r].status != InGrace { return Ok(false); }
      var rotation := rotations[r];
      if rotation.graceUntil.None? || rotation.graceUntil.value > now { return Ok(false); }
      var p := rotation.previousId;
      if !Matches(p, rotation.deviceId, Grace) { return Err(InvalidRotationState); }
      var revoked := credentials[p].(status := Revoked, revokedAt := Some(now));
      assert credentials + map[p := revoked] == credentials[p := revoked];
      credentials := credentials[p := revoked];
      rotations := rotations[r := rotation.(status := Completed, completedAt := Some(now))];
      return Ok(true);
    }

    method RevokeReplacement(c: nat, deviceId: nat, expected: CredentialStatus, now: Time) returns (revoked: bool)
      modifies this`credentials
      ensures revoked == HasCredential(old(Db()), c, deviceId, expected)
      ensures credentials == if revoked then old(credentials)[c := Revoke(old(credentials)[c], now)] else old(credentials)
    {
      if !Matches(c, deviceId, expected) { return false; }
      credentials := credentials[c := credentials[c].(status := Revoked, revokedAt := Some(now))];
      return true;
    }

    method Rollback(rotationId: nat, deviceId: nat, reason: string, now: Time,
                    closedAt: Time) returns (result: Result<(), Error>)
      modifies this`credentials, this`rotations
      ensures Outcome(Db(), result) == RotationTables.Rollback(old(Db()), rotationId, deviceId, reason, now, closedAt)
    {
      if rotationId !in rotations || rotations[rotationId].deviceId != deviceId { return Err(RotationNotFound); }
      var rotation, saved := rotations[rotationId], credentials;
      match rotation.status {
        case Requested =>
          assert credentials + map[] == credentials;
        case Staged =>
          if rotation.newId.None? { return Err(InvalidRotationState); }
          var revoked := RevokeReplacement(rotation.newId.value, deviceId, Pending, now);
          if !revoked { return Err(InvalidRotationState); }
          assert credentials == saved + WithdrawEdit(old(Db()), rotationId, rotation.newId.value, reason, now, closedAt).rows;
        case Validating =>
          if rotation.newId.None? { return Err(InvalidRotationState); }
          var revoked := RevokeReplacement(rotation.newId.value, deviceId, Active, now);
          if !revoked { return Err(InvalidRotationState); }
          assert credentials == saved + WithdrawEdit(old(Db()), rotationId, rotation.newId.value, reason, now, closedAt).rows;
        case InGrace =>
          if rotation.newId.None? || rotation.graceUntil.None? || rotation.graceUntil.value <= now {
            return Err(InvalidRotationState);
          }
          var p := rotation.previousId;
          if !Matches(p, deviceId, Grace) { return Err(InvalidRotationState); }
          credentials := credentials[p := credentials[p].(status := Active, graceUntil := None)];
          assert Db() == Restored(old(Db()), p);
          var revoked := RevokeReplacement(rotation.newId.value, deviceId, Active, now);
          if !revoked {
            credentials := saved;
            return Err(InvalidRotationState);
          }
          assert credentials == saved + RestoreEdit(old(Db()), rotationId, rotation.newId.value, p, reason, now, closedAt).rows;
        case _ => return Err(InvalidRotationState);
      }
      rotations := rotations[rotationId :=
        rotation.(status := RolledBack, rolledBackAt := Some(closedAt), lastError := reason)];
      return Ok(());
    }

    /** Transactions that other clients commit between two of the caller's. */
    method Interleave(steps: seq<Step>)
      modifies this
      ensures Db() == Run(old(Db()), steps)
    {
      var after := Run(Tables(devices, credentials, rotations, nextDevice, nextCredential, nextRotation), steps);
      devices, credentials, rotations := after.devices, after.credentials, after.rotations;
      nextDevice, nextCredential, nextRotation := after.nextDevice, after.nextCredential, after.nextRotation;
    }

    /** Authenticate is no transaction: it reads the device row, then its
        credential rows (rows is their order, which nothing fixes), and at the end
        stamps the row it accepted. Other clients write in between. */
    method Authenticate(name: string, keyHash: string, ip: string, now: Time,
                        beforeRows: seq<Step>, rows: seq<nat>, beforeStamp: seq<Step>) returns (result: Result<nat, Error>)
      requires First(DevicesNamed(Db(), name)).Some? ==>
                 CandidateRows(Run(Db(), beforeRows), First(DevicesNamed(Db(), name)).value, rows)
      modifies this
      ensures Outcome(Db(), result) == Authentication(old(Db()), name, keyHash, ip, now, beforeRows, rows, beforeStamp)
    {
      var named := set d | d in devices && devices[d].name == name && devices[d].active;
      assert named == DevicesNamed(Db(), name);
      if named == {} { return Err(BadAuth); }
      ghost var d := First(named).value;
      Interleave(beforeRows);
      ghost var t := Db();
      for i := 0 to |rows|
        invariant Db() == t
        invariant FirstAmong(rows[i..], Matching(t, d, keyHash, now)) == FirstAmong(rows, Matching(t, d, keyHash, now))
      {
        var c := rows[i];
        assert c in rows && c in CredentialsIn(t, d, Active) + CredentialsIn(t, d, Grace);
        assert rows[i..][0] == c && rows[i..][1..] == rows[i + 1..];
        var row := credentials[c];
        if row.expiresAt.Some? && row.expiresAt.value <= now { continue; }
        if row.status == Grace && (row.graceUntil.None? || row.graceUntil.value <= now) { continue; }
        if keyHash != row.secretHash { continue; }
        Interleave(beforeStamp);
        if c in credentials {
          credentials := credentials[c := credentials[c].(lastUsedAt := Some(now), lastUsedIp := ip)];
        }
        return Ok(c);
      }
      return Err(BadAuth);
    }

    /** scan is the answer to the opening query, in any order; others[i] is what
        the rest of the system commits before the transaction for scan[i]. */
    method ReconcileExpiredGrace(now: Time, scan: seq<nat>, others: seq<seq<Step>>)
      returns (completed: nat, err: Option<Error>)
      requires ScanOf(Db(), now, scan) && |others| == |scan|
      modifies this
      ensures SweepOutcome(Db(), completed, err) == Sweep(old(Db()), now, scan, others)
    {
      completed, err := 0, None;
      for i := 0 to |scan|
        invariant err == None
        invariant Resume(completed, Sweep(Db(), now, scan[i..], others[i..])) == Sweep(old(Db()), now, scan, others)
      {
        assert scan[i..][1..] == scan[i + 1..] && others[i..][1..] == others[i + 1..];
        Interleave(others[i]);
        var did := ReconcileRow(scan[i], now);
        match did
        case Err(e) =>
          err := Some(e);
          return;
        case Ok(moved) =>
          if moved { completed := completed + 1; }
      }
    }
  }

  /** ids lists exactly the elements of s, each once. */
  ghost predicate Enumerates(ids: seq<nat>, s: set<nat>) {
    && (forall x :: x in s <==> x in ids)
    && (forall i, j :: 0 <= i < j < |ids| ==> ids[i] != ids[j])
  }

  ghost predicate ScanOf(t: Tables, now: Time, scan: seq<nat>) {
    Enumerates(scan, Overdue(t, now))
  }

  /** rows lists the device's active and grace credentials, in any order. */
  ghost predicate CandidateRows(t: Tables, d: nat, rows: seq<nat>) {
    forall c :: c in rows <==> c in CredentialsIn(t, d, Active) + CredentialsIn(t, d, Grace)
  }

  /** The first of rows that is in s. */
  function FirstAmong(rows: seq<nat>, s: set<nat>): (r: Option<nat>)
    ensures r.None? <==> forall c :: c in rows ==> c !in s
    ensures r.Some? ==> r.value in rows && r.value in s
  {
    if rows == [] then None else if rows[0] in s then Some(rows[0]) else FirstAmong(rows[1..], s)
  }

  /** Authentication with what other clients write between its statements. */
  function Authentication(t: Tables, name: string, keyHash: string, ip: string, now: Time,
                          beforeRows: seq<Step>, rows: seq<nat>, beforeStamp: seq<Step>): Outcome<nat> {
    match First(DevicesNamed(t, name))
    case None => Outcome(t, Err(BadAuth))
    case Some(d) =>
      var u := Run(t, beforeRows);
      match FirstAmong(rows, Matching(u, d, keyHash, now))
      case None => Outcome(u, Err(BadAuth))
      case Some(c) => Outcome(Stamp(Run(u, beforeStamp), c, ip, now), Ok(c))
  }

  datatype SweepOutcome = SweepOutcome(tables: Tables, completed: nat, error: Option<Error>)

  function Resume(count: nat, o: SweepOutcome): SweepOutcome {
    o.(completed := count + o.completed)
  }

  /** A sweep: before each scanned row's transaction other clients commit what
      they like; an error ends it. */
  function Sweep(t: Tables, now: Time, scan: seq<nat>, others: seq<seq<Step>>): SweepOutcome
    requires |others| == |scan|
    decreases |scan|
  {
    if scan == [] then SweepOutcome(t, 0, None)
    else
      var o := RotationTables.ReconcileRow(Run(t, others[0]), scan[0], now);
      match o.result
      case Err(e) => SweepOutcome(o.tables, 0, Some(e))
      case Ok(moved) => Resume(if moved then 1 else 0, Sweep(o.tables, now, scan[1..], others[1..]))
  }
}
