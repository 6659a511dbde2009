// Which answer each call of the rotation service gives, in every reachable state
// and told on the rows: each error for its own reason, and success for the rest.
module RotationAnswers {
  import opened Clock
  import opened Wrappers
  import opened Text
  import opened RotationTables
  import opened RotationRefinement
  import opened RotationProperties

  predicate ActiveDevice(t: Tables, d: nat) { d in t.devices && t.devices[d].active }

  predicate IsOf(t: Tables, r: nat, d: nat) { r in t.rotations && t.rotations[r].deviceId == d }

  predicate KeyIdUsed(t: Tables, keyId: string) { exists c :: c in t.credentials && t.credentials[c].keyId == keyId }

  /** digits hexadecimal digits and nothing else. */
  predicate IsHex(text: string, digits: nat) {
    |text| == digits && forall i :: 0 <= i < |text| ==> '0' <= text[i] <= '9' || 'a' <= text[i] <= 'f' || 'A' <= text[i] <= 'F'
  }

  lemma HexIff(text: string, bytes: nat)
    ensures ValidHexBytes(text, bytes) <==> IsHex(text, 2 * bytes)
  {
    assert (forall c :: c in text ==> IsHexDigit(c)) <==> (forall i :: 0 <= i < |text| ==> IsHexDigit(text[i]));
  }

  /** A device is created exactly if neither its name nor its key id is in use. */
  lemma CreateDeviceAnswers(t: Tables, name: string, keyId: string, secretHash: string, now: Time)
    ensures var answer := CreateDevice(t, name, keyId, secretHash, now).result;
            && (answer.Ok? <==> (forall d :: d in t.devices ==> t.devices[d].name != name) && !KeyIdUsed(t, keyId))
            && (answer.Err? ==> answer == Err(UniqueViolation))
  {
  }

  lemma RequestAnswers(steps: seq<Step>, d: nat, graceMinutes: int, now: Time)
    ensures var t := Run(EMPTY, steps);
            var answer := RequestRotation(t, d, graceMinutes, now).result;
            var legal := 1 <= graceMinutes <= 1440;
            var open := exists r :: IsOf(t, r, d) && t.rotations[r].status in {Requested, Staged, Validating, InGrace};
            && (answer == Err(InvalidGracePeriod) <==> !legal)
            && (answer == Err(DeviceNotFound) <==> legal && !ActiveDevice(t, d))
            && (answer == Err(RotationInProgress) <==> legal && ActiveDevice(t, d) && open)
            && (answer.Ok? <==> legal && ActiveDevice(t, d) && !open)
  {
    var t, lives := Run(EMPTY, steps), LivesOf(steps);
    ReachableRepresents(steps);
    RequestErrors(t, lives, d, graceMinutes, now);
    OpenIff(t, d);
  }

  lemma OpenIff(t: Tables, d: nat)
    ensures OpenRotations(t, d) != {} <==> exists r :: IsOf(t, r, d) && t.rotations[r].status in {Requested, Staged, Validating, InGrace}
  {
    if r :| IsOf(t, r, d) && t.rotations[r].status in {Requested, Staged, Validating, InGrace} { assert r in OpenRotations(t, d); }
    if OpenRotations(t, d) != {} {
      var r :| r in OpenRotations(t, d);
      assert IsOf(t, r, d);
    }
  }

  lemma StageAnswers(steps: seq<Step>, r: nat, d: nat, rawKeyId: string, rawHash: string, now: Time)
    ensures var t := Run(EMPTY, steps);
            var answer := StageCandidate(t, r, d, rawKeyId, rawHash, now).result;
            var keyId, secretHash := ToLower(TrimSpace(rawKeyId)), ToLower(TrimSpace(rawHash));
            var legal := IsHex(keyId, 16) && IsHex(secretHash, 64);
            && (answer == Err(InvalidCandidateKeyId) <==> !IsHex(keyId, 16))
            && (answer == Err(InvalidCandidateHash) <==> IsHex(keyId, 16) && !IsHex(secretHash, 64))
            && (answer == Err(RotationNotFound) <==> legal && !IsOf(t, r, d))
            && (answer == Err(InvalidRotationState) <==> legal && IsOf(t, r, d) && t.rotations[r].status != Requested)
            && (answer == Err(UniqueViolation) <==>
                  legal && IsOf(t, r, d) && t.rotations[r].status == Requested && KeyIdUsed(t, keyId))
            && (answer.Ok? <==> legal && IsOf(t, r, d) && t.rotations[r].status == Requested && !KeyIdUsed(t, keyId))
  {
    var t, lives := Run(EMPTY, steps), LivesOf(steps);
    ReachableRepresents(steps);
    HexIff(ToLower(TrimSpace(rawKeyId)), 8);
    HexIff(ToLower(TrimSpace(rawHash)), 32);
    if HasRotation(t, r, d) {
      StageErrors(t, lives, d, r, rawKeyId, rawHash, now);
    }
  }

  lemma StartAnswers(steps: seq<Step>, r: nat, d: nat, now: Time)
    ensures var t := Run(EMPTY, steps);
            var answer := StartValidation(t, r, d, now).result;
            && (answer == Err(RotationNotFound) <==> !IsOf(t, r, d))
            && (answer == Err(InvalidRotationState) <==> IsOf(t, r, d) && t.rotations[r].status != Staged)
            && (answer.Ok? <==> IsOf(t, r, d) && t.rotations[r].status == Staged)
            && (answer.Ok? ==> answer.value == r)
  {
    var t, lives := Run(EMPTY, steps), LivesOf(steps);
    ReachableRepresents(steps);
    if HasRotation(t, r, d) { StartErrors(t, lives, d, r, now); }
  }

  /** A confirmation moves something exactly if a rotation is being validated with
      the credential, and never fails. */
  lemma ConfirmAnswers(steps: seq<Step>, c: nat, now: Time)
    ensures var t := Run(EMPTY, steps);
            ConfirmCredentialUse(t, c, now).result
            == Ok(exists r :: r in t.rotations && t.rotations[r].newId == Some(c) && t.rotations[r].status == Validating)
  {
    var t, lives := Run(EMPTY, steps), LivesOf(steps);
    ReachableRepresents(steps);
    ConfirmSucceeds(t, lives, c, now);
    if r :| r in t.rotations && t.rotations[r].newId == Some(c) && t.rotations[r].status == Validating {
      assert r in ValidatingWith(t, c);
    }
  }

  lemma ReconcileAnswers(steps: seq<Step>, r: nat, now: Time)
    ensures var t := Run(EMPTY, steps);
            ReconcileRow(t, r, now).result
            == Ok(r in t.rotations && t.rotations[r].status == InGrace && t.rotations[r].graceUntil.Some?
                  && t.rotations[r].graceUntil.value <= now)
  {
    var t, lives := Run(EMPTY, steps), LivesOf(steps);
    ReachableRepresents(steps);
    ReconcileSucceeds(t, lives, r, now);
  }

  predicate CanBeUndone(row: Rotation, now: Time) {
    row.status in {Requested, Staged, Validating} || (row.status == InGrace && row.graceUntil.Some? && now < row.graceUntil.value)
  }

  lemma RollbackAnswers(steps: seq<Step>, r: nat, d: nat, reason: string, now: Time, closedAt: Time)
    ensures var t := Run(EMPTY, steps);
            var answer := Rollback(t, r, d, reason, now, closedAt).result;
            && (answer == Err(RotationNotFound) <==> !IsOf(t, r, d))
            && (answer.Ok? <==> IsOf(t, r, d) && CanBeUndone(t.rotations[r], now))
            && (answer.Err? ==> answer.error in {RotationNotFound, InvalidRotationState})
  {
    if HasRotation(Run(EMPTY, steps), r, d) { ReachableRollback(steps, r, d, reason, now, closedAt); }
  }
}
