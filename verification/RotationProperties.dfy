// What holds of every reachable state of the rotation tables, said in terms of
// the rows alone.
module RotationProperties {
  import opened Clock
  import opened Wrappers
  import opened RotationTables
  import opened RotationLives
  import opened RotationRefinement

  // ----- the shape of a device's rows ----------------------------------------

  function Live(t: Tables, d: nat): set<nat> {
    set c | c in t.credentials && t.credentials[c].deviceId == d && t.credentials[c].status != Revoked
  }

  predicate IsIn(t: Tables, c: nat, status: CredentialStatus) {
    c in t.credentials && t.credentials[c].status == status
  }

  /** The credentials an open rotation's status dictates. */
  predicate OpenShape(t: Tables, d: nat, row: Rotation) {
    var p := row.previousId;
    match row.status
    case Requested => row.newId == None && Live(t, d) == {p} && IsIn(t, p, Active)
    case Staged =>
      row.newId.Some? && row.newId.value != p && Live(t, d) == {p, row.newId.value}
      && IsIn(t, p, Active) && IsIn(t, row.newId.value, Pending)
    case Validating =>
      row.newId.Some? && row.newId.value != p && Live(t, d) == {p, row.newId.value}
      && IsIn(t, p, Active) && IsIn(t, row.newId.value, Active)
    case InGrace =>
      row.newId.Some? && row.newId.value != p && Live(t, d) == {p, row.newId.value}
      && IsIn(t, p, Grace) && row.graceUntil.Some? && t.credentials[p].graceUntil == row.graceUntil
      && IsIn(t, row.newId.value, Active) && t.credentials[row.newId.value].confirmedAt.Some?
    case _ => false
  }

  /** At most one open rotation, and exactly the credentials it calls for. */
  ghost predicate Shape(t: Tables, d: nat) {
    || (OpenRotations(t, d) == {} && exists c :: Live(t, d) == {c} && IsIn(t, c, Active))
    || (exists r :: OpenRotations(t, d) == {r} && OpenShape(t, d, t.rotations[r]))
  }

  lemma LiveAre(t: Tables, d: nat, life: Life)
    requires DeviceFits(t, d, life)
    ensures Live(t, d) == {Current(life)} + (if Candidate(life.phase).Some? then {Candidate(life.phase).value} else {})
  {
  }

  lemma DeviceShape(t: Tables, d: nat, life: Life)
    requires DeviceFits(t, d, life)
    ensures Shape(t, d)
  {
    OpenRotationsAre(t, d, life);
    LiveAre(t, d, life);
    if !life.phase.Settled? {
      assert OpenShape(t, d, t.rotations[life.phase.rotation]);
    } else {
      assert Live(t, d) == {Current(life)} && IsIn(t, Current(life), Active);
    }
  }

  lemma ReachableShape(steps: seq<Step>, d: nat)
    requires d in Run(EMPTY, steps).devices
    ensures Shape(Run(EMPTY, steps), d)
  {
    ReachableRepresents(steps);
    DeviceOf(Run(EMPTY, steps), LivesOf(steps), d);
    DeviceShape(Run(EMPTY, steps), d, LivesOf(steps)[d]);
  }

  // ----- the impossible errors -------------------------------------------------

  /** In a reachable state no call ends in an "impossible" error, and the two
      operations that may report an invalid state do so exactly for a rotation
      whose own row is in the wrong status. */
  lemma ReachableErrors(steps: seq<Step>, d: nat, r: nat, c: nat, graceMinutes: int, keyId: string,
                        secretHash: string, now: Time)
    ensures var t := Run(EMPTY, steps);
            && RequestRotation(t, d, graceMinutes, now).result !in {Err(NoActiveCredential), Err(MultipleActive)}
            && ConfirmCredentialUse(t, c, now).result.Ok?
            && ReconcileRow(t, r, now).result.Ok?
            && (HasRotation(t, r, d) ==>
                  && (StartValidation(t, r, d, now).result == Err(InvalidRotationState) <==> t.rotations[r].status != Staged)
                  && (StageCandidate(t, r, d, keyId, secretHash, now).result == Err(InvalidRotationState) ==>
                        t.rotations[r].status != Requested))
  {
    var t, lives := Run(EMPTY, steps), LivesOf(steps);
    ReachableRepresents(steps);
    RequestErrors(t, lives, d, graceMinutes, now);
    ConfirmSucceeds(t, lives, c, now);
    ReconcileSucceeds(t, lives, r, now);
    if HasRotation(t, r, d) {
      StartErrors(t, lives, d, r, now);
      StageErrors(t, lives, d, r, keyId, secretHash, now);
    }
  }

  lemma RequestErrors(t: Tables, lives: Lives, d: nat, graceMinutes: int, now: Time)
    requires Represents(t, lives)
    ensures RequestRotation(t, d, graceMinutes, now).result !in {Err(NoActiveCredential), Err(MultipleActive)}
  {
    RequestRefines(t, lives, d, graceMinutes, now);
  }

  lemma ConfirmSucceeds(t: Tables, lives: Lives, c: nat, now: Time)
    requires Represents(t, lives)
    ensures ConfirmCredentialUse(t, c, now).result.Ok?
  {
    ConfirmRefines(t, lives, c, now);
  }

  lemma ReconcileSucceeds(t: Tables, lives: Lives, r: nat, now: Time)
    requires Represents(t, lives)
    ensures ReconcileRow(t, r, now).result.Ok?
  {
    ReconcileRefines(t, lives, r, now);
  }

  lemma StartErrors(t: Tables, lives: Lives, d: nat, r: nat, now: Time)
    requires Represents(t, lives) && HasRotation(t, r, d)
    ensures StartValidation(t, r, d, now).result == Err(InvalidRotationState) <==> t.rotations[r].status != Staged
  {
    DeviceOf(t, lives, d);
    StartResult(t, d, lives[d], r, now);
  }

  lemma StageErrors(t: Tables, lives: Lives, d: nat, r: nat, keyId: string, secretHash: string, now: Time)
    requires Represents(t, lives) && HasRotation(t, r, d)
    ensures StageCandidate(t, r, d, keyId, secretHash, now).result == Err(InvalidRotationState) ==> t.rotations[r].status != Requested
  {
    DeviceOf(t, lives, d);
    StageResult(t, d, lives[d], r, keyId, secretHash, now);
  }

  /** Rollback fails exactly when the rotation is closed, or in grace with its
      deadline reached: nothing about credentials ever stands in its way. */
  lemma ReachableRollback(steps: seq<Step>, r: nat, d: nat, reason: string, now: Time, closedAt: Time)
    requires HasRotation(Run(EMPTY, steps), r, d)
    ensures var t := Run(EMPTY, steps);
            var row := t.rotations[r];
            Rollback(t, r, d, reason, now, closedAt).result.Ok? <==>
              row.status in {Requested, Staged, Validating}
              || (row.status == InGrace && row.graceUntil.Some? && now < row.graceUntil.value)
  {
    var t, lives := Run(EMPTY, steps), LivesOf(steps);
    ReachableRepresents(steps);
    DeviceOf(t, lives, d);
    RollbackResult(t, d, lives[d], r, reason, now, closedAt);
  }

  // ----- the chain of settled credentials -----------------------------------

  /** Follows ReplacesCredentialID backwards from c; the result ends in c. */
  function Walk(rows: map<nat, Credential>, c: nat): seq<nat> {
    if c in rows && rows[c].replacesId.Some? && rows[c].replacesId.value < c
    then Walk(rows, rows[c].replacesId.value) + [c]
    else [c]
  }

  lemma {:induction false} WalkIsChain(t: Tables, d: nat, life: Life, i: nat)
    requires |life.chain| == |life.completed| + 1 && i < |life.chain|
    requires forall k: nat :: k < |life.chain| ==> LinkFits(t, d, life, k)
    ensures Walk(t.credentials, life.chain[i]) == life.chain[..i + 1]
  {
    assert LinkFits(t, d, life, i);
    if i > 0 {
      WalkIsChain(t, d, life, i - 1);
      assert life.chain[..i + 1] == life.chain[..i] + [life.chain[i]];
    } else {
      assert life.chain[..1] == [life.chain[0]];
    }
  }

  /** The credential that answers for the device once its open rotation, if
      any, has been rolled back. */
  function SettledCredential(t: Tables, d: nat): Option<nat> {
    match First(OpenRotations(t, d))
    case Some(r) => Some(t.rotations[r].previousId)
    case None => First(CredentialsIn(t, d, Active))
  }

  lemma SettledIsCurrent(t: Tables, d: nat, life: Life)
    requires DeviceFits(t, d, life)
    ensures SettledCredential(t, d) == Some(Current(life))
  {
    OpenRotationsAre(t, d, life);
    ActiveAre(t, d, life);
    if life.phase.Settled? {
      FirstOfSingleton(CredentialsIn(t, d, Active), Current(life));
    } else {
      FirstOfSingleton(OpenRotations(t, d), life.phase.rotation);
    }
  }

  /** Rotation ids[i] moved the device from chain[i] to chain[i + 1]. */
  ghost predicate Links(t: Tables, ids: seq<nat>, chain: seq<nat>) {
    && |chain| == |ids| + 1
    && (forall i :: 0 <= i < |ids| ==>
          && ids[i] in t.rotations
          && t.rotations[ids[i]].previousId == chain[i]
          && t.rotations[ids[i]].newId == Some(chain[i + 1]))
  }

  ghost predicate Increasing(s: seq<nat>) {
    forall i, j :: 0 <= i < j < |s| ==> s[i] < s[j]
  }

  lemma {:induction false} IncreasingFromSteps(s: seq<nat>)
    requires forall i :: 0 < i < |s| ==> s[i - 1] < s[i]
    ensures Increasing(s)
  {
    if |s| > 1 {
      IncreasingFromSteps(s[..|s| - 1]);
      forall i, j | 0 <= i < j < |s| ensures s[i] < s[j] {
        if j == |s| - 1 {
          if i < j - 1 { assert s[..|s| - 1][i] < s[..|s| - 1][j - 1]; }
        } else {
          assert s[..|s| - 1][i] < s[..|s| - 1][j];
        }
      }
    }
  }

  /** The completed rotations of a device, in id order, form one unbroken chain:
      it starts at the credential the device was created with, each rotation
      replaces what the one before installed, it ends at the settled credential,
      and following the replaces column from there walks exactly this chain. */
  lemma CompletedRotationsFormAChain(t: Tables, lives: Lives, d: nat) returns (ids: seq<nat>)
    requires Represents(t, lives) && d in lives
    ensures SettledCredential(t, d).Some?
    ensures var chain := Walk(t.credentials, SettledCredential(t, d).value);
            && Increasing(chain) && Increasing(ids) && Links(t, ids, chain)
            && chain[0] in t.credentials && t.credentials[chain[0]].replacesId == None
            && (forall r :: r in ids <==> HasRotation(t, r, d) && t.rotations[r].status == Completed)
  {
    var life := lives[d];
    DeviceOf(t, lives, d);
    SettledIsCurrent(t, d, life);
    WalkIsTheChain(t, d, life);
    ids := life.completed;
    CompletedInOrder(t, d, life);
    CompletedAreListed(t, d, life);
  }

  lemma WalkIsTheChain(t: Tables, d: nat, life: Life)
    requires LifeFits(t, d, life)
    ensures Walk(t.credentials, Current(life)) == life.chain && Increasing(life.chain)
    ensures life.chain[0] in t.credentials && t.credentials[life.chain[0]].replacesId == None
  {
    WalkIsChain(t, d, life, |life.chain| - 1);
    assert life.chain[..|life.chain|] == life.chain;
    forall i | 0 < i < |life.chain| ensures life.chain[i - 1] < life.chain[i] { assert LinkFits(t, d, life, i); }
    IncreasingFromSteps(life.chain);
    assert LinkFits(t, d, life, 0);
  }

  lemma CompletedAreListed(t: Tables, d: nat, life: Life)
    requires DeviceFits(t, d, life)
    ensures forall r :: HasRotation(t, r, d) && t.rotations[r].status == Completed ==> r in life.completed
  {
    forall r | HasRotation(t, r, d) && t.rotations[r].status == Completed ensures r in life.completed {
      assert RotationFits(t.rotations[r], r, life);
    }
  }

  lemma CompletedInOrder(t: Tables, d: nat, life: Life)
    requires LifeFits(t, d, life)
    ensures Increasing(life.completed) && Links(t, life.completed, life.chain)
    ensures forall r :: r in life.completed ==> HasRotation(t, r, d) && t.rotations[r].status == Completed
  {
    var ids := life.completed;
    forall i | 0 <= i < |ids|
      ensures ids[i] in t.rotations
      ensures t.rotations[ids[i]].previousId == life.chain[i] && t.rotations[ids[i]].newId == Some(life.chain[i + 1])
    {
      assert LinkFits(t, d, life, i + 1);
    }
    forall r | r in ids ensures HasRotation(t, r, d) && t.rotations[r].status == Completed {
      var i :| 0 <= i < |ids| && ids[i] == r;
      assert LinkFits(t, d, life, i + 1);
    }
    forall i | 0 < i < |ids| ensures ids[i - 1] < ids[i] {
      assert LinkFits(t, d, life, i + 1);
    }
    IncreasingFromSteps(life.completed);
  }

  lemma ReachableChain(steps: seq<Step>, d: nat) returns (ids: seq<nat>)
    requires d in Run(EMPTY, steps).devices
    ensures var t := Run(EMPTY, steps);
            SettledCredential(t, d).Some? &&
            var chain := Walk(t.credentials, SettledCredential(t, d).value);
            && Increasing(chain) && Increasing(ids) && Links(t, ids, chain)
            && chain[0] in t.credentials && t.credentials[chain[0]].replacesId == None
            && (forall r :: r in ids <==> HasRotation(t, r, d) && t.rotations[r].status == Completed)
  {
    ReachableRepresents(steps);
    ids := CompletedRotationsFormAChain(Run(EMPTY, steps), LivesOf(steps), d);
  }
}
