// Rollback undoes a rotation: whatever happened since the request, the device's
// credential rows become what they were, plus at most one revoked candidate.
module RotationRollback {
  import opened Clock
  import opened Wrappers
  import opened RotationTables
  import opened RotationLives
  import opened RotationRefinement
  import opened RotationProgress

  /** The row of credential c with what a rotation does to the credential p it
      replaces taken back. */
  function Undone(row: Credential, c: nat, p: nat): Credential {
    Strip(if c == p then row.(status := Active, graceUntil := None) else row)
  }

  /** While rotation r is open, device d has the credentials of t0, changed at
      most in ways that Undone takes back, and at most the candidate besides. */
  ghost predicate Since(t0: Tables, t: Tables, d: nat, r: nat) {
    && r in t.rotations && t.rotations[r].deviceId == d
    && var row := t.rotations[r];
       && (row.newId.Some? ==> row.newId.value !in t0.credentials)
       && (forall c :: c in t0.credentials ==> c in t.credentials)
       && (forall c :: c in t0.credentials && t0.credentials[c].deviceId == d ==>
             && t.credentials[c].deviceId == d
             && Undone(t.credentials[c], c, row.previousId) == Strip(t0.credentials[c]))
       && (forall c :: c in t.credentials && t.credentials[c].deviceId == d ==> c in t0.credentials || row.newId == Some(c))
  }

  ghost predicate OnlyOpen(t: Tables, d: nat, r: nat) {
    forall q :: q in t.rotations && t.rotations[q].deviceId == d && IsOpen(t.rotations[q].status) ==> q == r
  }

  ghost predicate CanContinue(t0: Tables, t: Tables, d: nat, r: nat, s: Step) {
    && Numbered(t) && OnlyOpen(t, d, r) && Since(t0, t, d, r) && d < t.nextDevice
    && r in Apply(t, s).rotations && IsOpen(Apply(t, s).rotations[r].status)
  }

  lemma SinceRequestOrDevice(t0: Tables, t: Tables, d: nat, r: nat, s: Step)
    requires CanContinue(t0, t, d, r, s) && (s.CreateDeviceStep? || s.RequestStep? || s.StampStep?)
    ensures Since(t0, Apply(t, s), d, r)
  {
  }

  lemma SinceStage(t0: Tables, t: Tables, d: nat, r: nat, s: Step)
    requires CanContinue(t0, t, d, r, s) && s.StageStep?
    ensures Since(t0, Apply(t, s), d, r)
  {
  }

  lemma SinceStart(t0: Tables, t: Tables, d: nat, r: nat, s: Step)
    requires CanContinue(t0, t, d, r, s) && s.StartStep?
    ensures Since(t0, Apply(t, s), d, r)
  {
  }

  lemma ConfirmTouches(t: Tables, c: nat, now: Time, q: nat)
    requires First(ValidatingWith(t, c)) == Some(q)
    ensures var u := ConfirmCredentialUse(t, c, now).tables;
            && u.credentials.Keys == t.credentials.Keys
            && (forall b :: b in t.credentials && t.credentials[b].deviceId != t.rotations[q].deviceId ==>
                  u.credentials[b] == t.credentials[b])
            && (forall b :: b in t.credentials ==> u.credentials[b].deviceId == t.credentials[b].deviceId)
            && (forall r :: r in t.rotations && r != q ==> r in u.rotations && u.rotations[r] == t.rotations[r])
  {
  }

  /** A confirmation does to its rotation's credentials only what Undone takes back. */
  lemma OwnConfirmUndone(t: Tables, r: nat, c: nat, now: Time)
    requires First(ValidatingWith(t, c)) == Some(r)
    ensures var u, row := ConfirmCredentialUse(t, c, now).tables, t.rotations[r];
            && u.credentials.Keys == t.credentials.Keys && r in u.rotations && u.rotations[r].deviceId == row.deviceId
            && u.rotations[r].newId == row.newId && u.rotations[r].previousId == row.previousId
            && (forall b :: b in t.credentials && row.newId != Some(b) ==>
                  && u.credentials[b].deviceId == t.credentials[b].deviceId
                  && Undone(u.credentials[b], b, row.previousId) == Undone(t.credentials[b], b, row.previousId))
            && (forall b :: b in t.credentials ==> u.credentials[b].deviceId == t.credentials[b].deviceId)
  {
  }

  lemma SinceOwnConfirm(t0: Tables, t: Tables, d: nat, r: nat, c: nat, now: Time)
    requires Since(t0, t, d, r) && First(ValidatingWith(t, c)) == Some(r)
    ensures Since(t0, ConfirmCredentialUse(t, c, now).tables, d, r)
  {
    OwnConfirmUndone(t, r, c, now);
  }

  lemma SinceConfirm(t0: Tables, t: Tables, d: nat, r: nat, s: Step)
    requires CanContinue(t0, t, d, r, s) && s.ConfirmStep?
    ensures Since(t0, Apply(t, s), d, r)
  {
    match First(ValidatingWith(t, s.credentialId))
    case None =>
    case Some(q) =>
      if q == r {
        SinceOwnConfirm(t0, t, d, r, s.credentialId, s.now);
      } else {
        ConfirmTouches(t, s.credentialId, s.now, q);
        SinceKept(t0, t, ConfirmCredentialUse(t, s.credentialId, s.now).tables, d, r);
      }
  }

  lemma SinceReconcile(t0: Tables, t: Tables, d: nat, r: nat, s: Step)
    requires CanContinue(t0, t, d, r, s) && s.ReconcileStep?
    ensures Since(t0, Apply(t, s), d, r)
  {
  }

  /** A rollback touches its own rotation, which it closes, and credentials of
      its own device. */
  lemma RollbackTouches(t: Tables, q: nat, e: nat, reason: string, now: Time, closedAt: Time)
    ensures var u := Rollback(t, q, e, reason, now, closedAt).tables;
            && u.devices == t.devices && u.credentials.Keys == t.credentials.Keys
            && (forall c :: c in t.credentials && t.credentials[c].deviceId != e ==> u.credentials[c] == t.credentials[c])
            && (forall c :: c in t.credentials ==> u.credentials[c].deviceId == t.credentials[c].deviceId)
  {
  }

  lemma RollbackCloses(t: Tables, q: nat, e: nat, reason: string, now: Time, closedAt: Time)
    ensures var u := Rollback(t, q, e, reason, now, closedAt).tables;
            && u.rotations.Keys == t.rotations.Keys
            && (forall r :: r in t.rotations && r != q ==> u.rotations[r] == t.rotations[r])
            && (u == t || (HasRotation(t, q, e) && IsOpen(t.rotations[q].status) && !IsOpen(u.rotations[q].status)))
  {
  }

  lemma SinceRollback(t0: Tables, t: Tables, d: nat, r: nat, s: Step)
    requires CanContinue(t0, t, d, r, s) && s.RollbackStep?
    ensures Since(t0, Apply(t, s), d, r)
  {
    RollbackTouches(t, s.rotationId, s.deviceId, s.reason, s.now, s.closedAt);
    RollbackCloses(t, s.rotationId, s.deviceId, s.reason, s.now, s.closedAt);
    var u := Rollback(t, s.rotationId, s.deviceId, s.reason, s.now, s.closedAt).tables;
    assert u == Apply(t, s);
    if u != t { SinceKept(t0, t, u, d, r); }
  }

  lemma SinceKept(t0: Tables, t: Tables, u: Tables, d: nat, r: nat)
    requires Since(t0, t, d, r) && r in u.rotations && u.rotations[r] == t.rotations[r]
    requires u.credentials.Keys == t.credentials.Keys
    requires forall c :: c in t.credentials && t.credentials[c].deviceId == d ==> u.credentials[c] == t.credentials[c]
    requires forall c :: c in t.credentials ==> u.credentials[c].deviceId == t.credentials[c].deviceId
    ensures Since(t0, u, d, r)
  {
  }

  lemma SinceStep(t0: Tables, t: Tables, d: nat, r: nat, s: Step)
    requires CanContinue(t0, t, d, r, s)
    ensures Since(t0, Apply(t, s), d, r)
  {
    match s
    case CreateDeviceStep(_, _, _, _) => SinceRequestOrDevice(t0, t, d, r, s);
    case RequestStep(_, _, _) => SinceRequestOrDevice(t0, t, d, r, s);
    case StampStep(_, _, _) => SinceRequestOrDevice(t0, t, d, r, s);
    case StageStep(_, _, _, _, _) => SinceStage(t0, t, d, r, s);
    case StartStep(_, _, _) => SinceStart(t0, t, d, r, s);
    case ConfirmStep(_, _) => SinceConfirm(t0, t, d, r, s);
    case ReconcileStep(_, _) => SinceReconcile(t0, t, d, r, s);
    case RollbackStep(_, _, _, _, _) => SinceRollback(t0, t, d, r, s);
  }

  lemma OpenIsOnly(t: Tables, lives: Lives, r: nat)
    requires Represents(t, lives) && r in t.rotations && IsOpen(t.rotations[r].status)
    ensures OnlyOpen(t, t.rotations[r].deviceId, r) && t.rotations[r].deviceId < t.nextDevice
  {
    DeviceOf(t, lives, t.rotations[r].deviceId);
  }

  lemma {:induction false} SinceRun(t0: Tables, t: Tables, lives: Lives, d: nat, r: nat, steps: seq<Step>)
    requires Represents(t, lives) && Since(t0, t, d, r) && IsOpen(t.rotations[r].status)
    requires r in Run(t, steps).rotations && IsOpen(Run(t, steps).rotations[r].status)
    ensures Since(t0, Run(t, steps), d, r)
    decreases |steps|
  {
    if steps != [] {
      var u := Apply(t, steps[0]);
      StepLowersRank(t, steps[0], r);
      StepRefines(t, lives, steps[0]);
      RotationsTerminate(u, steps[1..], r);
      OpenIsOnly(t, lives, r);
      SinceStep(t0, t, d, r, steps[0]);
      SinceRun(t0, u, Follow(t, lives, steps[0]), d, r, steps[1..]);
    }
  }

  /** What device d had before, it has again, usage columns aside. */
  ghost predicate AsBefore(t0: Tables, u: Tables, d: nat) {
    forall c :: c in t0.credentials && t0.credentials[c].deviceId == d ==>
      c in u.credentials && Strip(u.credentials[c]) == Strip(t0.credentials[c])
  }

  ghost predicate OnlyRevokedBesides(t0: Tables, u: Tables, d: nat, candidate: Option<nat>) {
    forall c :: c in u.credentials && u.credentials[c].deviceId == d && c !in t0.credentials ==>
      candidate == Some(c) && u.credentials[c].status == Revoked
  }

  lemma WithdrawRestores(t0: Tables, t: Tables, d: nat, life: Life, r: nat, reason: string, now: Time, closedAt: Time)
    requires Since(t0, t, d, r) && DeviceFits(t, d, life) && OpenRotation(life.phase) == Some(r) && !life.phase.Handover?
    ensures var u := Write(t, RollbackEdit(t, life, reason, now, closedAt));
            AsBefore(t0, u, d) && OnlyRevokedBesides(t0, u, d, t.rotations[r].newId)
  {
  }

  lemma HandoverRevokes(t0: Tables, t: Tables, d: nat, life: Life, r: nat, reason: string, now: Time, closedAt: Time)
    requires Since(t0, t, d, r) && DeviceFits(t, d, life) && OpenRotation(life.phase) == Some(r) && life.phase.Handover?
    ensures var u := Write(t, RollbackEdit(t, life, reason, now, closedAt));
            OnlyRevokedBesides(t0, u, d, t.rotations[r].newId)
  {
  }

  lemma HandoverGivesBack(t0: Tables, t: Tables, d: nat, life: Life, r: nat, reason: string, now: Time, closedAt: Time)
    requires Since(t0, t, d, r) && DeviceFits(t, d, life) && OpenRotation(life.phase) == Some(r) && life.phase.Handover?
    ensures AsBefore(t0, Write(t, RollbackEdit(t, life, reason, now, closedAt)), d)
  {
  }

  lemma RollbackRestores(t0: Tables, t: Tables, d: nat, life: Life, r: nat, reason: string, now: Time, closedAt: Time)
    requires Since(t0, t, d, r) && DeviceFits(t, d, life) && CanRollBack(life, r, now)
    ensures var u := Rollback(t, r, d, reason, now, closedAt).tables;
            AsBefore(t0, u, d) && OnlyRevokedBesides(t0, u, d, t.rotations[r].newId)
  {
    RollbackResult(t, d, life, r, reason, now, closedAt);
    if life.phase.Handover? {
      HandoverGivesBack(t0, t, d, life, r, reason, now, closedAt);
      HandoverRevokes(t0, t, d, life, r, reason, now, closedAt);
    } else {
      WithdrawRestores(t0, t, d, life, r, reason, now, closedAt);
    }
  }

  /** A rotation that is requested, carried on by any run and rolled back leaves
      the device with its old rows, at most one more that is revoked, and ready
      to request the rotation of the same credential again. */
  lemma RollbackUndoes(before: seq<Step>, d: nat, graceMinutes: int, asked: Time, during: seq<Step>,
                       reason: string, now: Time, closedAt: Time, again: int, later: Time)
    requires RequestRotation(Run(EMPTY, before), d, graceMinutes, asked).result.Ok?
    requires var o := RequestRotation(Run(EMPTY, before), d, graceMinutes, asked);
             Rollback(Run(o.tables, during), o.result.value, d, reason, now, closedAt).result.Ok?
    requires MIN_GRACE_MINUTES <= again <= MAX_GRACE_MINUTES
    ensures var t0 := Run(EMPTY, before);
            var o := RequestRotation(t0, d, graceMinutes, asked);
            var r := o.result.value;
            var t := Run(o.tables, during);
            var u := Rollback(t, r, d, reason, now, closedAt).tables;
            var next := RequestRotation(u, d, again, later);
            && AsBefore(t0, u, d)
            && r in t.rotations && OnlyRevokedBesides(t0, u, d, t.rotations[r].newId)
            && next.result.Ok?
            && next.result.value in next.tables.rotations && r in o.tables.rotations
            && next.tables.rotations[next.result.value].previousId == o.tables.rotations[r].previousId
  {
    var t0, l0 := Run(EMPTY, before), LivesOf(before);
    var o := RequestRotation(t0, d, graceMinutes, asked);
    var r, l1 := t0.nextRotation, Enter(l0, d, Asked(t0.nextRotation));
    ReachableRepresents(before);
    RequestRefines(t0, l0, d, graceMinutes, asked);
    DeviceOf(t0, l0, d);
    RequestSince(t0, d, l0[d], graceMinutes, asked);
    RunRefines(o.tables, l1, during);
    RotationsTerminate(o.tables, during, r);
    DevicesStay(o.tables, during, d);
    var t, l2 := Run(o.tables, during), FollowAll(o.tables, l1, during);
    RollbackRefines(t, l2, r, d, reason, now, closedAt);
    RollbackTouches(t, r, d, reason, now, closedAt);
    DeviceOf(t, l2, d);
    SinceRun(t0, o.tables, l1, d, r, during);
    RollbackRestores(t0, t, d, l2[d], r, reason, now, closedAt);
    var u := Rollback(t, r, d, reason, now, closedAt).tables;
    RequestPicksCurrent(u, Enter(l2, d, Settled), d, again, later);
  }

  lemma RequestSince(t: Tables, d: nat, life: Life, graceMinutes: int, now: Time)
    requires DeviceFits(t, d, life) && d in t.devices && RequestRotation(t, d, graceMinutes, now).result.Ok?
    ensures var u := RequestRotation(t, d, graceMinutes, now).tables;
            && Since(t, u, d, t.nextRotation) && IsOpen(u.rotations[t.nextRotation].status)
            && u.devices == t.devices && t.devices[d].active
  {
    RequestResult(t, d, life, graceMinutes, now);
  }

  lemma RequestPicksCurrent(t: Tables, lives: Lives, d: nat, graceMinutes: int, now: Time)
    requires Represents(t, lives) && d in lives && lives[d].phase == Settled && t.devices[d].active
    requires MIN_GRACE_MINUTES <= graceMinutes <= MAX_GRACE_MINUTES
    ensures var o := RequestRotation(t, d, graceMinutes, now);
            && o.result.Ok? && o.result.value in o.tables.rotations && lives[d].chain != []
            && o.tables.rotations[o.result.value].previousId == Current(lives[d])
  {
    DeviceOf(t, lives, d);
    RequestResult(t, d, lives[d], graceMinutes, now);
  }
}
