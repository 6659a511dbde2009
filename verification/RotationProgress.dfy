// How rotations move: every one advances at most four times, closed rotations
// and revoked credentials never change again, an open rotation can always be
// closed, and completing one is invisible to the clients that authenticate.
module RotationProgress {
  import opened Clock
  import opened Wrappers
  import opened RotationTables
  import opened RotationLives
  import opened RotationRefinement

  function Rank(s: RotationStatus): nat {
    match s
    case Requested => 4
    case Staged => 3
    case Validating => 2
    case InGrace => 1
    case Completed => 0
    case RolledBack => 0
  }

  lemma RollbackLowersRank(t: Tables, s: Step, r: nat)
    requires s.RollbackStep? && r in t.rotations
    ensures r in Apply(t, s).rotations
    ensures Apply(t, s).rotations[r] != t.rotations[r] ==>
              Rank(Apply(t, s).rotations[r].status) < Rank(t.rotations[r].status)
    ensures Apply(t, s).rotations[r].deviceId == t.rotations[r].deviceId
    ensures Apply(t, s).rotations[r].previousId == t.rotations[r].previousId
  {
  }

  /** A step leaves a rotation row alone or lowers its rank. */
  lemma StepLowersRank(t: Tables, s: Step, r: nat)
    requires Numbered(t) && r in t.rotations
    ensures r in Apply(t, s).rotations
    ensures Apply(t, s).rotations[r] != t.rotations[r] ==>
              Rank(Apply(t, s).rotations[r].status) < Rank(t.rotations[r].status)
    ensures Apply(t, s).rotations[r].deviceId == t.rotations[r].deviceId
    ensures Apply(t, s).rotations[r].previousId == t.rotations[r].previousId
  {
    if s.RollbackStep? { RollbackLowersRank(t, s, r); }
  }

  lemma StepKeepsNumbers(t: Tables, s: Step)
    requires Numbered(t)
    ensures Numbered(Apply(t, s))
  {
  }

  lemma {:induction false} DevicesStay(t: Tables, steps: seq<Step>, d: nat)
    requires Numbered(t) && d in t.devices
    ensures d in Run(t, steps).devices && Run(t, steps).devices[d] == t.devices[d]
    decreases |steps|
  {
    if steps != [] {
      StepKeepsNumbers(t, steps[0]);
      DevicesStay(Apply(t, steps[0]), steps[1..], d);
    }
  }

  lemma {:induction false} NumbersStay(t: Tables, steps: seq<Step>)
    requires Numbered(t)
    ensures Numbered(Run(t, steps))
    decreases |steps|
  {
    if steps != [] {
      StepKeepsNumbers(t, steps[0]);
      NumbersStay(Apply(t, steps[0]), steps[1..]);
    }
  }

  lemma RollbackKeepsOwner(t: Tables, r: nat, d: nat, reason: string, now: Time, closedAt: Time, c: nat)
    requires c in t.credentials
    ensures var u := Rollback(t, r, d, reason, now, closedAt).tables;
            c in u.credentials && u.credentials[c].deviceId == t.credentials[c].deviceId
  {
  }

  lemma ConfirmKeepsOwner(t: Tables, used: nat, now: Time, c: nat)
    requires c in t.credentials
    ensures var u := ConfirmCredentialUse(t, used, now).tables;
            c in u.credentials && u.credentials[c].deviceId == t.credentials[c].deviceId
  {
  }

  lemma StepKeepsOwner(t: Tables, s: Step, c: nat)
    requires Numbered(t) && c in t.credentials
    ensures c in Apply(t, s).credentials && Apply(t, s).credentials[c].deviceId == t.credentials[c].deviceId
  {
    match s
    case RollbackStep(r, d, reason, now, closedAt) => RollbackKeepsOwner(t, r, d, reason, now, closedAt, c);
    case ConfirmStep(used, now) => ConfirmKeepsOwner(t, used, now, c);
    case _ =>
  }

  /** A credential never changes hands. */
  lemma {:induction false} OwnerStays(t: Tables, steps: seq<Step>, c: nat)
    requires Numbered(t) && c in t.credentials
    ensures c in Run(t, steps).credentials && Run(t, steps).credentials[c].deviceId == t.credentials[c].deviceId
    decreases |steps|
  {
    if steps != [] {
      StepKeepsOwner(t, steps[0], c);
      StepKeepsNumbers(t, steps[0]);
      OwnerStays(Apply(t, steps[0]), steps[1..], c);
    }
  }

  /** How often a run rewrites the row of rotation r. */
  function Changes(t: Tables, steps: seq<Step>, r: nat): nat
    decreases |steps|
  {
    if steps == [] then 0
    else
      var u := Apply(t, steps[0]);
      (if r in t.rotations && r in u.rotations && u.rotations[r] != t.rotations[r] then 1 else 0) + Changes(u, steps[1..], r)
  }

  lemma {:induction false} RotationsTerminate(t: Tables, steps: seq<Step>, r: nat)
    requires Numbered(t) && r in t.rotations
    ensures r in Run(t, steps).rotations
    ensures Changes(t, steps, r) + Rank(Run(t, steps).rotations[r].status) <= Rank(t.rotations[r].status)
    ensures !IsOpen(t.rotations[r].status) ==> Run(t, steps).rotations[r] == t.rotations[r]
    ensures Run(t, steps).rotations[r].previousId == t.rotations[r].previousId
    decreases |steps|
  {
    if steps != [] {
      StepLowersRank(t, steps[0], r);
      StepKeepsNumbers(t, steps[0]);
      RotationsTerminate(Apply(t, steps[0]), steps[1..], r);
    }
  }

  /** From the request to the end of any run, a rotation advances at most four
      times. */
  lemma AtMostFourAdvances(steps: seq<Step>, d: nat, graceMinutes: int, now: Time, later: seq<Step>)
    requires RequestRotation(Run(EMPTY, steps), d, graceMinutes, now).result.Ok?
    ensures var o := RequestRotation(Run(EMPTY, steps), d, graceMinutes, now);
            Changes(o.tables, later, o.result.value) <= 4
  {
    ReachableRepresents(steps);
    RequestRefines(Run(EMPTY, steps), LivesOf(steps), d, graceMinutes, now);
    var o := RequestRotation(Run(EMPTY, steps), d, graceMinutes, now);
    RotationsTerminate(o.tables, later, o.result.value);
  }

  lemma RevokedStaysInRollback(t: Tables, s: Step, c: nat)
    requires s.RollbackStep? && c in t.credentials && t.credentials[c].status == Revoked
    ensures c in Apply(t, s).credentials && Apply(t, s).credentials[c] == t.credentials[c]
  {
  }

  lemma RevokedRowStays(t: Tables, s: Step, c: nat)
    requires Numbered(t) && c in t.credentials && t.credentials[c].status == Revoked
    ensures c in Apply(t, s).credentials && Strip(Apply(t, s).credentials[c]) == Strip(t.credentials[c])
  {
    if s.RollbackStep? { RevokedStaysInRollback(t, s, c); }
  }

  /** A revoked credential stays as it is, but for the usage stamp of a request
      that had read it before. */
  lemma {:induction false} RevokedForever(t: Tables, steps: seq<Step>, c: nat)
    requires Numbered(t) && c in t.credentials && t.credentials[c].status == Revoked
    ensures c in Run(t, steps).credentials && Strip(Run(t, steps).credentials[c]) == Strip(t.credentials[c])
    decreases |steps|
  {
    if steps != [] {
      RevokedRowStays(t, steps[0], c);
      StepKeepsNumbers(t, steps[0]);
      RevokedForever(Apply(t, steps[0]), steps[1..], c);
    }
  }

  /** Every open rotation can be closed at any moment; in grace exactly one of
      the two ways is available. */
  lemma OpenRotationsCanClose(steps: seq<Step>, r: nat, reason: string, now: Time, closedAt: Time)
    requires r in Run(EMPTY, steps).rotations && IsOpen(Run(EMPTY, steps).rotations[r].status)
    ensures var t := Run(EMPTY, steps);
            var row := t.rotations[r];
            var back, forth := Rollback(t, r, row.deviceId, reason, now, closedAt), ReconcileRow(t, r, now);
            && (row.status != InGrace ==> back.result.Ok? && forth.result == Ok(false))
            && (row.status == InGrace ==> (back.result.Ok? <==> forth.result != Ok(true)))
            && (back.result.Ok? ==> back.tables.rotations[r].status == RolledBack)
            && (forth.result == Ok(true) ==> forth.tables.rotations[r].status == Completed)
  {
    var t, lives := Run(EMPTY, steps), LivesOf(steps);
    var d := t.rotations[r].deviceId;
    ReachableRepresents(steps);
    DeviceOf(t, lives, d);
    RollbackResult(t, d, lives[d], r, reason, now, closedAt);
    ReconcileResult(t, d, lives[d], r, now);
  }

  // ----- reconciliation and clients -------------------------------------------

  /** The deadline Authenticate reads on the old credential is the one the
      reconciler reads on the rotation, so the row it revokes had expired. */
  lemma RevokedRowHadExpired(t: Tables, e: nat, life: Life, now: Time, d: nat, keyHash: string, later: Time)
    requires DeviceFits(t, e, life) && life.phase.Handover? && life.phase.deadline <= now <= later
    ensures Matching(Write(t, ReconcileEdit(t, life.phase.rotation, Current(life), now)), d, keyHash, later)
         == Matching(t, d, keyHash, later)
  {
    assert !Usable(t.credentials[Current(life)], later);
  }

  lemma ReconcileInvisible(t: Tables, lives: Lives, r: nat, now: Time, d: nat, keyHash: string, later: Time)
    requires Represents(t, lives) && now <= later
    ensures Matching(ReconcileRow(t, r, now).tables, d, keyHash, later) == Matching(t, d, keyHash, later)
  {
    if r in Overdue(t, now) {
      var e := t.rotations[r].deviceId;
      DeviceOf(t, lives, e);
      ReconcileResult(t, e, lives[e], r, now);
      RevokedRowHadExpired(t, e, lives[e], now, d, keyHash, later);
    } else {
      ReconcileRefines(t, lives, r, now);
    }
  }

  function ReconcileAll(t: Tables, rows: seq<nat>, now: Time): Tables
    decreases |rows|
  {
    if rows == [] then t else ReconcileAll(ReconcileRow(t, rows[0], now).tables, rows[1..], now)
  }

  lemma ReconcileKeepsNames(t: Tables, r: nat, now: Time, name: string)
    ensures DevicesNamed(ReconcileRow(t, r, now).tables, name) == DevicesNamed(t, name)
  {
  }

  lemma ReconcileAdmits(t: Tables, lives: Lives, r: nat, now: Time, name: string, keyHash: string, later: Time)
    requires Represents(t, lives) && now <= later
    ensures Admissible(ReconcileRow(t, r, now).tables, name, keyHash, later) == Admissible(t, name, keyHash, later)
  {
    ReconcileKeepsNames(t, r, now, name);
    if DevicesNamed(t, name) != {} {
      ReconcileInvisible(t, lives, r, now, First(DevicesNamed(t, name)).value, keyHash, later);
    }
  }

  /** Whatever rotations a sweep at time now completes, every later attempt to
      authenticate may be accepted with exactly the credentials it might have been
      accepted with without the sweep. */
  lemma {:induction false} SweepInvisible(t: Tables, lives: Lives, rows: seq<nat>, now: Time,
                                          name: string, keyHash: string, later: Time)
    requires Represents(t, lives) && now <= later
    ensures Admissible(ReconcileAll(t, rows, now), name, keyHash, later) == Admissible(t, name, keyHash, later)
    decreases |rows|
  {
    if rows != [] {
      var step := ReconcileStep(rows[0], now);
      ReconcileAdmits(t, lives, rows[0], now, name, keyHash, later);
      StepRefines(t, lives, step);
      SweepInvisible(Apply(t, step), Follow(t, lives, step), rows[1..], now, name, keyHash, later);
    }
  }

  // ----- the grace period ---------------------------------------------------------

  /** A rotation in grace ends its grace graceMinutes after its confirmation. */
  ghost predicate GracesFit(t: Tables) {
    forall r :: r in t.rotations && t.rotations[r].status == InGrace ==> GraceFits(t.rotations[r])
  }

  predicate GraceFits(row: Rotation) {
    row.confirmedAt.Some? && row.graceUntil == Some(row.confirmedAt.value + row.graceMinutes * MINUTE)
  }

  lemma StepKeepsGraces(t: Tables, s: Step)
    requires GracesFit(t)
    ensures GracesFit(Apply(t, s))
  {
  }

  lemma {:induction false} RunKeepsGraces(t: Tables, steps: seq<Step>)
    requires GracesFit(t)
    ensures GracesFit(Run(t, steps))
    decreases |steps|
  {
    if steps != [] {
      StepKeepsGraces(t, steps[0]);
      RunKeepsGraces(Apply(t, steps[0]), steps[1..]);
    }
  }

  /** In grace the previous credential works until exactly graceMinutes after the
      confirmation, and the new one works throughout. */
  lemma GraceIsHonoured(steps: seq<Step>, r: nat, now: Time)
    requires r in Run(EMPTY, steps).rotations && Run(EMPTY, steps).rotations[r].status == InGrace
    ensures var t := Run(EMPTY, steps);
            var row := t.rotations[r];
            && row.confirmedAt.Some? && row.newId.Some?
            && row.previousId in t.credentials && row.newId.value in t.credentials
            && (Usable(t.credentials[row.previousId], now) <==> now < row.confirmedAt.value + row.graceMinutes * MINUTE)
            && Usable(t.credentials[row.newId.value], now)
  {
    var t, lives := Run(EMPTY, steps), LivesOf(steps);
    RunKeepsGraces(EMPTY, steps);
    ReachableRepresents(steps);
    DeviceOf(t, lives, t.rotations[r].deviceId);
  }
}
