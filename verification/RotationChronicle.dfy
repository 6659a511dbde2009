// The history behind the rows: each time in a rotation or credential row is the
// clock of the step that brought the row to the status the time is named after,
// a closed rotation keeps the reason it was closed with, and the grace a
// credential gets is the one that was asked for.
module RotationChronicle {
  import opened Clock
  import opened Wrappers
  import opened RotationTables
  import opened RotationLives
  import opened RotationRefinement
  import opened RotationProgress
  import opened RotationKeys

  /** The clock reading a step writes into rotation rows. */
  function ClockOf(s: Step): Time {
    match s
    case RollbackStep(_, _, _, _, closedAt) => closedAt
    case _ => s.now
  }

  /** Something a step may bring about between the tables before and after it. */
  type Happening = (Tables, Step, Tables) -> bool

  /** The last step of the run that brought it about. */
  function LastStep(t: Tables, steps: seq<Step>, happens: Happening): Option<Step>
    decreases |steps|
  {
    if steps == [] then None
    else
      var u := Apply(t, steps[0]);
      var later := LastStep(u, steps[1..], happens);
      if later.Some? then later else if happens(t, steps[0], u) then Some(steps[0]) else None
  }

  // ----- rotations ---------------------------------------------------------------

  /** Rotation r comes to have the status. */
  function Reaches(r: nat, status: RotationStatus): Happening {
    (t: Tables, _: Step, u: Tables) => r in u.rotations && u.rotations[r].status == status && (r !in t.rotations || t.rotations[r].status != status)
  }

  function ClockAt(was: Option<Time>, s: Option<Step>): Option<Time> {
    if s.Some? then Some(ClockOf(s.value)) else was
  }

  /** The time of a row that the tables before a run had, if they had the row. */
  function Had(t: Tables, r: nat, column: Rotation -> Option<Time>): Option<Time> {
    if r in t.rotations then column(t.rotations[r]) else None
  }

  /** A column that holds the clock of the last step to the status. */
  ghost predicate Tells(t: Tables, u: Tables, steps: seq<Step>, r: nat, status: RotationStatus, column: Rotation -> Option<Time>)
    requires r in u.rotations
  {
    column(u.rotations[r]) == ClockAt(Had(t, r, column), LastStep(t, steps, Reaches(r, status)))
  }

  lemma OneStep(t: Tables, s: Step, happens: Happening)
    ensures LastStep(t, [s], happens) == if happens(t, s, Apply(t, s)) then Some(s) else None
  {
    assert [s][1..] == [];
  }

  lemma TellsOn(t: Tables, steps: seq<Step>, r: nat, status: RotationStatus, column: Rotation -> Option<Time>)
    requires steps != [] && r in Run(t, steps).rotations
    requires var u := Apply(t, steps[0]);
             && Tells(u, Run(t, steps), steps[1..], r, status, column)
             && (r in u.rotations ==> Tells(t, u, [steps[0]], r, status, column))
             && (r !in u.rotations ==> r !in t.rotations)
    ensures Tells(t, Run(t, steps), steps, r, status, column)
  {
    OneStep(t, steps[0], Reaches(r, status));
  }

  const STAGED: Rotation -> Option<Time> := (row: Rotation) => row.stagedAt
  const STARTED: Rotation -> Option<Time> := (row: Rotation) => row.validationStartedAt
  const CONFIRMED: Rotation -> Option<Time> := (row: Rotation) => row.confirmedAt
  const COMPLETED: Rotation -> Option<Time> := (row: Rotation) => row.completedAt
  const ROLLED_BACK: Rotation -> Option<Time> := (row: Rotation) => row.rolledBackAt
  const REQUESTED: Rotation -> Option<Time> := (row: Rotation) => Some(row.requestedAt)

  ghost predicate TellsAll(t: Tables, u: Tables, steps: seq<Step>, r: nat)
    requires r in u.rotations
  {
    && Tells(t, u, steps, r, Requested, REQUESTED) && Tells(t, u, steps, r, Staged, STAGED)
    && Tells(t, u, steps, r, Validating, STARTED) && Tells(t, u, steps, r, InGrace, CONFIRMED)
    && Tells(t, u, steps, r, Completed, COMPLETED) && Tells(t, u, steps, r, RolledBack, ROLLED_BACK)
  }

  /** How one step may change a rotation row. */
  ghost predicate RowMoves(was: Option<Rotation>, row: Rotation, s: Step) {
    && (was.None? ==> row.status == Requested && row.requestedAt == ClockOf(s) && row.stagedAt == row.validationStartedAt == None
                      && row.confirmedAt == row.completedAt == row.rolledBackAt == None && row.lastError == "")
    && (was.Some? ==>
          && row.graceMinutes == was.value.graceMinutes && row.requestedAt == was.value.requestedAt
          && row.deviceId == was.value.deviceId && row.previousId == was.value.previousId
          && (row.status != was.value.status ==> row.status != Requested)
          && Follows(was.value.stagedAt, row.stagedAt, was.value.status, row.status, Staged, s)
          && Follows(was.value.validationStartedAt, row.validationStartedAt, was.value.status, row.status, Validating, s)
          && Follows(was.value.confirmedAt, row.confirmedAt, was.value.status, row.status, InGrace, s)
          && Follows(was.value.completedAt, row.completedAt, was.value.status, row.status, Completed, s)
          && Follows(was.value.rolledBackAt, row.rolledBackAt, was.value.status, row.status, RolledBack, s)
          && row.lastError == if s.RollbackStep? && row.status == RolledBack && was.value.status != RolledBack then s.reason else was.value.lastError)
  }

  predicate Follows(was: Option<Time>, time: Option<Time>, left: RotationStatus, status: RotationStatus, named: RotationStatus, s: Step) {
    time == if status == named && left != named then Some(ClockOf(s)) else was
  }

  function RowIn(t: Tables, r: nat): Option<Rotation> { if r in t.rotations then Some(t.rotations[r]) else None }

  lemma RequestMovesRows(t: Tables, s: Step, r: nat)
    requires Numbered(t) && (s.RequestStep? || s.CreateDeviceStep? || s.StampStep?) && r in Apply(t, s).rotations
    ensures RowMoves(RowIn(t, r), Apply(t, s).rotations[r], s)
  {
  }

  /** Staging adds one pending row and moves one rotation to staged. */
  lemma StageWritesRows(t: Tables, r: nat, d: nat, keyId: string, secretHash: string, now: Time)
    ensures var u := StageCandidate(t, r, d, keyId, secretHash, now).tables;
            u == t || (
              && r in t.rotations && t.rotations[r].status == Requested
              && u.rotations == t.rotations[r := t.rotations[r].(newId := Some(t.nextCredential), status := Staged, stagedAt := Some(now))]
              && u.credentials.Keys == t.credentials.Keys + {t.nextCredential}
              && (forall c :: c in t.credentials && c != t.nextCredential ==> u.credentials[c] == t.credentials[c])
              && u.credentials[t.nextCredential].status == Pending
              && PastOf(u, t.nextCredential) == Past(None, None, None, None, ""))
  {
  }

  lemma StageMovesRows(t: Tables, s: Step, r: nat)
    requires s.StageStep? && r in Apply(t, s).rotations
    ensures RowMoves(RowIn(t, r), Apply(t, s).rotations[r], s)
  {
    StageWritesRows(t, s.rotationId, s.deviceId, s.keyId, s.secretHash, s.now);
  }

  lemma StartMovesRows(t: Tables, s: Step, r: nat)
    requires s.StartStep? && r in Apply(t, s).rotations
    ensures RowMoves(RowIn(t, r), Apply(t, s).rotations[r], s)
  {
  }

  lemma ConfirmMovesRows(t: Tables, s: Step, r: nat)
    requires s.ConfirmStep? && r in Apply(t, s).rotations
    ensures RowMoves(RowIn(t, r), Apply(t, s).rotations[r], s)
  {
  }

  lemma ReconcileMovesRows(t: Tables, s: Step, r: nat)
    requires s.ReconcileStep? && r in Apply(t, s).rotations
    ensures RowMoves(RowIn(t, r), Apply(t, s).rotations[r], s)
  {
  }

  lemma RollbackMovesRows(t: Tables, s: Step, r: nat)
    requires s.RollbackStep? && r in Apply(t, s).rotations
    ensures RowMoves(RowIn(t, r), Apply(t, s).rotations[r], s)
  {
    RollbackRow(t, s.rotationId, s.deviceId, s.reason, s.now, s.closedAt);
  }

  lemma RollbackRow(t: Tables, r: nat, d: nat, reason: string, now: Time, closedAt: Time)
    ensures var o := Rollback(t, r, d, reason, now, closedAt);
            if o.result.Err? then o.tables == t
            else r in t.rotations && IsOpen(t.rotations[r].status)
                 && o.tables.rotations
                    == t.rotations[r := t.rotations[r].(status := RolledBack, rolledBackAt := Some(closedAt), lastError := reason)]
  {
  }

  lemma StepMovesRows(t: Tables, s: Step, r: nat)
    requires Numbered(t) && r in Apply(t, s).rotations
    ensures RowMoves(RowIn(t, r), Apply(t, s).rotations[r], s)
  {
    match s
    case StageStep(_, _, _, _, _) => StageMovesRows(t, s, r);
    case StartStep(_, _, _) => StartMovesRows(t, s, r);
    case ConfirmStep(_, _) => ConfirmMovesRows(t, s, r);
    case ReconcileStep(_, _) => ReconcileMovesRows(t, s, r);
    case RollbackStep(_, _, _, _, _) => RollbackMovesRows(t, s, r);
    case _ => RequestMovesRows(t, s, r);
  }

  lemma StepKeepsRotations(t: Tables, s: Step, r: nat)
    requires r in t.rotations
    ensures r in Apply(t, s).rotations
  {
  }

  lemma OneTells(t: Tables, s: Step, r: nat)
    requires Numbered(t) && r in Apply(t, s).rotations
    ensures TellsAll(t, Apply(t, s), [s], r)
  {
    var u := Apply(t, s);
    StepMovesRows(t, s, r);
    OneStep(t, s, Reaches(r, Requested));
    OneStep(t, s, Reaches(r, Staged));
    OneStep(t, s, Reaches(r, Validating));
    OneStep(t, s, Reaches(r, InGrace));
    OneStep(t, s, Reaches(r, Completed));
    OneStep(t, s, Reaches(r, RolledBack));
  }

  lemma NothingTells(t: Tables, r: nat)
    requires r in t.rotations
    ensures TellsAll(t, t, [], r)
  {
  }

  lemma {:induction false} RunTells(t: Tables, steps: seq<Step>, r: nat)
    requires Numbered(t) && r in Run(t, steps).rotations
    ensures TellsAll(t, Run(t, steps), steps, r)
    decreases |steps|
  {
    if steps == [] {
      NothingTells(t, r);
    } else {
      var u := Apply(t, steps[0]);
      StepKeepsNumbers(t, steps[0]);
      RunTells(u, steps[1..], r);
      if r in u.rotations { OneTells(t, steps[0], r); }
      if r in t.rotations { StepKeepsRotations(t, steps[0], r); }
      TellsOn(t, steps, r, Requested, REQUESTED);
      TellsOn(t, steps, r, Staged, STAGED);
      TellsOn(t, steps, r, Validating, STARTED);
      TellsOn(t, steps, r, InGrace, CONFIRMED);
      TellsOn(t, steps, r, Completed, COMPLETED);
      TellsOn(t, steps, r, RolledBack, ROLLED_BACK);
    }
  }

  /** The clock of the last step at which rotation r came to have the status. */
  function Moment(steps: seq<Step>, r: nat, status: RotationStatus): Option<Time> {
    ClockAt(None, LastStep(EMPTY, steps, Reaches(r, status)))
  }

  /** After every run the times of a rotation are the moments it reached its
      statuses, each of them absent as long as it has not. */
  lemma TimesAreMoments(steps: seq<Step>, r: nat)
    requires r in Run(EMPTY, steps).rotations
    ensures var row := Run(EMPTY, steps).rotations[r];
            && Some(row.requestedAt) == Moment(steps, r, Requested) && row.stagedAt == Moment(steps, r, Staged)
            && row.validationStartedAt == Moment(steps, r, Validating) && row.confirmedAt == Moment(steps, r, InGrace)
            && row.completedAt == Moment(steps, r, Completed) && row.rolledBackAt == Moment(steps, r, RolledBack)
  {
    RunTells(EMPTY, steps, r);
  }

  /** The reason of a rotation that was rolled back is the one it was rolled back with. */
  lemma {:induction false} ReasonFrom(t: Tables, steps: seq<Step>, r: nat)
    requires Numbered(t) && r in Run(t, steps).rotations
    ensures var s := LastStep(t, steps, Reaches(r, RolledBack));
            Run(t, steps).rotations[r].lastError ==
              if s.Some? && s.value.RollbackStep? then s.value.reason else if r in t.rotations then t.rotations[r].lastError else ""
    ensures var s := LastStep(t, steps, Reaches(r, RolledBack)); s.Some? ==> s.value.RollbackStep?
    decreases |steps|
  {
    if steps != [] {
      var u := Apply(t, steps[0]);
      StepKeepsNumbers(t, steps[0]);
      ReasonFrom(u, steps[1..], r);
      if r in t.rotations { StepKeepsRotations(t, steps[0], r); }
      if r in u.rotations {
        StepMovesRows(t, steps[0], r);
        if Reaches(r, RolledBack)(t, steps[0], u) { OnlyRollbackRollsBack(t, steps[0], r); }
      }
    }
  }

  lemma OnlyRollbackRollsBack(t: Tables, s: Step, r: nat)
    requires Numbered(t) && Reaches(r, RolledBack)(t, s, Apply(t, s))
    ensures s.RollbackStep?
  {
  }

  // ----- credentials ----------------------------------------------------------------------

  /** Credential c comes to be active for the first time. */
  function Activates(c: nat): Happening {
    (t: Tables, _: Step, u: Tables) =>
      c in u.credentials && u.credentials[c].status == Active && (c in t.credentials ==> t.credentials[c].status == Pending)
  }

  function Revokes(c: nat): Happening {
    (t: Tables, _: Step, u: Tables) =>
      c in u.credentials && u.credentials[c].status == Revoked && (c in t.credentials ==> t.credentials[c].status != Revoked)
  }

  /** A rotation to credential c comes into grace. */
  function Confirms(c: nat): Happening {
    (t: Tables, _: Step, u: Tables) =>
      exists r :: r in u.rotations && u.rotations[r].newId == Some(c) && u.rotations[r].status == InGrace
                  && r in t.rotations && t.rotations[r].status != InGrace
  }

  function Stamps(c: nat): Happening {
    (t: Tables, s: Step, _: Tables) => s.StampStep? && s.credentialId == c && c in t.credentials
  }

  function NowAt(was: Option<Time>, s: Option<Step>): Option<Time> {
    if s.Some? then Some(s.value.now) else was
  }

  /** The five columns that tell the history of a credential. */
  datatype Past = Past(activatedAt: Option<Time>, confirmedAt: Option<Time>, revokedAt: Option<Time>, lastUsedAt: Option<Time>,
                       lastUsedIp: string)

  function PastOf(t: Tables, c: nat): Past {
    if c !in t.credentials then Past(None, None, None, None, "")
    else
      var row := t.credentials[c];
      Past(row.activatedAt, row.confirmedAt, row.revokedAt, row.lastUsedAt, row.lastUsedIp)
  }

  function PastAfter(was: Past, t: Tables, steps: seq<Step>, c: nat): Past {
    var stamp := LastStep(t, steps, Stamps(c));
    Past(NowAt(was.activatedAt, LastStep(t, steps, Activates(c))), NowAt(was.confirmedAt, LastStep(t, steps, Confirms(c))),
         NowAt(was.revokedAt, LastStep(t, steps, Revokes(c))), NowAt(was.lastUsedAt, stamp),
         if stamp.Some? && stamp.value.StampStep? then stamp.value.ip else was.lastUsedIp)
  }

  lemma StampsOnly(t: Tables, steps: seq<Step>, c: nat)
    ensures LastStep(t, steps, Stamps(c)).Some? ==> LastStep(t, steps, Stamps(c)).value.StampStep?
    decreases |steps|
  {
    if steps != [] { StampsOnly(Apply(t, steps[0]), steps[1..], c); }
  }

  /** How one step may change what a credential tells. */
  ghost predicate PastMoves(t: Tables, s: Step, c: nat) {
    var u := Apply(t, s);
    var was, now := PastOf(t, c), Some(s.now);
    && PastOf(u, c).activatedAt == (if Activates(c)(t, s, u) then now else was.activatedAt)
    && PastOf(u, c).confirmedAt == (if Confirms(c)(t, s, u) then now else was.confirmedAt)
    && PastOf(u, c).revokedAt == (if Revokes(c)(t, s, u) then now else was.revokedAt)
    && PastOf(u, c).lastUsedAt == (if Stamps(c)(t, s, u) then now else was.lastUsedAt)
    && PastOf(u, c).lastUsedIp == (if s.StampStep? && Stamps(c)(t, s, u) then s.ip else was.lastUsedIp)
  }

  lemma CreatePast(t: Tables, s: Step, c: nat)
    requires Numbered(t) && s.CreateDeviceStep?
    ensures PastMoves(t, s, c)
  {
  }

  lemma RequestPast(t: Tables, s: Step, c: nat)
    requires Numbered(t) && s.RequestStep?
    ensures PastMoves(t, s, c)
  {
  }

  lemma StagePast(t: Tables, s: Step, c: nat)
    requires Numbered(t) && s.StageStep?
    ensures PastMoves(t, s, c)
  {
    StageWritesRows(t, s.rotationId, s.deviceId, s.keyId, s.secretHash, s.now);
  }

  lemma StartPast(t: Tables, s: Step, c: nat)
    requires s.StartStep?
    ensures PastMoves(t, s, c)
  {
  }

  lemma ConfirmPast(t: Tables, s: Step, c: nat)
    requires s.ConfirmStep?
    ensures PastMoves(t, s, c)
  {
    match First(ValidatingWith(t, s.credentialId))
    case None =>
    case Some(r) =>
      var u := Apply(t, s);
      if u != t && c == s.credentialId { assert u.rotations[r].newId == Some(c) && u.rotations[r].status == InGrace; }
  }

  lemma ReconcilePast(t: Tables, s: Step, c: nat)
    requires s.ReconcileStep?
    ensures PastMoves(t, s, c)
  {
  }

  lemma RestoreCredential(t: Tables, r: nat, n: nat, p: nat, reason: string, now: Time, closedAt: Time, c: nat)
    requires r in t.rotations && n in t.credentials && p in t.credentials && c in t.credentials
    requires t.credentials[p].status == Grace && Restored(t, p).credentials[n].status == Active
    ensures var row, was := Write(t, RestoreEdit(t, r, n, p, reason, now, closedAt)).credentials[c], t.credentials[c];
            || row == was || (was.status == Grace && row == was.(status := Active, graceUntil := None))
            || (row.status == Revoked && was.status != Revoked && row.revokedAt == Some(now)
                && row.(status := was.status, revokedAt := was.revokedAt, graceUntil := was.graceUntil) == was)
  {
  }

  /** A rollback only revokes, or takes a credential back from its grace. */
  lemma RollbackCredential(t: Tables, r: nat, d: nat, reason: string, now: Time, closedAt: Time, c: nat)
    ensures var u := Rollback(t, r, d, reason, now, closedAt).tables;
            && (c in u.credentials <==> c in t.credentials)
            && (c in t.credentials ==>
                  var row, was := u.credentials[c], t.credentials[c];
                  || row == was || (was.status == Grace && row == was.(status := Active, graceUntil := None))
                  || (row.status == Revoked && was.status != Revoked && row.revokedAt == Some(now)
                      && row.(status := was.status, revokedAt := was.revokedAt, graceUntil := was.graceUntil) == was))
  {
    if c in t.credentials && HasRotation(t, r, d) && t.rotations[r].status == InGrace && Rollback(t, r, d, reason, now, closedAt).result.Ok? {
      RestoreCredential(t, r, t.rotations[r].newId.value, t.rotations[r].previousId, reason, now, closedAt, c);
    }
  }

  lemma RollbackPast(t: Tables, s: Step, c: nat)
    requires s.RollbackStep?
    ensures PastMoves(t, s, c)
  {
    RollbackCredential(t, s.rotationId, s.deviceId, s.reason, s.now, s.closedAt, c);
    RollbackRow(t, s.rotationId, s.deviceId, s.reason, s.now, s.closedAt);
  }

  lemma StampPast(t: Tables, s: Step, c: nat)
    requires s.StampStep?
    ensures PastMoves(t, s, c)
  {
  }

  lemma StepPast(t: Tables, s: Step, c: nat)
    requires Numbered(t)
    ensures PastMoves(t, s, c)
  {
    match s
    case CreateDeviceStep(_, _, _, _) => CreatePast(t, s, c);
    case RequestStep(_, _, _) => RequestPast(t, s, c);
    case StageStep(_, _, _, _, _) => StagePast(t, s, c);
    case StartStep(_, _, _) => StartPast(t, s, c);
    case ConfirmStep(_, _) => ConfirmPast(t, s, c);
    case ReconcileStep(_, _) => ReconcilePast(t, s, c);
    case RollbackStep(_, _, _, _, _) => RollbackPast(t, s, c);
    case StampStep(_, _, _) => StampPast(t, s, c);
  }

  lemma {:induction false} RunPast(t: Tables, steps: seq<Step>, c: nat)
    requires Numbered(t)
    ensures PastOf(Run(t, steps), c) == PastAfter(PastOf(t, c), t, steps, c)
    decreases |steps|
  {
    if steps != [] {
      var u := Apply(t, steps[0]);
      StepPast(t, steps[0], c);
      StepKeepsNumbers(t, steps[0]);
      RunPast(u, steps[1..], c);
      StampsOnly(u, steps[1..], c);
    }
  }

  /** After every run a credential tells when it became active, confirmed and
      revoked, and by whom it was used last, and nothing of what has not happened. */
  lemma PastIsTold(steps: seq<Step>, c: nat)
    ensures PastOf(Run(EMPTY, steps), c) == PastAfter(Past(None, None, None, None, ""), EMPTY, steps, c)
  {
    RunPast(EMPTY, steps, c);
  }

  // ----- the grace that was asked for -------------------------------------------------

  lemma {:induction false} AskedStays(t: Tables, steps: seq<Step>, r: nat)
    requires Numbered(t) && r in t.rotations
    ensures r in Run(t, steps).rotations
    ensures var row := Run(t, steps).rotations[r];
            && row.graceMinutes == t.rotations[r].graceMinutes && row.requestedAt == t.rotations[r].requestedAt
            && row.deviceId == t.rotations[r].deviceId && row.previousId == t.rotations[r].previousId
    decreases |steps|
  {
    if steps != [] {
      StepKeepsRotations(t, steps[0], r);
      StepMovesRows(t, steps[0], r);
      StepKeepsNumbers(t, steps[0]);
      AskedStays(Apply(t, steps[0]), steps[1..], r);
    }
  }

  /** What a request leaves: a row with the grace and the moment asked for, about the
      one credential that is active. */
  lemma RequestedRow(before: seq<Step>, d: nat, graceMinutes: int, asked: Time)
    requires RequestRotation(Run(EMPTY, before), d, graceMinutes, asked).result.Ok?
    ensures var t, o := Run(EMPTY, before), RequestRotation(Run(EMPTY, before), d, graceMinutes, asked);
            var r := o.result.value;
            && r !in t.rotations && r in o.tables.rotations && o.tables.credentials == t.credentials
            && var row := o.tables.rotations[r];
               && row.deviceId == d && row.graceMinutes == graceMinutes && row.requestedAt == asked && row.status == Requested
               && row.previousId in t.credentials
               && forall c :: c in t.credentials ==>
                    (t.credentials[c].deviceId == d && t.credentials[c].status == Active <==> c == row.previousId)
  {
    var t, o := Run(EMPTY, before), RequestRotation(Run(EMPTY, before), d, graceMinutes, asked);
    ReachableNumbered(before);
    var p := o.tables.rotations[o.result.value].previousId;
    assert CredentialsIn(t, d, Active) == {p};
    assert forall c :: c in t.credentials && t.credentials[c].deviceId == d && t.credentials[c].status == Active ==>
        c in CredentialsIn(t, d, Active);
  }

  /** From the request over any run into grace: the credential that was active when
      it was asked for lets the device in exactly until the minutes asked for have
      passed since the confirmation. */
  lemma GraceIsAsAsked(before: seq<Step>, d: nat, graceMinutes: int, asked: Time, during: seq<Step>, now: Time)
    requires var o := RequestRotation(Run(EMPTY, before), d, graceMinutes, asked);
             o.result.Ok? && o.result.value in Run(o.tables, during).rotations
             && Run(o.tables, during).rotations[o.result.value].status == InGrace
    ensures var o := RequestRotation(Run(EMPTY, before), d, graceMinutes, asked);
            var t := Run(o.tables, during);
            var row := t.rotations[o.result.value];
            && row.requestedAt == asked && row.confirmedAt.Some?
            && row.previousId in Run(EMPTY, before).credentials && row.previousId in t.credentials
            && Run(EMPTY, before).credentials[row.previousId].status == Active
            && var previous := t.credentials[row.previousId];
               LetsIn(previous, d, previous.secretHash, now) <==> now < row.confirmedAt.value + graceMinutes * MINUTE
  {
    var s := RequestStep(d, graceMinutes, asked);
    var o := RequestRotation(Run(EMPTY, before), d, graceMinutes, asked);
    var r := o.result.value;
    RequestedRow(before, d, graceMinutes, asked);
    RunJoins(before, s, during);
    ReachableNumbered(before);
    StepKeepsNumbers(Run(EMPTY, before), s);
    AskedStays(o.tables, during, r);
    KeysStay(o.tables, during, o.tables.rotations[r].previousId);
    InGraceUntil(before + [s] + during, r, now);
  }

  /** A rotation in grace, on the rows alone. */
  lemma InGraceUntil(steps: seq<Step>, r: nat, now: Time)
    requires r in Run(EMPTY, steps).rotations && Run(EMPTY, steps).rotations[r].status == InGrace
    ensures var t := Run(EMPTY, steps);
            var row := t.rotations[r];
            && row.confirmedAt.Some? && row.previousId in t.credentials
            && var previous := t.credentials[row.previousId];
               && previous.deviceId == row.deviceId
               && (LetsIn(previous, row.deviceId, previous.secretHash, now) <==> now < row.confirmedAt.value + row.graceMinutes * MINUTE)
  {
    var t, lives := Run(EMPTY, steps), LivesOf(steps);
    RunKeepsGraces(EMPTY, steps);
    ReachableRepresents(steps);
    DeviceOf(t, lives, t.rotations[r].deviceId);
    var life := lives[t.rotations[r].deviceId];
    assert LinkFits(t, t.rotations[r].deviceId, life, |life.chain| - 1);
  }
}
