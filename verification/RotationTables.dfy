// The tables behind DDNS credential rotation, and what each database
// transaction of credential/service.go, createDevice and the usage stamp of
// Authenticate do to them. A transaction is a function from tables to tables and a result; an
// error leaves the tables as they were.
module RotationTables {
  import opened Clock
  import opened Wrappers
  import opened Text

  const MIN_GRACE_MINUTES := 1
  const MAX_GRACE_MINUTES := 1440

  datatype Device = Device(name: string, active: bool)

  datatype CredentialStatus = Pending | Active | Grace | Revoked

  datatype Credential = Credential(
    deviceId: nat,
    keyId: string,
    secretHash: string,
    status: CredentialStatus,
    activatedAt: Option<Time>,
    confirmedAt: Option<Time>,
    expiresAt: Option<Time>,
    revokedAt: Option<Time>,
    graceUntil: Option<Time>,
    lastUsedAt: Option<Time>,
    lastUsedIp: string,
    replacesId: Option<nat>)

  datatype RotationStatus = Requested | Staged | Validating | InGrace | Completed | RolledBack

  datatype Rotation = Rotation(
    deviceId: nat,
    previousId: nat,
    newId: Option<nat>,
    status: RotationStatus,
    graceMinutes: int,
    requestedAt: Time,
    stagedAt: Option<Time>,
    validationStartedAt: Option<Time>,
    confirmedAt: Option<Time>,
    graceUntil: Option<Time>,
    completedAt: Option<Time>,
    rolledBackAt: Option<Time>,
    lastError: string)

  datatype Tables = Tables(
    devices: map<nat, Device>,
    credentials: map<nat, Credential>,
    rotations: map<nat, Rotation>,
    nextDevice: nat,
    nextCredential: nat,
    nextRotation: nat)

  const EMPTY := Tables(map[], map[], map[], 1, 1, 1)

  datatype Error =
    | DeviceNotFound
    | NoActiveCredential
    | MultipleActive
    | RotationInProgress
    | RotationNotFound
    | InvalidRotationState
    | InvalidGracePeriod
    | InvalidCandidateKeyId
    | InvalidCandidateHash
    | UniqueViolation
    | BadAuth

  datatype Outcome<+T> = Outcome(tables: Tables, result: Result<T, Error>)

  predicate IsOpen(s: RotationStatus) {
    s in {Requested, Staged, Validating, InGrace}
  }

  // ----- queries ---------------------------------------------------------

  function OpenRotations(t: Tables, d: nat): set<nat> {
    set r | r in t.rotations && t.rotations[r].deviceId == d && IsOpen(t.rotations[r].status)
  }

  function CredentialsIn(t: Tables, d: nat, status: CredentialStatus): set<nat> {
    set c | c in t.credentials && t.credentials[c].deviceId == d && t.credentials[c].status == status
  }

  predicate HasCredential(t: Tables, c: nat, d: nat, status: CredentialStatus) {
    c in t.credentials && t.credentials[c].deviceId == d && t.credentials[c].status == status
  }

  predicate HasRotation(t: Tables, r: nat, d: nat) {
    r in t.rotations && t.rotations[r].deviceId == d
  }

  function ValidatingWith(t: Tables, c: nat): set<nat> {
    set r | r in t.rotations && t.rotations[r].newId == Some(c) && t.rotations[r].status == Validating
  }

  function DevicesNamed(t: Tables, name: string): set<nat> {
    set d | d in t.devices && t.devices[d].name == name && t.devices[d].active
  }

  predicate KeyIdTaken(t: Tables, keyId: string) {
    exists c :: c in t.credentials && t.credentials[c].keyId == keyId
  }

  predicate NameTaken(t: Tables, name: string) {
    exists d :: d in t.devices && t.devices[d].name == name
  }

  /** A row Authenticate lets through at time now, whoever presents it. */
  predicate Usable(row: Credential, now: Time) {
    && row.status in {Active, Grace}
    && (row.expiresAt.Some? ==> row.expiresAt.value > now)
    && (row.status == Grace ==> row.graceUntil.Some? && row.graceUntil.value > now)
  }

  function Matching(t: Tables, d: nat, keyHash: string, now: Time): set<nat> {
    set c | c in t.credentials && t.credentials[c].deviceId == d
            && Usable(t.credentials[c], now) && t.credentials[c].secretHash == keyHash
  }

  /** Rotations the reconciler's opening scan selects. */
  function Overdue(t: Tables, now: Time): set<nat> {
    set r | r in t.rotations && t.rotations[r].status == InGrace
            && t.rotations[r].graceUntil.Some? && t.rotations[r].graceUntil.value <= now
  }

  /** A credential row without its usage columns. */
  function Strip(row: Credential): Credential {
    row.(lastUsedAt := None, lastUsedIp := "")
  }

  // ----- edits -----------------------------------------------------------

  /** What a rotation transaction writes when it commits: some credential rows
      and one rotation row. */
  datatype Edit = Edit(
    rows: map<nat, Credential>,
    rotation: nat,
    row: Rotation,
    nextCredential: nat,
    nextRotation: nat)

  function Write(t: Tables, e: Edit): Tables {
    t.(credentials := t.credentials + e.rows, rotations := t.rotations[e.rotation := e.row],
       nextCredential := e.nextCredential, nextRotation := e.nextRotation)
  }

  function Updating(t: Tables, r: nat, row: Rotation, rows: map<nat, Credential>): Edit {
    Edit(rows, r, row, t.nextCredential, t.nextRotation)
  }

  function Revoke(row: Credential, now: Time): Credential {
    row.(status := Revoked, revokedAt := Some(now))
  }

  function NewRotation(d: nat, c: nat, graceMinutes: int, now: Time): Rotation {
    Rotation(d, c, None, Requested, graceMinutes, now, None, None, None, None, None, None, "")
  }

  function NewCandidate(d: nat, keyId: string, secretHash: string, previous: nat): Credential {
    Credential(d, keyId, secretHash, Pending, None, None, None, None, None, None, "", Some(previous))
  }

  function RequestEdit(t: Tables, d: nat, c: nat, graceMinutes: int, now: Time): Edit {
    Edit(map[], t.nextRotation, NewRotation(d, c, graceMinutes, now), t.nextCredential, t.nextRotation + 1)
  }

  function StageEdit(t: Tables, r: nat, keyId: string, secretHash: string, now: Time): Edit
    requires r in t.rotations
  {
    var rotation := t.rotations[r];
    var c := t.nextCredential;
    Edit(map[c := NewCandidate(rotation.deviceId, keyId, secretHash, rotation.previousId)], r,
         rotation.(newId := Some(c), status := Staged, stagedAt := Some(now)), c + 1, t.nextRotation)
  }

  function StartEdit(t: Tables, r: nat, c: nat, now: Time): Edit
    requires r in t.rotations && c in t.credentials
  {
    Updating(t, r, t.rotations[r].(status := Validating, validationStartedAt := Some(now)),
             map[c := t.credentials[c].(status := Active, activatedAt := Some(now))])
  }

  function ConfirmEdit(t: Tables, r: nat, c: nat, p: nat, now: Time): Edit
    requires r in t.rotations && c in t.credentials && p in t.credentials
  {
    var until := now + t.rotations[r].graceMinutes * MINUTE;
    var confirmed := t.credentials[c].(confirmedAt := Some(now));
    Updating(t, r, t.rotations[r].(status := InGrace, confirmedAt := Some(now), graceUntil := Some(until)),
             map[c := confirmed,
                 p := (if p == c then confirmed else t.credentials[p]).(status := Grace, graceUntil := Some(until))])
  }

  function ReconcileEdit(t: Tables, r: nat, p: nat, now: Time): Edit
    requires r in t.rotations && p in t.credentials
  {
    Updating(t, r, t.rotations[r].(status := Completed, completedAt := Some(now)),
             map[p := Revoke(t.credentials[p], now)])
  }

  function Closed(row: Rotation, reason: string, closedAt: Time): Rotation {
    row.(status := RolledBack, rolledBackAt := Some(closedAt), lastError := reason)
  }

  function WithdrawEdit(t: Tables, r: nat, c: nat, reason: string, now: Time, closedAt: Time): Edit
    requires r in t.rotations && c in t.credentials
  {
    Updating(t, r, Closed(t.rotations[r], reason, closedAt), map[c := Revoke(t.credentials[c], now)])
  }

  /** The credentials after the first half of a rollback out of grace. */
  function Restored(t: Tables, p: nat): Tables
    requires p in t.credentials
  {
    t.(credentials := t.credentials[p := t.credentials[p].(status := Active, graceUntil := None)])
  }

  function RestoreEdit(t: Tables, r: nat, c: nat, p: nat, reason: string, now: Time, closedAt: Time): Edit
    requires r in t.rotations && c in t.credentials && p in t.credentials
  {
    var restored := Restored(t, p).credentials;
    Updating(t, r, Closed(t.rotations[r], reason, closedAt),
             map[p := restored[p], c := Revoke(restored[c], now)])
  }

  // ----- transactions ----------------------------------------------------

  function FirstCredential(d: nat, keyId: string, secretHash: string, now: Time): Credential {
    Credential(d, keyId, secretHash, Active, Some(now), None, None, None, None, None, "", None)
  }

  function CreateDevice(t: Tables, name: string, keyId: string, secretHash: string, now: Time): Outcome<nat> {
    if NameTaken(t, name) || KeyIdTaken(t, keyId) then
      Outcome(t, Err(UniqueViolation))
    else
      Outcome(
        t.(devices := t.devices[t.nextDevice := Device(name, true)],
           credentials := t.credentials[t.nextCredential := FirstCredential(t.nextDevice, keyId, secretHash, now)],
           nextDevice := t.nextDevice + 1,
           nextCredential := t.nextCredential + 1),
        Ok(t.nextDevice))
  }

  function RequestRotation(t: Tables, d: nat, graceMinutes: int, now: Time): Outcome<nat> {
    if graceMinutes < MIN_GRACE_MINUTES || graceMinutes > MAX_GRACE_MINUTES then
      Outcome(t, Err(InvalidGracePeriod))
    else if d !in t.devices || !t.devices[d].active then
      Outcome(t, Err(DeviceNotFound))
    else if OpenRotations(t, d) != {} then
      Outcome(t, Err(RotationInProgress))
    else
      match First(CredentialsIn(t, d, Active))
      case None => Outcome(t, Err(NoActiveCredential))
      case Some(c) =>
        if CredentialsIn(t, d, Active) != {c} then
          Outcome(t, Err(MultipleActive))
        else
          Outcome(Write(t, RequestEdit(t, d, c, graceMinutes, now)), Ok(t.nextRotation))
  }

  function StageCandidate(t: Tables, r: nat, d: nat, rawKeyId: string, rawHash: string, now: Time): Outcome<nat> {
    var keyId := ToLower(TrimSpace(rawKeyId));
    var secretHash := ToLower(TrimSpace(rawHash));
    if !ValidHexBytes(keyId, 8) then
      Outcome(t, Err(InvalidCandidateKeyId))
    else if !ValidHexBytes(secretHash, 32) then
      Outcome(t, Err(InvalidCandidateHash))
    else if !HasRotation(t, r, d) then
      Outcome(t, Err(RotationNotFound))
    else if t.rotations[r].status != Requested || t.rotations[r].newId.Some? then
      Outcome(t, Err(InvalidRotationState))
    else if !HasCredential(t, t.rotations[r].previousId, d, Active) then
      Outcome(t, Err(InvalidRotationState))
    else if KeyIdTaken(t, keyId) then
      Outcome(t, Err(UniqueViolation))
    else
      Outcome(Write(t, StageEdit(t, r, keyId, secretHash, now)), Ok(t.nextCredential))
  }

  function StartValidation(t: Tables, r: nat, d: nat, now: Time): Outcome<nat> {
    if !HasRotation(t, r, d) then
      Outcome(t, Err(RotationNotFound))
    else if t.rotations[r].status != Staged || t.rotations[r].newId.None? then
      Outcome(t, Err(InvalidRotationState))
    else if !HasCredential(t, t.rotations[r].newId.value, d, Pending) then
      Outcome(t, Err(InvalidRotationState))
    else
      Outcome(Write(t, StartEdit(t, r, t.rotations[r].newId.value, now)), Ok(r))
  }

  function ConfirmCredentialUse(t: Tables, c: nat, now: Time): Outcome<bool> {
    match First(ValidatingWith(t, c))
    case None => Outcome(t, Ok(false))
    case Some(r) =>
      var d, p := t.rotations[r].deviceId, t.rotations[r].previousId;
      if !HasCredential(t, c, d, Active) || !HasCredential(t, p, d, Active) then
        Outcome(t, Err(InvalidRotationState))
      else
        Outcome(Write(t, ConfirmEdit(t, r, c, p, now)), Ok(true))
  }

  /** The transaction the reconciler runs for one scanned rotation; now is the
      sweep's start time. */
  function ReconcileRow(t: Tables, r: nat, now: Time): Outcome<bool> {
    if r !in t.rotations || t.rotations[r].status != InGrace then
      Outcome(t, Ok(false))
    else if t.rotations[r].graceUntil.None? || t.rotations[r].graceUntil.value > now then
      Outcome(t, Ok(false))
    else if !HasCredential(t, t.rotations[r].previousId, t.rotations[r].deviceId, Grace) then
      Outcome(t, Err(InvalidRotationState))
    else
      Outcome(Write(t, ReconcileEdit(t, r, t.rotations[r].previousId, now)), Ok(true))
  }

  /** Rollback reads the clock twice: once for the credential rows, once for
      the rotation row. */
  function Rollback(t: Tables, r: nat, d: nat, reason: string, now: Time, closedAt: Time): Outcome<()> {
    if !HasRotation(t, r, d) then
      Outcome(t, Err(RotationNotFound))
    else
      var row := t.rotations[r];
      match row.status
      case Requested =>
        Outcome(Write(t, Updating(t, r, Closed(row, reason, closedAt), map[])), Ok(()))
      case Staged =>
        if row.newId.None? || !HasCredential(t, row.newId.value, d, Pending) then
          Outcome(t, Err(InvalidRotationState))
        else
          Outcome(Write(t, WithdrawEdit(t, r, row.newId.value, reason, now, closedAt)), Ok(()))
      case Validating =>
        if row.newId.None? || !HasCredential(t, row.newId.value, d, Active) then
          Outcome(t, Err(InvalidRotationState))
        else
          Outcome(Write(t, WithdrawEdit(t, r, row.newId.value, reason, now, closedAt)), Ok(()))
      case InGrace =>
        if row.newId.None? || row.graceUntil.None? || row.graceUntil.value <= now then
          Outcome(t, Err(InvalidRotationState))
        else if !HasCredential(t, row.previousId, d, Grace) || !HasCredential(Restored(t, row.previousId), row.newId.value, d, Active) then
          Outcome(t, Err(InvalidRotationState))
        else
          Outcome(Write(t, RestoreEdit(t, r, row.newId.value, row.previousId, reason, now, closedAt)), Ok(()))
      case _ => Outcome(t, Err(InvalidRotationState))
  }

  /** The credentials basic authentication may accept for a device name and a key
      whose SHA-256 text is keyHash. The query has no ORDER BY, so any of them. */
  function Admissible(t: Tables, name: string, keyHash: string, now: Time): set<nat> {
    match First(DevicesNamed(t, name))
    case None => {}
    case Some(d) => Matching(t, d, keyHash, now)
  }

  /** Authentication ends with an update by primary key that checks nothing: the
      row may have changed since it was read. */
  function Stamp(t: Tables, c: nat, ip: string, now: Time): Tables {
    if c !in t.credentials then t
    else t.(credentials := t.credentials[c := t.credentials[c].(lastUsedAt := Some(now), lastUsedIp := ip)])
  }

  // ----- runs ------------------------------------------------------------

  /** One committed write. Confirm and Stamp are those of the /update endpoint,
      Reconcile is one iteration of a sweep. */
  datatype Step =
    | CreateDeviceStep(name: string, keyId: string, secretHash: string, now: Time)
    | RequestStep(deviceId: nat, graceMinutes: int, now: Time)
    | StageStep(rotationId: nat, deviceId: nat, keyId: string, secretHash: string, now: Time)
    | StartStep(rotationId: nat, deviceId: nat, now: Time)
    | ConfirmStep(credentialId: nat, now: Time)
    | ReconcileStep(rotationId: nat, now: Time)
    | RollbackStep(rotationId: nat, deviceId: nat, reason: string, now: Time, closedAt: Time)
    | StampStep(credentialId: nat, ip: string, now: Time)

  function Apply(t: Tables, s: Step): Tables {
    match s
    case CreateDeviceStep(name, keyId, secretHash, now) => CreateDevice(t, name, keyId, secretHash, now).tables
    case RequestStep(d, graceMinutes, now) => RequestRotation(t, d, graceMinutes, now).tables
    case StageStep(r, d, keyId, secretHash, now) => StageCandidate(t, r, d, keyId, secretHash, now).tables
    case StartStep(r, d, now) => StartValidation(t, r, d, now).tables
    case ConfirmStep(c, now) => ConfirmCredentialUse(t, c, now).tables
    case ReconcileStep(r, now) => ReconcileRow(t, r, now).tables
    case RollbackStep(r, d, reason, now, closedAt) => Rollback(t, r, d, reason, now, closedAt).tables
    case StampStep(c, ip, now) => Stamp(t, c, ip, now)
  }

  function Run(t: Tables, steps: seq<Step>): Tables
    decreases |steps|
  {
    if steps == [] then t else Run(Apply(t, steps[0]), steps[1..])
  }

  lemma {:induction false} RunAppend(t: Tables, a: seq<Step>, b: seq<Step>)
    ensures Run(t, a + b) == Run(Run(t, a), b)
    decreases |a|
  {
    if a == [] {
      assert a + b == b;
    } else {
      assert (a + b)[0] == a[0] && (a + b)[1..] == a[1..] + b;
      RunAppend(Apply(t, a[0]), a[1..], b);
    }
  }
}
