// The tables refine a small automaton. Each device lives through a chain of
// settled DDNS credentials and is, at any moment, in one phase of at most one
// rotation; Represents says that every row of every table is exactly what the
// lives dictate. Each transaction is shown to move between phases (or to change
// nothing), and to fail exactly when the automaton has no such move.
module RotationLives {
  import opened Clock
  import opened Wrappers
  import opened RotationTables

  /** Where a device stands. A phase names the open rotation, its candidate
      credential and, in the handover, the grace deadline. */
  datatype Phase =
    | Settled
    | Asked(rotation: nat)
    | Offered(rotation: nat, candidate: nat)
    | Trial(rotation: nat, candidate: nat)
    | Handover(rotation: nat, candidate: nat, deadline: Time)

  /** chain lists the settled credentials, oldest first; completed[i] is the
      rotation that put chain[i + 1] in the place of chain[i]. */
  datatype Life = Life(chain: seq<nat>, completed: seq<nat>, phase: Phase)

  type Lives = map<nat, Life>

  function Current(life: Life): nat
    requires life.chain != []
  {
    life.chain[|life.chain| - 1]
  }

  function OpenRotation(p: Phase): Option<nat> {
    if p.Settled? then None else Some(p.rotation)
  }

  function Candidate(p: Phase): Option<nat> {
    if p.Settled? || p.Asked? then None else Some(p.candidate)
  }

  function StatusOf(p: Phase): RotationStatus
    requires !p.Settled?
  {
    match p
    case Asked(_) => Requested
    case Offered(_, _) => Staged
    case Trial(_, _) => Validating
    case Handover(_, _, _) => InGrace
  }

  /** The status the life dictates for credential c of its device. */
  function StatusIn(life: Life, c: nat): CredentialStatus
    requires life.chain != []
  {
    if c == Current(life) then (if life.phase.Handover? then Grace else Active)
    else if Candidate(life.phase) == Some(c) then (if life.phase.Offered? then Pending else Active)
    else Revoked
  }

  function DeadlineIn(life: Life): Option<Time> {
    if life.phase.Handover? then Some(life.phase.deadline) else None
  }

  ghost predicate CredentialFits(row: Credential, c: nat, life: Life) {
    && life.chain != []
    && row.status == StatusIn(life, c)
    && row.expiresAt == None
    && (row.status == Grace ==> row.graceUntil == DeadlineIn(life))
    && (row.status in {Active, Pending} ==> row.graceUntil == None)
  }

  ghost predicate RotationFits(row: Rotation, r: nat, life: Life) {
    && MIN_GRACE_MINUTES <= row.graceMinutes <= MAX_GRACE_MINUTES
    && (IsOpen(row.status) ==> OpenRotation(life.phase) == Some(r))
    && (row.status == Completed ==> r in life.completed)
    && (row.status in {Requested, Staged, Validating} ==> row.graceUntil == None)
  }

  /** Link i of the chain: the credential's own row, and the rotation and row
      through which it took over from its predecessor. */
  ghost predicate LinkFits(t: Tables, d: nat, life: Life, i: nat)
    requires i < |life.chain| == |life.completed| + 1
  {
    var c := life.chain[i];
    && c in t.credentials && t.credentials[c].deviceId == d
    && (i == 0 ==> t.credentials[c].replacesId == None)
    && (i > 0 ==>
          && life.chain[i - 1] < c
          && t.credentials[c].replacesId == Some(life.chain[i - 1])
          && t.credentials[c].confirmedAt.Some?
          && CompletionFits(t, d, life.completed[i - 1], life.chain[i - 1], c)
          && (i > 1 ==> life.completed[i - 2] < life.completed[i - 1]))
  }

  ghost predicate CompletionFits(t: Tables, d: nat, r: nat, previous: nat, next: nat) {
    && r in t.rotations
    && t.rotations[r].deviceId == d
    && t.rotations[r].status == Completed
    && t.rotations[r].previousId == previous
    && t.rotations[r].newId == Some(next)
  }

  ghost predicate PhaseFits(t: Tables, d: nat, life: Life)
    requires life.chain != []
  {
    match OpenRotation(life.phase)
    case None => true
    case Some(r) =>
      && r in t.rotations
      && t.rotations[r].deviceId == d
      && t.rotations[r].status == StatusOf(life.phase)
      && t.rotations[r].previousId == Current(life)
      && t.rotations[r].newId == Candidate(life.phase)
      && t.rotations[r].graceUntil == DeadlineIn(life)
      && (life.completed != [] ==> life.completed[|life.completed| - 1] < r)
      && CandidateFits(t, d, life)
  }

  ghost predicate CandidateFits(t: Tables, d: nat, life: Life)
    requires life.chain != []
  {
    match Candidate(life.phase)
    case None => true
    case Some(c) =>
      && Current(life) < c
      && c in t.credentials
      && t.credentials[c].deviceId == d
      && t.credentials[c].replacesId == Some(Current(life))
      && (life.phase.Handover? ==> t.credentials[c].confirmedAt.Some?)
  }

  ghost predicate LifeFits(t: Tables, d: nat, life: Life) {
    && |life.chain| == |life.completed| + 1
    && (forall i: nat :: i < |life.chain| ==> LinkFits(t, d, life, i))
    && PhaseFits(t, d, life)
  }

  ghost predicate Numbered(t: Tables) {
    && (forall d :: d in t.devices ==> d < t.nextDevice)
    && (forall c :: c in t.credentials ==> c < t.nextCredential)
    && (forall r :: r in t.rotations ==> r < t.nextRotation)
  }

  ghost predicate UniqueNames(t: Tables) {
    && (forall d, e :: d in t.devices && e in t.devices && t.devices[d].name == t.devices[e].name ==> d == e)
    && (forall b, c :: b in t.credentials && c in t.credentials && t.credentials[b].keyId == t.credentials[c].keyId ==> b == c)
  }

  ghost predicate Represents(t: Tables, lives: Lives) {
    && lives.Keys == t.devices.Keys
    && Numbered(t)
    && UniqueNames(t)
    && (forall d :: d in lives ==> LifeFits(t, d, lives[d]))
    && (forall c :: c in t.credentials ==>
          t.credentials[c].deviceId in lives && CredentialFits(t.credentials[c], c, lives[t.credentials[c].deviceId]))
    && (forall r :: r in t.rotations ==>
          t.rotations[r].deviceId in lives && RotationFits(t.rotations[r], r, lives[t.rotations[r].deviceId]))
  }

  // ----- what the queries see --------------------------------------------

  /** All that a transaction on device d needs to know about the tables. */
  ghost predicate DeviceFits(t: Tables, d: nat, life: Life) {
    && life.chain != []
    && HasCurrent(t, d, life)
    && PhaseFits(t, d, life)
    && CredentialRowsFit(t, d, life)
    && RotationRowsFit(t, d, life)
    && Numbered(t)
  }

  ghost predicate HasCurrent(t: Tables, d: nat, life: Life)
    requires life.chain != []
  {
    && Current(life) in t.credentials
    && t.credentials[Current(life)].deviceId == d
    && (life.completed != [] ==> life.completed[|life.completed| - 1] in t.rotations)
  }

  ghost predicate CredentialRowsFit(u: Tables, d: nat, life: Life) {
    forall c :: c in u.credentials && u.credentials[c].deviceId == d ==> CredentialFits(u.credentials[c], c, life)
  }

  ghost predicate RotationRowsFit(u: Tables, d: nat, life: Life) {
    forall r :: r in u.rotations && u.rotations[r].deviceId == d ==> RotationFits(u.rotations[r], r, life)
  }

  lemma DeviceOf(t: Tables, lives: Lives, d: nat)
    requires Represents(t, lives) && d in lives
    ensures DeviceFits(t, d, lives[d])
  {
    var life := lives[d];
    assert LifeFits(t, d, life);
    assert LinkFits(t, d, life, |life.chain| - 1);
  }

  lemma OpenRotationsAre(t: Tables, d: nat, life: Life)
    requires DeviceFits(t, d, life)
    ensures OpenRotations(t, d) == match OpenRotation(life.phase) case None => {} case Some(r) => {r}
  {
  }

  lemma ActiveAre(t: Tables, d: nat, life: Life)
    requires DeviceFits(t, d, life)
    ensures CredentialsIn(t, d, Active) ==
              match life.phase
              case Trial(_, c) => {Current(life), c}
              case Handover(_, c, _) => {c}
              case _ => {Current(life)}
  {
  }

  /** Credential c is the candidate its device has on trial. */
  predicate OnTrial(t: Tables, lives: Lives, c: nat) {
    && c in t.credentials
    && var d := t.credentials[c].deviceId;
       d in lives && lives[d].phase.Trial? && lives[d].phase.candidate == c
  }

  /** The candidate of a trial belongs to one validating rotation, any other
      credential to none. */
  lemma ValidatingAre(t: Tables, lives: Lives, c: nat)
    requires Represents(t, lives)
    ensures ValidatingWith(t, c) ==
              if OnTrial(t, lives, c) then {lives[t.credentials[c].deviceId].phase.rotation} else {}
  {
    forall r | r in ValidatingWith(t, c)
      ensures OnTrial(t, lives, c) && lives[t.credentials[c].deviceId].phase.rotation == r
    {
      DeviceOf(t, lives, t.rotations[r].deviceId);
    }
    if OnTrial(t, lives, c) { DeviceOf(t, lives, t.credentials[c].deviceId); }
  }
}
