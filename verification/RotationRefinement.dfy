// Each transaction, seen through the lives: when it succeeds, which move it
// makes, and that it changes nothing when it fails.
module RotationRefinement {
  import opened Clock
  import opened Wrappers
  import opened Text
  import opened RotationTables
  import opened RotationLives

  // ----- frame lemmas ------------------------------------------------------

  /** Rows are only added or updated; history columns of a row never go back. */
  ghost predicate Extends(t: Tables, u: Tables) {
    && (forall d :: d in t.devices ==> d in u.devices && u.devices[d] == t.devices[d])
    && (forall c :: c in t.credentials ==>
          && c in u.credentials
          && u.credentials[c].deviceId == t.credentials[c].deviceId
          && u.credentials[c].replacesId == t.credentials[c].replacesId
          && (t.credentials[c].confirmedAt.Some? ==> u.credentials[c].confirmedAt.Some?))
    && (forall r :: r in t.rotations ==>
          && r in u.rotations
          && (!IsOpen(t.rotations[r].status) ==> u.rotations[r] == t.rotations[r]))
  }

  /** Every row of another device is the same in both states. */
  ghost predicate OnlyTouches(t: Tables, u: Tables, d: nat) {
    && (forall c :: c in u.credentials && u.credentials[c].deviceId != d ==>
          c in t.credentials && u.credentials[c] == t.credentials[c])
    && (forall r :: r in u.rotations && u.rotations[r].deviceId != d ==>
          r in t.rotations && u.rotations[r] == t.rotations[r])
    && (forall r :: r in t.rotations && t.rotations[r].deviceId != d ==>
          r in u.rotations && u.rotations[r] == t.rotations[r])
  }

  lemma LinksKept(t: Tables, u: Tables, d: nat, life: Life)
    requires |life.chain| == |life.completed| + 1
    requires forall i: nat :: i < |life.chain| ==> LinkFits(t, d, life, i)
    requires Extends(t, u)
    ensures forall i: nat :: i < |life.chain| ==> LinkFits(u, d, life, i)
  {
    forall i: nat | i < |life.chain| ensures LinkFits(u, d, life, i) {
      assert LinkFits(t, d, life, i);
    }
  }

  lemma OthersKept(t: Tables, u: Tables, lives: Lives, d: nat, e: nat)
    requires Represents(t, lives) && Extends(t, u) && OnlyTouches(t, u, d) && e in lives && e != d
    ensures LifeFits(u, e, lives[e])
  {
    assert LifeFits(t, e, lives[e]);
    LinksKept(t, u, e, lives[e]);
  }

  lemma LivesKept(t: Tables, u: Tables, lives: Lives, d: nat, life: Life)
    requires Represents(t, lives) && Extends(t, u) && OnlyTouches(t, u, d) && LifeFits(u, d, life)
    ensures var after := lives[d := life];
            forall e :: e in after ==> LifeFits(u, e, after[e])
  {
    forall e | e in lives && e != d ensures LifeFits(u, e, lives[e]) {
      OthersKept(t, u, lives, d, e);
    }
  }

  lemma CredentialsKept(t: Tables, u: Tables, lives: Lives, d: nat, life: Life)
    requires Represents(t, lives) && OnlyTouches(t, u, d) && CredentialRowsFit(u, d, life)
    ensures var after := lives[d := life];
            forall c :: c in u.credentials ==>
              u.credentials[c].deviceId in after && CredentialFits(u.credentials[c], c, after[u.credentials[c].deviceId])
  {
    forall c | c in u.credentials && u.credentials[c].deviceId != d
      ensures u.credentials[c].deviceId in lives
      ensures CredentialFits(u.credentials[c], c, lives[u.credentials[c].deviceId])
    {
      assert c in t.credentials;
    }
  }

  lemma RotationsKept(t: Tables, u: Tables, lives: Lives, d: nat, life: Life)
    requires Represents(t, lives) && OnlyTouches(t, u, d) && RotationRowsFit(u, d, life)
    ensures var after := lives[d := life];
            forall r :: r in u.rotations ==>
              u.rotations[r].deviceId in after && RotationFits(u.rotations[r], r, after[u.rotations[r].deviceId])
  {
    forall r | r in u.rotations && u.rotations[r].deviceId != d
      ensures u.rotations[r].deviceId in lives
      ensures RotationFits(u.rotations[r], r, lives[u.rotations[r].deviceId])
    {
      assert r in t.rotations;
    }
  }

  /** A transaction that touches one device moves only that device's life. */
  lemma Moves(t: Tables, u: Tables, lives: Lives, d: nat, life: Life)
    requires Represents(t, lives) && Extends(t, u) && OnlyTouches(t, u, d)
    requires u.devices.Keys == t.devices.Keys + {d} && Numbered(u) && UniqueNames(u)
    requires LifeFits(u, d, life) && CredentialRowsFit(u, d, life) && RotationRowsFit(u, d, life)
    ensures Represents(u, lives[d := life])
  {
    LivesKept(t, u, lives, d, life);
    CredentialsKept(t, u, lives, d, life);
    RotationsKept(t, u, lives, d, life);
  }

  /** A transaction on device d that leaves its life where it is. */
  lemma Stays(t: Tables, u: Tables, lives: Lives, d: nat)
    requires Represents(t, lives) && Extends(t, u) && OnlyTouches(t, u, d) && d in lives
    requires u.devices == t.devices && Numbered(u) && UniqueNames(u)
    requires LifeFits(u, d, lives[d]) && CredentialRowsFit(u, d, lives[d]) && RotationRowsFit(u, d, lives[d])
    ensures Represents(u, lives)
  {
    assert u.devices.Keys == t.devices.Keys + {d};
    assert lives[d := lives[d]] == lives;
    Moves(t, u, lives, d, lives[d]);
  }

  // ----- a transaction as a set of row edits ----------------------------------

  /** The edit writes only rows of device d, keeps their history, and numbers
      and names new rows afresh. */
  ghost predicate EditOf(t: Tables, d: nat, e: Edit) {
    && (forall c :: c in e.rows ==> EditedRow(t, d, c, e.rows[c], e.nextCredential))
    && e.row.deviceId == d
    && (e.rotation in t.rotations ==> t.rotations[e.rotation].deviceId == d && IsOpen(t.rotations[e.rotation].status))
    && e.rotation < e.nextRotation
    && t.nextRotation <= e.nextRotation && t.nextCredential <= e.nextCredential
    && (forall b, c :: b in e.rows && c in e.rows && b !in t.credentials && c !in t.credentials ==> b == c)
  }

  ghost predicate EditedRow(t: Tables, d: nat, c: nat, row: Credential, next: nat) {
    && row.deviceId == d
    && c < next
    && (c in t.credentials ==>
          && t.credentials[c].deviceId == d
          && t.credentials[c].keyId == row.keyId
          && t.credentials[c].replacesId == row.replacesId
          && (t.credentials[c].confirmedAt.Some? ==> row.confirmedAt.Some?))
    && (c !in t.credentials ==> !KeyIdTaken(t, row.keyId))
  }

  lemma EditFrame(t: Tables, d: nat, e: Edit)
    requires EditOf(t, d, e)
    ensures Extends(t, Write(t, e)) && OnlyTouches(t, Write(t, e), d)
    ensures Numbered(t) ==> Numbered(Write(t, e))
  {
    forall c | c in e.rows ensures EditedRow(t, d, c, e.rows[c], e.nextCredential) {}
  }

  lemma EditNames(t: Tables, d: nat, e: Edit)
    requires EditOf(t, d, e) && UniqueNames(t)
    ensures UniqueNames(Write(t, e))
  {
    var u := Write(t, e);
    forall b, c | b in u.credentials && c in u.credentials && u.credentials[b].keyId == u.credentials[c].keyId
      ensures b == c
    {
      if b in e.rows { assert EditedRow(t, d, b, e.rows[b], e.nextCredential); }
      if c in e.rows { assert EditedRow(t, d, c, e.rows[c], e.nextCredential); }
    }
  }

  /** The rows an edit leaves alone still fit when life gives way to after, and
      the rows it writes fit as well. */
  ghost predicate Undisturbed(life: Life, after: Life, e: Edit) {
    && life.chain != [] && after.chain != []
    && (forall c: nat :: c !in e.rows ==> StatusIn(after, c) == StatusIn(life, c))
    && (Current(life) in e.rows || DeadlineIn(after) == DeadlineIn(life))
    && OpenRotation(life.phase) in {None, Some(e.rotation)}
    && life.completed <= after.completed
  }

  ghost predicate WrittenFit(after: Life, e: Edit) {
    && (forall c :: c in e.rows ==> CredentialFits(e.rows[c], c, after))
    && RotationFits(e.row, e.rotation, after)
  }

  lemma EditCredentialRows(t: Tables, d: nat, life: Life, after: Life, e: Edit)
    requires CredentialRowsFit(t, d, life) && EditOf(t, d, e) && Undisturbed(life, after, e) && WrittenFit(after, e)
    ensures CredentialRowsFit(Write(t, e), d, after)
  {
    var u := Write(t, e);
    forall c | c in u.credentials && u.credentials[c].deviceId == d ensures CredentialFits(u.credentials[c], c, after) {
      if c !in e.rows {
        assert CredentialFits(t.credentials[c], c, life);
        assert StatusIn(after, c) == StatusIn(life, c);
      }
    }
  }

  lemma EditRotationRows(t: Tables, d: nat, life: Life, after: Life, e: Edit)
    requires RotationRowsFit(t, d, life) && EditOf(t, d, e) && Undisturbed(life, after, e) && WrittenFit(after, e)
    ensures RotationRowsFit(Write(t, e), d, after)
  {
    var u := Write(t, e);
    forall r | r in u.rotations && u.rotations[r].deviceId == d ensures RotationFits(u.rotations[r], r, after) {
      if r != e.rotation {
        assert RotationFits(t.rotations[r], r, life);
        assert forall x :: x in life.completed ==> x in after.completed;
      }
    }
  }

  lemma EditRepresents(t: Tables, lives: Lives, d: nat, after: Life, e: Edit)
    requires Represents(t, lives) && d in lives
    requires EditOf(t, d, e) && Undisturbed(lives[d], after, e) && WrittenFit(after, e)
    requires LifeFits(Write(t, e), d, after)
    ensures Represents(Write(t, e), lives[d := after])
  {
    var u := Write(t, e);
    EditFrame(t, d, e);
    EditNames(t, d, e);
    EditCredentialRows(t, d, lives[d], after, e);
    EditRotationRows(t, d, lives[d], after, e);
    assert u.devices.Keys == t.devices.Keys + {d};
    Moves(t, u, lives, d, after);
  }

  /** As EditRepresents, for an edit that leaves the device's chain alone. */
  lemma EditPhase(t: Tables, lives: Lives, d: nat, after: Life, e: Edit)
    requires Represents(t, lives) && d in lives
    requires after.chain == lives[d].chain && after.completed == lives[d].completed
    requires EditOf(t, d, e) && Undisturbed(lives[d], after, e) && WrittenFit(after, e)
    requires PhaseFits(Write(t, e), d, after)
    ensures Represents(Write(t, e), lives[d := after])
  {
    assert LifeFits(t, d, lives[d]);
    forall i: nat | i < |after.chain| ensures LinkFits(t, d, after, i) { assert LinkFits(t, d, lives[d], i); }
    EditFrame(t, d, e);
    LinksKept(t, Write(t, e), d, after);
    EditRepresents(t, lives, d, after, e);
  }

  // ----- CreateDevice ---------------------------------------------------------

  function NewLife(c: nat): Life { Life([c], [], Settled) }

  ghost predicate NoRowsOf(t: Tables, d: nat) {
    && d !in t.devices
    && (forall c :: c in t.credentials ==> t.credentials[c].deviceId != d)
    && (forall r :: r in t.rotations ==> t.rotations[r].deviceId != d)
  }

  lemma CreateWrites(t: Tables, name: string, keyId: string, secretHash: string, now: Time)
    requires Numbered(t) && NoRowsOf(t, t.nextDevice) && !NameTaken(t, name) && !KeyIdTaken(t, keyId)
    ensures var d, u, life := t.nextDevice, CreateDevice(t, name, keyId, secretHash, now).tables, NewLife(t.nextCredential);
            Extends(t, u) && OnlyTouches(t, u, d) && LifeFits(u, d, life)
            && CredentialRowsFit(u, d, life) && RotationRowsFit(u, d, life)
  {
    var d, u, life := t.nextDevice, CreateDevice(t, name, keyId, secretHash, now).tables, NewLife(t.nextCredential);
    assert LinkFits(u, d, life, 0);
  }

  lemma CreateNames(t: Tables, name: string, keyId: string, secretHash: string, now: Time)
    requires Numbered(t) && UniqueNames(t) && !NameTaken(t, name) && !KeyIdTaken(t, keyId)
    ensures var u := CreateDevice(t, name, keyId, secretHash, now).tables;
            Numbered(u) && UniqueNames(u)
  {
  }

  lemma CreateDeviceRefines(t: Tables, lives: Lives, name: string, keyId: string, secretHash: string, now: Time)
    requires Represents(t, lives)
    ensures var o := CreateDevice(t, name, keyId, secretHash, now);
            && (o.result.Ok? <==> !NameTaken(t, name) && !KeyIdTaken(t, keyId))
            && (o.result.Err? ==> o.tables == t)
            && (o.result.Ok? ==>
                  && o.result.value == t.nextDevice && t.nextDevice !in lives
                  && Represents(o.tables, lives[t.nextDevice := NewLife(t.nextCredential)]))
  {
    if !NameTaken(t, name) && !KeyIdTaken(t, keyId) {
      CreateWrites(t, name, keyId, secretHash, now);
      CreateNames(t, name, keyId, secretHash, now);
      Moves(t, CreateDevice(t, name, keyId, secretHash, now).tables, lives, t.nextDevice, NewLife(t.nextCredential));
    }
  }

  // ----- RequestRotation -----------------------------------------------------

  lemma RequestWrites(t: Tables, d: nat, life: Life, after: Life, graceMinutes: int, now: Time)
    requires DeviceFits(t, d, life) && life.phase == Settled && after == life.(phase := Asked(t.nextRotation))
    requires MIN_GRACE_MINUTES <= graceMinutes <= MAX_GRACE_MINUTES
    ensures var e := RequestEdit(t, d, Current(life), graceMinutes, now);
            EditOf(t, d, e) && Undisturbed(life, after, e) && WrittenFit(after, e) && PhaseFits(Write(t, e), d, after)
  {
  }

  lemma RequestResult(t: Tables, d: nat, life: Life, graceMinutes: int, now: Time)
    requires DeviceFits(t, d, life) && d in t.devices
    ensures var o := RequestRotation(t, d, graceMinutes, now);
            && (o.result.Ok? <==>
                  MIN_GRACE_MINUTES <= graceMinutes <= MAX_GRACE_MINUTES && t.devices[d].active && life.phase == Settled)
            && o.result != Err(NoActiveCredential) && o.result != Err(MultipleActive)
            && (o.result.Ok? ==> o == Outcome(Write(t, RequestEdit(t, d, Current(life), graceMinutes, now)), Ok(t.nextRotation)))
  {
    OpenRotationsAre(t, d, life);
    ActiveAre(t, d, life);
    if life.phase == Settled { FirstOfSingleton(CredentialsIn(t, d, Active), Current(life)); }
  }

  lemma RequestRefines(t: Tables, lives: Lives, d: nat, graceMinutes: int, now: Time)
    requires Represents(t, lives)
    ensures var o := RequestRotation(t, d, graceMinutes, now);
            && (o.result.Ok? <==>
                  && MIN_GRACE_MINUTES <= graceMinutes <= MAX_GRACE_MINUTES
                  && d in lives && t.devices[d].active && lives[d].phase == Settled)
            && o.result != Err(NoActiveCredential) && o.result != Err(MultipleActive)
            && (o.result.Err? ==> o.tables == t)
            && (o.result.Ok? ==>
                  && o.result.value == t.nextRotation
                  && Represents(o.tables, lives[d := lives[d].(phase := Asked(t.nextRotation))]))
  {
    if d in lives { DeviceOf(t, lives, d); }
    RequestOutcome(t, lives, d, graceMinutes, now);
    if RequestRotation(t, d, graceMinutes, now).result.Ok? { RequestRepresents(t, lives, d, graceMinutes, now); }
  }

  lemma RequestOutcome(t: Tables, lives: Lives, d: nat, graceMinutes: int, now: Time)
    requires (d in t.devices <==> d in lives) && (d in lives ==> DeviceFits(t, d, lives[d]))
    ensures var o := RequestRotation(t, d, graceMinutes, now);
            && (o.result.Ok? <==>
                  && MIN_GRACE_MINUTES <= graceMinutes <= MAX_GRACE_MINUTES
                  && d in lives && t.devices[d].active && lives[d].phase == Settled)
            && o.result != Err(NoActiveCredential) && o.result != Err(MultipleActive)
            && (o.result.Err? ==> o.tables == t)
            && (o.result.Ok? ==> o == Outcome(Write(t, RequestEdit(t, d, Current(lives[d]), graceMinutes, now)), Ok(t.nextRotation)))
  {
    if d in lives { RequestResult(t, d, lives[d], graceMinutes, now); }
  }

  lemma RequestRepresents(t: Tables, lives: Lives, d: nat, graceMinutes: int, now: Time)
    requires Represents(t, lives) && d in lives && lives[d].phase == Settled
    requires MIN_GRACE_MINUTES <= graceMinutes <= MAX_GRACE_MINUTES
    ensures Represents(Write(t, RequestEdit(t, d, Current(lives[d]), graceMinutes, now)),
                       lives[d := lives[d].(phase := Asked(t.nextRotation))])
  {
    var after := lives[d].(phase := Asked(t.nextRotation));
    DeviceOf(t, lives, d);
    RequestWrites(t, d, lives[d], after, graceMinutes, now);
    EditPhase(t, lives, d, after, RequestEdit(t, d, Current(lives[d]), graceMinutes, now));
  }

  // ----- StageCandidate --------------------------------------------------------

  lemma StageWrites(t: Tables, d: nat, life: Life, after: Life, keyId: string, secretHash: string, now: Time)
    requires DeviceFits(t, d, life) && life.phase.Asked? && !KeyIdTaken(t, keyId)
    requires after == life.(phase := Offered(life.phase.rotation, t.nextCredential))
    ensures var e := StageEdit(t, life.phase.rotation, keyId, secretHash, now);
            EditOf(t, d, e) && Undisturbed(life, after, e) && WrittenFit(after, e) && PhaseFits(Write(t, e), d, after)
  {
  }

  lemma StageResult(t: Tables, d: nat, life: Life, r: nat, rawKeyId: string, rawHash: string, now: Time)
    requires DeviceFits(t, d, life)
    ensures var o := StageCandidate(t, r, d, rawKeyId, rawHash, now);
            var keyId, secretHash := ToLower(TrimSpace(rawKeyId)), ToLower(TrimSpace(rawHash));
            && (o.result.Ok? <==>
                  && ValidHexBytes(keyId, 8) && ValidHexBytes(secretHash, 32)
                  && life.phase == Asked(r) && !KeyIdTaken(t, keyId))
            && (o.result.Ok? ==> o == Outcome(Write(t, StageEdit(t, r, keyId, secretHash, now)), Ok(t.nextCredential)))
  {
  }

  lemma StageMoves(t: Tables, lives: Lives, d: nat, keyId: string, secretHash: string, now: Time)
    requires Represents(t, lives) && d in lives && lives[d].phase.Asked? && !KeyIdTaken(t, keyId)
    ensures var r := lives[d].phase.rotation;
            Represents(Write(t, StageEdit(t, r, keyId, secretHash, now)),
                       lives[d := lives[d].(phase := Offered(r, t.nextCredential))])
  {
    var r := lives[d].phase.rotation;
    var after := lives[d].(phase := Offered(r, t.nextCredential));
    DeviceOf(t, lives, d);
    StageWrites(t, d, lives[d], after, keyId, secretHash, now);
    EditPhase(t, lives, d, after, StageEdit(t, r, keyId, secretHash, now));
  }

  lemma StageRefines(t: Tables, lives: Lives, r: nat, d: nat, rawKeyId: string, rawHash: string, now: Time)
    requires Represents(t, lives)
    ensures var o := StageCandidate(t, r, d, rawKeyId, rawHash, now);
            var keyId, secretHash := ToLower(TrimSpace(rawKeyId)), ToLower(TrimSpace(rawHash));
            && (o.result.Ok? <==>
                  && ValidHexBytes(keyId, 8) && ValidHexBytes(secretHash, 32)
                  && d in lives && lives[d].phase == Asked(r) && !KeyIdTaken(t, keyId))
            && (o.result.Err? ==> o.tables == t)
            && (o.result.Ok? ==>
                  && o.result.value == t.nextCredential
                  && Represents(o.tables, lives[d := lives[d].(phase := Offered(r, t.nextCredential))]))
  {
    var keyId, secretHash := ToLower(TrimSpace(rawKeyId)), ToLower(TrimSpace(rawHash));
    if d in lives {
      DeviceOf(t, lives, d);
      StageResult(t, d, lives[d], r, rawKeyId, rawHash, now);
      if lives[d].phase == Asked(r) && !KeyIdTaken(t, keyId) { StageMoves(t, lives, d, keyId, secretHash, now); }
    }
  }

  // ----- StartValidation -----------------------------------------------------

  lemma StartWrites(t: Tables, d: nat, life: Life, after: Life, now: Time)
    requires DeviceFits(t, d, life) && life.phase.Offered?
    requires after == life.(phase := Trial(life.phase.rotation, life.phase.candidate))
    ensures var e := StartEdit(t, life.phase.rotation, life.phase.candidate, now);
            EditOf(t, d, e) && Undisturbed(life, after, e) && WrittenFit(after, e) && PhaseFits(Write(t, e), d, after)
  {
  }

  lemma StartResult(t: Tables, d: nat, life: Life, r: nat, now: Time)
    requires DeviceFits(t, d, life)
    ensures var o := StartValidation(t, r, d, now);
            && (o.result.Ok? <==> life.phase.Offered? && life.phase.rotation == r)
            && (o.result.Ok? ==> o.tables == Write(t, StartEdit(t, r, life.phase.candidate, now)))
  {
  }

  lemma StartRefines(t: Tables, lives: Lives, r: nat, d: nat, now: Time)
    requires Represents(t, lives)
    ensures var o := StartValidation(t, r, d, now);
            && (o.result.Ok? <==> d in lives && lives[d].phase.Offered? && lives[d].phase.rotation == r)
            && (o.result.Err? ==> o.tables == t)
            && (o.result.Ok? ==> Represents(o.tables, lives[d := lives[d].(phase := Trial(r, lives[d].phase.candidate))]))
  {
    if d in lives {
      DeviceOf(t, lives, d);
      StartResult(t, d, lives[d], r, now);
      if lives[d].phase.Offered? && lives[d].phase.rotation == r {
        var after := lives[d].(phase := Trial(r, lives[d].phase.candidate));
        StartWrites(t, d, lives[d], after, now);
        EditPhase(t, lives, d, after, StartEdit(t, r, lives[d].phase.candidate, now));
      }
    }
  }

  // ----- ConfirmCredentialUse ------------------------------------------------

  function Deadline(t: Tables, r: nat, now: Time): Time
    requires r in t.rotations
  {
    now + t.rotations[r].graceMinutes * MINUTE
  }

  lemma ConfirmWrites(t: Tables, d: nat, life: Life, after: Life, now: Time)
    requires DeviceFits(t, d, life) && life.phase.Trial?
    requires after == life.(phase := Handover(life.phase.rotation, life.phase.candidate, Deadline(t, life.phase.rotation, now)))
    ensures var e := ConfirmEdit(t, life.phase.rotation, life.phase.candidate, Current(life), now);
            EditOf(t, d, e) && Undisturbed(life, after, e) && WrittenFit(after, e)
  {
  }

  lemma ConfirmPhase(t: Tables, d: nat, life: Life, after: Life, now: Time)
    requires DeviceFits(t, d, life) && life.phase.Trial?
    requires after == life.(phase := Handover(life.phase.rotation, life.phase.candidate, Deadline(t, life.phase.rotation, now)))
    ensures PhaseFits(Write(t, ConfirmEdit(t, life.phase.rotation, life.phase.candidate, Current(life), now)), d, after)
  {
  }

  lemma ConfirmResult(t: Tables, d: nat, life: Life, c: nat, now: Time)
    requires DeviceFits(t, d, life) && life.phase.Trial? && life.phase.candidate == c
    requires ValidatingWith(t, c) == {life.phase.rotation}
    ensures ConfirmCredentialUse(t, c, now)
         == Outcome(Write(t, ConfirmEdit(t, life.phase.rotation, c, Current(life), now)), Ok(true))
  {
    FirstOfSingleton(ValidatingWith(t, c), life.phase.rotation);
  }

  lemma ConfirmRefines(t: Tables, lives: Lives, c: nat, now: Time)
    requires Represents(t, lives)
    ensures var o := ConfirmCredentialUse(t, c, now);
            && o.result == Ok(OnTrial(t, lives, c))
            && (!OnTrial(t, lives, c) ==> o.tables == t)
            && (OnTrial(t, lives, c) ==>
                  var d := t.credentials[c].deviceId;
                  var r := lives[d].phase.rotation;
                  r in t.rotations && Represents(o.tables, lives[d := lives[d].(phase := Handover(r, c, Deadline(t, r, now)))]))
  {
    ValidatingAre(t, lives, c);
    if OnTrial(t, lives, c) {
      var d := t.credentials[c].deviceId;
      DeviceOf(t, lives, d);
      var r := lives[d].phase.rotation;
      var after := lives[d].(phase := Handover(r, c, Deadline(t, r, now)));
      ConfirmResult(t, d, lives[d], c, now);
      ConfirmWrites(t, d, lives[d], after, now);
      ConfirmPhase(t, d, lives[d], after, now);
      EditPhase(t, lives, d, after, ConfirmEdit(t, r, c, Current(lives[d]), now));
    }
  }

  // ----- ReconcileRow ----------------------------------------------------------

  /** The end of a handover: the candidate becomes the settled credential. */
  function Promoted(life: Life): Life
    requires life.phase.Handover?
  {
    Life(life.chain + [life.phase.candidate], life.completed + [life.phase.rotation], Settled)
  }

  lemma ReconcileWrites(t: Tables, d: nat, life: Life, now: Time)
    requires DeviceFits(t, d, life) && life.phase.Handover?
    ensures var e := ReconcileEdit(t, life.phase.rotation, Current(life), now);
            EditOf(t, d, e) && Undisturbed(life, Promoted(life), e) && WrittenFit(Promoted(life), e)
            && CompletionFits(Write(t, e), d, life.phase.rotation, Current(life), life.phase.candidate)
  {
  }

  lemma PromotedFits(t: Tables, u: Tables, d: nat, life: Life)
    requires LifeFits(t, d, life) && life.phase.Handover? && Extends(t, u)
    requires CompletionFits(u, d, life.phase.rotation, Current(life), life.phase.candidate)
    ensures LifeFits(u, d, Promoted(life))
  {
    LinksKept(t, u, d, life);
    var after := Promoted(life);
    forall i: nat | i < |after.chain| ensures LinkFits(u, d, after, i) {
      if i < |life.chain| {
        assert LinkFits(u, d, life, i);
      } else {
        assert after.chain[i - 1] == Current(life);
      }
    }
  }

  lemma ReconcileResult(t: Tables, d: nat, life: Life, r: nat, now: Time)
    requires DeviceFits(t, d, life) && HasRotation(t, r, d)
    ensures var o := ReconcileRow(t, r, now);
            && o.result.Ok?
            && (o.result.value <==> r in Overdue(t, now))
            && (r in Overdue(t, now) <==> life.phase.Handover? && life.phase.rotation == r && life.phase.deadline <= now)
            && (!o.result.value ==> o.tables == t)
            && (o.result.value ==> o.tables == Write(t, ReconcileEdit(t, r, Current(life), now)))
  {
  }

  lemma ReconcileRefines(t: Tables, lives: Lives, r: nat, now: Time)
    requires Represents(t, lives)
    ensures var o := ReconcileRow(t, r, now);
            && o.result.Ok?
            && (o.result.value <==> r in Overdue(t, now))
            && (!o.result.value ==> o.tables == t)
            && (o.result.value ==>
                  var d := t.rotations[r].deviceId;
                  && d in lives && lives[d].phase.Handover? && lives[d].phase.rotation == r
                  && lives[d].phase.deadline <= now
                  && Represents(o.tables, lives[d := Promoted(lives[d])]))
  {
    if r in t.rotations {
      var d := t.rotations[r].deviceId;
      DeviceOf(t, lives, d);
      ReconcileResult(t, d, lives[d], r, now);
      if r in Overdue(t, now) {
        var e := ReconcileEdit(t, r, Current(lives[d]), now);
        ReconcileWrites(t, d, lives[d], now);
        EditFrame(t, d, e);
        PromotedFits(t, Write(t, e), d, lives[d]);
        EditRepresents(t, lives, d, Promoted(lives[d]), e);
      }
    }
  }

  // ----- Rollback --------------------------------------------------------------

  /** Rollback succeeds from every open phase except an expired handover. */
  predicate CanRollBack(life: Life, r: nat, now: Time) {
    && OpenRotation(life.phase) == Some(r)
    && (life.phase.Handover? ==> now < life.phase.deadline)
  }

  function RollbackEdit(t: Tables, life: Life, reason: string, now: Time, closedAt: Time): Edit
    requires life.chain != [] && !life.phase.Settled? && life.phase.rotation in t.rotations && Current(life) in t.credentials
    requires !life.phase.Asked? ==> life.phase.candidate in t.credentials
  {
    var r := life.phase.rotation;
    if life.phase.Asked? then Updating(t, r, Closed(t.rotations[r], reason, closedAt), map[])
    else if life.phase.Handover? then RestoreEdit(t, r, life.phase.candidate, Current(life), reason, now, closedAt)
    else WithdrawEdit(t, r, life.phase.candidate, reason, now, closedAt)
  }

  lemma WithdrawWrites(t: Tables, d: nat, life: Life, reason: string, now: Time, closedAt: Time)
    requires DeviceFits(t, d, life) && !life.phase.Settled? && !life.phase.Handover?
    ensures var e, after := RollbackEdit(t, life, reason, now, closedAt), life.(phase := Settled);
            EditOf(t, d, e) && Undisturbed(life, after, e) && WrittenFit(after, e)
  {
  }

  lemma RestoreWrites(t: Tables, d: nat, life: Life, reason: string, now: Time, closedAt: Time)
    requires DeviceFits(t, d, life) && life.phase.Handover?
    ensures var e, after := RollbackEdit(t, life, reason, now, closedAt), life.(phase := Settled);
            EditOf(t, d, e) && Undisturbed(life, after, e) && WrittenFit(after, e)
  {
  }

  lemma RollbackResult(t: Tables, d: nat, life: Life, r: nat, reason: string, now: Time, closedAt: Time)
    requires DeviceFits(t, d, life)
    ensures var o := Rollback(t, r, d, reason, now, closedAt);
            && (o.result.Ok? <==> CanRollBack(life, r, now))
            && (o.result.Ok? ==> o.tables == Write(t, RollbackEdit(t, life, reason, now, closedAt)))
            && (o.result.Err? ==> o.tables == t)
  {
  }

  lemma RollbackRefines(t: Tables, lives: Lives, r: nat, d: nat, reason: string, now: Time, closedAt: Time)
    requires Represents(t, lives)
    ensures var o := Rollback(t, r, d, reason, now, closedAt);
            && (o.result.Ok? <==> d in lives && CanRollBack(lives[d], r, now))
            && (o.result.Err? ==> o.tables == t)
            && (o.result.Ok? ==> Represents(o.tables, lives[d := lives[d].(phase := Settled)]))
  {
    if d in lives {
      DeviceOf(t, lives, d);
      RollbackResult(t, d, lives[d], r, reason, now, closedAt);
      if CanRollBack(lives[d], r, now) {
        if lives[d].phase.Handover? {
          RestoreWrites(t, d, lives[d], reason, now, closedAt);
        } else {
          WithdrawWrites(t, d, lives[d], reason, now, closedAt);
        }
        EditPhase(t, lives, d, lives[d].(phase := Settled), RollbackEdit(t, lives[d], reason, now, closedAt));
      }
    }
  }

  // ----- Stamp -----------------------------------------------------------------

  lemma StampKeepsDevice(t: Tables, d: nat, life: Life, c: nat, ip: string, now: Time)
    requires DeviceFits(t, d, life) && c in t.credentials && t.credentials[c].deviceId == d
    ensures var u := Stamp(t, c, ip, now);
            Extends(t, u) && OnlyTouches(t, u, d) && PhaseFits(u, d, life)
            && CredentialRowsFit(u, d, life) && RotationRowsFit(u, d, life)
  {
  }

  lemma StampKeepsLife(t: Tables, d: nat, life: Life, c: nat, ip: string, now: Time)
    requires LifeFits(t, d, life) && DeviceFits(t, d, life) && c in t.credentials && t.credentials[c].deviceId == d
    ensures LifeFits(Stamp(t, c, ip, now), d, life)
  {
    StampKeepsDevice(t, d, life, c, ip, now);
    LinksKept(t, Stamp(t, c, ip, now), d, life);
  }

  lemma StampNames(t: Tables, c: nat, ip: string, now: Time)
    requires Numbered(t) && UniqueNames(t)
    ensures Numbered(Stamp(t, c, ip, now)) && UniqueNames(Stamp(t, c, ip, now))
  {
  }

  /** A usage stamp, whenever it comes and whatever has become of the row, moves
      no life. */
  lemma StampRefines(t: Tables, lives: Lives, c: nat, ip: string, now: Time)
    requires Represents(t, lives)
    ensures Represents(Stamp(t, c, ip, now), lives)
  {
    if c in t.credentials {
      var d := t.credentials[c].deviceId;
      DeviceOf(t, lives, d);
      StampKeepsDevice(t, d, lives[d], c, ip, now);
      StampNames(t, c, ip, now);
      StampKeepsLife(t, d, lives[d], c, ip, now);
      Stays(t, Stamp(t, c, ip, now), lives, d);
    }
  }

  // ----- runs ---------------------------------------------------------------

  /** The life every device leads after step s. */
  ghost function Follow(t: Tables, lives: Lives, s: Step): Lives {
    match s
    case CreateDeviceStep(name, keyId, secretHash, now) =>
      if CreateDevice(t, name, keyId, secretHash, now).result.Ok? then lives[t.nextDevice := NewLife(t.nextCredential)] else lives
    case RequestStep(d, graceMinutes, now) =>
      if RequestRotation(t, d, graceMinutes, now).result.Ok? then Enter(lives, d, Asked(t.nextRotation)) else lives
    case StageStep(r, d, keyId, secretHash, now) =>
      if StageCandidate(t, r, d, keyId, secretHash, now).result.Ok? then Enter(lives, d, Offered(r, t.nextCredential)) else lives
    case StartStep(r, d, now) =>
      if StartValidation(t, r, d, now).result.Ok? && d in lives && lives[d].phase.Offered?
      then Enter(lives, d, Trial(r, lives[d].phase.candidate)) else lives
    case ConfirmStep(c, now) =>
      if OnTrial(t, lives, c) && lives[t.credentials[c].deviceId].phase.rotation in t.rotations then
        var r := lives[t.credentials[c].deviceId].phase.rotation;
        Enter(lives, t.credentials[c].deviceId, Handover(r, c, Deadline(t, r, now)))
      else lives
    case ReconcileStep(r, now) =>
      if ReconcileRow(t, r, now).result == Ok(true) && t.rotations[r].deviceId in lives && lives[t.rotations[r].deviceId].phase.Handover?
      then lives[t.rotations[r].deviceId := Promoted(lives[t.rotations[r].deviceId])] else lives
    case RollbackStep(r, d, reason, now, closedAt) =>
      if Rollback(t, r, d, reason, now, closedAt).result.Ok? then Enter(lives, d, Settled) else lives
    case StampStep(_, _, _) => lives
  }

  function Enter(lives: Lives, d: nat, phase: Phase): Lives {
    if d in lives then lives[d := lives[d].(phase := phase)] else lives
  }

  /** Every transaction takes tables that represent lives to tables that
      represent what those lives become. */
  lemma StepRefines(t: Tables, lives: Lives, s: Step)
    requires Represents(t, lives)
    ensures Represents(Apply(t, s), Follow(t, lives, s))
  {
    match s
    case CreateDeviceStep(name, keyId, secretHash, now) => CreateDeviceRefines(t, lives, name, keyId, secretHash, now);
    case RequestStep(d, graceMinutes, now) => RequestRefines(t, lives, d, graceMinutes, now);
    case StageStep(r, d, keyId, secretHash, now) => StageRefines(t, lives, r, d, keyId, secretHash, now);
    case StartStep(r, d, now) => StartRefines(t, lives, r, d, now);
    case ConfirmStep(c, now) => ConfirmRefines(t, lives, c, now);
    case ReconcileStep(r, now) => ReconcileRefines(t, lives, r, now);
    case RollbackStep(r, d, reason, now, closedAt) => RollbackRefines(t, lives, r, d, reason, now, closedAt);
    case StampStep(c, ip, now) => StampRefines(t, lives, c, ip, now);
  }

  ghost function FollowAll(t: Tables, lives: Lives, steps: seq<Step>): Lives
    decreases |steps|
  {
    if steps == [] then lives else FollowAll(Apply(t, steps[0]), Follow(t, lives, steps[0]), steps[1..])
  }

  lemma {:induction false} RunRefines(t: Tables, lives: Lives, steps: seq<Step>)
    requires Represents(t, lives)
    ensures Represents(Run(t, steps), FollowAll(t, lives, steps))
    decreases |steps|
  {
    if steps != [] {
      StepRefines(t, lives, steps[0]);
      RunRefines(Apply(t, steps[0]), Follow(t, lives, steps[0]), steps[1..]);
    }
  }

  ghost function LivesOf(steps: seq<Step>): Lives {
    FollowAll(EMPTY, map[], steps)
  }

  /** Every reachable state represents the lives its steps have led to. */
  lemma ReachableRepresents(steps: seq<Step>)
    ensures Represents(Run(EMPTY, steps), LivesOf(steps))
  {
    RunRefines(EMPTY, map[], steps);
  }
}
