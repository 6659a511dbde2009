// Which keys let a device in, told on the rows alone: exactly those whose hash a
// live row of the device bears. The key given at creation and the key staged by a
// rotation are the ones that do, for as long as their rows are live.
module RotationKeys {
  import opened Clock
  import opened Wrappers
  import opened Text
  import opened RotationTables
  import opened RotationLives
  import opened RotationService
  import opened RotationRefinement
  import opened RotationProgress

  /** d is an active device of that name. */
  predicate Bears(t: Tables, d: nat, name: string) {
    d in t.devices && t.devices[d].name == name && t.devices[d].active
  }

  /** The row lets the presenter of a key with this hash in as device d. */
  predicate LetsIn(row: Credential, d: nat, keyHash: string, now: Time) {
    && row.deviceId == d && row.secretHash == keyHash
    && (row.status == Active || (row.status == Grace && row.graceUntil.Some? && now < row.graceUntil.value))
    && (row.expiresAt == None || now < row.expiresAt.value)
  }

  /** Names are unique, as the table demands. */
  ghost predicate OneOfName(t: Tables, name: string) {
    forall d, e :: Bears(t, d, name) && Bears(t, e, name) ==> d == e
  }

  /** rows is an answer to the query for a device's active and grace rows. */
  ghost predicate Listed(u: Tables, d: nat, rows: seq<nat>) {
    forall c :: c in rows <==> c in u.credentials && u.credentials[c].deviceId == d && u.credentials[c].status in {Active, Grace}
  }

  /** Some row of the device of that name lets the key in. */
  ghost predicate KeyFits(t: Tables, u: Tables, name: string, keyHash: string, now: Time) {
    exists d, c :: Bears(t, d, name) && c in u.credentials && LetsIn(u.credentials[c], d, keyHash, now)
  }

  /** c is such a row. */
  ghost predicate RowFits(t: Tables, u: Tables, name: string, keyHash: string, now: Time, c: nat) {
    c in u.credentials && exists d :: Bears(t, d, name) && LetsIn(u.credentials[c], d, keyHash, now)
  }

  lemma NamedIs(t: Tables, name: string, d: nat)
    requires OneOfName(t, name) && Bears(t, d, name)
    ensures First(DevicesNamed(t, name)) == Some(d)
  {
    assert DevicesNamed(t, name) == {d} by {
      forall e | e in DevicesNamed(t, name) ensures e == d { assert Bears(t, e, name); }
    }
    FirstOfSingleton(DevicesNamed(t, name), d);
  }

  lemma NobodyNamed(t: Tables, name: string)
    requires forall d :: !Bears(t, d, name)
    ensures First(DevicesNamed(t, name)) == None
  {
    if DevicesNamed(t, name) != {} {
      var d :| d in DevicesNamed(t, name);
      assert Bears(t, d, name);
    }
  }

  lemma MatchingIs(u: Tables, d: nat, keyHash: string, now: Time, c: nat)
    ensures c in Matching(u, d, keyHash, now) <==> c in u.credentials && LetsIn(u.credentials[c], d, keyHash, now)
  {
  }

  /** What the usage stamp leaves of the tables others have come to. */
  ghost predicate StampedOnly(v: Tables, after: Tables, c: nat, ip: string, now: Time) {
    after == if c !in v.credentials then v
             else v.(credentials := v.credentials[c := v.credentials[c].(lastUsedAt := Some(now), lastUsedIp := ip)])
  }

  lemma NamedAuthentication(t: Tables, d: nat, name: string, keyHash: string, ip: string, now: Time,
                            beforeRows: seq<Step>, rows: seq<nat>, beforeStamp: seq<Step>)
    requires OneOfName(t, name) && Bears(t, d, name) && Listed(Run(t, beforeRows), d, rows)
    ensures var u, o := Run(t, beforeRows), Authentication(t, name, keyHash, ip, now, beforeRows, rows, beforeStamp);
            match o.result
            case Ok(c) =>
              c in u.credentials && LetsIn(u.credentials[c], d, keyHash, now) && StampedOnly(Run(u, beforeStamp), o.tables, c, ip, now)
            case Err(e) =>
              e == BadAuth && o.tables == u && forall c :: c in u.credentials ==> !LetsIn(u.credentials[c], d, keyHash, now)
  {
    var u := Run(t, beforeRows);
    NamedIs(t, name, d);
    forall c ensures c in Matching(u, d, keyHash, now) <==> c in u.credentials && LetsIn(u.credentials[c], d, keyHash, now) {
      MatchingIs(u, d, keyHash, now, c);
    }
    match FirstAmong(rows, Matching(u, d, keyHash, now))
    case Some(c) =>
    case None =>
      forall c | c in u.credentials ensures !LetsIn(u.credentials[c], d, keyHash, now) {
        assert LetsIn(u.credentials[c], d, keyHash, now) ==> c in rows;
      }
  }

  /** Whatever others write between its statements: authentication succeeds exactly
      when, as the rows are read, one of the device of that name bears the hash of
      the key and is active, or in grace before its deadline. It accepts such a row
      and stamps it; else the answer is always the same and nothing is written. */
  lemma AuthenticationIff(t: Tables, name: string, keyHash: string, ip: string, now: Time,
                          beforeRows: seq<Step>, rows: seq<nat>, beforeStamp: seq<Step>)
    requires OneOfName(t, name) && forall d :: Bears(t, d, name) ==> Listed(Run(t, beforeRows), d, rows)
    ensures var u, o := Run(t, beforeRows), Authentication(t, name, keyHash, ip, now, beforeRows, rows, beforeStamp);
            && (o.result.Ok? <==> KeyFits(t, u, name, keyHash, now))
            && (o.result.Ok? ==> RowFits(t, u, name, keyHash, now, o.result.value)
                                 && StampedOnly(Run(u, beforeStamp), o.tables, o.result.value, ip, now))
            && (o.result.Err? ==> o.result == Err(BadAuth) && o.tables == if exists d :: Bears(t, d, name) then u else t)
  {
    var u := Run(t, beforeRows);
    if d :| Bears(t, d, name) {
      NamedAuthentication(t, d, name, keyHash, ip, now, beforeRows, rows, beforeStamp);
      var o := Authentication(t, name, keyHash, ip, now, beforeRows, rows, beforeStamp);
      if o.result.Ok? {
        assert Bears(t, d, name) && LetsIn(u.credentials[o.result.value], d, keyHash, now);
      }
    } else {
      NobodyNamed(t, name);
    }
  }

  lemma ReachableNames(steps: seq<Step>, name: string)
    ensures OneOfName(Run(EMPTY, steps), name)
  {
    ReachableRepresents(steps);
  }

  // ----- keys stay what they were ------------------------------------------------

  /** The columns of a credential that no step ever changes. */
  predicate SameKey(row: Credential, was: Credential) {
    && row.deviceId == was.deviceId && row.keyId == was.keyId && row.secretHash == was.secretHash
    && row.replacesId == was.replacesId && row.expiresAt == was.expiresAt
  }

  lemma RestoreKeepsKeys(t: Tables, r: nat, c: nat, p: nat, reason: string, now: Time, closedAt: Time)
    requires r in t.rotations && c in t.credentials && p in t.credentials
    ensures var rows := RestoreEdit(t, r, c, p, reason, now, closedAt).rows;
            forall b :: b in rows ==> b in t.credentials && SameKey(rows[b], t.credentials[b])
  {
  }

  lemma EditKeepsKey(t: Tables, e: Edit, c: nat)
    requires c in t.credentials && forall b :: b in e.rows && b in t.credentials ==> SameKey(e.rows[b], t.credentials[b])
    ensures c in Write(t, e).credentials && SameKey(Write(t, e).credentials[c], t.credentials[c])
  {
  }

  lemma RollbackKeepsKey(t: Tables, r: nat, d: nat, reason: string, now: Time, closedAt: Time, c: nat)
    requires c in t.credentials
    ensures var u := Rollback(t, r, d, reason, now, closedAt).tables; c in u.credentials && SameKey(u.credentials[c], t.credentials[c])
  {
    if HasRotation(t, r, d) && t.rotations[r].status == InGrace && Rollback(t, r, d, reason, now, closedAt).result.Ok? {
      var n, p := t.rotations[r].newId.value, t.rotations[r].previousId;
      RestoreKeepsKeys(t, r, n, p, reason, now, closedAt);
      EditKeepsKey(t, RestoreEdit(t, r, n, p, reason, now, closedAt), c);
    }
  }

  lemma ConfirmKeepsKey(t: Tables, used: nat, now: Time, c: nat)
    requires c in t.credentials
    ensures var u := ConfirmCredentialUse(t, used, now).tables; c in u.credentials && SameKey(u.credentials[c], t.credentials[c])
  {
  }

  lemma StepKeepsKey(t: Tables, s: Step, c: nat)
    requires Numbered(t) && c in t.credentials
    ensures c in Apply(t, s).credentials && SameKey(Apply(t, s).credentials[c], t.credentials[c])
  {
    match s
    case RollbackStep(r, d, reason, now, closedAt) => RollbackKeepsKey(t, r, d, reason, now, closedAt, c);
    case ConfirmStep(used, now) => ConfirmKeepsKey(t, used, now, c);
    case _ =>
  }

  /** No run changes a credential's owner, key id, hash or predecessor. */
  lemma {:induction false} KeysStay(t: Tables, steps: seq<Step>, c: nat)
    requires Numbered(t) && c in t.credentials
    ensures c in Run(t, steps).credentials && SameKey(Run(t, steps).credentials[c], t.credentials[c])
    decreases |steps|
  {
    if steps != [] {
      StepKeepsKey(t, steps[0], c);
      StepKeepsNumbers(t, steps[0]);
      KeysStay(Apply(t, steps[0]), steps[1..], c);
    }
  }

  // ----- the keys that were handed out ---------------------------------------------

  /** No other live row of the device bears the hash. */
  ghost predicate OnlyKey(u: Tables, d: nat, keyHash: string, c: nat) {
    forall b :: b in u.credentials && b != c && u.credentials[b].deviceId == d && u.credentials[b].status in {Active, Grace} ==>
      u.credentials[b].secretHash != keyHash
  }

  /** Presenting a hash that only row c bears: accepted as c exactly while the row
      is active, or in grace before its deadline. */
  lemma OnlyRowIff(steps: seq<Step>, d: nat, c: nat, keyHash: string, ip: string, now: Time,
                   beforeRows: seq<Step>, rows: seq<nat>, beforeStamp: seq<Step>)
    requires var t, u := Run(EMPTY, steps), Run(Run(EMPTY, steps), beforeRows);
             && d in t.devices && t.devices[d].active && Listed(u, d, rows)
             && c in u.credentials && u.credentials[c].deviceId == d && u.credentials[c].secretHash == keyHash
             && u.credentials[c].expiresAt == None && OnlyKey(u, d, keyHash, c)
    ensures var t, u := Run(EMPTY, steps), Run(Run(EMPTY, steps), beforeRows);
            var answer := Authentication(t, t.devices[d].name, keyHash, ip, now, beforeRows, rows, beforeStamp).result;
            var row := u.credentials[c];
            answer == if row.status == Active || (row.status == Grace && row.graceUntil.Some? && now < row.graceUntil.value)
                      then Ok(c) else Err(BadAuth)
  {
    var t, u := Run(EMPTY, steps), Run(Run(EMPTY, steps), beforeRows);
    var name := t.devices[d].name;
    ReachableNames(steps, name);
    assert Bears(t, d, name);
    NamedAuthentication(t, d, name, keyHash, ip, now, beforeRows, rows, beforeStamp);
  }

  /** Where a device's key is tried: after its steps so far, with others at work. */
  ghost predicate Tried(steps: seq<Step>, beforeRows: seq<Step>, d: nat, rows: seq<nat>, keyHash: string, c: nat) {
    var t, u := Run(EMPTY, steps), Run(Run(EMPTY, steps), beforeRows);
    d in t.devices && t.devices[d].active && Listed(u, d, rows) && OnlyKey(u, d, keyHash, c)
  }

  lemma RunJoins(before: seq<Step>, s: Step, later: seq<Step>)
    ensures Run(EMPTY, before + [s] + later) == Run(Apply(Run(EMPTY, before), s), later)
  {
    RunAppend(EMPTY, before + [s], later);
    RunAppend(EMPTY, before, [s]);
    assert [s][1..] == [];
  }

  lemma ReachableNumbered(steps: seq<Step>)
    ensures Numbered(Run(EMPTY, steps))
  {
    ReachableRepresents(steps);
  }

  lemma StagedRow(before: seq<Step>, r: nat, d: nat, rawKeyId: string, rawHash: string, staged: Time)
    requires StageCandidate(Run(EMPTY, before), r, d, rawKeyId, rawHash, staged).result.Ok?
    ensures var t, o := Run(EMPTY, before), StageCandidate(Run(EMPTY, before), r, d, rawKeyId, rawHash, staged);
            && o.result.value !in t.credentials && o.result.value in o.tables.credentials && r in o.tables.rotations
            && o.tables.rotations[r].newId == Some(o.result.value)
            && var row := o.tables.credentials[o.result.value];
               && row.keyId == ToLower(TrimSpace(rawKeyId)) && row.secretHash == ToLower(TrimSpace(rawHash))
               && row.deviceId == d && row.expiresAt == None && row.status == Pending
  {
    ReachableNumbered(before);
  }

  /** From staging over any run: the key whose hash was staged, in small letters and
      without white space around it, is the candidate's, and lets the device in as
      the candidate exactly while that is active or in its grace. */
  lemma StagedKeyAuthenticates(before: seq<Step>, r: nat, d: nat, rawKeyId: string, rawHash: string, staged: Time,
                               later: seq<Step>, ip: string, now: Time,
                               beforeRows: seq<Step>, rows: seq<nat>, beforeStamp: seq<Step>)
    requires StageCandidate(Run(EMPTY, before), r, d, rawKeyId, rawHash, staged).result.Ok?
    requires Tried(before + [StageStep(r, d, rawKeyId, rawHash, staged)] + later, beforeRows, d, rows, ToLower(TrimSpace(rawHash)),
                   StageCandidate(Run(EMPTY, before), r, d, rawKeyId, rawHash, staged).result.value)
    ensures var c := StageCandidate(Run(EMPTY, before), r, d, rawKeyId, rawHash, staged).result.value;
            var t := Run(EMPTY, before + [StageStep(r, d, rawKeyId, rawHash, staged)] + later);
            var u := Run(t, beforeRows);
            && c in u.credentials && u.credentials[c].keyId == ToLower(TrimSpace(rawKeyId))
            && Authentication(t, t.devices[d].name, ToLower(TrimSpace(rawHash)), ip, now, beforeRows, rows, beforeStamp).result
               == if u.credentials[c].status == Active
                     || (u.credentials[c].status == Grace && u.credentials[c].graceUntil.Some? && now < u.credentials[c].graceUntil.value)
                  then Ok(c) else Err(BadAuth)
  {
    var o, s := StageCandidate(Run(EMPTY, before), r, d, rawKeyId, rawHash, staged), StageStep(r, d, rawKeyId, rawHash, staged);
    StagedRow(before, r, d, rawKeyId, rawHash, staged);
    KeyIsKept(before, s, later, beforeRows, o.result.value);
    OnlyRowIff(before + [s] + later, d, o.result.value, ToLower(TrimSpace(rawHash)), ip, now, beforeRows, rows, beforeStamp);
  }

  lemma KeyIsKept(before: seq<Step>, s: Step, later: seq<Step>, beforeRows: seq<Step>, c: nat)
    requires c in Apply(Run(EMPTY, before), s).credentials
    ensures var u := Run(Run(EMPTY, before + [s] + later), beforeRows);
            c in u.credentials && SameKey(u.credentials[c], Apply(Run(EMPTY, before), s).credentials[c])
  {
    var t := Apply(Run(EMPTY, before), s);
    RunJoins(before, s, later);
    ReachableNumbered(before);
    StepKeepsNumbers(Run(EMPTY, before), s);
    KeysStay(t, later, c);
    NumbersStay(t, later);
    KeysStay(Run(t, later), beforeRows, c);
  }

  lemma CreatedRow(before: seq<Step>, name: string, keyId: string, secretHash: string, created: Time)
    requires CreateDevice(Run(EMPTY, before), name, keyId, secretHash, created).result.Ok?
    ensures var t, o := Run(EMPTY, before), CreateDevice(Run(EMPTY, before), name, keyId, secretHash, created);
            var d, c := o.result.value, t.nextCredential;
            && d !in t.devices && d in o.tables.devices && o.tables.devices[d].name == name && o.tables.devices[d].active
            && c !in t.credentials && c in o.tables.credentials
            && var row := o.tables.credentials[c];
               row.deviceId == d && row.keyId == keyId && row.secretHash == secretHash && row.expiresAt == None && row.status == Active
  {
    ReachableNumbered(before);
  }

  /** The key given to a device at its creation lets it in, under its name, exactly
      while the first credential is active or in its grace. */
  lemma CreatedKeyAuthenticates(before: seq<Step>, name: string, keyId: string, secretHash: string, created: Time,
                                later: seq<Step>, ip: string, now: Time,
                                beforeRows: seq<Step>, rows: seq<nat>, beforeStamp: seq<Step>)
    requires CreateDevice(Run(EMPTY, before), name, keyId, secretHash, created).result.Ok?
    requires Tried(before + [CreateDeviceStep(name, keyId, secretHash, created)] + later, beforeRows,
                   CreateDevice(Run(EMPTY, before), name, keyId, secretHash, created).result.value, rows, secretHash,
                   Run(EMPTY, before).nextCredential)
    ensures var c := Run(EMPTY, before).nextCredential;
            var t := Run(EMPTY, before + [CreateDeviceStep(name, keyId, secretHash, created)] + later);
            var u := Run(t, beforeRows);
            && c in u.credentials && u.credentials[c].keyId == keyId
            && Authentication(t, name, secretHash, ip, now, beforeRows, rows, beforeStamp).result
               == if u.credentials[c].status == Active
                     || (u.credentials[c].status == Grace && u.credentials[c].graceUntil.Some? && now < u.credentials[c].graceUntil.value)
                  then Ok(c) else Err(BadAuth)
  {
    var o, s := CreateDevice(Run(EMPTY, before), name, keyId, secretHash, created), CreateDeviceStep(name, keyId, secretHash, created);
    var c, d := Run(EMPTY, before).nextCredential, o.result.value;
    CreatedRow(before, name, keyId, secretHash, created);
    KeyIsKept(before, s, later, beforeRows, c);
    RunJoins(before, s, later);
    ReachableNumbered(before);
    StepKeepsNumbers(Run(EMPTY, before), s);
    DevicesStay(o.tables, later, d);
    OnlyRowIff(before + [s] + later, d, c, secretHash, ip, now, beforeRows, rows, beforeStamp);
  }
}
