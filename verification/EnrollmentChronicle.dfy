// The history behind the rows: tokens and keys stay what they were, and each time
// in an enrollment or identity row is the clock of the call that brought the row
// to the status the time is named after.
module EnrollmentChronicle {
  import opened Clock
  import opened Wrappers
  import opened EnrollmentTables
  import opened EnrollmentInvariant

  /** Something a call may bring about between the tables before and after it. */
  type Happening = (Tables, Call, Tables) -> bool

  /** The last call of the run that brought it about. */
  function LastCall(t: Tables, calls: seq<Call>, happens: Happening): Option<Call>
    decreases |calls|
  {
    if calls == [] then None
    else
      var u := Perform(t, calls[0]).tables;
      var later := LastCall(u, calls[1..], happens);
      if later.Some? then later else if happens(t, calls[0], u) then Some(calls[0]) else None
  }

  // ----- what never changes -----------------------------------------------------

  predicate SameToken(row: Enrollment, was: Enrollment) {
    row.deviceId == was.deviceId && row.tokenId == was.tokenId && row.secretHash == was.secretHash && row.expiresAt == was.expiresAt
  }

  predicate SameKey(row: Identity, was: Identity) {
    && row.deviceId == was.deviceId && row.keyId == was.keyId && row.secretHash == was.secretHash
    && row.expiresAt == was.expiresAt && row.activatedAt == was.activatedAt
  }

  // ----- enrollments ------------------------------------------------------------------

  function StatusOf(t: Tables, e: nat): Option<EnrollmentStatus> {
    if e in t.enrollments then Some(t.enrollments[e].status) else None
  }

  /** Enrollment e comes to have the status. */
  function Reaches(e: nat, status: EnrollmentStatus): Happening {
    (t: Tables, _: Call, u: Tables) => StatusOf(u, e) == Some(status) && StatusOf(t, e) != Some(status)
  }

  datatype Past = Past(issuedAt: Option<Time>, completedAt: Option<Time>, revokedAt: Option<Time>, usedIp: string)

  function PastOf(t: Tables, e: nat): Past {
    if e !in t.enrollments then Past(None, None, None, "")
    else
      var row := t.enrollments[e];
      Past(row.issuedAt, row.completedAt, row.revokedAt, row.usedIp)
  }

  function NowAt(was: Option<Time>, k: Option<Call>): Option<Time> {
    if k.Some? then Some(k.value.now) else was
  }

  function PastAfter(was: Past, t: Tables, calls: seq<Call>, e: nat): Past {
    var issue := LastCall(t, calls, Reaches(e, Issued));
    Past(NowAt(was.issuedAt, issue), NowAt(was.completedAt, LastCall(t, calls, Reaches(e, Completed))),
         NowAt(was.revokedAt, LastCall(t, calls, Reaches(e, Revoked))),
         if issue.Some? && issue.value.ExchangeCall? then issue.value.ip else was.usedIp)
  }

  /** How one call may change an enrollment. */
  ghost predicate RowMoves(t: Tables, k: Call, e: nat) {
    var u, now := Perform(t, k).tables, Some(k.now);
    var was := PastOf(t, e);
    && (e in t.enrollments ==> e in u.enrollments && SameToken(u.enrollments[e], t.enrollments[e]))
    && PastOf(u, e).issuedAt == (if Reaches(e, Issued)(t, k, u) then now else was.issuedAt)
    && PastOf(u, e).completedAt == (if Reaches(e, Completed)(t, k, u) then now else was.completedAt)
    && PastOf(u, e).revokedAt == (if Reaches(e, Revoked)(t, k, u) then now else was.revokedAt)
    && PastOf(u, e).usedIp == (if Reaches(e, Issued)(t, k, u) && k.ExchangeCall? then k.ip else was.usedIp)
    && (Reaches(e, Issued)(t, k, u) ==> k.ExchangeCall?)
  }

  /** Expiry touches nothing but the status. */
  lemma ExpireMoves(t: Tables, d: nat, now: Time, e: nat)
    ensures var u := Expire(t, d, now);
            && PastOf(u, e) == PastOf(t, e) && (e in u.enrollments <==> e in t.enrollments)
            && (e in t.enrollments ==> u.enrollments[e] == t.enrollments[e] || u.enrollments[e] == t.enrollments[e].(status := Expired))
  {
  }

  lemma CreateMoves(t: Tables, k: Call, e: nat)
    requires Numbered(t) && k.CreateCall?
    ensures RowMoves(t, k, e)
  {
    ExpireMoves(t, k.deviceId, k.now, e);
  }

  /** An exchange writes at most one row, and issues it from pending or finds it
      overdue. */
  lemma ExchangeWrites(t: Tables, k: Call, e: nat)
    requires k.ExchangeCall?
    ensures var u := Perform(t, k).tables;
            && (e in u.enrollments <==> e in t.enrollments)
            && (e in t.enrollments ==>
                  var row, was := u.enrollments[e], t.enrollments[e];
                  || row == was || row == was.(status := Expired)
                  || (was.status == Pending && row.status == Issued && SameToken(row, was)
                      && PastOf(u, e) == PastOf(t, e).(issuedAt := Some(k.now), usedIp := k.ip)))
  {
  }

  lemma ExchangeMoves(t: Tables, k: Call, e: nat)
    requires k.ExchangeCall?
    ensures RowMoves(t, k, e)
  {
    ExchangeWrites(t, k, e);
  }

  lemma ConfirmMoves(t: Tables, k: Call, e: nat)
    requires k.ConfirmCall?
    ensures RowMoves(t, k, e)
  {
  }

  lemma RevokeTxMoves(t: Tables, d: nat, f: nat, now: Time, withdrawnAt: Time, e: nat)
    ensures RowMoves(t, RevokeTxCall(d, f, now, withdrawnAt), e)
  {
  }

  lemma RevokeMoves(t: Tables, d: nat, f: nat, now: Time, withdrawnAt: Time, e: nat)
    ensures RowMoves(t, RevokeCall(d, f, now, withdrawnAt), e)
  {
    ExpireMoves(t, d, now, e);
    RevokeTxMoves(Expire(t, d, now), d, f, now, withdrawnAt, e);
  }

  lemma ReadMoves(t: Tables, k: Call, e: nat)
    requires k.ListCall? || k.GetCall? || k.ExpireCall?
    ensures RowMoves(t, k, e)
  {
    ExpireMoves(t, k.deviceId, k.now, e);
  }

  lemma OtherMoves(t: Tables, k: Call, e: nat)
    requires k.CreateDeviceCall? || k.IssueCall? || k.RevokeIdentityCall? || k.AdmitCall? || k.StampCall?
    ensures RowMoves(t, k, e)
  {
  }

  lemma CallMoves(t: Tables, k: Call, e: nat)
    requires Numbered(t)
    ensures RowMoves(t, k, e)
  {
    match k
    case CreateCall(_, _, _, _) => CreateMoves(t, k, e);
    case ExchangeCall(_, _, _, _, _, _) => ExchangeMoves(t, k, e);
    case ConfirmCall(_, _, _, _, _) => ConfirmMoves(t, k, e);
    case ListCall(_, _) => ReadMoves(t, k, e);
    case GetCall(_, _, _) => ReadMoves(t, k, e);
    case ExpireCall(_, _) => ReadMoves(t, k, e);
    case RevokeCall(d, f, now, withdrawnAt) => RevokeMoves(t, d, f, now, withdrawnAt, e);
    case RevokeTxCall(d, f, now, withdrawnAt) => RevokeTxMoves(t, d, f, now, withdrawnAt, e);
    case _ => OtherMoves(t, k, e);
  }

  lemma {:induction false} RunPast(t: Tables, calls: seq<Call>, e: nat)
    requires Joint(t)
    ensures PastOf(Run(t, calls), e) == PastAfter(PastOf(t, e), t, calls, e)
    ensures e in t.enrollments ==> e in Run(t, calls).enrollments && SameToken(Run(t, calls).enrollments[e], t.enrollments[e])
    ensures LastCall(t, calls, Reaches(e, Issued)).Some? ==> LastCall(t, calls, Reaches(e, Issued)).value.ExchangeCall?
    decreases |calls|
  {
    if calls != [] {
      CallMoves(t, calls[0], e);
      CallKeeps(t, calls[0]);
      RunPast(Perform(t, calls[0]).tables, calls[1..], e);
    }
  }

  /** After every run an enrollment tells when it was issued, to which address,
      completed and revoked, and nothing of what has not happened. */
  lemma PastIsTold(calls: seq<Call>, e: nat)
    ensures PastOf(Run(EMPTY, calls), e) == PastAfter(Past(None, None, None, ""), EMPTY, calls, e)
  {
    RunPast(EMPTY, calls, e);
  }

  // ----- identities ---------------------------------------------------------------------

  function Makes(c: nat): Happening {
    (t: Tables, _: Call, u: Tables) => c in u.identities && c !in t.identities
  }

  function Withdraws(c: nat): Happening {
    (t: Tables, _: Call, u: Tables) =>
      c in u.identities && u.identities[c].status == Withdrawn && (c in t.identities ==> t.identities[c].status != Withdrawn)
  }

  function Stamps(c: nat): Happening {
    (t: Tables, k: Call, _: Tables) => k.StampCall? && k.identityId == c && c in t.identities
  }

  /** The clock reading with which a call issues an identity, and withdraws one. */
  function IssueClock(k: Call): Time { if k.ExchangeCall? then k.issuedAt else k.now }

  function WithdrawClock(k: Call): Time { if k.RevokeCall? || k.RevokeTxCall? then k.withdrawnAt else k.now }

  datatype IdentityPast = IdentityPast(activatedAt: Option<Time>, revokedAt: Option<Time>, lastUsedAt: Option<Time>, lastUsedIp: string)

  function IdentityPastOf(t: Tables, c: nat): IdentityPast {
    if c !in t.identities then IdentityPast(None, None, None, "")
    else
      var row := t.identities[c];
      IdentityPast(Some(row.activatedAt), row.revokedAt, row.lastUsedAt, row.lastUsedIp)
  }

  function IdentityPastAfter(was: IdentityPast, t: Tables, calls: seq<Call>, c: nat): IdentityPast {
    var made, gone, stamp := LastCall(t, calls, Makes(c)), LastCall(t, calls, Withdraws(c)), LastCall(t, calls, Stamps(c));
    IdentityPast(if made.Some? then Some(IssueClock(made.value)) else was.activatedAt,
                 if gone.Some? then Some(WithdrawClock(gone.value)) else was.revokedAt, NowAt(was.lastUsedAt, stamp),
                 if stamp.Some? && stamp.value.StampCall? then stamp.value.ip else was.lastUsedIp)
  }

  /** How one call may change an identity. */
  ghost predicate IdentityMoves(t: Tables, k: Call, c: nat) {
    var u := Perform(t, k).tables;
    var was := IdentityPastOf(t, c);
    && (c in t.identities ==> c in u.identities && SameKey(u.identities[c], t.identities[c]))
    && IdentityPastOf(u, c).activatedAt == (if Makes(c)(t, k, u) then Some(IssueClock(k)) else was.activatedAt)
    && IdentityPastOf(u, c).revokedAt == (if Withdraws(c)(t, k, u) then Some(WithdrawClock(k)) else was.revokedAt)
    && IdentityPastOf(u, c).lastUsedAt == (if Stamps(c)(t, k, u) then Some(k.now) else was.lastUsedAt)
    && IdentityPastOf(u, c).lastUsedIp == (if k.StampCall? && Stamps(c)(t, k, u) then k.ip else was.lastUsedIp)
  }

  lemma RevokeTxIdentity(t: Tables, d: nat, f: nat, now: Time, withdrawnAt: Time, c: nat)
    ensures IdentityMoves(t, RevokeTxCall(d, f, now, withdrawnAt), c)
  {
  }

  lemma ExchangeIdentity(t: Tables, k: Call, c: nat)
    requires Numbered(t) && k.ExchangeCall?
    ensures IdentityMoves(t, k, c)
  {
  }

  lemma IssueIdentity(t: Tables, k: Call, c: nat)
    requires Numbered(t) && k.IssueCall?
    ensures IdentityMoves(t, k, c)
  {
  }

  lemma ChangeIdentity(t: Tables, k: Call, c: nat)
    requires k.RevokeIdentityCall? || k.StampCall?
    ensures IdentityMoves(t, k, c)
  {
  }

  lemma QuietIdentity(t: Tables, k: Call, c: nat)
    requires k.CreateDeviceCall? || k.CreateCall? || k.ConfirmCall? || k.ListCall? || k.GetCall? || k.ExpireCall? || k.AdmitCall?
    ensures IdentityMoves(t, k, c)
  {
    assert Perform(t, k).tables.identities == t.identities;
  }

  lemma RevokeIdentityMoves(t: Tables, d: nat, f: nat, now: Time, withdrawnAt: Time, c: nat)
    ensures IdentityMoves(t, RevokeCall(d, f, now, withdrawnAt), c)
  {
    RevokeTxIdentity(Expire(t, d, now), d, f, now, withdrawnAt, c);
  }

  lemma CallIdentity(t: Tables, k: Call, c: nat)
    requires Numbered(t)
    ensures IdentityMoves(t, k, c)
  {
    match k
    case ExchangeCall(_, _, _, _, _, _) => ExchangeIdentity(t, k, c);
    case RevokeCall(d, f, now, withdrawnAt) => RevokeIdentityMoves(t, d, f, now, withdrawnAt, c);
    case RevokeTxCall(d, f, now, withdrawnAt) => RevokeTxIdentity(t, d, f, now, withdrawnAt, c);
    case IssueCall(_, _, _) => IssueIdentity(t, k, c);
    case RevokeIdentityCall(_, _, _) => ChangeIdentity(t, k, c);
    case StampCall(_, _, _) => ChangeIdentity(t, k, c);
    case _ => QuietIdentity(t, k, c);
  }

  lemma {:induction false} RunIdentityPast(t: Tables, calls: seq<Call>, c: nat)
    requires Joint(t)
    ensures IdentityPastOf(Run(t, calls), c) == IdentityPastAfter(IdentityPastOf(t, c), t, calls, c)
    ensures c in t.identities ==> c in Run(t, calls).identities && SameKey(Run(t, calls).identities[c], t.identities[c])
    ensures LastCall(t, calls, Stamps(c)).Some? ==> LastCall(t, calls, Stamps(c)).value.StampCall?
    decreases |calls|
  {
    if calls != [] {
      CallIdentity(t, calls[0], c);
      CallKeeps(t, calls[0]);
      RunIdentityPast(Perform(t, calls[0]).tables, calls[1..], c);
    }
  }

  /** After every run an identity tells when it was issued and withdrawn, each with
      its own reading of the clock, and by whom it was used last. */
  lemma IdentityPastIsTold(calls: seq<Call>, c: nat)
    ensures IdentityPastOf(Run(EMPTY, calls), c) == IdentityPastAfter(IdentityPast(None, None, None, ""), EMPTY, calls, c)
  {
    RunIdentityPast(EMPTY, calls, c);
  }
}
