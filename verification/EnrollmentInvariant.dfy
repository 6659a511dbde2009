// The invariant that enrollments and identities keep together, over every run
// of calls, manual issuing and revoking included.
module EnrollmentInvariant {
  import opened Clock
  import opened Wrappers
  import opened EnrollmentTables

  ghost predicate Numbered(t: Tables) {
    && (forall d :: d in t.devices ==> 0 < d < t.nextDevice) && 0 < t.nextDevice
    && (forall e :: e in t.enrollments ==> e < t.nextEnrollment)
    && (forall c :: c in t.identities ==> c < t.nextIdentity)
  }

  ghost predicate UniqueTexts(t: Tables) {
    && (forall e, f :: e in t.enrollments && f in t.enrollments && t.enrollments[e].tokenId == t.enrollments[f].tokenId ==> e == f)
    && (forall b, c :: b in t.identities && c in t.identities && t.identities[b].keyId == t.identities[c].keyId ==> b == c)
  }

  /** At most one open enrollment and one live identity for each device. */
  ghost predicate OneEach(t: Tables) {
    && (forall e, f ::
          (e in t.enrollments && f in t.enrollments && IsOpen(t.enrollments[e].status) && IsOpen(t.enrollments[f].status)
           && t.enrollments[e].deviceId == t.enrollments[f].deviceId) ==> e == f)
    && (forall b, c ::
          (b in t.identities && c in t.identities && t.identities[b].status == Live && t.identities[c].status == Live
           && t.identities[b].deviceId == t.identities[c].deviceId) ==> b == c)
  }

  /** An enrollment names an identity exactly when its token has been exchanged,
      and it is one of its own device. */
  ghost predicate LinkFits(t: Tables, row: Enrollment) {
    && (row.status in {Issued, Completed} ==> row.identityId.Some?)
    && (row.status in {Pending, Expired} ==> row.identityId.None?)
    && (row.identityId.Some? ==>
          row.identityId.value in t.identities && t.identities[row.identityId.value].deviceId == row.deviceId)
  }

  ghost predicate Linked(t: Tables) {
    && (forall e :: e in t.enrollments ==> LinkFits(t, t.enrollments[e]))
    && (forall e, f ::
          (e in t.enrollments && f in t.enrollments && t.enrollments[e].identityId.Some?
           && t.enrollments[e].identityId == t.enrollments[f].identityId) ==> e == f)
  }

  ghost predicate Owned(t: Tables) {
    && (forall e :: e in t.enrollments ==> t.enrollments[e].deviceId in t.devices)
    && (forall c :: c in t.identities ==> t.identities[c].deviceId in t.devices && t.identities[c].expiresAt == None)
  }

  ghost predicate Joint(t: Tables) {
    Numbered(t) && UniqueTexts(t) && OneEach(t) && Linked(t) && Owned(t)
  }

  // ----- one part of the invariant at a time -------------------------------------

  lemma ExpireKeepsTexts(t: Tables, d: nat, now: Time)
    requires Numbered(t) && UniqueTexts(t) && Owned(t)
    ensures var u := Expire(t, d, now); Numbered(u) && UniqueTexts(u) && Owned(u)
  {
  }

  lemma ExpireKeepsOneEach(t: Tables, d: nat, now: Time)
    requires OneEach(t)
    ensures OneEach(Expire(t, d, now))
  {
  }

  lemma ExpireKeepsLinks(t: Tables, d: nat, now: Time)
    requires Linked(t)
    ensures Linked(Expire(t, d, now))
  {
    var u := Expire(t, d, now);
    forall e | e in u.enrollments ensures LinkFits(u, u.enrollments[e]) { assert LinkFits(t, t.enrollments[e]); }
  }

  lemma ExpireKeeps(t: Tables, d: nat, now: Time)
    requires Joint(t)
    ensures Joint(Expire(t, d, now))
  {
    ExpireKeepsTexts(t, d, now);
    ExpireKeepsOneEach(t, d, now);
    ExpireKeepsLinks(t, d, now);
  }

  /** Row e may become row: it keeps its names, does not open a second
      enrollment, and links to an identity no other enrollment links to. */
  ghost predicate MayBecome(t: Tables, e: nat, row: Enrollment) {
    && e < t.nextEnrollment
    && row.deviceId in t.devices
    && WithToken(t, row.tokenId) <= {e}
    && (IsOpen(row.status) ==> OpenEnrollments(t, row.deviceId) <= {e})
    && LinkFits(t, row)
    && (row.identityId.Some? ==> forall f :: f in t.enrollments && t.enrollments[f].identityId == row.identityId ==> f == e)
  }

  lemma PutKeepsTexts(t: Tables, e: nat, row: Enrollment)
    requires Numbered(t) && UniqueTexts(t) && Owned(t) && MayBecome(t, e, row)
    ensures var u := PutEnrollment(t, e, row); Numbered(u) && UniqueTexts(u) && Owned(u)
  {
    assert forall f :: f in t.enrollments && t.enrollments[f].tokenId == row.tokenId ==> f in WithToken(t, row.tokenId);
  }

  lemma PutKeepsOneEach(t: Tables, e: nat, row: Enrollment)
    requires OneEach(t) && MayBecome(t, e, row)
    ensures OneEach(PutEnrollment(t, e, row))
  {
    assert forall f :: f in t.enrollments && IsOpen(t.enrollments[f].status) && t.enrollments[f].deviceId == row.deviceId
             ==> f in OpenEnrollments(t, row.deviceId);
  }

  lemma PutKeepsLinks(t: Tables, e: nat, row: Enrollment)
    requires Linked(t) && MayBecome(t, e, row)
    ensures Linked(PutEnrollment(t, e, row))
  {
    var u := PutEnrollment(t, e, row);
    forall f | f in u.enrollments ensures LinkFits(u, u.enrollments[f]) {
      if f != e { assert LinkFits(t, t.enrollments[f]); }
    }
  }

  lemma PutKeeps(t: Tables, e: nat, row: Enrollment)
    requires Joint(t) && MayBecome(t, e, row)
    ensures Joint(PutEnrollment(t, e, row))
  {
    PutKeepsTexts(t, e, row);
    PutKeepsOneEach(t, e, row);
    PutKeepsLinks(t, e, row);
  }

  /** A row that only moves on in its own life may always be written back. */
  lemma MayMoveOn(t: Tables, e: nat, row: Enrollment)
    requires Joint(t) && e in t.enrollments
    requires var was := t.enrollments[e];
             && row.deviceId == was.deviceId && row.tokenId == was.tokenId && row.identityId == was.identityId
             && (IsOpen(row.status) ==> IsOpen(was.status)) && LinkFits(t, row)
    ensures MayBecome(t, e, row)
  {
  }

  // ----- one lemma per call ----------------------------------------------------------

  lemma CreateDeviceKeeps(t: Tables, name: string)
    requires Joint(t)
    ensures Joint(CreateDevice(t, name).tables)
  {
  }

  lemma CreateKeeps(t: Tables, d: nat, ttlMinutes: int, key: Key, now: Time)
    requires Joint(t)
    ensures Joint(Create(t, d, ttlMinutes, key, now).tables)
  {
    ExpireKeeps(t, d, now);
    if !Create(t, d, ttlMinutes, key, now).answer.Refused? {
      FirstOpenKeeps(Expire(t, d, now), NewEnrollment(d, key, now + ttlMinutes * MINUTE));
    }
  }

  lemma FirstOpenKeeps(u: Tables, row: Enrollment)
    requires Joint(u) && row.deviceId in u.devices && row.status == Pending && row.identityId == None
    requires OpenEnrollments(u, row.deviceId) == {} && WithToken(u, row.tokenId) == {}
    ensures Joint(PutEnrollment(u, u.nextEnrollment, row).(nextEnrollment := u.nextEnrollment + 1))
  {
    var v := u.(nextEnrollment := u.nextEnrollment + 1);
    NumberKeeps(u);
    assert WithToken(v, row.tokenId) == {} && OpenEnrollments(v, row.deviceId) == {};
    PutKeeps(v, u.nextEnrollment, row);
  }

  lemma NumberKeeps(t: Tables)
    requires Joint(t)
    ensures Joint(t.(nextEnrollment := t.nextEnrollment + 1))
  {
    var u := t.(nextEnrollment := t.nextEnrollment + 1);
    forall e | e in u.enrollments ensures LinkFits(u, u.enrollments[e]) { assert LinkFits(t, t.enrollments[e]); }
  }

  lemma IssueKeepsRows(t: Tables, d: nat, key: Key, now: Time)
    requires Numbered(t) && UniqueTexts(t) && OneEach(t) && Owned(t)
    ensures var u := Issue(t, d, key, now).tables;
            Numbered(u) && UniqueTexts(u) && OneEach(u) && Owned(u)
  {
    assert forall c :: c in t.identities && t.identities[c].status == Live && t.identities[c].deviceId == d
             ==> c in LiveIdentities(t, d);
  }

  lemma IssueKeepsLinks(t: Tables, d: nat, key: Key, now: Time)
    requires Numbered(t) && Linked(t)
    ensures Linked(Issue(t, d, key, now).tables)
  {
    var u := Issue(t, d, key, now).tables;
    forall e | e in u.enrollments ensures LinkFits(u, u.enrollments[e]) { assert LinkFits(t, t.enrollments[e]); }
  }

  lemma IssueKeeps(t: Tables, d: nat, key: Key, now: Time)
    requires Joint(t)
    ensures Joint(Issue(t, d, key, now).tables)
  {
    IssueKeepsRows(t, d, key, now);
    IssueKeepsLinks(t, d, key, now);
  }

  /** Claiming the token and issuing the identity do not get in each other's
      way: the exchange writes one enrollment row after an Issue. */
  lemma ExchangeIs(t: Tables, token: Option<string>, hash: string, ip: string, key: Key, now: Time, issuedAt: Time)
    ensures var o := Exchange(t, token, hash, ip, key, now, issuedAt);
            o.answer.Exchanged? ==>
              var e, c := o.answer.enrollmentId, o.answer.identityId;
              && token.Some? && First(WithToken(t, token.value)) == Some(e)
              && var row := t.enrollments[e];
                 && row.status == Pending && hash == row.secretHash && now < row.expiresAt
                 && var issued := Issue(t, row.deviceId, key, issuedAt);
                    && issued.answer == Id(c) && c == t.nextIdentity
                    && o.tables == PutEnrollment(issued.tables, e,
                         row.(status := Issued, issuedAt := Some(now), usedIp := ip, identityId := Some(c)))
  {
    var o := Exchange(t, token, hash, ip, key, now, issuedAt);
    if o.answer.Exchanged? {
      var e := o.answer.enrollmentId;
      var row := t.enrollments[e];
      var claimed := row.(status := Issued, issuedAt := Some(now), usedIp := ip);
      var v := PutEnrollment(t, e, claimed);
      assert LiveIdentities(v, row.deviceId) == LiveIdentities(t, row.deviceId);
      assert KeyTaken(v, key.id) == KeyTaken(t, key.id);
      var linked := claimed.(identityId := Some(o.answer.identityId));
      assert t.enrollments[e := claimed][e := linked] == t.enrollments[e := linked];
    }
  }

  /** A failed exchange changes nothing, except that it marks the very token it
      was given as expired when that token's time has run out. */
  lemma FailedExchange(t: Tables, token: Option<string>, hash: string, ip: string, key: Key, now: Time, issuedAt: Time)
    ensures var o := Exchange(t, token, hash, ip, key, now, issuedAt);
            && (o.answer.Exchanged? || o.answer.Refused?)
            && (o.answer.Refused? ==>
                  || o.tables == t
                  || exists e :: e in t.enrollments && token == Some(t.enrollments[e].tokenId)
                       && t.enrollments[e].status == Pending && t.enrollments[e].expiresAt <= now
                       && o.tables == PutEnrollment(t, e, t.enrollments[e].(status := Expired)))
  {
  }

  lemma ExchangeKeeps(t: Tables, token: Option<string>, hash: string, ip: string, key: Key, now: Time, issuedAt: Time)
    requires Joint(t)
    ensures Joint(Exchange(t, token, hash, ip, key, now, issuedAt).tables)
  {
    ExchangeIs(t, token, hash, ip, key, now, issuedAt);
    FailedExchange(t, token, hash, ip, key, now, issuedAt);
    var o := Exchange(t, token, hash, ip, key, now, issuedAt);
    if o.answer.Exchanged? {
      var e, c := o.answer.enrollmentId, o.answer.identityId;
      var row := t.enrollments[e];
      var u := Issue(t, row.deviceId, key, issuedAt).tables;
      IssueKeeps(t, row.deviceId, key, issuedAt);
      NewLink(t, e, row.(status := Issued, issuedAt := Some(now), usedIp := ip, identityId := Some(c)), key, issuedAt);
      PutKeeps(u, e, row.(status := Issued, issuedAt := Some(now), usedIp := ip, identityId := Some(c)));
    } else if o.tables != t {
      var e :| e in t.enrollments && t.enrollments[e].status == Pending
               && o.tables == PutEnrollment(t, e, t.enrollments[e].(status := Expired));
      assert LinkFits(t, t.enrollments[e]);
      MayMoveOn(t, e, t.enrollments[e].(status := Expired));
      PutKeeps(t, e, t.enrollments[e].(status := Expired));
    }
  }

  lemma NewLink(t: Tables, e: nat, row: Enrollment, key: Key, issuedAt: Time)
    requires Joint(t) && e in t.enrollments && t.enrollments[e].status == Pending
    requires Issue(t, row.deviceId, key, issuedAt).answer == Id(t.nextIdentity)
    requires row.deviceId == t.enrollments[e].deviceId && row.tokenId == t.enrollments[e].tokenId
    requires row.status == Issued && row.identityId == Some(t.nextIdentity)
    ensures MayBecome(Issue(t, row.deviceId, key, issuedAt).tables, e, row)
  {
    forall f | f in t.enrollments ensures t.enrollments[f].identityId != row.identityId {
      assert LinkFits(t, t.enrollments[f]);
    }
  }

  lemma ConfirmKeeps(t: Tables, d: nat, c: nat, ip: string, version: string, now: Time)
    requires Joint(t)
    ensures Joint(Confirm(t, d, c, ip, version, now).tables)
  {
    match Last(Confirmable(t, d, c))
    case None =>
    case Some(e) =>
      var row := t.enrollments[e];
      var after := if row.status == Issued then row.(status := Completed, completedAt := Some(now)) else row;
      assert LinkFits(t, row);
      MayMoveOn(t, e, after);
      PutKeeps(t, e, after);
      SeenKeeps(PutEnrollment(t, e, after), d, ip, version, now);
  }

  lemma SeenKeeps(t: Tables, d: nat, ip: string, version: string, now: Time)
    requires Joint(t)
    ensures Joint(Seen(t, d, ip, version, now))
  {
    var u := Seen(t, d, ip, version, now);
    forall e | e in u.enrollments ensures LinkFits(u, u.enrollments[e]) { assert LinkFits(t, t.enrollments[e]); }
  }

  lemma RevokeIdentityKeeps(t: Tables, d: nat, c: nat, now: Time)
    requires Joint(t)
    ensures Joint(RevokeIdentity(t, d, c, now).tables)
  {
    var u := RevokeIdentity(t, d, c, now).tables;
    forall e | e in u.enrollments ensures LinkFits(u, u.enrollments[e]) { assert LinkFits(t, t.enrollments[e]); }
  }

  lemma RevokeTxKeeps(t: Tables, d: nat, e: nat, now: Time, withdrawnAt: Time)
    requires Joint(t)
    ensures Joint(RevokeTx(t, d, e, now, withdrawnAt).tables)
  {
    if HasEnrollment(t, e, d) && IsOpen(t.enrollments[e].status) {
      var row := t.enrollments[e];
      assert LinkFits(t, row);
      var u := if row.status == Issued then RevokeIdentity(t, d, row.identityId.value, withdrawnAt).tables else t;
      if row.status == Issued { RevokeIdentityKeeps(t, d, row.identityId.value, withdrawnAt); }
      assert LinkFits(u, row);
      MayMoveOn(u, e, row.(status := Revoked, revokedAt := Some(now)));
      PutKeeps(u, e, row.(status := Revoked, revokedAt := Some(now)));
    }
  }

  lemma StampKeeps(t: Tables, c: nat, ip: string, now: Time)
    requires Joint(t)
    ensures Joint(Stamp(t, c, ip, now))
  {
    var u := Stamp(t, c, ip, now);
    forall e | e in u.enrollments ensures LinkFits(u, u.enrollments[e]) { assert LinkFits(t, t.enrollments[e]); }
  }

  lemma CallKeeps(t: Tables, k: Call)
    requires Joint(t)
    ensures Joint(Perform(t, k).tables)
  {
    match k
    case CreateDeviceCall(name, _) => CreateDeviceKeeps(t, name);
    case CreateCall(d, ttlMinutes, key, now) => CreateKeeps(t, d, ttlMinutes, key, now);
    case ExchangeCall(token, hash, ip, key, now, issuedAt) => ExchangeKeeps(t, token, hash, ip, key, now, issuedAt);
    case ConfirmCall(d, c, ip, version, now) => ConfirmKeeps(t, d, c, ip, version, now);
    case ListCall(d, now) => ExpireKeeps(t, d, now);
    case GetCall(d, e, now) => ExpireKeeps(t, d, now);
    case RevokeCall(d, e, now, withdrawnAt) =>
      ExpireKeeps(t, d, now);
      RevokeTxKeeps(Expire(t, d, now), d, e, now, withdrawnAt);
    case ExpireCall(d, now) => ExpireKeeps(t, d, now);
    case RevokeTxCall(d, e, now, withdrawnAt) => RevokeTxKeeps(t, d, e, now, withdrawnAt);
    case IssueCall(d, key, now) => IssueKeeps(t, d, key, now);
    case RevokeIdentityCall(d, c, now) => RevokeIdentityKeeps(t, d, c, now);
    case AdmitCall(_, _, _) =>
    case StampCall(c, ip, now) => StampKeeps(t, c, ip, now);
  }

  /** Every state that calls can reach satisfies the joint invariant. */
  lemma {:induction false} RunKeeps(t: Tables, calls: seq<Call>)
    requires Joint(t)
    ensures Joint(Run(t, calls))
    decreases |calls|
  {
    if calls != [] {
      CallKeeps(t, calls[0]);
      RunKeeps(Perform(t, calls[0]).tables, calls[1..]);
    }
  }

  lemma ReachableJoint(calls: seq<Call>)
    ensures Joint(Run(EMPTY, calls))
  {
    RunKeeps(EMPTY, calls);
  }
}
