// What the joint invariant buys: single use of tokens, total and final
// revocation, and a way back to a fresh enrollment from every state.
module EnrollmentProperties {
  import opened Clock
  import opened Wrappers
  import opened EnrollmentTables
  import opened EnrollmentInvariant

  // ----- one identity per token ---------------------------------------------------

  /** The row keeps its names and its link, and does not become pending again. */
  ghost predicate MovesOn(t: Tables, u: Tables, e: nat)
    requires e in t.enrollments
  {
    && e in u.enrollments
    && u.enrollments[e].deviceId == t.enrollments[e].deviceId
    && u.enrollments[e].tokenId == t.enrollments[e].tokenId
    && (t.enrollments[e].status != Pending ==> u.enrollments[e].status != Pending)
    && (t.enrollments[e].identityId.Some? ==> u.enrollments[e].identityId == t.enrollments[e].identityId)
  }

  lemma ExchangeMovesOn(t: Tables, k: Call, e: nat)
    requires Joint(t) && e in t.enrollments && k.ExchangeCall?
    ensures MovesOn(t, Perform(t, k).tables, e)
  {
    assert LinkFits(t, t.enrollments[e]);
    ExchangeIs(t, k.token, k.hash, k.ip, k.key, k.now, k.issuedAt);
    FailedExchange(t, k.token, k.hash, k.ip, k.key, k.now, k.issuedAt);
  }

  lemma RevokeTxMovesOn(t: Tables, d: nat, f: nat, now: Time, withdrawnAt: Time, e: nat)
    requires e in t.enrollments
    ensures MovesOn(t, RevokeTx(t, d, f, now, withdrawnAt).tables, e)
  {
  }

  lemma CreateMovesOn(t: Tables, k: Call, e: nat)
    requires Numbered(t) && e in t.enrollments && k.CreateCall?
    ensures MovesOn(t, Perform(t, k).tables, e)
  {
  }

  lemma ExpireMovesOn(t: Tables, d: nat, now: Time, e: nat)
    requires e in t.enrollments
    ensures MovesOn(t, Expire(t, d, now), e)
  {
  }

  lemma OthersMoveOn(t: Tables, k: Call, e: nat)
    requires e in t.enrollments
    requires k.CreateDeviceCall? || k.ConfirmCall? || k.IssueCall? || k.RevokeIdentityCall? || k.AdmitCall? || k.StampCall?
    ensures MovesOn(t, Perform(t, k).tables, e)
  {
  }

  lemma RowMovesOn(t: Tables, k: Call, e: nat)
    requires Joint(t) && e in t.enrollments
    ensures MovesOn(t, Perform(t, k).tables, e)
  {
    match k
    case CreateCall(_, _, _, _) => CreateMovesOn(t, k, e);
    case ExchangeCall(_, _, _, _, _, _) => ExchangeMovesOn(t, k, e);
    case ListCall(d, now) => ExpireMovesOn(t, d, now, e);
    case GetCall(d, _, now) => ExpireMovesOn(t, d, now, e);
    case ExpireCall(d, now) => ExpireMovesOn(t, d, now, e);
    case RevokeCall(d, f, now, withdrawnAt) =>
      ExpireMovesOn(t, d, now, e);
      RevokeTxMovesOn(Expire(t, d, now), d, f, now, withdrawnAt, e);
    case RevokeTxCall(d, f, now, withdrawnAt) => RevokeTxMovesOn(t, d, f, now, withdrawnAt, e);
    case _ => OthersMoveOn(t, k, e);
  }

  ghost predicate Spent(t: Tables, tokenId: string) {
    exists e :: e in t.enrollments && t.enrollments[e].tokenId == tokenId && t.enrollments[e].status != Pending
  }

  /** How many exchanges of a token succeed in a run. */
  function Exchanges(t: Tables, calls: seq<Call>, tokenId: string): nat
    decreases |calls|
  {
    if calls == [] then 0
    else
      var o := Perform(t, calls[0]);
      (if calls[0].ExchangeCall? && calls[0].token == Some(tokenId) && o.answer.Exchanged? then 1 else 0)
      + Exchanges(o.tables, calls[1..], tokenId)
  }

  lemma ExchangeNeedsUnspent(t: Tables, k: Call, tokenId: string)
    requires Joint(t) && k.ExchangeCall? && k.token == Some(tokenId) && Perform(t, k).answer.Exchanged?
    ensures !Spent(t, tokenId) && Spent(Perform(t, k).tables, tokenId)
  {
    ExchangeIs(t, k.token, k.hash, k.ip, k.key, k.now, k.issuedAt);
    var e := Perform(t, k).answer.enrollmentId;
    assert Perform(t, k).tables.enrollments[e].status == Issued;
  }

  lemma {:induction false} TokenIssuesOnce(t: Tables, calls: seq<Call>, tokenId: string)
    requires Joint(t)
    ensures Exchanges(t, calls, tokenId) <= if Spent(t, tokenId) then 0 else 1
    decreases |calls|
  {
    if calls != [] {
      var k, u := calls[0], Perform(t, calls[0]).tables;
      CallKeeps(t, k);
      TokenIssuesOnce(u, calls[1..], tokenId);
      if Spent(t, tokenId) {
        var e :| e in t.enrollments && t.enrollments[e].tokenId == tokenId && t.enrollments[e].status != Pending;
        RowMovesOn(t, k, e);
        assert Spent(u, tokenId);
      }
      if k.ExchangeCall? && k.token == Some(tokenId) && Perform(t, k).answer.Exchanged? {
        ExchangeNeedsUnspent(t, k, tokenId);
      }
    }
  }

  /** Whatever is called, no token is ever exchanged twice. */
  lemma ReachableTokensIssueOnce(calls: seq<Call>, tokenId: string)
    ensures Exchanges(EMPTY, calls, tokenId) <= 1
  {
    ReachableJoint([]);
    TokenIssuesOnce(EMPTY, calls, tokenId);
  }

  // ----- revocation is total and final ----------------------------------------------

  /** Revoking an issued enrollment always succeeds, withdraws the identity that
      enrollment issued and touches no other; an invalid state is reported
      exactly for enrollments that are completed or expired. */
  lemma RevokeIsTotal(t: Tables, d: nat, e: nat, now: Time, withdrawnAt: Time)
    requires Joint(t)
    ensures var o := RevokeTx(t, d, e, now, withdrawnAt);
            && (o.answer == Refused(InvalidState) <==>
                  HasEnrollment(t, e, d) && t.enrollments[e].status in {Completed, Expired})
            && (HasEnrollment(t, e, d) && t.enrollments[e].status == Issued ==>
                  && o.answer.Shown? && e in o.tables.enrollments && o.tables.enrollments[e].status == Revoked
                  && t.enrollments[e].identityId.Some?
                  && var c := t.enrollments[e].identityId.value;
                     && c in t.identities && o.tables.identities.Keys == t.identities.Keys
                     && o.tables.identities[c].status == Withdrawn
                     && (forall b :: b in t.identities && b != c ==> o.tables.identities[b] == t.identities[b]))
  {
    if HasEnrollment(t, e, d) { assert LinkFits(t, t.enrollments[e]); }
  }

  lemma WithdrawnStaysInExchange(t: Tables, k: Call, c: nat)
    requires Numbered(t) && c in t.identities && k.ExchangeCall?
    ensures c in Perform(t, k).tables.identities && Perform(t, k).tables.identities[c] == t.identities[c]
  {
    ExchangeIs(t, k.token, k.hash, k.ip, k.key, k.now, k.issuedAt);
    FailedExchange(t, k.token, k.hash, k.ip, k.key, k.now, k.issuedAt);
  }

  /** A withdrawn identity stays as it is, but for the usage stamp of a request
      that had read it before. */
  lemma WithdrawnStays(t: Tables, k: Call, c: nat)
    requires Numbered(t) && c in t.identities && t.identities[c].status == Withdrawn
    ensures c in Perform(t, k).tables.identities && Strip(Perform(t, k).tables.identities[c]) == Strip(t.identities[c])
  {
    if k.ExchangeCall? { WithdrawnStaysInExchange(t, k, c); }
  }

  /** The key of a withdrawn identity never authenticates again, whatever is
      called before and during the attempt. */
  lemma {:induction false} WithdrawnForever(t: Tables, calls: seq<Call>, c: nat, hash: string, ip: string, now: Time,
                                            beforeDevice: seq<Call>, beforeStamp: seq<Call>)
    requires Joint(t) && c in t.identities && t.identities[c].status == Withdrawn
    ensures Authentication(Run(t, calls), Some(t.identities[c].keyId), hash, ip, now, beforeDevice, beforeStamp).answer == Refused(BadAuth)
    decreases |calls|
  {
    if calls == [] {
      assert LiveWithKey(t, t.identities[c].keyId) == {};
    } else {
      CallKeeps(t, calls[0]);
      WithdrawnStays(t, calls[0], c);
      WithdrawnForever(Perform(t, calls[0]).tables, calls[1..], c, hash, ip, now, beforeDevice, beforeStamp);
    }
  }

  /** Revoking an issued enrollment of a reachable state, followed by anything:
      the key it had handed out is refused. */
  lemma RevokeIsFinal(before: seq<Call>, d: nat, e: nat, now: Time, withdrawnAt: Time, calls: seq<Call>,
                      hash: string, ip: string, later: Time, beforeDevice: seq<Call>, beforeStamp: seq<Call>)
    requires var t := Run(EMPTY, before); HasEnrollment(t, e, d) && t.enrollments[e].status == Issued
    ensures var t, u := Run(EMPTY, before), Run(RevokeTx(Run(EMPTY, before), d, e, now, withdrawnAt).tables, calls);
            && t.enrollments[e].identityId.Some? && t.enrollments[e].identityId.value in t.identities
            && var key := t.identities[t.enrollments[e].identityId.value].keyId;
               Authentication(u, Some(key), hash, ip, later, beforeDevice, beforeStamp).answer == Refused(BadAuth)
  {
    var t := Run(EMPTY, before);
    ReachableJoint(before);
    RevokeIsTotal(t, d, e, now, withdrawnAt);
    RevokeTxKeeps(t, d, e, now, withdrawnAt);
    var u := RevokeTx(t, d, e, now, withdrawnAt).tables;
    var c := t.enrollments[e].identityId.value;
    assert u.identities[c].keyId == t.identities[c].keyId;
    WithdrawnForever(u, calls, c, hash, ip, later, beforeDevice, beforeStamp);
  }

  // ----- a fresh start ------------------------------------------------------------------

  /** The clock readings of two revocations: of an open enrollment, in its two
      parts, and of a live identity. */
  datatype Clocks = Clocks(openAt: Time, withdrawnAt: Time, liveAt: Time)

  /** The revocations an administrator needs before enrolling device d anew. */
  function Clearing(t: Tables, d: nat, k: Clocks): seq<Call> {
    var first := RevokeOpen(t, d, k);
    first + RevokeLive(Run(t, first), d, k.liveAt)
  }

  function RevokeOpen(t: Tables, d: nat, k: Clocks): (r: seq<Call>)
    ensures |r| <= 1
  {
    var open := OpenEnrollments(Expire(t, d, k.openAt), d);
    if open == {} then [] else [RevokeCall(d, First(open).value, k.openAt, k.withdrawnAt)]
  }

  function RevokeLive(t: Tables, d: nat, now: Time): (r: seq<Call>)
    ensures |r| <= 1
  {
    var live := LiveIdentities(t, d);
    if live == {} then [] else [RevokeIdentityCall(d, First(live).value, now)]
  }

  /** From now on no enrollment of d is open, and every enrollment is one t had. */
  ghost predicate Closed(t: Tables, u: Tables, d: nat, now: Time) {
    && u.devices == t.devices
    && (forall e, later :: e in u.enrollments && now <= later && u.enrollments[e].deviceId == d ==>
          !IsOpen(ExpireRow(u.enrollments[e], d, later).status))
    && (forall e :: e in u.enrollments ==> e in t.enrollments && u.enrollments[e].tokenId == t.enrollments[e].tokenId)
  }

  lemma ClearsEnrollments(t: Tables, d: nat, k: Clocks)
    requires OneEach(t) && Linked(t)
    ensures var u := Run(t, RevokeOpen(t, d, k));
            Closed(t, u, d, k.openAt) && LiveIdentities(u, d) <= LiveIdentities(t, d)
  {
    RunRevokeOpen(t, d, k);
    var open := OpenEnrollments(Expire(t, d, k.openAt), d);
    if open != {} { RevokeCloses(t, d, First(open).value, k); } else { NoneOpenStays(t, d, k.openAt); }
  }

  lemma NoneOpenStays(t: Tables, d: nat, now: Time)
    requires OpenEnrollments(Expire(t, d, now), d) == {}
    ensures Closed(t, t, d, now)
  {
    forall e, later | e in t.enrollments && now <= later && t.enrollments[e].deviceId == d
      ensures !IsOpen(ExpireRow(t.enrollments[e], d, later).status) {
      assert e !in OpenEnrollments(Expire(t, d, now), d);
    }
  }

  lemma RunRevokeOpen(t: Tables, d: nat, k: Clocks)
    ensures var open := OpenEnrollments(Expire(t, d, k.openAt), d);
            Run(t, RevokeOpen(t, d, k)) == if open == {} then t else Revoke(t, d, First(open).value, k.openAt, k.withdrawnAt).tables
  {
    var open := OpenEnrollments(Expire(t, d, k.openAt), d);
    if open != {} { RunOne(t, RevokeCall(d, First(open).value, k.openAt, k.withdrawnAt)); }
  }

  lemma RevokeCloses(t: Tables, d: nat, e: nat, k: Clocks)
    requires OneEach(t) && Linked(t) && e in OpenEnrollments(Expire(t, d, k.openAt), d)
    ensures var u := Revoke(t, d, e, k.openAt, k.withdrawnAt).tables;
            Closed(t, u, d, k.openAt) && LiveIdentities(u, d) <= LiveIdentities(t, d)
  {
    var v := Expire(t, d, k.openAt);
    ExpireKeepsOneEach(t, d, k.openAt);
    ExpireKeepsLinks(t, d, k.openAt);
    RevokeTxCloses(v, d, e, k);
    assert LiveIdentities(v, d) == LiveIdentities(t, d);
  }

  lemma RevokeTxCloses(v: Tables, d: nat, e: nat, k: Clocks)
    requires OneEach(v) && Linked(v) && e in OpenEnrollments(v, d)
    ensures var u := RevokeTx(v, d, e, k.openAt, k.withdrawnAt).tables;
            Closed(v, u, d, k.openAt) && LiveIdentities(u, d) <= LiveIdentities(v, d)
  {
    var u := RevokeTx(v, d, e, k.openAt, k.withdrawnAt).tables;
    assert LinkFits(v, v.enrollments[e]);
    RevokeWritesOne(v, d, e, k.openAt, k.withdrawnAt);
    forall f | f in u.enrollments && u.enrollments[f].deviceId == d ensures !IsOpen(u.enrollments[f].status) {
      if f != e { assert u.enrollments[f] == v.enrollments[f]; }
    }
  }

  lemma RevokeWritesOne(t: Tables, d: nat, e: nat, now: Time, withdrawnAt: Time)
    ensures var u := RevokeTx(t, d, e, now, withdrawnAt).tables;
            && u.devices == t.devices && u.enrollments.Keys == t.enrollments.Keys
            && (forall f :: f in t.enrollments && f != e ==> u.enrollments[f] == t.enrollments[f])
            && (forall f :: f in t.enrollments ==> u.enrollments[f].tokenId == t.enrollments[f].tokenId)
            && (e in OpenEnrollments(t, d) && RevokeTx(t, d, e, now, withdrawnAt).answer.Shown? ==> u.enrollments[e].status == Revoked)
            && (e in OpenEnrollments(t, d) && t.enrollments[e].status == Pending ==> RevokeTx(t, d, e, now, withdrawnAt).answer.Shown?)
  {
  }

  ghost predicate AtMostOneLive(t: Tables, d: nat) {
    forall b, c :: b in LiveIdentities(t, d) && c in LiveIdentities(t, d) ==> b == c
  }

  lemma ClearsIdentities(t: Tables, d: nat, now: Time)
    requires AtMostOneLive(t, d)
    ensures var u := Run(t, RevokeLive(t, d, now));
            LiveIdentities(u, d) == {} && u.devices == t.devices && u.enrollments == t.enrollments
  {
    var live := LiveIdentities(t, d);
    if live != {} {
      RunOne(t, RevokeIdentityCall(d, First(live).value, now));
      var u := RevokeIdentity(t, d, First(live).value, now).tables;
      assert forall b :: b in LiveIdentities(u, d) ==> b in live;
    }
  }

  lemma StillAtMostOneLive(t: Tables, u: Tables, d: nat)
    requires OneEach(t) && LiveIdentities(u, d) <= LiveIdentities(t, d)
    ensures AtMostOneLive(u, d)
  {
    assert forall b :: b in LiveIdentities(u, d) ==> b in LiveIdentities(t, d);
  }

  lemma ClearingClears(t: Tables, d: nat, k: Clocks)
    requires Joint(t)
    ensures |Clearing(t, d, k)| <= 2
    ensures var v := Run(t, Clearing(t, d, k));
            Closed(t, v, d, k.openAt) && LiveIdentities(v, d) == {}
  {
    var first := RevokeOpen(t, d, k);
    var u := Run(t, first);
    ClearsEnrollments(t, d, k);
    StillAtMostOneLive(t, u, d);
    ClearsIdentities(u, d, k.liveAt);
    RunTwo(t, first, RevokeLive(u, d, k.liveAt));
  }

  /** From every reachable state of an active device at most two revocations make
      enrolling it anew succeed, as long as the clock does not fall below the first
      reading. */
  lemma TwoRevocationsSuffice(calls: seq<Call>, d: nat, k: Clocks, ttlMinutes: int, key: Key, now: Time)
    requires var t := Run(EMPTY, calls); IsActive(t, d) && WithToken(t, key.id) == {}
    requires MIN_TTL_MINUTES <= ttlMinutes <= MAX_TTL_MINUTES && k.openAt <= now
    ensures var t := Run(EMPTY, calls);
            |Clearing(t, d, k)| <= 2 && Create(Run(t, Clearing(t, d, k)), d, ttlMinutes, key, now).answer.Id?
  {
    var t := Run(EMPTY, calls);
    ReachableJoint(calls);
    ClearingClears(t, d, k);
    CreateSucceeds(t, Run(t, Clearing(t, d, k)), d, ttlMinutes, key, k.openAt, now);
  }

  lemma CreateSucceeds(t: Tables, v: Tables, d: nat, ttlMinutes: int, key: Key, openAt: Time, now: Time)
    requires IsActive(t, d) && Closed(t, v, d, openAt) && LiveIdentities(v, d) == {} && openAt <= now
    requires WithToken(t, key.id) == {} && MIN_TTL_MINUTES <= ttlMinutes <= MAX_TTL_MINUTES
    ensures Create(v, d, ttlMinutes, key, now).answer.Id?
  {
    var u := Expire(v, d, now);
    assert LiveIdentities(u, d) == LiveIdentities(v, d);
    assert OpenEnrollments(u, d) == {};
    forall e | e in u.enrollments ensures u.enrollments[e].tokenId != key.id {
      assert e in t.enrollments && e !in WithToken(t, key.id);
    }
  }

  lemma RunOne(t: Tables, k: Call)
    ensures Run(t, [k]) == Perform(t, k).tables
  {
    assert [k][1..] == [];
  }

  lemma RunTwo(t: Tables, a: seq<Call>, b: seq<Call>)
    requires |a| <= 1
    ensures Run(t, a + b) == Run(Run(t, a), b)
  {
    if a == [] {
      assert a + b == b;
    } else {
      assert (a + b)[1..] == b;
      assert a == [a[0]];
      RunOne(t, a[0]);
    }
  }

  // ----- an enrollment from beginning to end ---------------------------------------------

  /** What Create leaves: one row with the token, pending for exactly its lifetime. */
  lemma CreateLeaves(t: Tables, d: nat, ttlMinutes: int, key: Key, now: Time)
    requires Create(t, d, ttlMinutes, key, now).answer.Id?
    ensures var o := Create(t, d, ttlMinutes, key, now);
            var e := o.answer.id;
            && e in o.tables.enrollments && First(WithToken(o.tables, key.id)) == Some(e)
            && o.tables.enrollments[e] == NewEnrollment(d, key, now + ttlMinutes * MINUTE)
            && o.tables.identities == t.identities && IsActive(o.tables, d) && LiveIdentities(o.tables, d) == {}
  {
    var u := Expire(t, d, now);
    var o := Create(t, d, ttlMinutes, key, now);
    assert WithToken(o.tables, key.id) == {o.answer.id} by {
      assert forall e :: e in WithToken(o.tables, key.id) ==> e == o.answer.id || e in WithToken(u, key.id);
    }
    FirstOfSingleton(WithToken(o.tables, key.id), o.answer.id);
    assert LiveIdentities(o.tables, d) == LiveIdentities(u, d);
  }

  /** A new token can be exchanged until exactly its lifetime has passed. */
  lemma TokenLivesExactly(t: Tables, d: nat, ttlMinutes: int, key: Key, now: Time,
                          ip: string, agentKey: Key, later: Time, issuedAt: Time)
    requires Create(t, d, ttlMinutes, key, now).answer.Id? && !KeyTaken(t, agentKey.id)
    ensures Exchange(Create(t, d, ttlMinutes, key, now).tables, Some(key.id), key.hash, ip, agentKey, later, issuedAt).answer.Exchanged?
       <==> later < now + ttlMinutes * MINUTE
  {
    CreateLeaves(t, d, ttlMinutes, key, now);
    var u := Create(t, d, ttlMinutes, key, now).tables;
    var e := Create(t, d, ttlMinutes, key, now).answer.id;
    var claimed := u.enrollments[e].(status := Issued, issuedAt := Some(later), usedIp := ip);
    assert LiveIdentities(PutEnrollment(u, e, claimed), d) == LiveIdentities(u, d);
  }

  /** The key an exchange hands out authenticates as the identity it has issued,
      and that identity completes the enrollment it came from, whichever
      enrollments went before. */
  lemma ExchangedKeyWorks(calls: seq<Call>, token: Option<string>, hash: string, ip: string, agentKey: Key,
                          now: Time, issuedAt: Time,
                          version: string, at: Time)
    requires Exchange(Run(EMPTY, calls), token, hash, ip, agentKey, now, issuedAt).answer.Exchanged?
    ensures var o := Exchange(Run(EMPTY, calls), token, hash, ip, agentKey, now, issuedAt);
            var e, c := o.answer.enrollmentId, o.answer.identityId;
            && e in o.tables.enrollments
            && var d := o.tables.enrollments[e].deviceId;
               && Admit(o.tables, Some(agentKey.id), agentKey.hash, at) == Id(c)
               && var done := Confirm(o.tables, d, c, ip, version, at);
                  && e in done.tables.enrollments && done.tables.enrollments[e].status == Completed
                  && done.answer == Shown(done.tables.enrollments[e])
  {
    var t := Run(EMPTY, calls);
    var o := Exchange(t, token, hash, ip, agentKey, now, issuedAt);
    ReachableJoint(calls);
    ExchangeIs(t, token, hash, ip, agentKey, now, issuedAt);
    IssuedKeyWorks(t, t.enrollments[o.answer.enrollmentId].deviceId, agentKey, issuedAt, ip, at);
    NewlyConfirmable(t, o.answer.enrollmentId, agentKey, issuedAt, o.tables);
    assert Last({o.answer.enrollmentId}) == Some(o.answer.enrollmentId);
  }

  lemma IssuedKeyWorks(t: Tables, d: nat, key: Key, issuedAt: Time, ip: string, at: Time)
    requires Issue(t, d, key, issuedAt).answer.Id?
    ensures var u, c := Issue(t, d, key, issuedAt).tables, t.nextIdentity;
            && First(LiveWithKey(u, key.id)) == Some(c) && u.identities[c] == NewIdentity(d, key, issuedAt) && IsActive(u, d)
  {
    var u, c := Issue(t, d, key, issuedAt).tables, t.nextIdentity;
    assert LiveWithKey(u, key.id) == {c};
    FirstOfSingleton(LiveWithKey(u, key.id), c);
  }

  lemma NewlyConfirmable(t: Tables, e: nat, key: Key, issuedAt: Time, u: Tables)
    requires Numbered(t) && Linked(t) && e in t.enrollments && e in u.enrollments
    requires u.enrollments == t.enrollments[e := u.enrollments[e]]
    requires u.enrollments[e].deviceId == t.enrollments[e].deviceId && u.enrollments[e].status == Issued
    requires u.enrollments[e].identityId == Some(t.nextIdentity)
    ensures Confirmable(u, t.enrollments[e].deviceId, t.nextIdentity) == {e}
  {
    forall f | f in t.enrollments ensures t.enrollments[f].identityId != Some(t.nextIdentity) {
      assert LinkFits(t, t.enrollments[f]);
    }
  }
}
