// Tokens expire lazily: a pending row is marked expired only when some call
// happens to look. Nobody can tell. Under a clock that never goes back, a
// service that first expires every overdue token gives the same answers.
module EnrollmentEager {
  import opened Clock
  import opened Wrappers
  import opened EnrollmentTables

  /** What an eager clock would have left of t by now: device 0 is every device. */
  function Aged(t: Tables, now: Time): Tables { Expire(t, 0, now) }

  lemma AgedTwice(t: Tables, a: Time, b: Time)
    requires a <= b
    ensures Aged(Aged(t, a), b) == Aged(t, b)
  {
    assert Aged(Aged(t, a), b).enrollments == Aged(t, b).enrollments;
  }

  lemma AgedCovers(t: Tables, d: nat, now: Time)
    ensures Expire(Aged(t, now), d, now) == Aged(t, now)
    ensures Aged(Expire(t, d, now), now) == Aged(t, now)
  {
    assert Expire(Aged(t, now), d, now).enrollments == Aged(t, now).enrollments;
    assert Aged(Expire(t, d, now), now).enrollments == Aged(t, now).enrollments;
  }

  lemma AgedPut(t: Tables, e: nat, row: Enrollment, now: Time)
    ensures Aged(PutEnrollment(t, e, row), now) == PutEnrollment(Aged(t, now), e, ExpireRow(row, 0, now))
  {
    assert Aged(PutEnrollment(t, e, row), now).enrollments
        == PutEnrollment(Aged(t, now), e, ExpireRow(row, 0, now)).enrollments;
  }

  lemma AgedQueries(t: Tables, d: nat, tokenId: string, now: Time)
    ensures OpenEnrollments(Aged(t, now), d) == OpenEnrollments(Expire(t, d, now), d)
    ensures LiveIdentities(Aged(t, now), d) == LiveIdentities(t, d)
    ensures WithToken(Aged(t, now), tokenId) == WithToken(t, tokenId)
  {
  }

  // ----- one lemma per call ---------------------------------------------------

  ghost predicate Agree(lazily: Reply, eagerly: Reply, now: Time) {
    eagerly.answer == lazily.answer && eagerly.tables == Aged(lazily.tables, now)
  }

  lemma CreateAgrees(t: Tables, d: nat, ttlMinutes: int, key: Key, now: Time)
    ensures Agree(Create(t, d, ttlMinutes, key, now), Create(Aged(t, now), d, ttlMinutes, key, now), now)
  {
    var u := Expire(t, d, now);
    AgedCovers(t, d, now);
    AgedQueries(t, d, key.id, now);
    assert LiveIdentities(u, d) == LiveIdentities(t, d);
    assert WithToken(u, key.id) == WithToken(t, key.id);
    AgedPut(u, u.nextEnrollment, NewEnrollment(d, key, now + ttlMinutes * MINUTE), now);
  }

  lemma IssueAgrees(t: Tables, d: nat, key: Key, issuedAt: Time, now: Time)
    ensures Agree(Issue(t, d, key, issuedAt), Issue(Aged(t, now), d, key, issuedAt), now)
  {
    assert LiveIdentities(Aged(t, now), d) == LiveIdentities(t, d);
  }

  lemma ExchangeAgrees(t: Tables, token: Option<string>, hash: string, ip: string, key: Key, now: Time, issuedAt: Time)
    ensures Agree(Exchange(t, token, hash, ip, key, now, issuedAt),
                  Exchange(Aged(t, now), token, hash, ip, key, now, issuedAt), now)
  {
    if token.Some? {
      AgedQueries(t, 0, token.value, now);
      match First(WithToken(t, token.value))
      case None =>
      case Some(e) =>
        var row := t.enrollments[e];
        AgedPut(t, e, row.(status := Expired), now);
        if row.status == Pending && hash == row.secretHash {
          if row.expiresAt <= now {
            assert PutEnrollment(Aged(t, now), e, row.(status := Expired)).enrollments == Aged(t, now).enrollments;
          } else {
            ClaimAgrees(t, e, hash, ip, key, now, issuedAt);
          }
        }
    }
  }

  lemma ClaimAgrees(t: Tables, e: nat, hash: string, ip: string, key: Key, now: Time, issuedAt: Time)
    requires e in t.enrollments && t.enrollments[e].status == Pending && now < t.enrollments[e].expiresAt
    ensures var row := t.enrollments[e];
            var claimed := row.(status := Issued, issuedAt := Some(now), usedIp := ip);
            && Aged(t, now).enrollments[e] == row
            && var lazily, eagerly := Issue(PutEnrollment(t, e, claimed), row.deviceId, key, issuedAt),
                                      Issue(PutEnrollment(Aged(t, now), e, claimed), row.deviceId, key, issuedAt);
               && eagerly.answer == lazily.answer
               && forall c :: var linked := claimed.(identityId := Some(c));
                    PutEnrollment(eagerly.tables, e, linked) == Aged(PutEnrollment(lazily.tables, e, linked), now)
  {
    var row := t.enrollments[e];
    var claimed := row.(status := Issued, issuedAt := Some(now), usedIp := ip);
    AgedPut(t, e, claimed, now);
    var u := PutEnrollment(t, e, claimed);
    IssueAgrees(u, row.deviceId, key, issuedAt, now);
    forall c {
      AgedPut(Issue(u, row.deviceId, key, issuedAt).tables, e, claimed.(identityId := Some(c)), now);
    }
  }

  lemma ConfirmAgrees(t: Tables, d: nat, c: nat, ip: string, version: string, now: Time)
    ensures Agree(Confirm(t, d, c, ip, version, now), Confirm(Aged(t, now), d, c, ip, version, now), now)
  {
    assert Confirmable(Aged(t, now), d, c) == Confirmable(t, d, c);
    match Last(Confirmable(t, d, c))
    case None =>
    case Some(e) =>
      var row := t.enrollments[e];
      AgedPut(t, e, if row.status == Issued then row.(status := Completed, completedAt := Some(now)) else row, now);
  }

  lemma SameRowsFor(u: Tables, v: Tables, d: nat)
    requires EnrollmentsOf(u, d) == EnrollmentsOf(v, d)
    requires forall e :: e in EnrollmentsOf(u, d) ==> u.enrollments[e] == v.enrollments[e]
    ensures ListRead(u, d) == ListRead(v, d)
  {
    var ids := NewestFirst(EnrollmentsOf(u, d));
    forall i | 0 <= i < |ids| ensures ids[i] in EnrollmentsOf(u, d) { assert ids[i] in ids; }
    assert RowsFor(u, ids) == RowsFor(v, ids);
  }

  lemma ListAgrees(t: Tables, d: nat, now: Time)
    ensures Agree(List(t, d, now), List(Aged(t, now), d, now), now)
  {
    AgedCovers(t, d, now);
    var u, v := Expire(t, d, now), Aged(t, now);
    assert EnrollmentsOf(u, d) == EnrollmentsOf(v, d);
    SameRowsFor(u, v, d);
  }

  lemma GetAgrees(t: Tables, d: nat, e: nat, now: Time)
    ensures Agree(Get(t, d, e, now), Get(Aged(t, now), d, e, now), now)
  {
    AgedCovers(t, d, now);
  }

  lemma RevokeIdentityAgrees(t: Tables, d: nat, c: nat, withdrawnAt: Time, now: Time)
    ensures Agree(RevokeIdentity(t, d, c, withdrawnAt), RevokeIdentity(Aged(t, now), d, c, withdrawnAt), now)
  {
  }

  ghost predicate TxAgrees(t: Tables, d: nat, e: nat, now: Time, withdrawnAt: Time) {
    Agree(RevokeTx(t, d, e, now, withdrawnAt), RevokeTx(Aged(t, now), d, e, now, withdrawnAt), now)
  }

  /** The second transaction of Revoke alone agrees exactly when the token it is
      given is not overdue; an overdue one it revokes although its time is up. */
  lemma RevokeTxAgreesIff(t: Tables, d: nat, e: nat, now: Time, withdrawnAt: Time)
    ensures TxAgrees(t, d, e, now, withdrawnAt) <==> !(HasEnrollment(t, e, d) && IsOverdue(t.enrollments[e], d, now))
  {
    if HasEnrollment(t, e, d) && !IsOverdue(t.enrollments[e], d, now) {
      var row := t.enrollments[e];
      var revoked := row.(status := Revoked, revokedAt := Some(now));
      AgedPut(t, e, revoked, now);
      if row.status == Issued && row.identityId.Some? {
        RevokeIdentityAgrees(t, d, row.identityId.value, withdrawnAt, now);
        AgedPut(RevokeIdentity(t, d, row.identityId.value, withdrawnAt).tables, e, revoked, now);
      }
    }
  }

  /** Revoke with its two clock readings, and anything in between: it agrees
      exactly when its token's time has not run out since the first reading. */
  lemma RevokeAgreesIff(t: Tables, d: nat, e: nat, expiresAt: Time, others: seq<Call>, now: Time, withdrawnAt: Time)
    ensures var u := Run(Expire(t, d, expiresAt), others);
            (TxAgrees(u, d, e, now, withdrawnAt) <==> !(HasEnrollment(u, e, d) && IsOverdue(u.enrollments[e], d, now)))
    ensures others == [] ==>
              (TxAgrees(Expire(t, d, expiresAt), d, e, now, withdrawnAt)
               <==> !(HasEnrollment(t, e, d) && t.enrollments[e].status == Pending && expiresAt < t.enrollments[e].expiresAt <= now))
  {
    RevokeTxAgreesIff(Run(Expire(t, d, expiresAt), others), d, e, now, withdrawnAt);
    RevokeTxAgreesIff(Expire(t, d, expiresAt), d, e, now, withdrawnAt);
  }

  /** A device, and a token made for it at time 0 that lives one minute. */
  const ONE_TOKEN: seq<Call> := [CreateDeviceCall("gateway", 0), CreateCall(1, 1, Key("id", "hash"), 0)]

  lemma OneToken()
    ensures Run(EMPTY, ONE_TOKEN) == Tables(map[1 := Device("gateway", true, None, "", "")],
                                            map[1 := NewEnrollment(1, Key("id", "hash"), MINUTE)], map[], 2, 2, 1)
  {
    var t := CreateDevice(EMPTY, "gateway").tables;
    assert t == Tables(map[1 := Device("gateway", true, None, "", "")], map[], map[], 2, 1, 1);
    assert Expire(t, 1, 0) == t;
    assert OpenEnrollments(t, 1) == {} && LiveIdentities(t, 1) == {} && WithToken(t, "id") == {};
    assert ONE_TOKEN[1..] == [CreateCall(1, 1, Key("id", "hash"), 0)];
    assert ONE_TOKEN[1..][1..] == [];
  }

  /** Revoked with its readings on either side of the deadline, the token is
      revoked; on time it would have been reported as expired. */
  lemma RevokedInBetween()
    ensures var u := Expire(Run(EMPTY, ONE_TOKEN), 1, MINUTE - 1);
            && RevokeTx(u, 1, 1, MINUTE, MINUTE).answer.Shown?
            && RevokeTx(Aged(u, MINUTE), 1, 1, MINUTE, MINUTE).answer == Refused(InvalidState)
  {
    OneToken();
  }

  lemma RevokeAgrees(t: Tables, d: nat, e: nat, now: Time, withdrawnAt: Time)
    ensures Agree(Revoke(t, d, e, now, withdrawnAt), Revoke(Aged(t, now), d, e, now, withdrawnAt), now)
  {
    AgedCovers(t, d, now);
    RevokeTxAgreesIff(Expire(t, d, now), d, e, now, withdrawnAt);
  }

  lemma AdmitAgrees(t: Tables, keyId: Option<string>, hash: string, at: Time, now: Time)
    ensures Admit(Aged(t, now), keyId, hash, at) == Admit(t, keyId, hash, at)
  {
    if keyId.Some? { assert LiveWithKey(Aged(t, now), keyId.value) == LiveWithKey(t, keyId.value); }
  }

  /** One whole call, on the stored tables and on the aged ones. */
  lemma CallAgrees(t: Tables, k: Call)
    requires !k.RevokeTxCall?
    ensures Agree(Perform(t, k), Perform(Aged(t, k.now), k), k.now)
  {
    match k
    case CreateDeviceCall(name, _) =>
    case CreateCall(d, ttlMinutes, key, now) => CreateAgrees(t, d, ttlMinutes, key, now);
    case ExchangeCall(token, hash, ip, key, now, issuedAt) => ExchangeAgrees(t, token, hash, ip, key, now, issuedAt);
    case ConfirmCall(d, c, ip, version, now) => ConfirmAgrees(t, d, c, ip, version, now);
    case ListCall(d, now) => ListAgrees(t, d, now);
    case GetCall(d, e, now) => GetAgrees(t, d, e, now);
    case RevokeCall(d, e, now, withdrawnAt) => RevokeAgrees(t, d, e, now, withdrawnAt);
    case ExpireCall(d, now) => AgedCovers(t, d, now);
    case IssueCall(d, key, now) => IssueAgrees(t, d, key, now, now);
    case RevokeIdentityCall(d, c, now) => RevokeIdentityAgrees(t, d, c, now, now);
    case AdmitCall(keyId, hash, now) => AdmitAgrees(t, keyId, hash, now, now);
    case StampCall(c, ip, now) =>
  }

  // ----- whole runs ---------------------------------------------------------------

  function Answers(t: Tables, calls: seq<Call>): seq<Answer>
    decreases |calls|
  {
    if calls == [] then []
    else
      var o := Perform(t, calls[0]);
      [o.answer] + Answers(o.tables, calls[1..])
  }

  datatype Trace = Trace(tables: Tables, answers: seq<Answer>)

  /** A service that expires every overdue token before each call. */
  function EagerRun(t: Tables, calls: seq<Call>): Trace
    decreases |calls|
  {
    if calls == [] then Trace(t, [])
    else
      var o := Perform(Aged(t, calls[0].now), calls[0]);
      var rest := EagerRun(o.tables, calls[1..]);
      rest.(answers := [o.answer] + rest.answers)
  }

  ghost predicate ClockRises(from: Time, calls: seq<Call>)
    decreases |calls|
  {
    calls != [] ==> from <= calls[0].now && ClockRises(calls[0].now, calls[1..])
  }

  function LastReading(from: Time, calls: seq<Call>): Time {
    if calls == [] then from else calls[|calls| - 1].now
  }

  lemma {:induction false} EagerRunFrom(t: Tables, from: Time, calls: seq<Call>)
    requires ClockRises(from, calls) && forall k :: k in calls ==> !k.RevokeTxCall?
    ensures EagerRun(Aged(t, from), calls) == Trace(Aged(Run(t, calls), LastReading(from, calls)), Answers(t, calls))
    decreases |calls|
  {
    if calls != [] {
      var k := calls[0];
      AgedTwice(t, from, k.now);
      CallAgrees(t, k);
      EagerRunFrom(Perform(t, k).tables, k.now, calls[1..]);
    }
  }

  /** Every run of whole calls under a rising clock: the lazy service gives the
      eager service's answers, and its tables, aged, are the eager tables. */
  lemma LazyRefinesEager(start: Time, calls: seq<Call>)
    requires ClockRises(start, calls) && forall k :: k in calls ==> !k.RevokeTxCall?
    ensures EagerRun(EMPTY, calls).answers == Answers(EMPTY, calls)
    ensures EagerRun(EMPTY, calls).tables == Aged(Run(EMPTY, calls), LastReading(start, calls))
  {
    assert Aged(EMPTY, start) == EMPTY;
    EagerRunFrom(EMPTY, start, calls);
  }
}
