/**
 * Two concrete runs: a login that outlives a waiting revocation, and a refresh under
 * the old roles after a role change.
 */
module SessionCounterexamples {
  import opened Common
  import opened Tokens
  import opened Sessions
  import opened SessionRevocation

  const STUDENT := Roles(true, false, false)
  const ORGANIZER := Roles(true, true, false)

  /** One more step at the end of a run, from its last state to `next`. */
  lemma Extend(trace: seq<Sys>, moves: seq<Move>, m: Move, next: Sys)
    requires Behaviour(trace, moves) && Allowed(trace[|moves|], m) && next == After(trace[|moves|], m)
    ensures Behaviour(trace + [next], moves + [m])
  {
    var t, ms := trace + [next], moves + [m];
    forall i | 0 <= i < |ms| ensures Allowed(t[i], ms[i]) && t[i + 1] == After(t[i], ms[i]) {
      assert t[i] == trace[i];
      if i < |moves| { assert ms[i] == moves[i] && t[i + 1] == trace[i + 1]; }
    }
  }

  /** User 0 has signed up as a student, and nothing else has happened: token 0 is live. */
  const SIGNED_UP := Sys(map[0 := Row(0, 100, false)], map[0 := STUDENT], map[], map[0 := Info(0, STUDENT)], [])

  lemma SignedUp() returns (trace: seq<Sys>, moves: seq<Move>)
    ensures Behaviour(trace, moves) && |moves| == 3 && trace[3] == SIGNED_UP
  {
    var s1 := After(START, SignUp(0, 0, STUDENT));
    assert s1.procs == map[0 := Created(0)];
    var s2 := After(s1, ReadBack(0, 0, 100));
    assert s2.procs == map[0 := SigningUp(0, 0, 100, STUDENT)];
    assert After(s2, Insert(0)) == SIGNED_UP by {
      assert After(s2, Insert(0)).rows == SIGNED_UP.rows && After(s2, Insert(0)).procs == map[];
    }
    trace, moves := [START, s1, s2, SIGNED_UP], [SignUp(0, 0, STUDENT), ReadBack(0, 0, 100), Insert(0)];
  }

  /** The session of a new user lasts exactly as long as its token. */
  lemma SessionLapses(t: Time)
    ensures CanRefresh(SIGNED_UP, 0, STUDENT, t) <==> t < 100
  {
    var trace, moves := SignedUp();
    MustSignInAgainIff(trace, moves, 0, STUDENT, t);
    assert t < 100 ==> 0 in ValidOf(SIGNED_UP.rows, 0, t) && Continuable(SIGNED_UP, 0, 0, STUDENT);
  }

  /** Process 1 logs user 0 in with token 1 and has swept token 0 when process 2 starts a role change. */
  const WAITING := SIGNED_UP.(procs := map[
    1 := Swept(0, 1, 100, STUDENT, {0}),
    2 := Revoking(0, ORGANIZER, {0})])

  lemma LoginThenRoleChange() returns (trace: seq<Sys>, moves: seq<Move>)
    ensures Behaviour(trace, moves) && |moves| == 7 && trace[7] == WAITING
    ensures moves[6] == ChangeRole(2, 0, ORGANIZER) && LiveOf(trace[6].rows, 0) == {0} && InFlight(trace[6], 0) == {}
  {
    trace, moves := SignedUp();
    var s3 := SIGNED_UP.(procs := map[1 := LoggingIn(0, 1, 100, STUDENT)]);
    Extend(trace, moves, Login(1, 0, 1, 100), s3);
    trace, moves := trace + [s3], moves + [Login(1, 0, 1, 100)];
    var s4 := SIGNED_UP.(procs := map[1 := Locked(0, 1, 100, STUDENT)]);
    Extend(trace, moves, LockUser(1), s4);
    trace, moves := trace + [s4], moves + [LockUser(1)];
    var s5 := SIGNED_UP.(procs := map[1 := Swept(0, 1, 100, STUDENT, {0})]);
    assert LiveOf(SIGNED_UP.rows, 0) == {0};
    Extend(trace, moves, Sweep(1), s5);
    trace, moves := trace + [s5], moves + [Sweep(1)];
    Extend(trace, moves, ChangeRole(2, 0, ORGANIZER), WAITING);
    trace, moves := trace + [WAITING], moves + [ChangeRole(2, 0, ORGANIZER)];
  }

  /** The login has committed; the role change still has its old snapshot. */
  const LOGGED_IN := Sys(
    map[0 := Row(0, 100, true), 1 := Row(0, 100, false)], map[0 := STUDENT],
    map[2 := Revoking(0, ORGANIZER, {0})], map[0 := Info(0, STUDENT), 1 := Info(1, STUDENT)], [])

  lemma RevocationWaits()
    ensures !Allowed(WAITING, Revoke(2))
    ensures Allowed(WAITING, Commit(1)) && After(WAITING, Commit(1)) == LOGGED_IN
  {
    assert WAITING.procs[1].Swept? && 0 in WAITING.procs[1].swept;
    assert 0 in Revocable(WAITING, WAITING.procs[2]);
    assert After(WAITING, Commit(1)).rows == LOGGED_IN.rows && After(WAITING, Commit(1)).procs == LOGGED_IN.procs;
  }

  lemma RevocationMisses()
    ensures Allowed(LOGGED_IN, Revoke(2))
    ensures After(LOGGED_IN, Revoke(2)) == LOGGED_IN.(procs := map[2 := Changing(0, ORGANIZER)])
    ensures LiveOf(LOGGED_IN.rows, 0) == {1}
  {
    assert After(LOGGED_IN, Revoke(2)).rows == LOGGED_IN.rows;
  }

  lemma OneArrival(trace: seq<Sys>, moves: seq<Move>)
    requires |trace| == |moves| + 1 == 10 && moves[7] == Commit(1) && moves[8] == Revoke(2)
    requires 1 in trace[7].procs && trace[7].procs[1].Swept? && trace[7].procs[1].user == 0
    ensures Arrivals(trace, moves, 0, 6, 8, 9) == 1
  {
    assert ArrivalList(trace, moves, 0, 6, 8, 9) == [1, 0];
    assert [1, 0][..1] == [1] && [1][..0] == [];
  }

  /**
   * A login that commits while the revocation waits for its row locks outlives it: the statement's
   * snapshot does not contain the login's token. Nothing was in flight.
   */
  lemma LoginOutlivesWaitingRevocation() returns (trace: seq<Sys>, moves: seq<Move>)
    ensures Behaviour(trace, moves) && |moves| == 9 && RevokesDuring(moves, 2, 0, ORGANIZER, 6, 8)
    ensures !Allowed(trace[7], Revoke(2)) && InFlight(trace[6], 0) == {}
    ensures LiveOf(trace[9].rows, 0) == {1} && Arrivals(trace, moves, 0, 6, 8, 9) == 1
  {
    trace, moves := LoginThenRoleChange();
    RevocationWaits();
    Extend(trace, moves, Commit(1), LOGGED_IN);
    trace, moves := trace + [LOGGED_IN], moves + [Commit(1)];
    RevocationMisses();
    var s8 := LOGGED_IN.(procs := map[2 := Changing(0, ORGANIZER)]);
    Extend(trace, moves, Revoke(2), s8);
    trace, moves := trace + [s8], moves + [Revoke(2)];
    OneArrival(trace, moves);
  }

  /** The tables after token 0 was refreshed into token 1, and token 0 spent. */
  const REFRESHED := Sys(
    map[0 := Row(0, 100, true), 1 := Row(0, 100, false)], map[0 := STUDENT],
    map[2 := Changing(0, ORGANIZER)],
    map[0 := Info(0, STUDENT), 1 := Info(0, STUDENT)], [Grant(0, 0, STUDENT)])

  /** Process 1 has spent token 0 and drawn token 1. */
  const SPENT := Sys(
    map[0 := Row(0, 100, true)], map[0 := STUDENT], map[1 := Rotating(0, 1, 100, 0, STUDENT)],
    map[0 := Info(0, STUDENT)], [Grant(0, 0, STUDENT)])

  lemma RefreshSpends() returns (trace: seq<Sys>, moves: seq<Move>)
    ensures Behaviour(trace, moves) && |moves| == 6 && trace[6] == SPENT
  {
    trace, moves := SignedUp();
    var s3 := SIGNED_UP.(procs := map[1 := Presented(0, 0, STUDENT)]);
    Extend(trace, moves, Present(1, 0, 0), s3);
    trace, moves := trace + [s3], moves + [Present(1, 0, 0)];
    var s4 := SIGNED_UP.(procs := map[1 := Verified(0, 0, STUDENT)]);
    Extend(trace, moves, ReadUser(1), s4);
    trace, moves := trace + [s4], moves + [ReadUser(1)];
    assert After(s4, Consume(1, 0, 1, 100)) == SPENT by {
      assert RevokeAll(s4.rows, {0}) == SPENT.rows;
    }
    Extend(trace, moves, Consume(1, 0, 1, 100), SPENT);
    trace, moves := trace + [SPENT], moves + [Consume(1, 0, 1, 100)];
  }

  const REVOKING := SPENT.(procs := SPENT.procs[2 := Revoking(0, ORGANIZER, {})])
  const REVOKED := SPENT.(procs := SPENT.procs[2 := Changing(0, ORGANIZER)])

  lemma RevocationFindsNothing()
    ensures Allowed(SPENT, ChangeRole(2, 0, ORGANIZER)) && After(SPENT, ChangeRole(2, 0, ORGANIZER)) == REVOKING
    ensures Allowed(REVOKING, Revoke(2)) && After(REVOKING, Revoke(2)) == REVOKED
  {
    assert LiveOf(SPENT.rows, 0) == {};
    assert After(REVOKING, Revoke(2)).rows == REVOKED.rows;
  }

  lemma RefreshInserts()
    ensures Allowed(REVOKED, Insert(1)) && After(REVOKED, Insert(1)) == REFRESHED
  {
    assert After(REVOKED, Insert(1)).rows == REFRESHED.rows && After(REVOKED, Insert(1)).procs == REFRESHED.procs;
  }

  /** The refresh is in flight while a role change revokes, so its token 1 survives. */
  lemma RefreshSurvives() returns (trace: seq<Sys>, moves: seq<Move>)
    ensures Behaviour(trace, moves) && |moves| == 9 && trace[9] == REFRESHED
    ensures moves[6] == ChangeRole(2, 0, ORGANIZER) && moves[7] == Revoke(2)
  {
    trace, moves := RefreshSpends();
    RevocationFindsNothing();
    Extend(trace, moves, ChangeRole(2, 0, ORGANIZER), REVOKING);
    trace, moves := trace + [REVOKING], moves + [ChangeRole(2, 0, ORGANIZER)];
    Extend(trace, moves, Revoke(2), REVOKED);
    trace, moves := trace + [REVOKED], moves + [Revoke(2)];
    RefreshInserts();
    Extend(trace, moves, Insert(1), REFRESHED);
    trace, moves := trace + [REFRESHED], moves + [Insert(1)];
  }

  /** The role has changed after another refresh, with token 1, read the old one. */
  const CHANGED := REFRESHED.(procs := map[3 := Verified(1, 0, STUDENT)], users := map[0 := ORGANIZER])

  const PRESENTED := REFRESHED.(procs := REFRESHED.procs[3 := Presented(1, 0, STUDENT)])
  const VERIFIED := REFRESHED.(procs := REFRESHED.procs[3 := Verified(1, 0, STUDENT)])

  lemma RefreshReadsFirst()
    ensures Allowed(REFRESHED, Present(3, 1, 0)) && After(REFRESHED, Present(3, 1, 0)) == PRESENTED
    ensures Allowed(PRESENTED, ReadUser(3)) && After(PRESENTED, ReadUser(3)) == VERIFIED
    ensures Allowed(VERIFIED, SetRoles(2)) && After(VERIFIED, SetRoles(2)) == CHANGED
  {
    assert After(VERIFIED, SetRoles(2)).procs == CHANGED.procs;
  }

  lemma RoleChangesUnderRefresh() returns (trace: seq<Sys>, moves: seq<Move>)
    ensures Behaviour(trace, moves) && |moves| == 12 && trace[12] == CHANGED
    ensures moves[6] == ChangeRole(2, 0, ORGANIZER) && moves[7] == Revoke(2) && moves[11] == SetRoles(2)
  {
    trace, moves := RefreshSurvives();
    RefreshReadsFirst();
    Extend(trace, moves, Present(3, 1, 0), PRESENTED);
    trace, moves := trace + [PRESENTED], moves + [Present(3, 1, 0)];
    Extend(trace, moves, ReadUser(3), VERIFIED);
    trace, moves := trace + [VERIFIED], moves + [ReadUser(3)];
    Extend(trace, moves, SetRoles(2), CHANGED);
    trace, moves := trace + [CHANGED], moves + [SetRoles(2)];
  }

  lemma ChangedIsRefreshedAsStudent()
    ensures StaleTokens(CHANGED, 0, ORGANIZER, 0) == {1}
    ensures Allowed(CHANGED, Consume(3, 0, 2, 100)) && GrantsStale(CHANGED, Consume(3, 0, 2, 100), 0, ORGANIZER)
    ensures After(CHANGED, Consume(3, 0, 2, 100)).accepted == [Grant(0, 0, STUDENT), Grant(1, 0, STUDENT)]
  {
    assert 1 in ValidOf(CHANGED.rows, 0, 0) && CHANGED.procs[3].jti in StaleTokens(CHANGED, 0, ORGANIZER, 0);
  }

  /**
   * A role change does not always force a new login: here user 0 becomes an organizer, with all
   * tokens revoked first, and is refreshed afterwards as a student.
   */
  lemma OldRolesRefreshedAfterRoleChange() returns (trace: seq<Sys>, moves: seq<Move>)
    ensures Behaviour(trace, moves) && |moves| == 13
    ensures moves[6] == ChangeRole(2, 0, ORGANIZER) && moves[7] == Revoke(2) && moves[11] == SetRoles(2)
    ensures trace[12].users == map[0 := ORGANIZER] && StaleTokens(trace[12], 0, ORGANIZER, 0) == {1}
    ensures GrantsStale(trace[12], moves[12], 0, ORGANIZER)
    ensures trace[13].accepted == [Grant(0, 0, STUDENT), Grant(1, 0, STUDENT)]
  {
    trace, moves := RoleChangesUnderRefresh();
    ChangedIsRefreshedAsStudent();
    var last := After(CHANGED, Consume(3, 0, 2, 100));
    Extend(trace, moves, Consume(3, 0, 2, 100), last);
    trace, moves := trace + [last], moves + [Consume(3, 0, 2, 100)];
  }
}
