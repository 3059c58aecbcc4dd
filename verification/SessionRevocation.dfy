/**
 * What ends a session and what outlives the end: revocation, login and role change
 * against refreshes that are half way through.
 */
module SessionRevocation {
  import opened Common
  import opened Tokens
  import opened Sessions

  // ----- usable tokens -----

  /** Refreshes of `user` caught between consuming and inserting. */
  function InFlight(s: Sys, user: Id): set<ProcId> {
    set p | p in s.procs && s.procs[p].Rotating? && s.procs[p].user == user
  }

  /** A login or sign-up of `user` publishes its token. */
  predicate SignsIn(s: Sys, m: Move, user: Id) {
    || (m.Commit? && m.p in s.procs && s.procs[m.p].Swept? && s.procs[m.p].user == user)
    || (m.Insert? && m.p in s.procs && s.procs[m.p].SigningUp? && s.procs[m.p].user == user)
  }

  /** A refresh spends a token that a revocation has seen but not yet written. */
  ghost predicate Escapes(s: Sys, m: Move, user: Id, seen: set<Id>) {
    Accepts(s, m) && s.procs[m.p].user == user && s.procs[m.p].jti in seen
  }

  /** Live tokens of `user` outside `seen`. */
  function Unseen(rows: Table, user: Id, seen: set<Id>): set<Id> {
    set j | j in rows && rows[j].user == user && !rows[j].revoked && j !in seen
  }

  function Live(rows: Table, user: Id, seen: set<Id>): nat {
    |Unseen(rows, user, seen)|
  }

  function Flights(s: Sys, user: Id): nat {
    |InFlight(s, user)|
  }

  /** Live tokens of `user` outside `seen`, and refreshes about to insert one. */
  function Usable(s: Sys, user: Id, seen: set<Id>): nat {
    Live(s.rows, user, seen) + Flights(s, user)
  }

  lemma LiveShrinks(rows: Table, js: set<Id>, user: Id, seen: set<Id>)
    ensures LiveOf(RevokeAll(rows, js), user) == LiveOf(rows, user) - js
    ensures Live(RevokeAll(rows, js), user, seen) <= Live(rows, user, seen)
  {
    SubsetIsSmaller(Unseen(RevokeAll(rows, js), user, seen), Unseen(rows, user, seen));
  }

  lemma LiveGrowsByOne(rows: Table, jti: Id, owner: Id, expiresAt: Time, user: Id, seen: set<Id>)
    requires jti !in rows
    ensures Live(Issue(rows, jti, owner, expiresAt), user, seen)
            <= Live(rows, user, seen) + if owner == user then 1 else 0
  {
    var before := Unseen(rows, user, seen);
    var after := Unseen(Issue(rows, jti, owner, expiresAt), user, seen);
    SubsetIsSmaller(after, if owner == user then before + {jti} else before);
  }

  /** Replacing or ending one process that is not in flight for `user` leaves the others in flight. */
  lemma InFlightWithout(s: Sys, s': Sys, p: ProcId, user: Id)
    requires s'.procs.Keys - {p} == s.procs.Keys - {p}
    requires forall q <- s.procs | q != p :: q in s'.procs && s'.procs[q] == s.procs[q]
    requires p in InFlight(s', user) ==> p in InFlight(s, user)
    ensures InFlight(s', user) <= InFlight(s, user)
    ensures |InFlight(s', user)| <= Flights(s, user)
    ensures p in InFlight(s, user) && p !in InFlight(s', user) ==> |InFlight(s', user)| < |InFlight(s, user)|
  {
    forall q <- InFlight(s', user) ensures q in InFlight(s, user) {
      if q != p { assert q in s'.procs.Keys - {p}; }
    }
    SubsetIsSmaller(InFlight(s', user), InFlight(s, user) - if p in InFlight(s', user) then {} else {p});
  }

  lemma PublishedLive(s: Sys, p: ProcId, root: Id, revoke: set<Id>, user: Id, seen: set<Id>)
    requires ProcsHold(s) && InfoHolds(s) && p in s.procs && Draws(s.procs[p])
    ensures Live(Publish(s, p, root, revoke).rows, user, seen) <= Live(s.rows, user, seen)
            + if s.procs[p].user == user then 1 else 0
  {
    var q := s.procs[p];
    assert ProcOk(s.info, q);
    LiveShrinks(s.rows, revoke, user, seen);
    LiveGrowsByOne(RevokeAll(s.rows, revoke), q.newJti, q.user, q.expiresAt, user, seen);
  }

  lemma PublishedInFlight(s: Sys, p: ProcId, root: Id, revoke: set<Id>, user: Id)
    requires p in s.procs && Draws(s.procs[p])
    ensures Flights(Publish(s, p, root, revoke), user)
            <= Flights(s, user) - if s.procs[p].user == user && s.procs[p].Rotating? then 1 else 0
  {
    InFlightWithout(s, Publish(s, p, root, revoke), p, user);
  }

  lemma PublishedUsable(s: Sys, p: ProcId, root: Id, revoke: set<Id>, user: Id, seen: set<Id>)
    requires ProcsHold(s) && InfoHolds(s) && p in s.procs && Draws(s.procs[p])
    ensures Usable(Publish(s, p, root, revoke), user, seen)
            <= Usable(s, user, seen) + if s.procs[p].user == user && !s.procs[p].Rotating? then 1 else 0
  {
    PublishedLive(s, p, root, revoke, user, seen);
    PublishedInFlight(s, p, root, revoke, user);
  }

  lemma AcceptedLive(rows: Table, jti: Id, owner: Id, user: Id, seen: set<Id>)
    requires jti in LiveOf(rows, owner)
    ensures Live(RevokeAll(rows, {jti}), user, seen)
            <= Live(rows, user, seen) - if owner == user && jti !in seen then 1 else 0
  {
    LiveShrinks(rows, {jti}, user, seen);
    if owner == user && jti !in seen {
      assert Unseen(RevokeAll(rows, {jti}), user, seen) == Unseen(rows, user, seen) - {jti};
    }
  }

  lemma AcceptedInFlight(s: Sys, m: Move, user: Id)
    requires Accepts(s, m)
    ensures Flights(Accept(s, m.p, m.newJti, m.expiresAt), user)
            <= Flights(s, user) + if s.procs[m.p].user == user then 1 else 0
  {
    var s', flying := Accept(s, m.p, m.newJti, m.expiresAt), InFlight(s, user);
    SubsetIsSmaller(InFlight(s', user), if s.procs[m.p].user == user then flying + {m.p} else flying);
  }

  lemma AcceptedUsable(s: Sys, m: Move, user: Id, seen: set<Id>)
    requires Accepts(s, m)
    ensures Usable(Accept(s, m.p, m.newJti, m.expiresAt), user, seen)
            <= Usable(s, user, seen) + if Escapes(s, m, user, seen) then 1 else 0
  {
    AcceptedLive(s.rows, s.procs[m.p].jti, s.procs[m.p].user, user, seen);
    AcceptedInFlight(s, m, user);
  }

  /** Steps that write no token row. */
  predicate WritesNoToken(m: Move) {
    !m.Insert? && !m.Commit? && !m.Revoke? && !m.Consume?
  }

  lemma OtherStepTables(s: Sys, m: Move)
    requires Allowed(s, m) && (WritesNoToken(m) || (m.Consume? && !Accepts(s, m)))
    ensures var s' := After(s, m);
            && s'.rows == s.rows && s'.procs.Keys - {m.p} == s.procs.Keys - {m.p}
            && (forall q <- s.procs | q != m.p :: q in s'.procs && s'.procs[q] == s.procs[q])
            && (m.p in s'.procs ==> !s'.procs[m.p].Rotating?)
  {
  }

  lemma OtherStepUsable(s: Sys, m: Move, user: Id, seen: set<Id>)
    requires Allowed(s, m) && (WritesNoToken(m) || (m.Consume? && !Accepts(s, m)))
    ensures Usable(After(s, m), user, seen) <= Usable(s, user, seen)
  {
    OtherStepTables(s, m);
    InFlightWithout(s, After(s, m), m.p, user);
  }

  lemma RevokedUsable(s: Sys, p: ProcId, user: Id, seen: set<Id>)
    requires p in s.procs && s.procs[p].Revoking?
    ensures Usable(Revoked(s, p), user, seen) <= Usable(s, user, seen)
  {
    LiveShrinks(s.rows, Revocable(s, s.procs[p]), user, seen);
    InFlightWithout(s, Revoked(s, p), p, user);
  }

  lemma SignInUsable(s: Sys, m: Move, user: Id, seen: set<Id>)
    requires ProcsHold(s) && InfoHolds(s) && Allowed(s, m) && (m.Insert? || m.Commit?)
    ensures Usable(After(s, m), user, seen) <= Usable(s, user, seen) + if SignsIn(s, m, user) then 1 else 0
  {
    if m.Insert? {
      PublishedUsable(s, m.p, Joins(s.procs[m.p]).value, {}, user, seen);
    } else {
      PublishedUsable(s, m.p, s.procs[m.p].newJti, s.procs[m.p].swept, user, seen);
    }
  }

  /** A step adds to what a revocation that has seen `seen` leaves usable. */
  ghost predicate Adds(s: Sys, m: Move, user: Id, seen: set<Id>) {
    SignsIn(s, m, user) || Escapes(s, m, user, seen)
  }

  /** Only a sign-in, or a spend of a token already seen by the revocation, adds to what is usable. */
  lemma UsableStep(s: Sys, m: Move, user: Id, seen: set<Id>)
    requires Inv(s) && Allowed(s, m)
    ensures Usable(After(s, m), user, seen) <= Usable(s, user, seen) + if Adds(s, m, user, seen) then 1 else 0
  {
    if m.Insert? || m.Commit? {
      SignInUsable(s, m, user, seen);
    } else if m.Revoke? {
      RevokedUsable(s, m.p, user, seen);
    } else if Accepts(s, m) {
      AcceptedUsable(s, m, user, seen);
    } else {
      OtherStepUsable(s, m, user, seen);
    }
  }

  // ----- what a revocation leaves -----

  /** From move `i` to move `w` process `p` runs one UPDATE that revokes the tokens of `user`. */
  predicate RevokesDuring(moves: seq<Move>, p: ProcId, user: Id, roles: Roles, i: nat, w: nat) {
    && i < w < |moves| && moves[i] == ChangeRole(p, user, roles) && moves[w] == Revoke(p)
    && forall n | i < n < w :: moves[n].p != p
  }

  lemma SnapshotWasTaken(trace: seq<Sys>, moves: seq<Move>, p: ProcId, user: Id, roles: Roles, i: nat)
    requires Behaviour(trace, moves) && i < |moves| && moves[i] == ChangeRole(p, user, roles)
    ensures p in trace[i + 1].procs && trace[i + 1].procs[p] == Revoking(user, roles, LiveOf(trace[i].rows, user))
  {
  }

  /** What the revocation by move `i` still has to write in state `n`: nothing after move `w`. */
  function Awaited(trace: seq<Sys>, user: Id, i: nat, w: nat, n: nat): set<Id>
    requires i < |trace|
  {
    if n <= w then LiveOf(trace[i].rows, user) else {}
  }

  /** One if step `n` lets a token outlive the revocation that runs from `i` to `w`. */
  ghost function Arrival(trace: seq<Sys>, moves: seq<Move>, user: Id, i: nat, w: nat, n: nat): nat
    requires |trace| == |moves| + 1 && i < n < |moves|
  {
    if Adds(trace[n], moves[n], user, Awaited(trace, user, i, w, n + 1)) then 1 else 0
  }

  ghost function ArrivalList(trace: seq<Sys>, moves: seq<Move>, user: Id, i: nat, w: nat, k: nat): seq<int>
    requires |trace| == |moves| + 1 && i < k <= |moves|
  {
    seq(k - i - 1, j requires 0 <= j < k - i - 1 => Arrival(trace, moves, user, i, w, i + 1 + j))
  }

  /**
   * Steps between `i` and `k` that let a token outlive the revocation that runs from `i` to `w`:
   * a sign-in, or a refresh that spends a token before the revocation has written it.
   */
  ghost function Arrivals(trace: seq<Sys>, moves: seq<Move>, user: Id, i: nat, w: nat, k: nat): int
    requires |trace| == |moves| + 1 && i < k <= |moves|
  {
    SumOf(ArrivalList(trace, moves, user, i, w, k))
  }

  /** What is usable in state `n` beyond what the revocation still has to write. */
  function Left(trace: seq<Sys>, user: Id, i: nat, w: nat, n: nat): nat
    requires i < |trace| && n < |trace|
  {
    Usable(trace[n], user, Awaited(trace, user, i, w, n))
  }

  lemma RevocationStarts(s: Sys, m: Move, user: Id)
    requires Allowed(s, m) && m.ChangeRole?
    ensures Usable(After(s, m), user, LiveOf(s.rows, user)) <= Flights(s, user)
  {
    assert Unseen(s.rows, user, LiveOf(s.rows, user)) == {};
    InFlightWithout(s, After(s, m), m.p, user);
  }

  lemma RevocationWrites(s: Sys, p: ProcId)
    requires p in s.procs && s.procs[p].Revoking?
    ensures Usable(Revoked(s, p), s.procs[p].user, {}) <= Usable(s, s.procs[p].user, s.procs[p].seen)
  {
    var user, js := s.procs[p].user, Revocable(s, s.procs[p]);
    assert Unseen(RevokeAll(s.rows, js), user, {}) == Unseen(s.rows, user, s.procs[p].seen);
    InFlightWithout(s, Revoked(s, p), p, user);
  }

  /** One step of the account: what is usable grows only by an arrival. */
  ghost predicate Accounted(trace: seq<Sys>, moves: seq<Move>, user: Id, i: nat, w: nat, n: nat)
    requires |trace| == |moves| + 1 && i < n < |moves|
  {
    Left(trace, user, i, w, n + 1) <= Left(trace, user, i, w, n) + Arrival(trace, moves, user, i, w, n)
  }

  lemma EachStepIsAccounted(
      trace: seq<Sys>, moves: seq<Move>, p: ProcId, user: Id, roles: Roles, i: nat, w: nat, n: nat)
    requires Behaviour(trace, moves) && RevokesDuring(moves, p, user, roles, i, w) && i < n < |moves|
    ensures Accounted(trace, moves, user, i, w, n)
  {
    if n == w {
      SnapshotWasTaken(trace, moves, p, user, roles, i);
      Unmoved(trace, moves, p, Revoking(user, roles, LiveOf(trace[i].rows, user)), i, w);
      RevocationWrites(trace[n], p);
    } else {
      InvAlways(trace, moves, n);
      UsableStep(trace[n], moves[n], user, Awaited(trace, user, i, w, n));
    }
  }

  function SumOf(s: seq<int>): int {
    if s == [] then 0 else SumOf(s[..|s| - 1]) + s[|s| - 1]
  }

  lemma {:induction false} Telescope(left: seq<int>, adds: seq<int>)
    requires |left| == |adds| + 1 && forall n | 0 <= n < |adds| :: left[n + 1] <= left[n] + adds[n]
    ensures left[|adds|] <= left[0] + SumOf(adds)
  {
    if adds == [] {
    } else {
      Telescope(left[..|adds|], adds[..|adds| - 1]);
    }
  }

  lemma AddUp(trace: seq<Sys>, moves: seq<Move>, user: Id, i: nat, w: nat, k: nat)
    requires |trace| == |moves| + 1 && i < k <= |moves|
    requires forall n | i < n < k :: Accounted(trace, moves, user, i, w, n)
    ensures Left(trace, user, i, w, k) <= Left(trace, user, i, w, i + 1) + Arrivals(trace, moves, user, i, w, k)
  {
    var left := seq(k - i, j requires 0 <= j < k - i => Left(trace, user, i, w, i + 1 + j));
    var adds := ArrivalList(trace, moves, user, i, w, k);
    forall n | 0 <= n < |adds| ensures left[n + 1] <= left[n] + adds[n] {
      assert Accounted(trace, moves, user, i, w, i + 1 + n);
    }
    Telescope(left, adds);
  }

  /**
   * After a revocation, however long its statement ran and whatever followed, the usable tokens
   * of the user number at most the refreshes in flight when it started, one for each later
   * sign-in, and one for each token spent before the statement reached it. A login that commits
   * while the statement waits is such a sign-in.
   */
  lemma RevocationLeavesOnlyArrivals(
      trace: seq<Sys>, moves: seq<Move>, p: ProcId, user: Id, roles: Roles, i: nat, w: nat, k: nat)
    requires Behaviour(trace, moves) && RevokesDuring(moves, p, user, roles, i, w) && w < k <= |moves|
    ensures Usable(trace[k], user, {}) <= Flights(trace[i], user) + Arrivals(trace, moves, user, i, w, k)
  {
    RevocationStarts(trace[i], moves[i], user);
    forall n | i < n < k ensures Accounted(trace, moves, user, i, w, n) {
      EachStepIsAccounted(trace, moves, p, user, roles, i, w, n);
    }
    AddUp(trace, moves, user, i, w, k);
  }

  /** And each refresh in flight at the write can still give the user a live token, revoked or not. */
  lemma InFlightRefreshSurvivesRevocation(s: Sys, q: ProcId, p: ProcId)
    requires Inv(s) && Allowed(s, Revoke(q)) && p in InFlight(s, s.procs[q].user) && !UserLocked(s, s.procs[q].user)
    ensures var user, revoked := s.procs[q].user, After(s, Revoke(q));
            && LiveOf(revoked.rows, user) == LiveOf(s.rows, user) - s.procs[q].seen
            && Allowed(revoked, Insert(p))
            && LiveOf(After(revoked, Insert(p)).rows, user) == LiveOf(revoked.rows, user) + {s.procs[p].newJti}
  {
    RevokeKeeps(s, q);
    RevokedStateAt(s, q, p);
    InsertGivesLiveToken(Revoked(s, q), p);
  }

  lemma RevokedStateAt(s: Sys, q: ProcId, p: ProcId)
    requires q in s.procs && s.procs[q].Revoking? && p in InFlight(s, s.procs[q].user)
             && !UserLocked(s, s.procs[q].user)
    ensures var user, revoked := s.procs[q].user, Revoked(s, q);
            && LiveOf(revoked.rows, user) == LiveOf(s.rows, user) - s.procs[q].seen
            && p in revoked.procs && revoked.procs[p] == s.procs[p] && Allowed(revoked, Insert(p))
  {
    LiveShrinks(s.rows, Revocable(s, s.procs[q]), s.procs[q].user, {});
  }

  lemma InsertGivesLiveToken(s: Sys, p: ProcId)
    requires ProcsHold(s) && InfoHolds(s) && Allowed(s, Insert(p))
    ensures var user := s.procs[p].user;
            LiveOf(After(s, Insert(p)).rows, user) == LiveOf(s.rows, user) + {s.procs[p].newJti}
  {
    var user := s.procs[p].user;
    assert ProcOk(s.info, s.procs[p]);
    assert LiveOf(RevokeAll(s.rows, {}), user) == LiveOf(s.rows, user);
  }

  // ----- what a login leaves -----

  lemma SweptUserIsNotAccepted(s: Sys, m: Move, p: ProcId)
    requires LocksHold(s) && Allowed(s, m) && p in s.procs && s.procs[p].Swept? && Accepts(s, m)
    ensures s.procs[m.p].user != s.procs[p].user
  {
    UnlockedIsNotSwept(s, p, s.procs[m.p].jti);
  }

  /** Only an accepted refresh of `user` is newly in flight. */
  lemma InFlightUnchanged(s: Sys, m: Move, user: Id, p: ProcId)
    requires Allowed(s, m) && (Accepts(s, m) ==> s.procs[m.p].user != user) && p in InFlight(After(s, m), user)
    ensures p in InFlight(s, user) && After(s, m).procs[p] == s.procs[p]
  {
  }

  /** While a login has swept its user's tokens, no refresh of that user is accepted. */
  lemma SweptUserIsNotRefreshed(s: Sys, m: Move, p: ProcId)
    requires Inv(s) && Allowed(s, m) && p in s.procs && s.procs[p].Swept?
    ensures InFlight(After(s, m), s.procs[p].user) <= InFlight(s, s.procs[p].user)
  {
    if Accepts(s, m) { SweptUserIsNotAccepted(s, m, p); }
    forall o <- InFlight(After(s, m), s.procs[p].user) ensures o in InFlight(s, s.procs[p].user) {
      InFlightUnchanged(s, m, s.procs[p].user, o);
    }
  }

  lemma CommitLeavesOneToken(s: Sys, p: ProcId)
    requires Inv(s) && Allowed(s, Commit(p))
    ensures var s', user := After(s, Commit(p)), s.procs[p].user;
            LiveOf(s'.rows, user) == {s.procs[p].newJti} && InFlight(s', user) <= InFlight(s, user)
  {
    var q := s.procs[p];
    assert ProcOk(s.info, q);
    LiveShrinks(s.rows, q.swept, q.user, {});
    assert LiveOf(RevokeAll(s.rows, q.swept), q.user) == {};
  }

  /** Process `p` sweeps in move `i` and does nothing else before move `k`. */
  predicate SweptSince(moves: seq<Move>, p: ProcId, i: nat, k: nat) {
    i < k < |moves| && moves[i] == Sweep(p) && forall n | i < n < k :: moves[n].p != p
  }

  /** It then holds what it swept. */
  lemma StillSwept(trace: seq<Sys>, moves: seq<Move>, p: ProcId, i: nat, k: nat, n: nat)
    requires Behaviour(trace, moves) && SweptSince(moves, p, i, k) && i < n <= k
    ensures p in trace[i].procs && trace[i].procs[p].Locked? && p in trace[n].procs && trace[n].procs[p].Swept?
    ensures trace[n].procs[p].user == trace[i].procs[p].user && trace[n].procs[p].newJti == trace[i].procs[p].newJti
  {
    assert trace[i + 1] == After(trace[i], moves[i]);
    Unmoved(trace, moves, p, trace[i + 1].procs[p], i, n);
  }

  lemma SweptNext(trace: seq<Sys>, moves: seq<Move>, p: ProcId, n: nat)
    requires Behaviour(trace, moves) && n < |moves| && p in trace[n].procs && trace[n].procs[p].Swept?
    ensures InFlight(trace[n + 1], trace[n].procs[p].user) <= InFlight(trace[n], trace[n].procs[p].user)
  {
    InvAlways(trace, moves, n);
    SweptUserIsNotRefreshed(trace[n], moves[n], p);
  }

  lemma SweepAddsNothing(trace: seq<Sys>, moves: seq<Move>, p: ProcId, i: nat)
    requires Behaviour(trace, moves) && i < |moves| && moves[i] == Sweep(p)
    ensures p in trace[i].procs
            && InFlight(trace[i + 1], trace[i].procs[p].user) <= InFlight(trace[i], trace[i].procs[p].user)
  {
    InFlightWithout(trace[i], After(trace[i], moves[i]), p, trace[i].procs[p].user);
  }

  lemma {:induction false} Descends(f: seq<set<ProcId>>)
    requires f != [] && forall n | 0 <= n < |f| - 1 :: f[n + 1] <= f[n]
    ensures f[|f| - 1] <= f[0]
  {
    if |f| == 1 {
    } else {
      Descends(f[..|f| - 1]);
    }
  }

  /** Between two states no refresh of `user` takes off. */
  ghost predicate NoTakeOff(trace: seq<Sys>, user: Id, n: nat)
    requires n + 1 < |trace|
  {
    InFlight(trace[n + 1], user) <= InFlight(trace[n], user)
  }

  lemma NoneTakesOff(trace: seq<Sys>, moves: seq<Move>, p: ProcId, i: nat, k: nat, n: nat)
    requires Behaviour(trace, moves) && SweptSince(moves, p, i, k) && i <= n < k
    ensures NoTakeOff(trace, trace[i].procs[p].user, n)
  {
    if n == i {
      SweepAddsNothing(trace, moves, p, i);
    } else {
      StillSwept(trace, moves, p, i, k, n);
      SweptNext(trace, moves, p, n);
    }
  }

  lemma NoTakeOffs(trace: seq<Sys>, user: Id, i: nat, k: nat)
    requires i <= k < |trace| && forall n | i <= n < k :: NoTakeOff(trace, user, n)
    ensures InFlight(trace[k], user) <= InFlight(trace[i], user)
  {
    var f := seq(k - i + 1, j requires 0 <= j <= k - i => InFlight(trace[i + j], user));
    forall n | 0 <= n < |f| - 1 ensures f[n + 1] <= f[n] {
      assert NoTakeOff(trace, user, i + n);
    }
    Descends(f);
  }

  lemma NothingTakesOffSince(trace: seq<Sys>, moves: seq<Move>, p: ProcId, i: nat, k: nat)
    requires Behaviour(trace, moves) && SweptSince(moves, p, i, k)
    ensures InFlight(trace[k], trace[i].procs[p].user) <= InFlight(trace[i], trace[i].procs[p].user)
  {
    forall n | i <= n < k ensures NoTakeOff(trace, trace[i].procs[p].user, n) {
      NoneTakesOff(trace, moves, p, i, k, n);
    }
    NoTakeOffs(trace, trace[i].procs[p].user, i, k);
  }

  /**
   * What FOR UPDATE on the user row and the row locks of the sweep buy together: right after a
   * login commits its token is the only live one of its user, and the only refreshes that can
   * add another are those already in flight when it swept.
   */
  lemma LoginLeavesOneToken(trace: seq<Sys>, moves: seq<Move>, p: ProcId, i: nat, k: nat)
    requires Behaviour(trace, moves) && SweptSince(moves, p, i, k) && moves[k] == Commit(p)
    ensures var user := trace[i].procs[p].user;
            && LiveOf(trace[k + 1].rows, user) == {trace[i].procs[p].newJti}
            && InFlight(trace[k + 1], user) <= InFlight(trace[i], user)
  {
    NothingTakesOffSince(trace, moves, p, i, k);
    StillSwept(trace, moves, p, i, k, k);
    InvAlways(trace, moves, k);
    CommitLeavesOneToken(trace[k], p);
  }

  // ----- runs from a given state -----

  lemma Prepend(s: Sys, m: Move, trace: seq<Sys>, moves: seq<Move>)
    requires Allowed(s, m) && Path(trace, moves) && trace[0] == After(s, m)
    ensures Path([s] + trace, [m] + moves)
  {
    var t, ms := [s] + trace, [m] + moves;
    forall i | 0 <= i < |ms| ensures Allowed(t[i], ms[i]) && t[i + 1] == After(t[i], ms[i]) {
      if i > 0 { assert t[i] == trace[i - 1] && ms[i] == moves[i - 1] && t[i + 1] == trace[i]; }
    }
  }

  /** The roles of `user` are `r` in every state of the run. */
  ghost predicate RolesStay(trace: seq<Sys>, user: Id, r: Roles) {
    forall n | 0 <= n < |trace| :: user in trace[n].users && trace[n].users[user] == r
  }

  ghost predicate NoSignIn(trace: seq<Sys>, moves: seq<Move>, user: Id)
    requires |trace| == |moves| + 1
  {
    forall n | 0 <= n < |moves| :: !SignsIn(trace[n], moves[n], user)
  }

  /** No refresh of the run compares its token's expiry with an instant before `t`. */
  ghost predicate ClockFrom(moves: seq<Move>, t: Time) {
    forall n | 0 <= n < |moves| && moves[n].Consume? :: moves[n].now >= t
  }

  lemma {:induction false} SomeNatOutside(used: set<nat>) returns (n: nat)
    ensures forall u <- used :: u < n
    decreases |used|
  {
    if used == {} {
      n := 0;
    } else {
      var u :| u in used;
      var m := SomeNatOutside(used - {u});
      n := if m > u then m else u + 1;
      assert forall v <- used :: v == u || v in used - {u};
    }
  }

  lemma SomeFreshJti(s: Sys) returns (jti: Id)
    ensures Fresh(s, jti)
  {
    var drawn := set p | p in s.procs && Draws(s.procs[p]) :: s.procs[p].newJti;
    jti := SomeNatOutside(s.rows.Keys + drawn);
    assert forall p <- s.procs | Draws(s.procs[p]) :: s.procs[p].newJti in drawn;
  }

  /** A token row has one holder: without it the row is free. */
  lemma LosingUnlocks(s: Sys, l: ProcId, jti: Id, user: Id)
    requires LocksHold(s) && l in s.procs && s.procs[l].Swept? && jti in s.procs[l].swept && jti in LiveOf(s.rows, user)
    ensures !RowLocked(End(s, l), jti)
  {
    assert s.procs[l].user == user && HoldsUser(s.procs[l], user);
    forall o <- s.procs | o != l && s.procs[o].Swept? ensures jti !in s.procs[o].swept {
      assert !HoldsUser(s.procs[o], user);
    }
  }

  /** A verified refresh whose token is valid is accepted by some run of at most two steps. */
  lemma VerifiedIsAcceptedSoon(s: Sys, p: ProcId, t: Time) returns (trace: seq<Sys>, moves: seq<Move>)
    requires Inv(s) && p in s.procs && s.procs[p].Verified? && s.procs[p].jti in ValidOf(s.rows, s.procs[p].user, t)
    ensures Path(trace, moves) && trace[0] == s && moves != [] && ClockFrom(moves, t)
    ensures forall n | 0 <= n < |trace| :: trace[n].users == s.users
    ensures forall n, user | 0 <= n < |moves| :: !SignsIn(trace[n], moves[n], user)
    ensures var n := |moves| - 1;
            Accepts(trace[n], moves[n]) && moves[n].p == p && trace[n].procs[p] == s.procs[p]
  {
    var q := s.procs[p];
    if RowLocked(s, q.jti) {
      var l :| l in s.procs && s.procs[l].Swept? && q.jti in s.procs[l].swept;
      LosingUnlocks(s, l, q.jti, q.user);
      EndKeeps(s, l);
      trace, moves := UnlockedIsAcceptedNow(End(s, l), p, t);
      Prepend(s, Lose(l), trace, moves);
      trace, moves := [s] + trace, [Lose(l)] + moves;
    } else {
      trace, moves := UnlockedIsAcceptedNow(s, p, t);
    }
  }

  lemma UnlockedIsAcceptedNow(s: Sys, p: ProcId, t: Time) returns (trace: seq<Sys>, moves: seq<Move>)
    requires Inv(s) && p in s.procs && s.procs[p].Verified? && s.procs[p].jti in ValidOf(s.rows, s.procs[p].user, t)
    requires !RowLocked(s, s.procs[p].jti)
    ensures Path(trace, moves) && trace[0] == s && |moves| == 1 && trace[1].users == s.users
    ensures moves[0].Consume? && moves[0].p == p && moves[0].now == t && Accepts(s, moves[0])
  {
    var jti := SomeFreshJti(s);
    var m := Consume(p, t, jti, t);
    trace, moves := [s, After(s, m)], [m];
  }

  // ----- refreshes under the roles of before -----

  /** Valid tokens whose refresh has read other roles than `r`, and has yet to consume. */
  function StaleTokens(s: Sys, user: Id, r: Roles, t: Time): set<Id> {
    set p | p in s.procs && s.procs[p].Verified? && s.procs[p].user == user && s.procs[p].roles != r
            && s.procs[p].jti in ValidOf(s.rows, user, t) :: s.procs[p].jti
  }

  /** A refresh of `user` is accepted under other roles than `r`. */
  ghost predicate GrantsStale(s: Sys, m: Move, user: Id, r: Roles) {
    Accepts(s, m) && s.procs[m.p].user == user && s.procs[m.p].roles != r
  }

  /** A token once issued never becomes valid again. */
  lemma SpentStaysSpent(s: Sys, m: Move, user: Id, t: Time, j: Id)
    requires InfoHolds(s) && ProcsHold(s) && Allowed(s, m) && j in s.info && j in ValidOf(After(s, m).rows, user, t)
    ensures j in ValidOf(s.rows, user, t)
  {
    if m.Insert? || m.Commit? {
      assert ProcOk(s.info, s.procs[m.p]);
      PublishedWasValid(s, m.p, Joins(s.procs[m.p]).value, if m.Commit? then s.procs[m.p].swept else {}, user, t, j);
    } else if m.Revoke? {
      RevokedWasValid(s.rows, Revocable(s, s.procs[m.p]), user, t, j);
    } else if Accepts(s, m) {
      RevokedWasValid(s.rows, {s.procs[m.p].jti}, user, t, j);
    } else {
      OtherStepTables(s, m);
    }
  }

  lemma RevokedWasValid(rows: Table, js: set<Id>, user: Id, t: Time, j: Id)
    requires j in ValidOf(RevokeAll(rows, js), user, t)
    ensures j in ValidOf(rows, user, t)
  {
  }

  lemma PublishedWasValid(s: Sys, p: ProcId, root: Id, revoke: set<Id>, user: Id, t: Time, j: Id)
    requires p in s.procs && Draws(s.procs[p]) && j != s.procs[p].newJti
    requires j in ValidOf(Publish(s, p, root, revoke).rows, user, t)
    ensures j in ValidOf(s.rows, user, t)
  {
  }

  /** A refresh that passes its check now has read the roles of now. */
  lemma OldReadersOnly(s: Sys, m: Move, user: Id, r: Roles, p: ProcId)
    requires Allowed(s, m) && user in s.users && s.users[user] == r
    requires var procs := After(s, m).procs;
             p in procs && procs[p].Verified? && procs[p].user == user && procs[p].roles != r
    ensures p in s.procs && After(s, m).procs[p] == s.procs[p]
  {
  }

  lemma StaleTokensShrink(s: Sys, m: Move, user: Id, r: Roles, t: Time)
    requires InfoHolds(s) && ProcsHold(s) && Allowed(s, m) && user in s.users && s.users[user] == r
    ensures StaleTokens(After(s, m), user, r, t) <= StaleTokens(s, user, r, t)
  {
    var s' := After(s, m);
    forall j <- StaleTokens(s', user, r, t) ensures j in StaleTokens(s, user, r, t) {
      var p :| p in s'.procs && s'.procs[p].Verified? && s'.procs[p].user == user && s'.procs[p].roles != r
               && s'.procs[p].jti == j && j in ValidOf(s'.rows, user, t);
      OldReadersOnly(s, m, user, r, p);
      assert ProcOk(s.info, s.procs[p]);
      SpentStaysSpent(s, m, user, t, j);
    }
  }

  lemma StaleGrantSpends(s: Sys, m: Move, user: Id, r: Roles, t: Time)
    requires Allowed(s, m) && GrantsStale(s, m, user, r) && m.now >= t
    ensures s.procs[m.p].jti in StaleTokens(s, user, r, t)
    ensures s.procs[m.p].jti !in StaleTokens(After(s, m), user, r, t)
  {
    assert s.procs[m.p].jti !in ValidOf(After(s, m).rows, user, t);
  }

  lemma StaleStep(s: Sys, m: Move, user: Id, r: Roles, t: Time)
    requires InfoHolds(s) && ProcsHold(s) && Allowed(s, m) && user in s.users && s.users[user] == r
    requires m.Consume? ==> m.now >= t
    ensures StaleTokens(After(s, m), user, r, t) <= StaleTokens(s, user, r, t)
    ensures |StaleTokens(After(s, m), user, r, t)| + (if GrantsStale(s, m, user, r) then 1 else 0)
            <= |StaleTokens(s, user, r, t)|
  {
    StaleTokensShrink(s, m, user, r, t);
    if GrantsStale(s, m, user, r) {
      StaleGrantSpends(s, m, user, r, t);
      SubsetIsSmaller(StaleTokens(After(s, m), user, r, t), StaleTokens(s, user, r, t) - {s.procs[m.p].jti});
    } else {
      SubsetIsSmaller(StaleTokens(After(s, m), user, r, t), StaleTokens(s, user, r, t));
    }
  }

  ghost function StaleGrants(trace: seq<Sys>, moves: seq<Move>, user: Id, r: Roles, k: nat): nat
    requires |trace| == |moves| + 1 && k <= |moves|
  {
    if k == 0 then 0 else
    StaleGrants(trace, moves, user, r, k - 1) + if GrantsStale(trace[k - 1], moves[k - 1], user, r) then 1 else 0
  }

  /** While the roles of a user stay `r`, each refresh accepted under others uses up a stale token of the start. */
  lemma {:induction false} StaleGrantsUseUpStaleTokens(
      trace: seq<Sys>, moves: seq<Move>, user: Id, r: Roles, t: Time, k: nat)
    requires Path(trace, moves) && Inv(trace[0]) && RolesStay(trace, user, r) && ClockFrom(moves, t) && k <= |moves|
    ensures StaleTokens(trace[k], user, r, t) <= StaleTokens(trace[0], user, r, t)
    ensures StaleGrants(trace, moves, user, r, k) + |StaleTokens(trace[k], user, r, t)|
            <= |StaleTokens(trace[0], user, r, t)|
  {
    if k == 0 {
    } else {
      StaleGrantsUseUpStaleTokens(trace, moves, user, r, t, k - 1);
      InvAlong(trace, moves, k - 1);
      StaleStep(trace[k - 1], moves[k - 1], user, r, t);
    }
  }

  /**
   * Some run from `s` that keeps the roles of `user` at `r`, with clocks from `t` on, accepts a refresh
   * with `jti` under others.
   */
  ghost predicate AcceptedStale(s: Sys, user: Id, r: Roles, t: Time, jti: Id) {
    exists trace, moves, n: nat :: StaleAt(trace, moves, n, s, user, r, t, jti)
  }

  ghost predicate StaleAt(
      trace: seq<Sys>, moves: seq<Move>, n: nat, s: Sys, user: Id, r: Roles, t: Time, jti: Id) {
    && Path(trace, moves) && trace[0] == s && RolesStay(trace, user, r) && ClockFrom(moves, t) && n < |moves|
    && GrantsStale(trace[n], moves[n], user, r) && trace[n].procs[moves[n].p].jti == jti
  }

  /**
   * At any moment of any run, in particular right after a role change: until the roles of the user
   * change again, the tokens a refresh can still be accepted with under other roles are exactly
   * those of the refreshes that had read the user before, and whose token is neither spent, revoked
   * nor expired. Every clock still to be read reads `t` or later.
   */
  lemma AcceptedStaleIff(before: seq<Sys>, done: seq<Move>, user: Id, r: Roles, t: Time, jti: Id)
    requires Behaviour(before, done)
    requires var s := before[|done|]; user in s.users && s.users[user] == r
    ensures AcceptedStale(before[|done|], user, r, t, jti) <==> jti in StaleTokens(before[|done|], user, r, t)
  {
    var s := before[|done|];
    InvAlways(before, done, |done|);
    if AcceptedStale(s, user, r, t, jti) {
      var trace, moves, n: nat :| StaleAt(trace, moves, n, s, user, r, t, jti);
      StaleGrantsUseUpStaleTokens(trace, moves, user, r, t, n);
      StaleGrantSpends(trace[n], moves[n], user, r, t);
    }
    if jti in StaleTokens(s, user, r, t) {
      var p :| p in s.procs && s.procs[p].Verified? && s.procs[p].user == user && s.procs[p].roles != r
               && s.procs[p].jti == jti && jti in ValidOf(s.rows, user, t);
      var trace, moves := VerifiedIsAcceptedSoon(s, p, t);
      assert StaleAt(trace, moves, |moves| - 1, s, user, r, t, jti);
    }
  }

  // ----- when a user must log in again -----

  /** A live token that matches the stored roles, or whose refresh has already been checked against them. */
  ghost predicate Continuable(s: Sys, j: Id, user: Id, r: Roles) {
    || (j in s.info && s.info[j].claims == r)
    || (exists p <- s.procs :: s.procs[p].Verified? && s.procs[p].user == user && s.procs[p].jti == j)
  }

  /**
   * A session of `user` that needs no password, with clocks from `t` on: such a token that has not
   * expired, or a refresh about to insert one.
   */
  ghost predicate HasSession(s: Sys, user: Id, r: Roles, t: Time) {
    || (exists j <- ValidOf(s.rows, user, t) :: Continuable(s, j, user, r))
    || (exists p <- InFlight(s, user) :: s.procs[p].roles == r && s.procs[p].expiresAt > t)
  }

  /** Some run without a sign-in or role change of `user`, with clocks from `t` on, accepts a refresh. */
  ghost predicate CanRefresh(s: Sys, user: Id, r: Roles, t: Time) {
    exists trace, moves, n: nat :: RefreshesAt(trace, moves, n, s, user, r, t)
  }

  ghost predicate RefreshesAt(
      trace: seq<Sys>, moves: seq<Move>, n: nat, s: Sys, user: Id, r: Roles, t: Time) {
    && Path(trace, moves) && trace[0] == s && RolesStay(trace, user, r) && NoSignIn(trace, moves, user)
    && ClockFrom(moves, t)
    && n < |moves| && Accepts(trace[n], moves[n]) && trace[n].procs[moves[n].p].user == user
  }

  lemma AcceptedHadSession(s: Sys, m: Move, user: Id, r: Roles, t: Time)
    requires Accepts(s, m) && s.procs[m.p].user == user && m.now >= t
    ensures HasSession(s, user, r, t)
  {
    assert s.procs[m.p].jti in ValidOf(s.rows, user, t) && Continuable(s, s.procs[m.p].jti, user, r);
  }

  lemma NoSessionStep(s: Sys, m: Move, user: Id, r: Roles, t: Time)
    requires Inv(s) && Allowed(s, m) && user in s.users && s.users[user] == r && (m.Consume? ==> m.now >= t)
    requires !SignsIn(s, m, user) && !HasSession(s, user, r, t)
    ensures !HasSession(After(s, m), user, r, t)
    ensures Accepts(s, m) ==> s.procs[m.p].user != user
  {
    if Accepts(s, m) && s.procs[m.p].user == user {
      AcceptedHadSession(s, m, user, r, t);
      assert false;
    }
    forall p <- InFlight(After(s, m), user)
      ensures After(s, m).procs[p].roles != r || After(s, m).procs[p].expiresAt <= t
    {
      InFlightUnchanged(s, m, user, p);
    }
    forall j <- ValidOf(After(s, m).rows, user, t) ensures !Continuable(After(s, m), j, user, r) {
      NothingContinues(s, m, user, r, t, j);
    }
  }

  /** A live token that could not continue before still cannot. */
  lemma NothingStartsContinuing(s: Sys, m: Move, user: Id, r: Roles, j: Id)
    requires InfoHolds(s) && ProcsHold(s) && Allowed(s, m) && user in s.users && s.users[user] == r
    requires j in s.info && !Continuable(s, j, user, r)
    ensures !Continuable(After(s, m), j, user, r)
  {
    if m.p in s.procs { assert ProcOk(s.info, s.procs[m.p]); }
  }

  /** A token inserted with other roles than the stored ones cannot continue, and nobody has presented it. */
  lemma InsertedCannotContinue(s: Sys, p: ProcId, user: Id, r: Roles)
    requires InfoHolds(s) && ProcsHold(s) && Allowed(s, Insert(p)) && s.procs[p].roles != r
    ensures !Continuable(After(s, Insert(p)), s.procs[p].newJti, user, r)
  {
    assert ProcOk(s.info, s.procs[p]);
    forall o <- s.procs | s.procs[o].Verified? ensures s.procs[o].jti != s.procs[p].newJti {
      assert ProcOk(s.info, s.procs[o]);
    }
  }

  /** Whatever token of `user` a step other than a sign-in makes live was inserted by a refresh in flight. */
  lemma NewTokensWereInFlight(s: Sys, m: Move, user: Id, j: Id)
    requires Allowed(s, m) && !SignsIn(s, m, user)
    requires j in LiveOf(After(s, m).rows, user) && j !in LiveOf(s.rows, user)
    ensures m.Insert? && m.p in InFlight(s, user) && j == s.procs[m.p].newJti
  {
  }

  lemma NothingContinues(s: Sys, m: Move, user: Id, r: Roles, t: Time, j: Id)
    requires Inv(s) && Allowed(s, m) && user in s.users && s.users[user] == r
    requires !SignsIn(s, m, user) && !HasSession(s, user, r, t) && j in ValidOf(After(s, m).rows, user, t)
    ensures !Continuable(After(s, m), j, user, r)
  {
    if j in s.info {
      SpentStaysSpent(s, m, user, t, j);
      NothingStartsContinuing(s, m, user, r, j);
    } else {
      NewTokensWereInFlight(s, m, user, j);
      InsertedExpiry(s, m.p);
      InsertedCannotContinue(s, m.p, user, r);
    }
  }

  lemma InsertedExpiry(s: Sys, p: ProcId)
    requires Allowed(s, Insert(p))
    ensures After(s, Insert(p)).rows[s.procs[p].newJti].expiresAt == s.procs[p].expiresAt
  {
  }

  lemma {:induction false} NoSessionStays(trace: seq<Sys>, moves: seq<Move>, user: Id, r: Roles, t: Time, n: nat)
    requires Path(trace, moves) && Inv(trace[0]) && RolesStay(trace, user, r) && NoSignIn(trace, moves, user)
    requires ClockFrom(moves, t) && n < |trace| && !HasSession(trace[0], user, r, t)
    ensures !HasSession(trace[n], user, r, t)
  {
    if n == 0 {
    } else {
      NoSessionStays(trace, moves, user, r, t, n - 1);
      InvAlong(trace, moves, n - 1);
      NoSessionStep(trace[n - 1], moves[n - 1], user, r, t);
    }
  }

  lemma RefreshesLater(s: Sys, m: Move, user: Id, r: Roles, t: Time)
    requires Allowed(s, m) && !m.Consume? && !SignsIn(s, m, user) && user in s.users && s.users[user] == r
    requires CanRefresh(After(s, m), user, r, t)
    ensures CanRefresh(s, user, r, t)
  {
    var trace, moves, n: nat :| RefreshesAt(trace, moves, n, After(s, m), user, r, t);
    Prepend(s, m, trace, moves);
    var tr, ms := [s] + trace, [m] + moves;
    assert RefreshesAt(tr, ms, n + 1, s, user, r, t) by {
      forall i | 0 <= i < |ms| ensures !SignsIn(tr[i], ms[i], user) {
        if i > 0 { assert tr[i] == trace[i - 1] && ms[i] == moves[i - 1]; }
      }
    }
  }

  lemma VerifiedRefreshes(s: Sys, p: ProcId, user: Id, r: Roles, t: Time)
    requires Inv(s) && user in s.users && s.users[user] == r && p in s.procs && s.procs[p].Verified?
    requires s.procs[p].user == user && s.procs[p].jti in ValidOf(s.rows, user, t)
    ensures CanRefresh(s, user, r, t)
  {
    var trace, moves := VerifiedIsAcceptedSoon(s, p, t);
    assert RefreshesAt(trace, moves, |moves| - 1, s, user, r, t);
  }

  lemma TokenRefreshes(s: Sys, j: Id, user: Id, r: Roles, t: Time)
    requires Inv(s) && user in s.users && s.users[user] == r
    requires j in ValidOf(s.rows, user, t) && s.info[j].claims == r
    ensures CanRefresh(s, user, r, t)
  {
    var p := SomeNatOutside(s.procs.Keys);
    var s1 := After(s, Present(p, j, user));
    MoveKeeps(s, Present(p, j, user));
    MoveKeeps(s1, ReadUser(p));
    VerifiedRefreshes(After(s1, ReadUser(p)), p, user, r, t);
    RefreshesLater(s1, ReadUser(p), user, r, t);
    RefreshesLater(s, Present(p, j, user), user, r, t);
  }

  lemma UnlockedInsertRefreshes(s: Sys, p: ProcId, user: Id, r: Roles, t: Time)
    requires Inv(s) && user in s.users && s.users[user] == r && p in InFlight(s, user)
    requires s.procs[p].roles == r && s.procs[p].expiresAt > t && !UserLocked(s, user)
    ensures CanRefresh(s, user, r, t)
  {
    MoveKeeps(s, Insert(p));
    TokenRefreshes(After(s, Insert(p)), s.procs[p].newJti, user, r, t);
    RefreshesLater(s, Insert(p), user, r, t);
  }

  lemma InFlightRefreshes(s: Sys, p: ProcId, user: Id, r: Roles, t: Time)
    requires Inv(s) && user in s.users && s.users[user] == r && p in InFlight(s, user)
    requires s.procs[p].roles == r && s.procs[p].expiresAt > t
    ensures CanRefresh(s, user, r, t)
  {
    if UserLocked(s, user) {
      var l :| l in s.procs && HoldsUser(s.procs[l], user);
      EndKeeps(s, l);
      UnlockedInsertRefreshes(After(s, Lose(l)), p, user, r, t);
      RefreshesLater(s, Lose(l), user, r, t);
    } else {
      UnlockedInsertRefreshes(s, p, user, r, t);
    }
  }

  /**
   * At any moment of any run, in particular right after a role change: until their roles change
   * again, a user whose roles are `r` can be refreshed without signing in exactly when some unspent,
   * unrevoked, unexpired token of theirs carries `r` or was already checked, or a refresh in flight
   * will insert one that carries `r`. Every clock still to be read reads `t` or later.
   */
  lemma MustSignInAgainIff(before: seq<Sys>, done: seq<Move>, user: Id, r: Roles, t: Time)
    requires Behaviour(before, done)
    requires var s := before[|done|]; user in s.users && s.users[user] == r
    ensures CanRefresh(before[|done|], user, r, t) <==> HasSession(before[|done|], user, r, t)
  {
    var s := before[|done|];
    InvAlways(before, done, |done|);
    if CanRefresh(s, user, r, t) && !HasSession(s, user, r, t) {
      var trace, moves, n: nat :| RefreshesAt(trace, moves, n, s, user, r, t);
      NoSessionStays(trace, moves, user, r, t, n);
      InvAlong(trace, moves, n);
      NoSessionStep(trace[n], moves[n], user, r, t);
      assert false;
    }
    if HasSession(s, user, r, t) { SessionRefreshes(s, user, r, t); }
  }

  lemma SessionRefreshes(s: Sys, user: Id, r: Roles, t: Time)
    requires Inv(s) && user in s.users && s.users[user] == r && HasSession(s, user, r, t)
    ensures CanRefresh(s, user, r, t)
  {
    if p :| p in InFlight(s, user) && s.procs[p].roles == r && s.procs[p].expiresAt > t {
      InFlightRefreshes(s, p, user, r, t);
    } else {
      var j :| j in ValidOf(s.rows, user, t) && Continuable(s, j, user, r);
      if s.info[j].claims == r {
        TokenRefreshes(s, j, user, r, t);
      } else {
        var p :| p in s.procs && s.procs[p].Verified? && s.procs[p].user == user && s.procs[p].jti == j;
        VerifiedRefreshes(s, p, user, r, t);
      }
    }
  }
}
