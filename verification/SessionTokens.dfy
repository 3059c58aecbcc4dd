/**
 * What an issued token says: whose it is, which roles it carries, when it expires and
 * which family it belongs to, from the step that drew its id.
 */
module SessionTokens {
  import opened Common
  import opened Tokens
  import opened Sessions

  // ----- drawing a token id -----

  /** The step draws `jti` for a token to be issued later. */
  predicate DrawsId(m: Move, jti: Id) {
    (m.Login? || m.ReadBack? || m.Consume?) && m.newJti == jti
  }

  /** Wherever `jti` is waiting to be issued or has been issued, it is for `user` and says the same. */
  ghost predicate Says(s: Sys, jti: Id, user: Id, roles: Roles, expiresAt: Time, root: Id) {
    && (jti in s.info ==>
          s.info[jti] == Info(root, roles) && jti in s.rows
          && s.rows[jti].user == user && s.rows[jti].expiresAt == expiresAt)
    && forall p <- s.procs | Draws(s.procs[p]) && s.procs[p].newJti == jti ::
         && s.procs[p].user == user && s.procs[p].roles == roles
         && s.procs[p].expiresAt == expiresAt && Joins(s.procs[p]) == Some(root)
  }

  lemma PublishKeepsSaying(s: Sys, p: ProcId, root: Id, revoke: set<Id>,
      jti: Id, user: Id, roles: Roles, expiresAt: Time, first: Id)
    requires Inv(s) && p in s.procs && Draws(s.procs[p]) && Joins(s.procs[p]) == Some(root)
    requires Says(s, jti, user, roles, expiresAt, first)
    ensures Says(Publish(s, p, root, revoke), jti, user, roles, expiresAt, first)
  {
  }

  lemma SaysStep(s: Sys, m: Move, jti: Id, user: Id, roles: Roles, expiresAt: Time, root: Id)
    requires Inv(s) && Allowed(s, m) && !DrawsId(m, jti) && Says(s, jti, user, roles, expiresAt, root)
    ensures Says(After(s, m), jti, user, roles, expiresAt, root)
  {
    if m.Insert? {
      PublishKeepsSaying(s, m.p, Joins(s.procs[m.p]).value, {}, jti, user, roles, expiresAt, root);
    } else if m.Commit? {
      PublishKeepsSaying(s, m.p, s.procs[m.p].newJti, s.procs[m.p].swept, jti, user, roles, expiresAt, root);
    }
  }

  /** From the step after it was drawn, a token id that is not drawn again keeps saying the same. */
  lemma {:induction false} SaysForever(trace: seq<Sys>, moves: seq<Move>, i: nat, k: nat,
      jti: Id, user: Id, roles: Roles, expiresAt: Time, root: Id)
    requires Behaviour(trace, moves) && i < k < |trace|
    requires Says(trace[i + 1], jti, user, roles, expiresAt, root)
    requires forall n | i < n < k :: !DrawsId(moves[n], jti)
    ensures Says(trace[k], jti, user, roles, expiresAt, root)
    decreases k
  {
    if k == i + 1 {
    } else {
      SaysForever(trace, moves, i, k - 1, jti, user, roles, expiresAt, root);
      SaysNext(trace, moves, k - 1, jti, user, roles, expiresAt, root);
    }
  }

  lemma SaysNext(trace: seq<Sys>, moves: seq<Move>, n: nat,
      jti: Id, user: Id, roles: Roles, expiresAt: Time, root: Id)
    requires Behaviour(trace, moves) && n < |moves| && !DrawsId(moves[n], jti)
    requires Says(trace[n], jti, user, roles, expiresAt, root)
    ensures Says(trace[n + 1], jti, user, roles, expiresAt, root)
  {
    InvAlways(trace, moves, n);
    SaysStep(trace[n], moves[n], jti, user, roles, expiresAt, root);
  }

  // ----- what each kind of token says -----

  /** The token in the table, with the roles printed into it. */
  ghost predicate Issued(s: Sys, jti: Id, user: Id, roles: Roles, expiresAt: Time, root: Id) {
    jti in s.info && jti in s.rows ==>
      && s.info[jti].claims == roles && s.info[jti].root == root
      && s.rows[jti].user == user && s.rows[jti].expiresAt == expiresAt
  }

  /** The token of a login is its user's, carries the roles stored when the login read them, and founds a family. */
  lemma LoginTokenSays(trace: seq<Sys>, moves: seq<Move>, i: nat, k: nat,
      p: ProcId, user: Id, jti: Id, expiresAt: Time)
    requires Behaviour(trace, moves) && i < |moves| && i < k < |trace| && moves[i] == Login(p, user, jti, expiresAt)
    requires forall n | i < n < k :: !DrawsId(moves[n], jti)
    ensures user in trace[i].users
    ensures Issued(trace[k], jti, user, trace[i].users[user], expiresAt, jti)
  {
    InvAlways(trace, moves, i);
    SaysForever(trace, moves, i, k, jti, user, trace[i].users[user], expiresAt, jti);
  }

  /** Likewise that of a sign-up, which reads the roles back after creating the user. */
  lemma SignUpTokenSays(trace: seq<Sys>, moves: seq<Move>, i: nat, k: nat, p: ProcId, jti: Id, expiresAt: Time)
    requires Behaviour(trace, moves) && i < |moves| && i < k < |trace| && moves[i] == ReadBack(p, jti, expiresAt)
    requires forall n | i < n < k :: !DrawsId(moves[n], jti)
    ensures p in trace[i].procs && trace[i].procs[p].Created? && trace[i].procs[p].user in trace[i].users
    ensures var user := trace[i].procs[p].user;
            Issued(trace[k], jti, user, trace[i].users[user], expiresAt, jti)
  {
    InvAlways(trace, moves, i);
    var user := trace[i].procs[p].user;
    SaysForever(trace, moves, i, k, jti, user, trace[i].users[user], expiresAt, jti);
  }

  /** The token of an accepted refresh is for the owner of the spent one, in its family, with its roles. */
  lemma RefreshTokenSays(trace: seq<Sys>, moves: seq<Move>, i: nat, k: nat,
      p: ProcId, now: Time, jti: Id, expiresAt: Time)
    requires Behaviour(trace, moves) && i < |moves| && i < k < |trace|
    requires moves[i] == Consume(p, now, jti, expiresAt) && Accepts(trace[i], moves[i])
    requires forall n | i < n < k :: !DrawsId(moves[n], jti)
    ensures var s := trace[i];
            var spent := s.procs[p].jti;
            && spent in s.rows && spent in s.info && !s.rows[spent].revoked && s.rows[spent].expiresAt > now
            && spent in trace[i + 1].rows && trace[i + 1].rows[spent].revoked
            && Issued(trace[k], jti, s.rows[spent].user, s.info[spent].claims, expiresAt, s.info[spent].root)
  {
    InvAlways(trace, moves, i);
    var s := trace[i];
    var spent := s.procs[p].jti;
    assert ProcOk(s.info, s.procs[p]);
    SaysForever(trace, moves, i, k, jti, s.rows[spent].user, s.info[spent].claims, expiresAt, s.info[spent].root);
  }

  // ----- what a role change writes -----

  ghost predicate ForChange(q: Proc, user: Id, roles: Roles) {
    (q.Revoking? || q.Changing?) && q.user == user && q.roles == roles
  }

  lemma ChangeNext(trace: seq<Sys>, moves: seq<Move>, p: ProcId, user: Id, roles: Roles, n: nat)
    requires Behaviour(trace, moves) && n < |moves| && p in trace[n].procs && ForChange(trace[n].procs[p], user, roles)
    requires moves[n].p != p || moves[n] == Revoke(p)
    ensures p in trace[n + 1].procs && ForChange(trace[n + 1].procs[p], user, roles)
  {
    if moves[n].p != p { OthersUntouched(trace[n], moves[n], p); }
  }

  lemma {:induction false} ChangeUnderWay(trace: seq<Sys>, moves: seq<Move>, p: ProcId, user: Id, roles: Roles,
      i: nat, k: nat)
    requires Behaviour(trace, moves) && i < k < |trace| && moves[i] == ChangeRole(p, user, roles)
    requires forall n | i < n < k :: moves[n].p != p || moves[n] == Revoke(p)
    ensures p in trace[k].procs && ForChange(trace[k].procs[p], user, roles)
    decreases k
  {
    if k == i + 1 {
    } else {
      ChangeUnderWay(trace, moves, p, user, roles, i, k - 1);
      ChangeNext(trace, moves, p, user, roles, k - 1);
    }
  }

  /** A role change that runs to its end gives the user, if there is one, exactly the roles asked for. */
  lemma RoleChangeTakesEffect(trace: seq<Sys>, moves: seq<Move>, p: ProcId, user: Id, roles: Roles, i: nat, k: nat)
    requires Behaviour(trace, moves) && i < k < |moves|
    requires moves[i] == ChangeRole(p, user, roles) && moves[k] == SetRoles(p)
    requires forall n | i < n < k :: moves[n].p != p || moves[n] == Revoke(p)
    ensures trace[k + 1].users == if user in trace[k].users then trace[k].users[user := roles] else trace[k].users
  {
    ChangeUnderWay(trace, moves, p, user, roles, i, k);
  }

  /** No other step changes anybody's roles; a sign-up adds its user with the roles given. */
  lemma RolesChangeOnlySo(s: Sys, m: Move, user: Id)
    requires Allowed(s, m) && user in s.users && !(m.SetRoles? && s.procs[m.p].user == user)
    ensures user in After(s, m).users && After(s, m).users[user] == s.users[user]
    ensures m.SignUp? ==> After(s, m).users == s.users[m.user := m.roles]
  {
  }
}
