/**
 * Login, sign-up, refresh and role change as concurrent sequences of database
 * steps. A sign-up creates the user, reads its roles back, then inserts its token.
 * A refresh reads the user, then consumes its token, then inserts the next
 * one, with anything in between. A login locks the user row, revokes the tokens
 * it finds, and publishes both effects at COMMIT. A role change revokes the
 * user's tokens in one UPDATE, which takes its snapshot first and writes later,
 * then rewrites the roles.
 *
 * A family is everything descended by refreshes from the token of one login or
 * sign-up; it is named by that first token.
 */
module Sessions {
  import opened Common
  import opened Tokens

  type ProcId = nat

  /** The active roles of a user, as printed into a token. */
  datatype Roles = Roles(student: bool, organizer: bool, admin: bool)

  /** `roles` are those read from the tables; `claims` those printed in the presented token. */
  datatype Proc =
    | Presented(jti: Id, user: Id, claims: Roles)
    | Verified(jti: Id, user: Id, roles: Roles)
    | Rotating(user: Id, newJti: Id, expiresAt: Time, root: Id, roles: Roles)
    | Created(user: Id)
    | SigningUp(user: Id, newJti: Id, expiresAt: Time, roles: Roles)
    | LoggingIn(user: Id, newJti: Id, expiresAt: Time, roles: Roles)
    | Locked(user: Id, newJti: Id, expiresAt: Time, roles: Roles)
    | Swept(user: Id, newJti: Id, expiresAt: Time, roles: Roles, swept: set<Id>)
    | Revoking(user: Id, roles: Roles, seen: set<Id>)
    | Changing(user: Id, roles: Roles)

  /** History of an issued token: its family and the roles it carries. */
  datatype Info = Info(root: Id, claims: Roles)

  /** History of an accepted refresh: the token spent and the roles granted. */
  datatype Grant = Grant(jti: Id, user: Id, roles: Roles)

  datatype Sys = Sys(
    rows: Table, users: map<Id, Roles>, procs: map<ProcId, Proc>,
    info: map<Id, Info>, accepted: seq<Grant>)

  datatype Move =
    | Present(p: ProcId, jti: Id, user: Id)
    | ReadUser(p: ProcId)
    | Consume(p: ProcId, now: Time, newJti: Id, expiresAt: Time)
    | Insert(p: ProcId)
    | SignUp(p: ProcId, user: Id, roles: Roles)
    | ReadBack(p: ProcId, newJti: Id, expiresAt: Time)
    | Login(p: ProcId, user: Id, newJti: Id, expiresAt: Time)
    | LockUser(p: ProcId)
    | Sweep(p: ProcId)
    | Commit(p: ProcId)
    | ChangeRole(p: ProcId, user: Id, roles: Roles)
    | Revoke(p: ProcId)
    | SetRoles(p: ProcId)
    | Lose(p: ProcId)

  /** A token id has been drawn for this process, and is not in the table yet. */
  predicate Draws(q: Proc) {
    q.Rotating? || q.SigningUp? || q.LoggingIn? || q.Locked? || q.Swept?
  }

  /** The family a process is about to add a token to. */
  function Joins(q: Proc): Option<Id> {
    if q.Rotating? then Some(q.root) else if Draws(q) then Some(q.newJti) else None
  }

  predicate HoldsUser(q: Proc, user: Id) {
    (q.Locked? || q.Swept?) && q.user == user
  }

  ghost predicate UserLocked(s: Sys, user: Id) {
    exists p <- s.procs :: HoldsUser(s.procs[p], user)
  }

  /** An uncommitted login has updated this token row. */
  ghost predicate RowLocked(s: Sys, jti: Id) {
    exists p <- s.procs :: s.procs[p].Swept? && jti in s.procs[p].swept
  }

  ghost predicate Fresh(s: Sys, jti: Id) {
    jti !in s.rows && forall p <- s.procs | Draws(s.procs[p]) :: s.procs[p].newJti != jti
  }

  /**
   * The rows a revocation writes: those its snapshot saw whose latest version still
   * matches. Rows inserted after the snapshot are not among them.
   */
  function Revocable(s: Sys, q: Proc): set<Id>
    requires q.Revoking?
  {
    q.seen * LiveOf(s.rows, q.user)
  }

  /**
   * What a step waits for. A token insert takes a key-share lock on its user row, so it
   * waits for a login that holds that row; so does the rewriting of the user's role.
   */
  ghost predicate Allowed(s: Sys, m: Move) {
    match m
    case Present(p, jti, _) => p !in s.procs && jti in s.info
    case ReadUser(p) => p in s.procs && s.procs[p].Presented?
    case Consume(p, _, newJti, _) =>
      p in s.procs && s.procs[p].Verified? && !RowLocked(s, s.procs[p].jti) && Fresh(s, newJti)
    case Insert(p) =>
      p in s.procs && (s.procs[p].Rotating? || s.procs[p].SigningUp?) && !UserLocked(s, s.procs[p].user)
    case SignUp(p, user, _) => p !in s.procs && user !in s.users
    case ReadBack(p, newJti, _) =>
      p in s.procs && s.procs[p].Created? && s.procs[p].user in s.users && Fresh(s, newJti)
    case Login(p, user, newJti, _) => p !in s.procs && user in s.users && Fresh(s, newJti)
    case LockUser(p) => p in s.procs && s.procs[p].LoggingIn? && !UserLocked(s, s.procs[p].user)
    case Sweep(p) => p in s.procs && s.procs[p].Locked?
    case Commit(p) => p in s.procs && s.procs[p].Swept?
    case ChangeRole(p, _, _) => p !in s.procs
    case Revoke(p) =>
      p in s.procs && s.procs[p].Revoking? && forall j <- Revocable(s, s.procs[p]) :: !RowLocked(s, j)
    case SetRoles(p) => p in s.procs && s.procs[p].Changing? && !UserLocked(s, s.procs[p].user)
    case Lose(p) => p in s.procs
  }

  function End(s: Sys, p: ProcId): Sys {
    s.(procs := s.procs - {p})
  }

  function Continue(s: Sys, p: ProcId, q: Proc): Sys {
    s.(procs := s.procs[p := q])
  }

  function Publish(s: Sys, p: ProcId, root: Id, revoke: set<Id>): Sys
    requires p in s.procs && Draws(s.procs[p])
  {
    var q := s.procs[p];
    End(s, p).(rows := Issue(RevokeAll(s.rows, revoke), q.newJti, q.user, q.expiresAt),
               info := s.info[q.newJti := Info(root, q.roles)])
  }

  /** A token is spent: its refresh now owes its family one insert, with the roles it read. */
  function Accept(s: Sys, p: ProcId, newJti: Id, expiresAt: Time): Sys
    requires p in s.procs && s.procs[p].Verified? && s.procs[p].jti in s.info
  {
    var q := s.procs[p];
    Continue(s, p, Rotating(q.user, newJti, expiresAt, s.info[q.jti].root, q.roles)).(
      rows := RevokeAll(s.rows, {q.jti}), accepted := s.accepted + [Grant(q.jti, q.user, q.roles)])
  }

  /** A consume finds its token live, unexpired and of this user. */
  ghost predicate Accepts(s: Sys, m: Move) {
    && m.Consume? && m.p in s.procs && s.procs[m.p].Verified?
    && Consumable(s.rows, s.procs[m.p].jti, s.procs[m.p].user, m.now) && s.procs[m.p].jti in s.info
  }

  /** The refresh goes on only if the token's roles are the user's active roles now. */
  function UserRead(s: Sys, p: ProcId): Sys
    requires p in s.procs && s.procs[p].Presented?
  {
    var q := s.procs[p];
    if q.user in s.users && q.claims == s.users[q.user] then Continue(s, p, Verified(q.jti, q.user, s.users[q.user]))
    else End(s, p)
  }

  function Revoked(s: Sys, p: ProcId): Sys
    requires p in s.procs && s.procs[p].Revoking?
  {
    var q := s.procs[p];
    Continue(s, p, Changing(q.user, q.roles)).(rows := RevokeAll(s.rows, Revocable(s, q)))
  }

  function RolesSet(s: Sys, p: ProcId): Sys
    requires p in s.procs && s.procs[p].Changing?
  {
    var q := s.procs[p];
    if q.user in s.users then End(s, p).(users := s.users[q.user := q.roles]) else End(s, p)
  }

  ghost function After(s: Sys, m: Move): Sys
    requires Allowed(s, m)
  {
    match m
    case Present(p, jti, user) => Continue(s, p, Presented(jti, user, s.info[jti].claims))
    case ReadUser(p) => UserRead(s, p)
    case Consume(p, _, newJti, expiresAt) => if Accepts(s, m) then Accept(s, p, newJti, expiresAt) else End(s, p)
    case Insert(p) => Publish(s, p, Joins(s.procs[p]).value, {})
    case SignUp(p, user, roles) => Continue(s, p, Created(user)).(users := s.users[user := roles])
    case ReadBack(p, newJti, expiresAt) =>
      var user := s.procs[p].user; Continue(s, p, SigningUp(user, newJti, expiresAt, s.users[user]))
    case Login(p, user, newJti, expiresAt) => Continue(s, p, LoggingIn(user, newJti, expiresAt, s.users[user]))
    case LockUser(p) =>
      var q := s.procs[p]; Continue(s, p, Locked(q.user, q.newJti, q.expiresAt, q.roles))
    case Sweep(p) =>
      var q := s.procs[p]; Continue(s, p, Swept(q.user, q.newJti, q.expiresAt, q.roles, LiveOf(s.rows, q.user)))
    case Commit(p) => Publish(s, p, s.procs[p].newJti, s.procs[p].swept)
    case ChangeRole(p, user, roles) => Continue(s, p, Revoking(user, roles, LiveOf(s.rows, user)))
    case Revoke(p) => Revoked(s, p)
    case SetRoles(p) => RolesSet(s, p)
    case Lose(p) => End(s, p)
  }

  const START := Sys(map[], map[], map[], map[], [])

  /** A finite run from any state. */
  ghost predicate Path(trace: seq<Sys>, moves: seq<Move>) {
    && |trace| == |moves| + 1
    && forall i | 0 <= i < |moves| :: Allowed(trace[i], moves[i]) && trace[i + 1] == After(trace[i], moves[i])
  }

  ghost predicate Behaviour(trace: seq<Sys>, moves: seq<Move>) {
    Path(trace, moves) && trace[0] == START
  }

  // ----- families -----

  /** Someone who can still continue family `root`: a live token, or a process about to insert one. */
  datatype Bearer = Token(jti: Id) | Pending(p: ProcId)

  ghost predicate Bears(s: Sys, b: Bearer, root: Id) {
    match b
    case Token(j) => j in s.rows && j in s.info && !s.rows[j].revoked && s.info[j].root == root
    case Pending(p) => p in s.procs && Joins(s.procs[p]) == Some(root)
  }

  ghost predicate OneBearer(s: Sys) {
    forall a: Bearer, b: Bearer, root: Id | Bears(s, a, root) && Bears(s, b, root) :: a == b
  }

  /** Every token carries the roles of its family's first token, which is in the table. */
  ghost predicate InfoHolds(s: Sys) {
    && s.info.Keys == s.rows.Keys
    && (forall j <- s.info :: InFamily(s.info, s.info[j].root, s.info[j].claims))
  }

  predicate InFamily(info: map<Id, Info>, root: Id, claims: Roles) {
    root in info && info[root] == Info(root, claims)
  }

  /** What a process knows: its drawn id is unused, and the roles it read are those of its token. */
  predicate ProcOk(info: map<Id, Info>, q: Proc) {
    if Draws(q) then q.newJti !in info && (q.Rotating? ==> InFamily(info, q.root, q.roles))
    else if q.Presented? then q.jti in info && info[q.jti].claims == q.claims
    else if q.Verified? then q.jti in info && info[q.jti].claims == q.roles
    else true
  }

  ghost predicate DistinctDraws(procs: map<ProcId, Proc>) {
    forall p <- procs, q <- procs | Draws(procs[p]) && Draws(procs[q]) && procs[p].newJti == procs[q].newJti :: p == q
  }

  ghost predicate ProcsHold(s: Sys) {
    (forall p <- s.procs :: ProcOk(s.info, s.procs[p])) && DistinctDraws(s.procs)
  }

  /** Accepted tokens are spent, and each was accepted once. */
  ghost predicate AcceptedOnce(s: Sys) {
    && (forall i | 0 <= i < |s.accepted| :: s.accepted[i].jti in s.rows && s.rows[s.accepted[i].jti].revoked)
    && (forall i, k | 0 <= i < k < |s.accepted| :: s.accepted[i].jti != s.accepted[k].jti)
  }

  /** A user row has one holder, and nothing moves under the rows a login has swept. */
  ghost predicate LocksHold(s: Sys) {
    && (forall p <- s.procs, q <- s.procs, user: Id | HoldsUser(s.procs[p], user) && HoldsUser(s.procs[q], user) ::
          p == q)
    && (forall p <- s.procs | s.procs[p].Swept? :: s.procs[p].swept == LiveOf(s.rows, s.procs[p].user))
  }

  ghost predicate Inv(s: Sys) {
    InfoHolds(s) && ProcsHold(s) && OneBearer(s) && AcceptedOnce(s) && LocksHold(s)
  }

  /** If nobody gained a family they did not have, nobody shares one. */
  lemma FewerBearers(s: Sys, s': Sys)
    requires OneBearer(s)
    requires forall b: Bearer, root: Id | Bears(s', b, root) :: Bears(s, b, root)
    ensures OneBearer(s')
  {
  }

  /** The bearer of `root` is replaced: `was` leaves as `now` arrives. */
  lemma BearerHandsOver(s: Sys, s': Sys, was: Bearer, now: Bearer, root: Id)
    requires OneBearer(s) && Bears(s, was, root)
    requires forall b: Bearer, r: Id | Bears(s', b, r) :: (b == now && r == root) || (Bears(s, b, r) && b != was)
    ensures OneBearer(s')
  {
    forall a: Bearer, b: Bearer, r: Id | Bears(s', a, r) && Bears(s', b, r) ensures a == b {
    }
  }

  /** A new family has only its founder. */
  lemma BearerFounds(s: Sys, s': Sys, now: Bearer, root: Id)
    requires OneBearer(s) && !(exists b: Bearer :: Bears(s, b, root))
    requires forall b: Bearer, r: Id | Bears(s', b, r) :: (b == now && r == root) || Bears(s, b, r)
    ensures OneBearer(s')
  {
  }

  lemma NobodyBearsFresh(s: Sys, jti: Id)
    requires InfoHolds(s) && ProcsHold(s) && Fresh(s, jti)
    ensures !(exists b: Bearer :: Bears(s, b, jti))
  {
  }

  // ----- locks -----

  lemma RevokeAllKeepsOthers(rows: Table, js: set<Id>, user: Id)
    requires js !! LiveOf(rows, user)
    ensures LiveOf(RevokeAll(rows, js), user) == LiveOf(rows, user)
  {
  }

  /** The table changes only for users whose row no login has swept. */
  lemma LocksSurvive(s: Sys, s': Sys)
    requires LocksHold(s)
    requires forall p <- s'.procs, user: Id | HoldsUser(s'.procs[p], user) :: p in s.procs && s'.procs[p] == s.procs[p]
    requires forall p <- s'.procs | s'.procs[p].Swept? ::
             LiveOf(s'.rows, s'.procs[p].user) == LiveOf(s.rows, s'.procs[p].user)
    ensures LocksHold(s')
  {
    assert forall p <- s'.procs | s'.procs[p].Swept? :: HoldsUser(s'.procs[p], s'.procs[p].user);
  }

  /** Every live token of a user whose rows a login has swept is locked. */
  lemma UnlockedIsNotSwept(s: Sys, p: ProcId, jti: Id)
    requires LocksHold(s) && p in s.procs && s.procs[p].Swept? && !RowLocked(s, jti)
    ensures jti !in LiveOf(s.rows, s.procs[p].user)
  {
  }

  lemma ConsumeKeepsLocks(s: Sys, m: Move)
    requires LocksHold(s) && Allowed(s, m) && Accepts(s, m)
    ensures LocksHold(After(s, m))
  {
    var q := s.procs[m.p];
    forall p <- s.procs | s.procs[p].Swept? && p != m.p
      ensures LiveOf(After(s, m).rows, s.procs[p].user) == LiveOf(s.rows, s.procs[p].user)
    {
      UnlockedIsNotSwept(s, p, q.jti);
      RevokeAllKeepsOthers(s.rows, {q.jti}, s.procs[p].user);
    }
    LocksSurvive(s, After(s, m));
  }

  lemma RevokeKeepsLocks(s: Sys, p: ProcId)
    requires LocksHold(s) && Allowed(s, Revoke(p))
    ensures LocksHold(After(s, Revoke(p)))
  {
    var s', js := After(s, Revoke(p)), Revocable(s, s.procs[p]);
    forall o <- s.procs | s.procs[o].Swept? && o != p
      ensures LiveOf(s'.rows, s.procs[o].user) == LiveOf(s.rows, s.procs[o].user)
    {
      forall j <- js ensures j !in LiveOf(s.rows, s.procs[o].user) {
        UnlockedIsNotSwept(s, o, j);
      }
      RevokeAllKeepsOthers(s.rows, js, s.procs[o].user);
    }
    LocksSurvive(s, s');
  }

  lemma IssueKeepsOthers(rows: Table, jti: Id, owner: Id, expiresAt: Time, user: Id)
    requires jti !in rows && owner != user
    ensures LiveOf(Issue(rows, jti, owner, expiresAt), user) == LiveOf(rows, user)
  {
  }

  /** Only the holder of a user row adds tokens of that user while it is held. */
  lemma PublishKeepsLocks(s: Sys, p: ProcId, root: Id, revoke: set<Id>)
    requires LocksHold(s) && InfoHolds(s) && ProcsHold(s) && p in s.procs && Draws(s.procs[p])
    requires forall j <- revoke :: j in LiveOf(s.rows, s.procs[p].user)
    requires forall o <- s.procs | o != p :: !HoldsUser(s.procs[o], s.procs[p].user)
    ensures LocksHold(Publish(s, p, root, revoke))
  {
    var q := s.procs[p];
    assert ProcOk(s.info, q);
    var revoked := RevokeAll(s.rows, revoke);
    forall o <- s.procs | s.procs[o].Swept? && o != p
      ensures LiveOf(Publish(s, p, root, revoke).rows, s.procs[o].user) == LiveOf(s.rows, s.procs[o].user)
    {
      assert HoldsUser(s.procs[o], s.procs[o].user);
      RevokeAllKeepsOthers(s.rows, revoke, s.procs[o].user);
      IssueKeepsOthers(revoked, q.newJti, q.user, q.expiresAt, s.procs[o].user);
    }
    LocksSurvive(s, Publish(s, p, root, revoke));
  }

  // ----- each kind of step keeps the invariant -----

  lemma EndKeeps(s: Sys, p: ProcId)
    requires Inv(s) && p in s.procs
    ensures Inv(End(s, p))
  {
    FewerBearers(s, End(s, p));
  }

  /** Processes that have drawn nothing and hold no lock: readers, new users, revocations and role changes. */
  predicate Idle(q: Proc) {
    q.Presented? || q.Verified? || q.Created? || q.Revoking? || q.Changing?
  }

  lemma IdleKeeps(s: Sys, p: ProcId, q: Proc)
    requires Inv(s) && Idle(q) && ProcOk(s.info, q)
    ensures Inv(Continue(s, p, q))
  {
    FewerBearers(s, Continue(s, p, q));
    LocksSurvive(s, Continue(s, p, q));
  }

  /** A login moving on with the jti it has drawn. */
  lemma LoginKeeps(s: Sys, p: ProcId, q: Proc)
    requires Inv(s) && p in s.procs && Draws(s.procs[p]) && !s.procs[p].Rotating?
    requires Draws(q) && !q.Rotating? && q.newJti == s.procs[p].newJti && q.user == s.procs[p].user
    requires HoldsUser(q, q.user) ==> forall o <- s.procs | o != p :: !HoldsUser(s.procs[o], q.user)
    requires q.Swept? ==> q.swept == LiveOf(s.rows, q.user)
    ensures Inv(Continue(s, p, q))
  {
    FewerBearers(s, Continue(s, p, q));
  }

  lemma FounderKeeps(s: Sys, p: ProcId, q: Proc)
    requires Inv(s) && (p in s.procs ==> Idle(s.procs[p])) && (q.SigningUp? || q.LoggingIn?) && Fresh(s, q.newJti)
    ensures Inv(Continue(s, p, q))
  {
    NobodyBearsFresh(s, q.newJti);
    BearerFounds(s, Continue(s, p, q), Pending(p), q.newJti);
    LocksSurvive(s, Continue(s, p, q));
  }

  lemma RevokeKeeps(s: Sys, p: ProcId)
    requires Inv(s) && Allowed(s, Revoke(p))
    ensures Inv(After(s, Revoke(p)))
  {
    var q := s.procs[p];
    RevokeKeepsLocks(s, p);
    FewerBearers(s, After(s, Revoke(p)));
  }

  ghost predicate MayAccept(s: Sys, p: ProcId, newJti: Id) {
    && p in s.procs && s.procs[p].Verified? && Fresh(s, newJti)
    && s.procs[p].jti in s.rows && !s.rows[s.procs[p].jti].revoked
    && InfoHolds(s)
  }

  /** The spent token hands its family to the refresh that spent it. */
  lemma AcceptHandsOver(s: Sys, p: ProcId, newJti: Id, expiresAt: Time)
    requires MayAccept(s, p, newJti) && OneBearer(s)
    ensures OneBearer(Accept(s, p, newJti, expiresAt))
  {
    var q := s.procs[p];
    BearerHandsOver(s, Accept(s, p, newJti, expiresAt), Token(q.jti), Pending(p), s.info[q.jti].root);
  }

  lemma AcceptKeepsBooks(s: Sys, p: ProcId, newJti: Id, expiresAt: Time)
    requires MayAccept(s, p, newJti) && ProcsHold(s)
    ensures InfoHolds(Accept(s, p, newJti, expiresAt)) && ProcsHold(Accept(s, p, newJti, expiresAt))
  {
    assert ProcOk(s.info, s.procs[p]);
  }

  lemma AcceptSpends(s: Sys, p: ProcId, newJti: Id, expiresAt: Time)
    requires MayAccept(s, p, newJti) && AcceptedOnce(s)
    ensures AcceptedOnce(Accept(s, p, newJti, expiresAt))
  {
  }

  /** The inserted token takes over its family from the process that inserted it. */
  lemma PublishHandsOver(s: Sys, p: ProcId, root: Id, revoke: set<Id>)
    requires OneBearer(s) && InfoHolds(s) && ProcsHold(s)
    requires p in s.procs && Draws(s.procs[p]) && Joins(s.procs[p]) == Some(root)
    ensures OneBearer(Publish(s, p, root, revoke))
  {
    BearerHandsOver(s, Publish(s, p, root, revoke), Pending(p), Token(s.procs[p].newJti), root);
  }

  lemma PublishKeepsBooks(s: Sys, p: ProcId, root: Id, revoke: set<Id>)
    requires InfoHolds(s) && ProcsHold(s) && p in s.procs && Draws(s.procs[p]) && Joins(s.procs[p]) == Some(root)
    ensures InfoHolds(Publish(s, p, root, revoke)) && ProcsHold(Publish(s, p, root, revoke))
  {
    var q := s.procs[p];
    var info := s.info[q.newJti := Info(root, q.roles)];
    forall o <- s.procs | o != p ensures ProcOk(info, s.procs[o]) {
      assert ProcOk(s.info, s.procs[o]);
    }
  }

  lemma PublishSpendsNothing(s: Sys, p: ProcId, root: Id, revoke: set<Id>)
    requires InfoHolds(s) && ProcsHold(s) && AcceptedOnce(s) && p in s.procs && Draws(s.procs[p])
    ensures AcceptedOnce(Publish(s, p, root, revoke))
  {
  }

  lemma PublishKeeps(s: Sys, p: ProcId, root: Id, revoke: set<Id>)
    requires Inv(s) && p in s.procs && Draws(s.procs[p]) && Joins(s.procs[p]) == Some(root)
    requires forall j <- revoke :: j in LiveOf(s.rows, s.procs[p].user)
    requires forall o <- s.procs | o != p :: !HoldsUser(s.procs[o], s.procs[p].user)
    ensures Inv(Publish(s, p, root, revoke))
  {
    PublishHandsOver(s, p, root, revoke);
    PublishKeepsBooks(s, p, root, revoke);
    PublishSpendsNothing(s, p, root, revoke);
    PublishKeepsLocks(s, p, root, revoke);
  }

  lemma CommitKeeps(s: Sys, p: ProcId)
    requires Inv(s) && Allowed(s, Commit(p))
    ensures Inv(After(s, Commit(p)))
  {
    assert HoldsUser(s.procs[p], s.procs[p].user);
    PublishKeeps(s, p, s.procs[p].newJti, s.procs[p].swept);
  }

  lemma ConsumeKeeps(s: Sys, m: Move)
    requires Inv(s) && Allowed(s, m) && m.Consume?
    ensures Inv(After(s, m))
  {
    if Accepts(s, m) {
      AcceptHandsOver(s, m.p, m.newJti, m.expiresAt);
      AcceptKeepsBooks(s, m.p, m.newJti, m.expiresAt);
      AcceptSpends(s, m.p, m.newJti, m.expiresAt);
      ConsumeKeepsLocks(s, m);
    } else {
      EndKeeps(s, m.p);
    }
  }

  lemma UserReadKeeps(s: Sys, p: ProcId)
    requires Inv(s) && Allowed(s, ReadUser(p))
    ensures Inv(UserRead(s, p))
  {
    var q := s.procs[p];
    assert ProcOk(s.info, q);
    if q.user in s.users && q.claims == s.users[q.user] {
      IdleKeeps(s, p, Verified(q.jti, q.user, s.users[q.user]));
    } else {
      EndKeeps(s, p);
    }
  }

  lemma UsersMayChange(s: Sys, users: map<Id, Roles>)
    requires Inv(s)
    ensures Inv(s.(users := users))
  {
    FewerBearers(s, s.(users := users));
  }

  lemma MoveKeeps(s: Sys, m: Move)
    requires Inv(s) && Allowed(s, m)
    ensures Inv(After(s, m))
  {
    match m
    case Present(p, jti, user) => IdleKeeps(s, p, Presented(jti, user, s.info[jti].claims));
    case ReadUser(p) => UserReadKeeps(s, p);
    case Consume(_, _, _, _) => ConsumeKeeps(s, m);
    case Insert(p) => PublishKeeps(s, p, Joins(s.procs[p]).value, {});
    case SignUp(p, user, roles) =>
      IdleKeeps(s, p, Created(user));
      UsersMayChange(Continue(s, p, Created(user)), s.users[user := roles]);
    case ReadBack(p, newJti, expiresAt) =>
      FounderKeeps(s, p, SigningUp(s.procs[p].user, newJti, expiresAt, s.users[s.procs[p].user]));
    case Login(p, user, newJti, expiresAt) => FounderKeeps(s, p, LoggingIn(user, newJti, expiresAt, s.users[user]));
    case LockUser(p) =>
      var q := s.procs[p];
      LoginKeeps(s, p, Locked(q.user, q.newJti, q.expiresAt, q.roles));
    case Sweep(p) =>
      var q := s.procs[p];
      assert HoldsUser(q, q.user);
      LoginKeeps(s, p, Swept(q.user, q.newJti, q.expiresAt, q.roles, LiveOf(s.rows, q.user)));
    case Commit(p) => CommitKeeps(s, p);
    case ChangeRole(p, user, roles) => IdleKeeps(s, p, Revoking(user, roles, LiveOf(s.rows, user)));
    case Revoke(p) => RevokeKeeps(s, p);
    case SetRoles(p) =>
      EndKeeps(s, p);
      if s.procs[p].user in s.users { UsersMayChange(End(s, p), s.users[s.procs[p].user := s.procs[p].roles]); }
    case Lose(p) => EndKeeps(s, p);
  }

  lemma {:induction false} InvAlong(trace: seq<Sys>, moves: seq<Move>, i: nat)
    requires Path(trace, moves) && Inv(trace[0]) && i < |trace|
    ensures Inv(trace[i])
  {
    if i == 0 {
    } else {
      InvAlong(trace, moves, i - 1);
      MoveKeeps(trace[i - 1], moves[i - 1]);
    }
  }

  lemma InvAlways(trace: seq<Sys>, moves: seq<Move>, i: nat)
    requires Behaviour(trace, moves) && i < |trace|
    ensures Inv(trace[i])
  {
    assert Inv(START);
    InvAlong(trace, moves, i);
  }

  // ----- a process between two of its steps -----

  lemma OthersUntouched(s: Sys, m: Move, p: ProcId)
    requires Allowed(s, m) && m.p != p && p in s.procs
    ensures p in After(s, m).procs && After(s, m).procs[p] == s.procs[p]
  {
  }

  lemma OthersUntouchedAt(trace: seq<Sys>, moves: seq<Move>, p: ProcId, n: nat)
    requires Path(trace, moves) && n < |moves| && moves[n].p != p && p in trace[n].procs
    ensures p in trace[n + 1].procs && trace[n + 1].procs[p] == trace[n].procs[p]
  {
    OthersUntouched(trace[n], moves[n], p);
  }

  /** While only others move, a process is as its last step left it. */
  lemma {:induction false} Unmoved(trace: seq<Sys>, moves: seq<Move>, p: ProcId, q: Proc, i: nat, n: nat)
    requires Path(trace, moves) && i < n < |trace|
    requires p in trace[i + 1].procs && trace[i + 1].procs[p] == q
    requires forall k | i < k < n :: moves[k].p != p
    ensures p in trace[n].procs && trace[n].procs[p] == q
    decreases n
  {
    if n == i + 1 {
    } else {
      Unmoved(trace, moves, p, q, i, n - 1);
      OthersUntouchedAt(trace, moves, p, n - 1);
    }
  }

  // ----- what every run guarantees -----

  /** A login or sign-up never has two descendants that could still be refreshed, whatever interleaves. */
  lemma AtMostOneBearerPerFamily(trace: seq<Sys>, moves: seq<Move>, i: nat, root: Id, a: Bearer, b: Bearer)
    requires Behaviour(trace, moves) && i < |trace|
    requires Bears(trace[i], a, root) && Bears(trace[i], b, root)
    ensures a == b
  {
    InvAlways(trace, moves, i);
  }

  /** No refresh token is accepted twice in a run. */
  lemma NoTokenAcceptedTwice(trace: seq<Sys>, moves: seq<Move>, i: nat, m: nat, n: nat)
    requires Behaviour(trace, moves) && i < |trace|
    requires m < n < |trace[i].accepted|
    ensures trace[i].accepted[m].jti != trace[i].accepted[n].jti
  {
    InvAlways(trace, moves, i);
  }

  /**
   * Refreshing never changes the roles a family was issued with, although each new token
   * is minted from the user's stored roles: a refresh is refused when those differ.
   */
  lemma FamiliesKeepTheirRoles(trace: seq<Sys>, moves: seq<Move>, i: nat, j: Id)
    requires Behaviour(trace, moves) && i < |trace| && j in trace[i].info
    ensures var root := trace[i].info[j].root;
            root in trace[i].info && trace[i].info[j].claims == trace[i].info[root].claims
  {
    InvAlways(trace, moves, i);
    assert InFamily(trace[i].info, trace[i].info[j].root, trace[i].info[j].claims);
  }
}
