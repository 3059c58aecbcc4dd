/** The role columns of one user: `users.role` and the `user_roles` rows. */
module UserRoles {
  import opened Common
  import opened RoleClaims

  datatype Status = Active | Pending

  type Rows = map<Role, Status>

  function ActiveIn(rows: Rows): set<Role> {
    set r | r in rows && rows[r] == Active
  }

  /** The active roles of a user, falling back to users.role when no row is active. */
  function Merged(role: Role, rows: Rows): set<Role> {
    if ActiveIn(rows) == {} then {role} else ActiveIn(rows)
  }

  /** The legacy column is the highest active role. */
  predicate InStep(role: Role, rows: Rows) {
    Known(role) && Highest(Merged(role, rows)) == role
  }

  /** The rows an administrator's role change leaves, whatever was there before. */
  function RowsFor(role: Role): Rows
    requires Known(role)
  {
    if role == STUDENT then map[STUDENT := Active]
    else if role == ORGANIZER then map[STUDENT := Active, ORGANIZER := Active]
    else map[ADMIN := Active]
  }

  datatype RequestError = InvalidBody | NotAllowed | AlreadyActive

  /** A query result lists every row once, in no particular order. */
  ghost predicate Lists(scan: seq<(Role, Status)>, rows: Rows) {
    && (forall i, j | 0 <= i < j < |scan| :: scan[i].0 != scan[j].0)
    && (forall i | 0 <= i < |scan| :: scan[i].0 in rows && rows[scan[i].0] == scan[i].1)
    && (forall r <- rows :: (r, rows[r]) in scan)
  }

  /** `list` holds the scanned roles with this status. */
  ghost predicate Sorts(scan: seq<(Role, Status)>, list: seq<Role>, status: Status) {
    forall r :: r in list <==> (r, status) in scan
  }

  lemma SortOneMore(scan: seq<(Role, Status)>, i: nat, list: seq<Role>, status: Status)
    requires i < |scan| && forall j, k | 0 <= j < k < |scan| :: scan[j].0 != scan[k].0
    requires Sorts(scan[..i], list, status) && NoDuplicates(list)
    ensures var more := if scan[i].1 == status then list + [scan[i].0] else list;
            Sorts(scan[..i + 1], more, status) && NoDuplicates(more)
  {
    assert scan[..i + 1] == scan[..i] + [scan[i]];
    assert scan[i].0 !in list;
  }

  lemma AllSorted(scan: seq<(Role, Status)>, rows: Rows, active: seq<Role>, pending: seq<Role>)
    requires Lists(scan, rows) && Sorts(scan, active, Active) && Sorts(scan, pending, Pending)
    ensures Elements(active) == ActiveIn(rows) && Elements(pending) == rows.Keys - ActiveIn(rows)
  {
    assert forall r :: r in active <==> r in ActiveIn(rows);
    assert forall r :: r in pending <==> r in rows && rows[r] == Pending;
  }

  class User {
    var role: Role
    var rows: Rows

    predicate Valid()
      reads this
    {
      InStep(role, rows) && forall r <- rows :: Known(r)
    }

    /** CreateUser: one transaction inserts the user and its first active role. */
    constructor (role: Role)
      requires Known(role)
      ensures Valid() && this.role == role && rows == map[role := Active]
    {
      this.role := role;
      rows := map[role := Active];
      new;
      assert ActiveIn(rows) == {role};
    }

    /** Split one scan of the rows into active and pending roles. */
    method MergeRoleRows(scan: seq<(Role, Status)>) returns (active: seq<Role>, pending: seq<Role>)
      requires Lists(scan, rows)
      ensures Elements(active) == Merged(role, rows) && NoDuplicates(active)
      ensures (exists r <- rows :: rows[r] == Active) ==> forall r :: r in active <==> r in rows && rows[r] == Active
      ensures !(exists r <- rows :: rows[r] == Active) ==> active == [role]
      ensures forall r :: r in pending <==> r in rows && rows[r] == Pending
      ensures Elements(pending) == rows.Keys - ActiveIn(rows) && NoDuplicates(pending)
    {
      active, pending := [], [];
      for i := 0 to |scan|
        invariant Sorts(scan[..i], active, Active) && Sorts(scan[..i], pending, Pending)
        invariant NoDuplicates(active) && NoDuplicates(pending)
      {
        SortOneMore(scan, i, active, Active);
        SortOneMore(scan, i, pending, Pending);
        match scan[i].1
        case Active => active := active + [scan[i].0];
        case Pending => pending := pending + [scan[i].0];
      }
      assert scan[..|scan|] == scan;
      AllSorted(scan, rows, active, pending);
      assert ActiveIn(rows) == {} <==> !(exists r <- rows :: rows[r] == Active) by {
        assert forall r <- rows | rows[r] == Active :: r in ActiveIn(rows);
      }
      NoElements(active);
      if |active| == 0 {
        active := [role];
        SingletonList(active, role);
      }
    }

    /** An administrator's role change, one statement at a time inside its transaction. */
    method UpdateUserRole(newRole: Role) returns (ok: bool)
      requires forall r <- rows :: Known(r)
      modifies this
      ensures ok || old(Valid()) ==> Valid()
      ensures ok <==> Known(newRole)
      ensures ok ==> role == newRole && rows == RowsFor(newRole)
      ensures (role, rows) == Changed(old(role), old(rows), SetRole(newRole))
      ensures !ok ==> role == old(role) && rows == old(rows)
    {
      var begun := role;
      role := newRole;
      if newRole == STUDENT {
        rows := rows - {ORGANIZER, ADMIN};
        rows := rows[STUDENT := Active];
      } else if newRole == ORGANIZER {
        rows := rows - {ADMIN};
        rows := rows[STUDENT := Active];
        rows := rows[ORGANIZER := Active];
      } else if newRole == ADMIN {
        rows := map[];
        rows := rows[ADMIN := Active];
      } else {
        role := begun;
        return false;
      }
      assert rows == RowsFor(newRole);
      RoleChangeIsExact(newRole);
      return true;
    }

    /** An active organizer stays active; anything else becomes a pending organizer. */
    method EnsureOrganizerRolePending()
      requires Valid()
      modifies this`rows
      ensures Valid()
      ensures ActiveIn(rows) == ActiveIn(old(rows)) && ORGANIZER in rows
      ensures rows - {ORGANIZER} == old(rows) - {ORGANIZER}
      ensures (role, rows) == Changed(role, old(rows), AskOrganizer)
    {
      ghost var before := ActiveIn(rows);
      rows := rows[ORGANIZER := if ORGANIZER in rows && rows[ORGANIZER] == Active then Active else Pending];
      assert ActiveIn(rows) == before;
    }

    /** A student's own request: never changes what is active. */
    method RequestOrganizerRole(requested: seq<string>, scan: seq<(Role, Status)>)
        returns (r: Result<bool, RequestError>)
      requires Valid() && Lists(scan, rows)
      modifies this`rows
      ensures Valid() && ActiveIn(rows) == ActiveIn(old(rows))
      ensures r.Ok? <==>
                && requested == [ORGANIZER]
                && STUDENT in Merged(role, old(rows)) && ORGANIZER !in Merged(role, old(rows))
      ensures r.Ok? ==> ORGANIZER in rows && rows[ORGANIZER] == Pending && rows - {ORGANIZER} == old(rows) - {ORGANIZER}
      ensures r.Err? ==> rows == old(rows)
    {
      if |requested| != 1 || requested[0] != ORGANIZER { return Err(InvalidBody); }
      var active, pending := MergeRoleRows(scan);
      assert STUDENT in active <==> STUDENT in Elements(active);
      assert ORGANIZER in active <==> ORGANIZER in Elements(active);
      if STUDENT !in active { return Err(NotAllowed); }
      if ORGANIZER in active { return Err(AlreadyActive); }
      if ORGANIZER in pending {
        assert ORGANIZER in Elements(pending);
        return Ok(true);
      }
      assert ORGANIZER !in ActiveIn(rows);
      EnsureOrganizerRolePending();
      assert ORGANIZER !in ActiveIn(rows);
      return Ok(true);
    }
  }

  // ----- whole lives of an account -----

  datatype Change = SetRole(role: Role) | AskOrganizer

  function Changed(role: Role, rows: Rows, c: Change): (Role, Rows) {
    match c
    case SetRole(r) => if Known(r) then (r, RowsFor(r)) else (role, rows)
    case AskOrganizer =>
      (role, rows[ORGANIZER := if ORGANIZER in rows && rows[ORGANIZER] == Active then Active else Pending])
  }

  function Lived(role: Role, rows: Rows, cs: seq<Change>): (Role, Rows)
    decreases |cs|
  {
    if cs == [] then (role, rows) else
    var (r, rs) := Changed(role, rows, cs[0]);
    Lived(r, rs, cs[1..])
  }

  /** After a role change the active roles are exactly {student}, {student, organizer} or {admin}. */
  lemma RoleChangeIsExact(role: Role)
    requires Known(role)
    ensures ActiveIn(RowsFor(role)) == RowsFor(role).Keys
    ensures InStep(role, RowsFor(role))
    ensures ActiveIn(RowsFor(role)) ==
            if role == STUDENT then {STUDENT} else if role == ORGANIZER then {STUDENT, ORGANIZER} else {ADMIN}
  {
    assert STUDENT != ORGANIZER && STUDENT != ADMIN && ORGANIZER != ADMIN by {
      assert |STUDENT| == 7 && |ORGANIZER| == 9 && |ADMIN| == 5;
    }
    assert ActiveIn(RowsFor(role)) == RowsFor(role).Keys;
  }

  /** Role changes and organizer requests, in any number and order, keep users.role the primary active role. */
  lemma {:induction false} LegacyRoleStaysPrimary(role: Role, rows: Rows, cs: seq<Change>)
    requires InStep(role, rows)
    ensures InStep(Lived(role, rows, cs).0, Lived(role, rows, cs).1)
    decreases |cs|
  {
    if cs == [] {
    } else {
      var (r, rs) := Changed(role, rows, cs[0]);
      match cs[0] {
        case SetRole(n) => if Known(n) { RoleChangeIsExact(n); }
        case AskOrganizer => assert ActiveIn(rs) == ActiveIn(rows);
      }
      LegacyRoleStaysPrimary(r, rs, cs[1..]);
    }
  }

  /** The primary role of the merged list is users.role, however the rows were scanned. */
  method PrimaryOfMerged(u: User, scan: seq<(Role, Status)>) returns (r: Role)
    requires u.Valid() && Lists(scan, u.rows)
    ensures r == u.role
  {
    var active, pending := u.MergeRoleRows(scan);
    r := PrimaryRole(active);
  }
}
