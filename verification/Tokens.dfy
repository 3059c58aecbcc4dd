/** The `refresh_tokens` table and its four repository methods. */
module Tokens {
  import opened Common

  datatype Row = Row(user: Id, expiresAt: Time, revoked: bool)

  type Table = map<Id, Row>

  predicate Consumable(rows: Table, jti: Id, user: Id, now: Time) {
    jti in rows && rows[jti].user == user && !rows[jti].revoked && rows[jti].expiresAt > now
  }

  /** The unrevoked tokens of a user. */
  function LiveOf(rows: Table, user: Id): set<Id> {
    set j | j in rows && rows[j].user == user && !rows[j].revoked
  }

  /** Those a clock that reads `t` or later may still find unexpired. */
  function ValidOf(rows: Table, user: Id, t: Time): set<Id> {
    set j | j in rows && rows[j].user == user && !rows[j].revoked && rows[j].expiresAt > t
  }

  function RevokeAll(rows: Table, js: set<Id>): Table {
    map j | j in rows :: if j in js then rows[j].(revoked := true) else rows[j]
  }

  function Issue(rows: Table, jti: Id, user: Id, expiresAt: Time): Table {
    rows[jti := Row(user, expiresAt, false)]
  }

  class Store {
    var rows: Table

    constructor ()
      ensures rows == map[]
    {
      rows := map[];
    }

    method RevokeTokensByUserID(user: Id)
      modifies this
      ensures rows == RevokeAll(old(rows), LiveOf(old(rows), user))
      ensures rows.Keys == old(rows).Keys
      ensures forall j <- rows :: rows[j] == old(rows)[j].(revoked := old(rows)[j].revoked || old(rows)[j].user == user)
      ensures LiveOf(rows, user) == {}
      ensures forall u | u != user :: LiveOf(rows, u) == LiveOf(old(rows), u)
    {
      rows := map j | j in rows ::
        if rows[j].user == user && !rows[j].revoked then rows[j].(revoked := true) else rows[j];
    }

    /** The primary key refuses a jti already present, the foreign key an unknown user. */
    method InsertRefreshToken(users: set<Id>, jti: Id, user: Id, expiresAt: Time) returns (ok: bool)
      modifies this
      ensures ok <==> jti !in old(rows) && user in users
      ensures rows == if ok then Issue(old(rows), jti, user, expiresAt) else old(rows)
      ensures ok ==> rows == old(rows)[jti := Row(user, expiresAt, false)]
      ensures ok ==> LiveOf(rows, user) == LiveOf(old(rows), user) + {jti}
      ensures forall u | u != user :: LiveOf(rows, u) == LiveOf(old(rows), u)
    {
      if jti in rows || user !in users { return false; }
      rows := rows[jti := Row(user, expiresAt, false)];
      return true;
    }

    /** UPDATE ... WHERE jti, user_id, revoked_at IS NULL, expires_at > now RETURNING 1. */
    method ConsumeRefreshToken(jti: Id, user: Id, now: Time) returns (ok: bool)
      modifies this
      ensures ok <==>
                && jti in old(rows) && old(rows)[jti].user == user
                && !old(rows)[jti].revoked && old(rows)[jti].expiresAt > now
      ensures ok ==> rows == old(rows)[jti := old(rows)[jti].(revoked := true)]
      ensures ok <==> Consumable(old(rows), jti, user, now)
      ensures rows == if ok then RevokeAll(old(rows), {jti}) else old(rows)
      ensures !Consumable(rows, jti, user, now)
    {
      if jti in rows && rows[jti].user == user && !rows[jti].revoked && rows[jti].expiresAt > now {
        rows := rows[jti := rows[jti].(revoked := true)];
        return true;
      }
      return false;
    }

    /** Run alone, a rotation leaves the user with the new token only; a duplicate jti rolls everything back. */
    method RotateRefreshToken(users: set<Id>, user: Id, jti: Id, expiresAt: Time) returns (ok: bool)
      modifies this
      ensures ok <==> user in users && jti !in old(rows)
      ensures !ok ==> rows == old(rows)
      ensures ok ==> rows == Issue(RevokeAll(old(rows), LiveOf(old(rows), user)), jti, user, expiresAt)
      ensures ok ==> LiveOf(rows, user) == {jti}
    {
      var begun := rows;
      if user !in users { return false; }
      RevokeTokensByUserID(user);
      ok := InsertRefreshToken(users, jti, user, expiresAt);
      if !ok {
        rows := begun;
      }
    }
  }
}
