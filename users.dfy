/**
 * The `users` table of `server/db/db.js`: registration with a generated
 * five-digit user id and a password hash, and authentication by user id and
 * password. The bcrypt hash is computed outside the model and passed in; the
 * bcrypt comparison is the parameter `matches`.
 */
module Users {
  import opened Wrappers
  import opened Tables
  import CodeGen

  datatype UserRow = UserRow(userId: string, email: string, passwordHash: string)

  /** What `createUser` and `authenticateUser` hand back: never the hash. */
  datatype UserInfo = UserInfo(userId: string, email: string)

  const DuplicateEmailMessage: string := "このメールアドレスは既に登録されています"

  function UserIdOf(u: UserRow): string { u.userId }
  function EmailOf(u: UserRow): string { u.email }
  predicate HasEmail(email: string, u: UserRow) { u.email == email }
  predicate HasUserId(userId: string, u: UserRow) { u.userId == userId }

  function UserIds(rows: seq<UserRow>): (ids: seq<string>)
    ensures |ids| == |rows| && forall i :: 0 <= i < |rows| ==> ids[i] == rows[i].userId
  {
    seq(|rows|, i requires 0 <= i < |rows| => rows[i].userId)
  }

  /** `findUserByEmail`: the row with that email, if any. */
  function FindUserByEmail(rows: seq<UserRow>, email: string): (r: Option<UserRow>)
    ensures r.Some? <==> exists i :: 0 <= i < |rows| && rows[i].email == email
    ensures r.Some? ==> r.value in rows && r.value.email == email
  {
    match FindFirst(rows, u => HasEmail(email, u))
    case None => None
    case Some(i) => Some(rows[i])
  }

  /** `findUserById`: the row with that user id, if any. */
  function FindUserById(rows: seq<UserRow>, userId: string): (r: Option<UserRow>)
    ensures r.Some? <==> exists i :: 0 <= i < |rows| && rows[i].userId == userId
    ensures r.Some? ==> r.value in rows && r.value.userId == userId
  {
    match FindFirst(rows, u => HasUserId(userId, u))
    case None => None
    case Some(i) => Some(rows[i])
  }

  /** `generateNextUserId` over the table. */
  function GenerateNextUserId(rows: seq<UserRow>): (id: string)
    ensures |id| >= CodeGen.UserIdWidth
    ensures forall i :: 0 <= i < |rows| ==> CodeGen.CastInteger(rows[i].userId) < CodeGen.CastInteger(id)
    ensures forall i :: 0 <= i < |rows| ==> rows[i].userId != id
  {
    var ids := UserIds(rows);
    assert forall i :: 0 <= i < |rows| ==> ids[i] == rows[i].userId;
    CodeGen.NextUserId(ids)
  }

  /**
   * `authenticateUser`: None when no row has the user id or the password does
   * not match the hash of the row found (the two are not told apart),
   * otherwise that row's user id and email.
   */
  function AuthenticateUser(rows: seq<UserRow>, userId: string, password: string,
                            matches: (string, string) -> bool): (r: Option<UserInfo>)
    ensures r.Some? ==> exists i :: 0 <= i < |rows| && rows[i].userId == userId
                          && matches(password, rows[i].passwordHash) && r.value == UserInfo(userId, rows[i].email)
    ensures r.None? ==> (forall i :: 0 <= i < |rows| ==> rows[i].userId != userId)
                        || exists i :: 0 <= i < |rows| && rows[i].userId == userId && !matches(password, rows[i].passwordHash)
  {
    match FindUserById(rows, userId)
    case None => None
    case Some(u) => if matches(password, u.passwordHash) then Some(UserInfo(u.userId, u.email)) else None
  }

  /**
   * Under the UNIQUE constraint on user_id, authentication succeeds exactly
   * when the row with that id has a hash the password matches.
   */
  lemma AuthenticateExactly(rows: seq<UserRow>, userId: string, password: string, matches: (string, string) -> bool)
    requires UniqueBy(rows, UserIdOf)
    ensures AuthenticateUser(rows, userId, password, matches).Some? <==>
              exists i :: 0 <= i < |rows| && rows[i].userId == userId && matches(password, rows[i].passwordHash)
  {
    var r := AuthenticateUser(rows, userId, password, matches);
    if r.None? && exists i :: 0 <= i < |rows| && rows[i].userId == userId && matches(password, rows[i].passwordHash) {
      var i :| 0 <= i < |rows| && rows[i].userId == userId && matches(password, rows[i].passwordHash);
      var j :| 0 <= j < |rows| && rows[j].userId == userId && !matches(password, rows[j].passwordHash);
      UniqueKeyIndex(rows, UserIdOf, i, j);
    }
  }

  class UserTable {
    var rows: seq<UserRow>

    /** The table's UNIQUE constraints on user_id and email. */
    ghost predicate Valid()
      reads this
    {
      UniqueBy(rows, UserIdOf) && UniqueBy(rows, EmailOf)
    }

    constructor ()
      ensures Valid() && rows == []
    {
      rows := [];
    }

    /**
     * `createUser`: a known email throws and inserts nothing; otherwise exactly
     * one row (generated id, email, hash) is appended and only the id and email
     * are returned.
     */
    method CreateUser(email: string, passwordHash: string) returns (r: Result<UserInfo>)
      requires Valid()
      modifies this
      ensures Valid()
      ensures (exists i :: 0 <= i < |old(rows)| && old(rows)[i].email == email) ==>
                r == Err(DuplicateEmailMessage) && rows == old(rows)
      ensures (forall i :: 0 <= i < |old(rows)| ==> old(rows)[i].email != email) ==>
                var id := GenerateNextUserId(old(rows));
                r == Ok(UserInfo(id, email)) && rows == old(rows) + [UserRow(id, email, passwordHash)]
    {
      var existing := FindUserByEmail(rows, email);
      if existing.Some? {
        return Err(DuplicateEmailMessage);
      }
      var userId := GenerateNextUserId(rows);
      var row := UserRow(userId, email, passwordHash);
      AppendKeepsUnique(rows, UserIdOf, row);
      AppendKeepsUnique(rows, EmailOf, row);
      rows := rows + [row];
      r := Ok(UserInfo(userId, email));
    }
  }
}
