/** The account creator of the data layer (`accountCreator.js`): the two
    uniqueness checks and account creation.

    `user_id` is a serial column, so the table carries the next value. The
    password hash is the function `hash` (bcrypt with a random salt; which
    salt it picks is not part of this model). The role column takes its
    default, the parameter `defaultRole`. Whether the insert is accepted and
    whether the database answers are `ok` and `up`. */
module AccountCreator {
  import opened Wrappers
  import opened Seqs
  import opened Tables

  /** The `account` table and the next value of its id sequence. */
  datatype AccountTable = AccountTable(rows: seq<Account>, nextId: int)

  /** Whether some account has the username. */
  predicate UsernameTaken(t: AccountTable, username: string) {
    exists i :: 0 <= i < |t.rows| && t.rows[i].username == username
  }

  /** Whether some account has the email. */
  predicate EmailTaken(t: AccountTable, email: string) {
    exists i :: 0 <= i < |t.rows| && SqlEq(t.rows[i].email, email)
  }

  /** `isUsernameUnique`: no account has the username; false on a database
      error. */
  function IsUsernameUnique(t: AccountTable, username: string, up: bool): (r: bool)
    ensures r <==> up && !UsernameTaken(t, username)
  {
    up && !Any(t.rows, (a: Account) => a.username == username)
  }

  /** `isEmailUnique`: no account has the email; false on a database error. */
  function IsEmailUnique(t: AccountTable, email: string, up: bool): (r: bool)
    ensures r <==> up && !EmailTaken(t, email)
  {
    up && !Any(t.rows, (a: Account) => SqlEq(a.email, email))
  }

  /** What `createAccount` is given besides the username and password. */
  datatype NewAccount = NewAccount(
    email: Option<string>, firstName: Option<string>, lastName: Option<string>, phone: Option<string>, address: Option<string>)

  /** `createAccount`: check the username, then the email when it is
      truthy, then insert the account with the hashed password. A refusal
      carries the thrown error's message; a failed insert is `Failed`. */
  function CreateAccount(t: AccountTable, username: string, password: string, info: NewAccount,
                         hash: string -> string, defaultRole: string, now: int, ok: bool, up: bool): (r: (AccountTable, Outcome<PublicAccount>))
    ensures r.1 == Refused("Username already exists") <==> !IsUsernameUnique(t, username, up)
    ensures r.1 == Refused("Email already exists") <==>
      IsUsernameUnique(t, username, up) && TruthyText(info.email) && !IsEmailUnique(t, info.email.value, up)
    ensures r.1.Done? <==>
      up && ok && !UsernameTaken(t, username) && (TruthyText(info.email) ==> !EmailTaken(t, info.email.value))
    ensures !r.1.Done? ==> r.0 == t
    ensures r.1.Done? ==> r.0.nextId == t.nextId + 1 && |r.0.rows| == |t.rows| + 1 && r.0.rows[..|t.rows|] == t.rows
    ensures r.1.Done? ==> var a := r.0.rows[|t.rows|];
      && a.userId == t.nextId && a.username == username && a.passwordHash == hash(password)
      && a.email == info.email && r.1.value == Public(a)
  {
    if !IsUsernameUnique(t, username, up) then (t, Refused("Username already exists"))
    else if TruthyText(info.email) && !IsEmailUnique(t, info.email.value, up) then (t, Refused("Email already exists"))
    else if !ok then (t, Failed)
    else
      var a := Account(t.nextId, username, hash(password), info.email, info.firstName, info.lastName,
                       info.phone, info.address, defaultRole, now);
      assert (t.rows + [a])[..|t.rows|] == t.rows;
      (AccountTable(t.rows + [a], t.nextId + 1), Done(Public(a)))
  }

  /** Usernames are distinct. */
  predicate UniqueUsernames(t: AccountTable) {
    forall i, j :: 0 <= i < j < |t.rows| ==> t.rows[i].username != t.rows[j].username
  }

  /** Truthy emails are distinct. */
  predicate UniqueEmails(t: AccountTable) {
    forall i, j :: 0 <= i < j < |t.rows| && TruthyText(t.rows[i].email) ==> t.rows[i].email != t.rows[j].email
  }

  /** The checks before the insert keep usernames and truthy emails
      distinct. An empty email skips the check, but it is falsy, so it never
      collides with a truthy one. */
  lemma CreateKeepsUnique(t: AccountTable, username: string, password: string, info: NewAccount,
                          hash: string -> string, defaultRole: string, now: int, ok: bool, up: bool)
    requires UniqueUsernames(t) && UniqueEmails(t)
    ensures UniqueUsernames(CreateAccount(t, username, password, info, hash, defaultRole, now, ok, up).0)
    ensures UniqueEmails(CreateAccount(t, username, password, info, hash, defaultRole, now, ok, up).0)
  {
    var r := CreateAccount(t, username, password, info, hash, defaultRole, now, ok, up);
    if r.1.Done? {
      var rows := r.0.rows;
      var n := |t.rows|;
      assert forall i :: 0 <= i < n ==> rows[i] == t.rows[i];
      forall i | 0 <= i < n
        ensures rows[i].username != rows[n].username
        ensures TruthyText(rows[i].email) ==> rows[i].email != rows[n].email
      {
        assert rows[i] == t.rows[i];
      }
    }
  }

  /** A database error always rejects the creation: the uniqueness check
      answers false, which reads as a taken username. */
  lemma StoreErrorRejects(t: AccountTable, username: string, password: string, info: NewAccount,
                          hash: string -> string, defaultRole: string, now: int, ok: bool)
    ensures CreateAccount(t, username, password, info, hash, defaultRole, now, ok, false) == (t, Refused("Username already exists"))
  {
  }
}
