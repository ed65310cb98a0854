/** The profile manager of the data layer (`profileManager.js`): profile
    lookup, the whitelisted profile update, the email availability check and
    the password change.

    The hash comparison is the oracle `compare` (`None` when it throws) and
    hashing a new password is the function `hash`. Whether the database
    answers is `up`; the database clock is `now`. */
module ProfileManager {
  import opened Wrappers
  import opened Seqs
  import opened Tables

  /** A property of the profile data object: missing and `undefined` are
      alike to the update, an explicit `null` clears the column. */
  datatype JsValue = Undefined | Null | Text(s: string)

  /** The columns a profile update may set. */
  const ProfileFields: set<string> := {"first_name", "last_name", "phone", "address"}

  /** Whether the update takes the key: whitelisted and not `undefined`. */
  predicate Usable(data: map<string, JsValue>, k: string) {
    k in data && k in ProfileFields && !data[k].Undefined?
  }

  /** The keys the update writes. */
  function UsableKeys(data: map<string, JsValue>): (ks: set<string>)
    ensures forall k :: k in ks <==> Usable(data, k)
  {
    set k | k in data.Keys && Usable(data, k)
  }

  /** What the update does to one column: `None` keeps it, `Some(v)` sets
      it to `v` (`NULL` for an explicit `null`). */
  function FieldChange(data: map<string, JsValue>, k: string): (c: Option<Option<string>>)
    ensures c.None? <==> !Usable(data, k)
    ensures c.Some? ==> (c.value.None? <==> data[k].Null?)
    ensures c.Some? && data[k].Text? ==> c.value == Some(data[k].s)
  {
    if !Usable(data, k) then None
    else match data[k]
      case Text(s) => Some(Some(s))
      case _ => Some(None)
  }

  /** The changes the update makes to the four profile columns. */
  datatype ProfileChange = ProfileChange(
    firstName: Option<Option<string>>, lastName: Option<Option<string>>,
    phone: Option<Option<string>>, address: Option<Option<string>>)

  /** The changes a profile data object asks for. */
  function Changes(data: map<string, JsValue>): (c: ProfileChange)
    ensures c.firstName == FieldChange(data, "first_name") && c.lastName == FieldChange(data, "last_name")
    ensures c.phone == FieldChange(data, "phone") && c.address == FieldChange(data, "address")
  {
    ProfileChange(FieldChange(data, "first_name"), FieldChange(data, "last_name"),
                  FieldChange(data, "phone"), FieldChange(data, "address"))
  }

  /** A column after a change. */
  function Column(change: Option<Option<string>>, current: Option<string>): (v: Option<string>)
    ensures change.None? ==> v == current
    ensures change.Some? ==> v == change.value
  {
    if change.Some? then change.value else current
  }

  /** An account after a profile update: the changed columns and the update
      time are new, and nothing else is. */
  function ApplyProfile(a: Account, c: ProfileChange, now: int): (b: Account)
    ensures b.userId == a.userId && b.username == a.username && b.email == a.email
    ensures b.passwordHash == a.passwordHash && b.role == a.role && b.updatedAt == now
    ensures b.firstName == Column(c.firstName, a.firstName) && b.lastName == Column(c.lastName, a.lastName)
    ensures b.phone == Column(c.phone, a.phone) && b.address == Column(c.address, a.address)
  {
    a.(firstName := Column(c.firstName, a.firstName), lastName := Column(c.lastName, a.lastName),
       phone := Column(c.phone, a.phone), address := Column(c.address, a.address), updatedAt := now)
  }

  /** Whether `a` is the account `userId`. */
  predicate IsUser(a: Account, userId: int) {
    a.userId == userId
  }

  /** Whether the account `userId` exists. */
  predicate HasUser(accounts: seq<Account>, userId: int) {
    exists i :: 0 <= i < |accounts| && IsUser(accounts[i], userId)
  }

  /** `getUserProfileById`: the public columns of the account; `null` when
      there is none and on a database error. */
  function GetUserProfileById(accounts: seq<Account>, userId: int, up: bool): (r: Option<PublicAccount>)
    ensures r.Some? <==> up && HasUser(accounts, userId)
    ensures r.Some? ==> exists a :: a in accounts && IsUser(a, userId) && r.value == Public(a)
  {
    if !up then None
    else match First(accounts, (a: Account) => IsUser(a, userId))
      case None => None
      case Some(a) => Some(Public(a))
  }

  /** `updateUserProfile`: write the usable keys and the update time to the
      account. With no usable key nothing is queried; a database error is
      `Failed` ("Failed to update profile"). */
  function UpdateUserProfile(accounts: seq<Account>, userId: int, data: map<string, JsValue>, now: int, up: bool): (r: (seq<Account>, Outcome<PublicAccount>))
    ensures r.1 == Refused("No valid fields provided for update") <==> UsableKeys(data) == {}
    ensures r.1.Failed? <==> UsableKeys(data) != {} && !up
    ensures r.1 == Refused("User not found") <==> UsableKeys(data) != {} && up && !HasUser(accounts, userId)
    ensures r.1.Done? <==> UsableKeys(data) != {} && up && HasUser(accounts, userId)
    ensures !r.1.Done? ==> r.0 == accounts
    ensures |r.0| == |accounts|
    ensures forall i :: 0 <= i < |accounts| ==>
      r.0[i] == (if r.1.Done? && IsUser(accounts[i], userId) then ApplyProfile(accounts[i], Changes(data), now) else accounts[i])
    ensures r.1.Done? ==> exists i :: 0 <= i < |accounts| && IsUser(accounts[i], userId) && r.1.value == Public(r.0[i])
  {
    if UsableKeys(data) == {} then (accounts, Refused("No valid fields provided for update"))
    else SaveProfile(accounts, userId, Changes(data), now, up)
  }

  /** The `UPDATE … RETURNING` of a profile update. */
  function SaveProfile(accounts: seq<Account>, userId: int, c: ProfileChange, now: int, up: bool): (r: (seq<Account>, Outcome<PublicAccount>))
    ensures r.1.Failed? <==> !up
    ensures r.1 == Refused("User not found") <==> up && !HasUser(accounts, userId)
    ensures r.1.Done? <==> up && HasUser(accounts, userId)
    ensures !r.1.Done? ==> r.0 == accounts
    ensures |r.0| == |accounts|
    ensures forall i :: 0 <= i < |accounts| ==>
      r.0[i] == (if r.1.Done? && IsUser(accounts[i], userId) then ApplyProfile(accounts[i], c, now) else accounts[i])
    ensures r.1.Done? ==> exists i :: 0 <= i < |accounts| && IsUser(accounts[i], userId) && r.1.value == Public(r.0[i])
  {
    var u := GuardedUpdate(accounts, (a: Account) => IsUser(a, userId),
                           (a: Account) => ApplyProfile(a, c, now), "User not found", up);
    match u.1
    case Done(a) => (u.0, Done(Public(a)))
    case Refused(m) => (u.0, Refused(m))
    case Failed => (u.0, Failed)
  }

  /** A key outside the whitelist changes nothing about an update. */
  lemma UnknownKeysIgnored(accounts: seq<Account>, userId: int, data: map<string, JsValue>, k: string, v: JsValue, now: int, up: bool)
    requires k !in ProfileFields
    ensures UpdateUserProfile(accounts, userId, data[k := v], now, up) == UpdateUserProfile(accounts, userId, data, now, up)
  {
    assert UsableKeys(data[k := v]) == UsableKeys(data);
    assert Changes(data[k := v]) == Changes(data);
  }

  /** An `undefined` value is the same as leaving the key out. */
  lemma UndefinedIsOmitted(accounts: seq<Account>, userId: int, data: map<string, JsValue>, k: string, now: int, up: bool)
    ensures UpdateUserProfile(accounts, userId, data[k := Undefined], now, up) == UpdateUserProfile(accounts, userId, data - {k}, now, up)
  {
    assert UsableKeys(data[k := Undefined]) == UsableKeys(data - {k});
    assert Changes(data[k := Undefined]) == Changes(data - {k});
  }

  /** A profile update never touches credentials: every account keeps its
      username, email, password hash and role. */
  lemma ProfileKeepsCredentials(accounts: seq<Account>, userId: int, data: map<string, JsValue>, now: int, up: bool, i: nat)
    requires i < |accounts|
    ensures var b := UpdateUserProfile(accounts, userId, data, now, up).0[i];
      b.username == accounts[i].username && b.email == accounts[i].email
      && b.passwordHash == accounts[i].passwordHash && b.role == accounts[i].role
  {
  }

  /** Whether some account other than `userId` has the email. */
  predicate EmailUsedByOther(accounts: seq<Account>, email: string, userId: int) {
    exists i :: 0 <= i < |accounts| && SqlEq(accounts[i].email, email) && accounts[i].userId != userId
  }

  /** `isEmailAvailable`: no other account has the email; false on a
      database error. */
  function IsEmailAvailable(accounts: seq<Account>, email: string, userId: int, up: bool): (r: bool)
    ensures r <==> up && !EmailUsedByOther(accounts, email, userId)
  {
    up && !Any(accounts, (a: Account) => SqlEq(a.email, email) && a.userId != userId)
  }

  /** A user's own email is available to them unless someone else shares it. */
  lemma OwnEmailAvailable(accounts: seq<Account>, i: nat, up: bool)
    requires i < |accounts| && accounts[i].email.Some?
    requires forall j :: 0 <= j < |accounts| && j != i ==> accounts[j].email != accounts[i].email
    ensures IsEmailAvailable(accounts, accounts[i].email.value, accounts[i].userId, up) == up
  {
  }

  /** The stored hash of the account, as the first lookup reads it. */
  function StoredHash(accounts: seq<Account>, userId: int): (h: Option<string>)
    ensures h.None? <==> !HasUser(accounts, userId)
    ensures h.Some? ==> exists i :: 0 <= i < |accounts| && IsUser(accounts[i], userId) && h.value == accounts[i].passwordHash
  {
    match First(accounts, (a: Account) => IsUser(a, userId))
    case None => None
    case Some(a) => Some(a.passwordHash)
  }

  /** `updatePassword`: check the current password against the stored
      hash, then store the hash of the new one. A database error and a
      comparison that throws are both `Failed` ("Failed to update
      password"). */
  function UpdatePassword(accounts: seq<Account>, userId: int, currentPassword: string, newPassword: string,
                          compare: (string, string) -> Option<bool>, hash: string -> string, now: int, up: bool): (r: (seq<Account>, Outcome<()>))
    ensures r.1 == Refused("User not found") <==> up && !HasUser(accounts, userId)
    ensures r.1.Failed? <==> !up || (HasUser(accounts, userId) && compare(currentPassword, StoredHash(accounts, userId).value).None?)
    ensures r.1 == Refused("Current password is incorrect") <==>
      up && HasUser(accounts, userId) && compare(currentPassword, StoredHash(accounts, userId).value) == Some(false)
    ensures r.1.Done? <==> up && HasUser(accounts, userId) && compare(currentPassword, StoredHash(accounts, userId).value) == Some(true)
    ensures !r.1.Done? ==> r.0 == accounts
    ensures |r.0| == |accounts|
    ensures forall i :: 0 <= i < |accounts| ==>
      r.0[i] == (if r.1.Done? && IsUser(accounts[i], userId) then accounts[i].(passwordHash := hash(newPassword), updatedAt := now) else accounts[i])
  {
    if !up then (accounts, Failed)
    else match StoredHash(accounts, userId)
      case None => (accounts, Refused("User not found"))
      case Some(h) =>
        match compare(currentPassword, h)
        case None => (accounts, Failed)
        case Some(false) => (accounts, Refused("Current password is incorrect"))
        case Some(true) =>
          (SetWhere(accounts, (a: Account) => IsUser(a, userId), (a: Account) => a.(passwordHash := hash(newPassword), updatedAt := now)), Done(()))
  }

  /** After a password change the account stores the hash of the new
      password, so a hash function the comparison accepts lets the new
      password in on the next change. */
  lemma PasswordChangeTakes(accounts: seq<Account>, userId: int, currentPassword: string, newPassword: string, nextPassword: string,
                            compare: (string, string) -> Option<bool>, hash: string -> string, now: int)
    requires UpdatePassword(accounts, userId, currentPassword, newPassword, compare, hash, now, true).1.Done?
    requires compare(newPassword, hash(newPassword)) == Some(true)
    ensures var changed := UpdatePassword(accounts, userId, currentPassword, newPassword, compare, hash, now, true).0;
      StoredHash(changed, userId) == Some(hash(newPassword))
      && UpdatePassword(changed, userId, newPassword, nextPassword, compare, hash, now, true).1.Done?
  {
    var r := UpdatePassword(accounts, userId, currentPassword, newPassword, compare, hash, now, true);
    var changed := r.0;
    var i :| 0 <= i < |accounts| && IsUser(accounts[i], userId);
    assert IsUser(changed[i], userId);
    forall j | 0 <= j < |changed| && IsUser(changed[j], userId)
      ensures changed[j].passwordHash == hash(newPassword)
    {
      assert IsUser(accounts[j], userId);
    }
    OneStoredHash(changed, userId, hash(newPassword));
  }

  /** When every account of the user holds the same hash, that is the
      stored hash. */
  lemma OneStoredHash(accounts: seq<Account>, userId: int, h: string)
    requires HasUser(accounts, userId)
    requires forall j :: 0 <= j < |accounts| && IsUser(accounts[j], userId) ==> accounts[j].passwordHash == h
    ensures StoredHash(accounts, userId) == Some(h)
  {
  }
}
