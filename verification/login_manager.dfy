/** The login manager of the data layer (`loginManager.js`): lookup by
    username or email, password verification and login.

    The hash comparison is the oracle `compare`, with `None` standing for a
    comparison that throws (a malformed or missing hash). Whether the
    database answers is `up`. */
module LoginManager {
  import opened Wrappers
  import opened Seqs
  import opened Tables

  /** Whether the identifier names the account, as a username or an email. */
  predicate Identifies(a: Account, identifier: string) {
    a.username == identifier || SqlEq(a.email, identifier)
  }

  /** Whether some account is named by the identifier. */
  predicate Known(accounts: seq<Account>, identifier: string) {
    exists i :: 0 <= i < |accounts| && Identifies(accounts[i], identifier)
  }

  /** `getUserWithPassword`: the first account the identifier names, with
      its hash; `null` when none does and on a database error. */
  function GetUserWithPassword(accounts: seq<Account>, identifier: string, up: bool): (r: Option<Account>)
    ensures r.None? <==> !up || !Known(accounts, identifier)
    ensures r.Some? ==> r.value in accounts && Identifies(r.value, identifier)
  {
    if !up then None else First(accounts, (a: Account) => Identifies(a, identifier))
  }

  /** `verifyPassword`: the comparison's answer, and false when it throws. */
  function VerifyPassword(compare: (string, string) -> Option<bool>, password: string, hash: string): (r: bool)
    ensures r <==> compare(password, hash) == Some(true)
    ensures compare(password, hash).None? ==> !r
  {
    match compare(password, hash)
    case Some(b) => b
    case None => false
  }

  /** The one message for every rejected login. */
  const InvalidLogin := "Invalid username or password"

  /** `loginAccount`: find the account and verify the password; on success
      the account is returned without its hash. An unknown identifier, a
      wrong password and a database error all give the same refusal, since
      both helpers catch their own errors. */
  function LoginAccount(accounts: seq<Account>, identifier: string, password: string,
                        compare: (string, string) -> Option<bool>, up: bool): (r: Outcome<PublicAccount>)
    ensures !r.Done? ==> r == Refused(InvalidLogin)
    ensures r.Done? <==> up && (exists i :: 0 <= i < |accounts| && Identifies(accounts[i], identifier)
                                           && accounts[i] == GetUserWithPassword(accounts, identifier, up).value
                                           && VerifyPassword(compare, password, accounts[i].passwordHash))
    ensures r.Done? ==> exists a :: a in accounts && Identifies(a, identifier) && r.value == Public(a)
  {
    match GetUserWithPassword(accounts, identifier, up)
    case None => Refused(InvalidLogin)
    case Some(a) =>
      if !VerifyPassword(compare, password, a.passwordHash) then Refused(InvalidLogin)
      else Done(Public(a))
  }

  /** `userExists`: whether the identifier names an account; false on a
      database error. */
  function UserExists(accounts: seq<Account>, identifier: string, up: bool): (r: bool)
    ensures r <==> up && Known(accounts, identifier)
  {
    up && Any(accounts, (a: Account) => Identifies(a, identifier))
  }

  /** A caller cannot tell an unknown identifier from a wrong password. */
  lemma UnknownAndWrongLookAlike(accounts: seq<Account>, unknown: string, known: string, password: string,
                                 compare: (string, string) -> Option<bool>)
    requires !UserExists(accounts, unknown, true)
    requires UserExists(accounts, known, true)
    requires !VerifyPassword(compare, password, GetUserWithPassword(accounts, known, true).value.passwordHash)
    ensures LoginAccount(accounts, unknown, password, compare, true) == LoginAccount(accounts, known, password, compare, true)
  {
  }

  /** A successful login names an existing user. */
  lemma LoginImpliesExists(accounts: seq<Account>, identifier: string, password: string,
                           compare: (string, string) -> Option<bool>, up: bool)
    requires LoginAccount(accounts, identifier, password, compare, up).Done?
    ensures UserExists(accounts, identifier, up)
  {
  }

  /** Whatever the stored hashes are, a successful login hands back the
      same public columns: the hash never reaches the caller. */
  lemma LoginHidesHash(accounts: seq<Account>, i: nat, hash: string, identifier: string, password: string,
                       compare: (string, string) -> Option<bool>)
    requires i < |accounts|
    requires LoginAccount(accounts, identifier, password, compare, true).Done?
    requires LoginAccount(accounts[i := accounts[i].(passwordHash := hash)], identifier, password, compare, true).Done?
    ensures LoginAccount(accounts, identifier, password, compare, true)
         == LoginAccount(accounts[i := accounts[i].(passwordHash := hash)], identifier, password, compare, true)
  {
    var changed := accounts[i := accounts[i].(passwordHash := hash)];
    var p := (a: Account) => Identifies(a, identifier);
    var k := FirstIndex(accounts, p);
    var k2 := FirstIndex(changed, p);
    assert forall j :: 0 <= j < |accounts| ==> p(changed[j]) == p(accounts[j]);
    assert k2 == k by {
      FirstIndexSamePredicate(accounts, changed, p);
    }
    PublicHidesSecrets(accounts[k.value], hash, accounts[k.value].role);
    assert changed[k.value] == accounts[k.value] || changed[k.value] == accounts[k.value].(passwordHash := hash);
  }

  /** Two sequences on which a predicate agrees pointwise have the same
      first match. */
  lemma {:induction false} FirstIndexSamePredicate(xs: seq<Account>, ys: seq<Account>, p: Account -> bool)
    requires |xs| == |ys|
    requires forall j :: 0 <= j < |xs| ==> p(ys[j]) == p(xs[j])
    ensures FirstIndex(ys, p) == FirstIndex(xs, p)
    decreases |xs|
  {
    if xs != [] && !p(xs[0]) {
      FirstIndexSamePredicate(xs[1..], ys[1..], p);
    }
  }
}
