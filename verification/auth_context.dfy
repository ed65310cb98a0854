/** The sign-in state of the client (`context/AuthContext.tsx`): the user
    record built from the server's answer to login and registration, the
    `isAuthenticated` flag, the address update and the admin set-up key.

    Requests, tokens and local storage are left out; the server's answer is
    an input. */
module AuthContext {
  import opened Wrappers
  import opened Strings

  /** A postal address. */
  datatype Address = Address(street: string, city: string, state: string, zip: string, country: string)

  /** The user the client keeps. `role` is never filled in by this
      context; `isAdmin` is set by the admin set-up. */
  datatype ClientUser = ClientUser(
    id: string, email: string, firstName: string, lastName: string,
    address: Option<Address>, role: Option<string>, isAdmin: bool)

  /** The user part of the server's answer to login or registration. */
  datatype ServerUser = ServerUser(
    id: string, email: string, firstName: string, lastName: string, phone: string, address: string)

  /** The record `login` and `register` build: identity fields copied, the
      one address text as the street with every other address field empty
      (no address at all when the text is empty), nothing else. */
  function UserFromResponse(u: ServerUser): (c: ClientUser)
    ensures c.id == u.id && c.email == u.email && c.firstName == u.firstName && c.lastName == u.lastName
    ensures u.address != "" ==> c.address == Some(Address(u.address, "", "", "", ""))
    ensures u.address == "" ==> c.address.None?
    ensures c.role.None? && !c.isAdmin
  {
    ClientUser(u.id, u.email, u.firstName, u.lastName,
      if u.address != "" then Some(Address(u.address, "", "", "", "")) else None,
      None, false)
  }

  /** The street of a signed-in user's address is the text the server
      sent. */
  lemma AddressTextKept(u: ServerUser)
    requires u.address != ""
    ensures UserFromResponse(u).address.value.street == u.address
  {
  }

  /** `isAuthenticated`: there is a user. */
  predicate IsAuthenticated(user: Option<ClientUser>) {
    user.Some?
  }

  /** `updateUserAddress`: nothing without a user; otherwise only the
      address changes. */
  function UpdateUserAddress(user: Option<ClientUser>, newAddress: Address): (r: Option<ClientUser>)
    ensures user.None? ==> r.None?
    ensures user.Some? ==> r.Some? && r.value.address == Some(newAddress)
    ensures user.Some? ==> r.value.(address := user.value.address) == user.value
  {
    if user.None? then None else Some(user.value.(address := Some(newAddress)))
  }

  /** The admin set-up key. */
  const AdminKey := "bumba-admin-2025"

  /** `setupAdminAccount`: the trimmed key must equal the admin key and a
      user must be signed in; then the user gains `isAdmin` and nothing
      else changes. The answer is whether it worked. */
  function SetupAdminAccount(user: Option<ClientUser>, adminKey: string): (r: (bool, Option<ClientUser>))
    ensures r.0 <==> Trim(adminKey) == AdminKey && user.Some?
    ensures !r.0 ==> r.1 == user
    ensures r.0 ==> r.1 == Some(user.value.(isAdmin := true))
  {
    if Trim(adminKey) != AdminKey then (false, user)
    else if user.None? then (false, user)
    else (true, Some(user.value.(isAdmin := true)))
  }

  /** Surrounding white space does not matter to the key. */
  lemma PaddedKeyAccepted(user: ClientUser, pre: string, post: string)
    requires forall k :: 0 <= k < |pre| ==> IsJsSpace(pre[k])
    requires forall k :: 0 <= k < |post| ==> IsJsSpace(post[k])
    ensures SetupAdminAccount(Some(user), pre + AdminKey + post) == (true, Some(user.(isAdmin := true)))
  {
    assert AdminKey[0] == 'b' && AdminKey[|AdminKey| - 1] == '5';
    TrimPadded(pre, AdminKey, post);
  }

  /** A wrong key changes nothing, signed in or not. */
  lemma WrongKeyChangesNothing(user: Option<ClientUser>, adminKey: string)
    requires Trim(adminKey) != AdminKey
    ensures SetupAdminAccount(user, adminKey) == (false, user)
  {
  }

  /** The admin set-up keeps the user signed in, and repeating it changes
      nothing more. */
  lemma SetupIdempotent(user: Option<ClientUser>, adminKey: string)
    ensures IsAuthenticated(SetupAdminAccount(user, adminKey).1) == IsAuthenticated(user)
    ensures var once := SetupAdminAccount(user, adminKey).1;
      SetupAdminAccount(once, adminKey).1 == once
  {
  }
}
