/** The user collection of models/User.js: the roles, the stored record,
    `findUserByEmail` and `createUser`. The collection is a sequence in
    insertion order, which is the order `findOne` scans it in. bcrypt is a
    function parameter: the model does not look inside the digest. */
module Users {
  import opened Common

  /** `ROLES`. */
  const Roles: seq<string> := ["owner", "consumer"]

  /** A stored user. `name` is optional: the schema declares `name` twice and
      the second, unconstrained declaration replaces the required one. */
  datatype User = User(
    id: string,
    name: Option<string>,
    email: string,
    password: string,
    role: string,
    resetPasswordToken: Option<string>,
    resetPasswordExpires: Option<int>,
    mobile: Option<string>,
    address: Option<string>,
    state: Option<string>,
    country: Option<string>)

  /** `{ email }` used as a query filter. An absent email is dropped from the
      filter, which then matches every user. */
  predicate EmailMatches(u: User, email: Option<string>)
  {
    email.None? || u.email == email.value
  }

  /** `findUserByEmail`: the first user the filter `{ email }` matches. */
  function FindUserByEmail(users: seq<User>, email: Option<string>): (r: Option<nat>)
    ensures r.Some? ==> r.value < |users| && EmailMatches(users[r.value], email)
    ensures r.Some? ==> forall j :: 0 <= j < r.value ==> !EmailMatches(users[j], email)
    ensures r.None? <==> forall i :: 0 <= i < |users| ==> !EmailMatches(users[i], email)
  {
    FirstWhere(users, u => EmailMatches(u, email))
  }

  /** A lookup without an e-mail finds the first stored user, whoever it is. */
  lemma AbsentEmailMatchesFirstUser(users: seq<User>)
    ensures users != [] <==> FindUserByEmail(users, None) == Some(0)
    ensures users == [] <==> FindUserByEmail(users, None).None?
  {
  }

  /** `findById`. */
  function FindUserById(users: seq<User>, id: string): (r: Option<nat>)
    ensures r.Some? ==> r.value < |users| && users[r.value].id == id
    ensures r.None? <==> forall i :: 0 <= i < |users| ==> users[i].id != id
  {
    FirstWhere(users, (u: User) => u.id == id)
  }

  /** The unique index on `email`, and distinct document identifiers. */
  ghost predicate Unique(users: seq<User>)
  {
    forall i, j :: 0 <= i < j < |users| ==> users[i].email != users[j].email && users[i].id != users[j].id
  }

  /** With unique e-mails, looking a stored e-mail up finds that very user. */
  lemma FindUserByEmailFindsOwner(users: seq<User>, i: nat)
    requires Unique(users) && i < |users|
    ensures FindUserByEmail(users, Some(users[i].email)) == Some(i)
  {
  }

  /** Replacing a user by one with the same e-mail and identifier keeps the
      collection free of duplicates. */
  lemma {:induction false} UniqueUnderSameKeys(users: seq<User>, i: nat, u: User)
    requires Unique(users) && i < |users|
    requires u.email == users[i].email && u.id == users[i].id
    ensures Unique(users[i := u])
  {
    var s := users[i := u];
    forall a, b | 0 <= a < b < |s|
      ensures s[a].email != s[b].email && s[a].id != s[b].id
    {
      assert s[a].email == users[a].email && s[a].id == users[a].id;
      assert s[b].email == users[b].email && s[b].id == users[b].id;
    }
  }

  /** The record `createUser` inserts: no reset token, no profile fields. */
  function FreshUser(id: string, name: Option<string>, email: string, passwordHash: string, role: string): User
  {
    User(id, name, email, passwordHash, role, None, None, None, None, None, None)
  }

  datatype CreateUserError = InvalidRole | EmailTaken | PasswordMissing | EmailMissing

  /** The user collection. */
  class UserStore {
    var users: seq<User>

    ghost predicate Valid()
      reads this
    {
      Unique(users)
    }

    constructor ()
      ensures Valid() && users == []
    {
      users := [];
    }

    /** `createUser(name, email, password, role)`. The role is checked before
        the e-mail lookup; bcrypt throws on an absent password; the store's
        required-path validator refuses an absent or empty e-mail. `freshId`
        is the identifier the store assigns. */
    method CreateUser(freshId: string, name: Option<string>, email: Option<string>, password: Option<string>,
                      role: Option<string>, bcrypt: string -> string)
      returns (r: Result<User, CreateUserError>)
      requires Valid()
      requires forall i :: 0 <= i < |users| ==> users[i].id != freshId
      modifies this
      ensures Valid()
      ensures role.None? || role.value !in Roles ==> r == Err(InvalidRole) && users == old(users)
      ensures role.Some? && role.value in Roles && FindUserByEmail(old(users), email).Some?
              ==> r == Err(EmailTaken) && users == old(users)
      ensures role.Some? && role.value in Roles && FindUserByEmail(old(users), email).None? && password.None?
              ==> r == Err(PasswordMissing) && users == old(users)
      ensures role.Some? && role.value in Roles && FindUserByEmail(old(users), email).None? && password.Some?
              && !Truthy(email)
              ==> r == Err(EmailMissing) && users == old(users)
      ensures r.Ok? <==> role.Some? && role.value in Roles && FindUserByEmail(old(users), email).None?
                         && password.Some? && Truthy(email)
      ensures r.Ok? ==> r.value == FreshUser(freshId, name, email.value, bcrypt(password.value), role.value)
                        && users == old(users) + [r.value]
    {
      if role.None? || role.value !in Roles {
        return Err(InvalidRole);
      }
      var existing := FindUserByEmail(users, email);
      if existing.Some? {
        return Err(EmailTaken);
      }
      if password.None? {
        return Err(PasswordMissing);
      }
      var hashedPassword := bcrypt(password.value);
      if !Truthy(email) {
        return Err(EmailMissing);
      }
      var user := FreshUser(freshId, name, email.value, hashedPassword, role.value);
      users := users + [user];
      r := Ok(user);
    }
  }
}
