/** The account handlers: create an account, update an account's email,
    password and role, and delete an account other than one's own. */
module UserHandlers {
  import opened Outcomes
  import opened Documents
  import opened Access

  /** What the handlers reply about an account (its `profile` view). */
  datatype Profile = Profile(id: Id, email: string, role: string)

  /** The emails of the stored accounts. */
  function Emails(store: UserStore): (r: set<string>)
    reads store, set id | id in store.docs :: store.docs[id]
    ensures forall e :: e in r <==> exists id :: id in store.docs && store.docs[id].email == e
  {
    set id | id in store.docs :: store.docs[id].email
  }

  /** No two stored accounts share an email. */
  predicate EmailsUnique(store: UserStore)
    reads store, set id | id in store.docs :: store.docs[id]
  {
    forall a, b :: a in store.docs && b in store.docs && a != b ==> store.docs[a].email != store.docs[b].email
  }

  /** The role a new account gets, or `Conflict`: saving refuses a missing
      email or username and a role outside the account roles, and the
      pre-save hook refuses an email already registered. A missing role is
      `user`. */
  function NewAccountRole(taken: set<string>, email: string, username: string, role: Option<string>)
    : (r: Result<string>)
    ensures r.Success? <==> email != "" && username != "" && email !in taken && role.GetOr(DefaultUserRole) in UserRoles
    ensures r.Failure? ==> r.error == Conflict
    ensures r.Success? ==> r.value in UserRoles && (role.Some? ==> r.value == role.value)
  {
    if email == "" || username == "" || email in taken || role.GetOr(DefaultUserRole) !in UserRoles then
      Failure(Conflict)
    else Success(role.GetOr(DefaultUserRole))
  }

  /** The email and role after an update of an account holding `current`:
      the fields the request carries replace the stored ones; saving refuses
      an empty email and a role outside the account roles (`Internal`).
      Emails in use by other accounts are not looked at. */
  function UpdatedProfile(current: (string, string), email: Option<string>, role: Option<string>)
    : (r: Result<(string, string)>)
    ensures r.Success? <==> email.GetOr(current.0) != "" && role.GetOr(current.1) in UserRoles
    ensures r.Failure? ==> r.error == Internal
    ensures r.Success? ==> r.value.0 == email.GetOr(current.0) && r.value.1 == role.GetOr(current.1)
  {
    var e := email.GetOr(current.0);
    var ro := role.GetOr(current.1);
    if e == "" || ro !in UserRoles then Failure(Internal) else Success((e, ro))
  }

  /** An update goes through onto an email that a creation would refuse. */
  lemma UpdateOntoTakenEmail(email: string)
    requires email != ""
    ensures NewAccountRole({email}, email, "someone", None) == Failure(Conflict)
    ensures UpdatedProfile(("other", DefaultUserRole), Some(email), None) == Success((email, DefaultUserRole))
  {
  }

  /** An update that carries nothing keeps a valid profile as it is. */
  lemma EmptyUpdateKeeps(current: (string, string))
    requires current.0 != "" && current.1 in UserRoles
    ensures UpdatedProfile(current, None, None) == Success(current)
  {
  }

  /** `createUser`: `newId` is the id the database assigns. The plaintext
      password is never kept: the pre-save hook replaces it by its hash,
      which is not part of this model. */
  method CreateUser(store: UserStore, email: string, username: string, role: Option<string>,
                    password: Option<string>, newId: Id) returns (r: Result<Profile>)
    requires newId !in store.docs
    modifies store
    ensures NewAccountRole(old(Emails(store)), email, username, role).Failure? ==>
      r == Failure(Conflict) && store.docs == old(store.docs)
    ensures NewAccountRole(old(Emails(store)), email, username, role).Success? ==>
      (var ro := NewAccountRole(old(Emails(store)), email, username, role).value;
       r == Success(Profile(newId, email, ro)) &&
       store.docs.Keys == old(store.docs.Keys) + {newId} &&
       (forall id :: id in old(store.docs) ==> store.docs[id] == old(store.docs[id])) &&
       fresh(store.docs[newId]) && store.docs[newId].email == email && store.docs[newId].username == username &&
       store.docs[newId].role == ro && store.docs[newId].password == None)
    ensures old(EmailsUnique(store)) ==> EmailsUnique(store)
  {
    var ro := role.GetOr(DefaultUserRole);
    if email == "" || username == "" || email in Emails(store) || ro !in UserRoles {
      return Failure(Conflict);
    }
    var u := new User(newId, email, username, ro, None);
    store.docs := store.docs[newId := u];
    r := Success(Profile(newId, email, ro));
  }

  /** `updateUser`: `user` is the account with the requested id (`null`
      when none). Only email, password and role are taken from the request. */
  method UpdateUser(user: User?, email: Option<string>, password: Option<string>, role: Option<string>)
    returns (r: Result<Profile>)
    modifies user
    ensures user == null ==> r == Failure(NotFound)
    ensures user != null ==>
      (match UpdatedProfile((old(user.email), old(user.role)), email, role)
       case Success(p) =>
         user.email == p.0 && user.role == p.1 && user.password == None && r == Success(Profile(user.id, p.0, p.1))
       case Failure(e) =>
         user.email == old(user.email) && user.role == old(user.role) && user.password == old(user.password) &&
         r == Failure(e)) &&
      user.username == old(user.username)
  {
    if user == null {
      return Failure(NotFound);
    }
    var newEmail := email.GetOr(user.email);
    var newRole := role.GetOr(user.role);
    if newEmail == "" || newRole !in UserRoles {
      return Failure(Internal);
    }
    user.email := newEmail;
    user.role := newRole;
    user.password := None;
    r := Success(Profile(user.id, newEmail, newRole));
  }

  /** `deleteUser`: nobody can delete the account they are logged in with. */
  method DeleteUser(store: UserStore, caller: Credentials, id: Id) returns (r: Outcome)
    modifies store
    ensures id !in old(store.docs) ==> r == NotFound && store.docs == old(store.docs)
    ensures id in old(store.docs) && id == caller.id ==> r == Forbidden && store.docs == old(store.docs)
    ensures id in old(store.docs) && id != caller.id ==> r == Ok && store.docs == old(store.docs) - {id}
  {
    if id !in store.docs {
      return NotFound;
    }
    if id == caller.id {
      return Forbidden;
    }
    store.docs := store.docs - {id};
    r := Ok;
  }
}
