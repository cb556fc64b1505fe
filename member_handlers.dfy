/** The member handlers: add a member to a project, change a member's role,
    remove a member, and tell the caller its role in a project. Each looks
    the project up with the editor filter; the first three reply with the
    member list. */
module MemberHandlers {
  import opened Outcomes
  import opened Documents
  import opened Access

  /** Every entry holds one of the member roles: what saving a project
      guarantees of its member list. */
  predicate RolesValid(users: seq<Member>)
  {
    forall i :: 0 <= i < |users| ==> users[i].role in MemberRoles
  }

  /** The member list after adding an entry: `Conflict` when an entry has the
      requested user (a missing user is looked up as ""), `Internal` when
      saving rejects the entry (no user, or a role outside the member roles);
      a missing role becomes `editor`. */
  function AddedMember(users: seq<Member>, user: Option<Id>, role: Option<string>): (r: Result<seq<Member>>)
    ensures r == Failure(Conflict) <==> MemberIndex(users, user.GetOr("")) >= 0
    ensures r.Success? <==> MemberIndex(users, user.GetOr("")) == -1 && user.Some? && role.GetOr(DefaultMemberRole) in MemberRoles
    ensures r.Failure? ==> r.error == Conflict || r.error == Internal
    ensures r.Success? ==> (|r.value| == |users| + 1 && r.value[..|users|] == users &&
      r.value[|users|] == Member(user.value, role.GetOr(DefaultMemberRole)))
  {
    var key := user.GetOr("");
    if MemberIndex(users, key) > -1 then Failure(Conflict)
    else if user.None? || role.GetOr(DefaultMemberRole) !in MemberRoles then Failure(Internal)
    else Success(users + [Member(user.value, role.GetOr(DefaultMemberRole))])
  }

  /** The member list after setting the role of the first entry for a user:
      `NotFound` when there is none; a missing role is written as "", which
      saving rejects like any role outside the member roles. */
  function UpdatedMember(users: seq<Member>, user: Option<Id>, role: Option<string>): (r: Result<seq<Member>>)
    ensures r == Failure(NotFound) <==> MemberIndex(users, user.GetOr("")) == -1
    ensures r == Failure(Internal) <==> MemberIndex(users, user.GetOr("")) >= 0 && role.GetOr("") !in MemberRoles
    ensures r.Success? <==> MemberIndex(users, user.GetOr("")) >= 0 && role.GetOr("") in MemberRoles
    ensures r.Success? ==> (|r.value| == |users| &&
      r.value[MemberIndex(users, user.GetOr(""))] == Member(user.GetOr(""), role.GetOr("")) &&
      forall j :: 0 <= j < |users| && j != MemberIndex(users, user.GetOr("")) ==> r.value[j] == users[j])
  {
    var i := MemberIndex(users, user.GetOr(""));
    if i == -1 then Failure(NotFound)
    else if role.GetOr("") !in MemberRoles then Failure(Internal)
    else Success(users[i := Member(users[i].user, role.GetOr(""))])
  }

  /** The member list without the first entry for a user, or `NotFound`. */
  function RemovedMember(users: seq<Member>, user: Id): (r: Result<seq<Member>>)
    ensures r.Failure? <==> user !in MemberIds(users)
    ensures r.Failure? ==> r.error == NotFound
    ensures r.Success? ==> exists i ::
      (0 <= i < |users| && users[i].user == user &&
       user !in MemberIds(users[..i]) && r.value == users[..i] + users[i + 1..])
  {
    var i := MemberIndex(users, user);
    if i == -1 then Failure(NotFound)
    else
      assert user !in MemberIds(users[..i]) by {
        forall j | 0 <= j < i
          ensures MemberIds(users[..i])[j] != user
        {
          assert users[..i][j] == users[j];
        }
      }
      Success(RemoveAt(users, i))
  }

  /** Every successful change of the member list keeps the roles valid,
      which is what makes the editor filter agree with plain membership. */
  lemma ChangesKeepRolesValid(users: seq<Member>, user: Option<Id>, role: Option<string>, gone: Id)
    requires RolesValid(users)
    ensures AddedMember(users, user, role).Success? ==> RolesValid(AddedMember(users, user, role).value)
    ensures UpdatedMember(users, user, role).Success? ==> RolesValid(UpdatedMember(users, user, role).value)
    ensures RemovedMember(users, gone).Success? ==> RolesValid(RemovedMember(users, gone).value)
  {
    var a := AddedMember(users, user, role);
    if a.Success? {
      forall i | 0 <= i < |a.value|
        ensures a.value[i].role in MemberRoles
      {
        if i < |users| {
          assert a.value[i] == a.value[..|users|][i];
        }
      }
    }
    var g := RemovedMember(users, gone);
    if g.Success? {
      var i := MemberIndex(users, gone);
      assert g.value == RemoveAt(users, i);
    }
  }

  /** Removing a member just added gives back the member list as it was. */
  lemma RemoveAfterAdd(users: seq<Member>, user: Id, role: Option<string>)
    requires AddedMember(users, Some(user), role).Success?
    ensures RemovedMember(AddedMember(users, Some(user), role).value, user) == Success(users)
  {
    var added := AddedMember(users, Some(user), role).value;
    assert MemberIndex(added, user) == |users| by {
      forall j | 0 <= j < |users|
        ensures added[j].user != user
      {
        assert added[j] == added[..|users|][j];
      }
    }
    assert RemovedMember(added, user) == Success(RemoveAt(added, |users|));
    assert RemoveAt(added, |users|) == users;
  }

  /** `addUser`: the request names the user and, optionally, the role. */
  method AddUser(doc: Project?, caller: Credentials, user: Option<Id>, role: Option<string>)
    returns (r: Result<seq<Member>>)
    modifies doc
    ensures !old(Finds(caller, true, doc)) ==> r == Failure(NotFound) && (doc != null ==> unchanged(doc))
    ensures old(Finds(caller, true, doc)) ==> (r == AddedMember(old(doc.users), user, role) &&
      doc.users == (if r.Success? then r.value else old(doc.users)) &&
      doc.name == old(doc.name) && doc.keys == old(doc.keys) && doc.locales == old(doc.locales))
  {
    if !Finds(caller, true, doc) {
      return Failure(NotFound);
    }
    if MemberIndex(doc.users, user.GetOr("")) > -1 {
      return Failure(Conflict);
    }
    var entryRole := role.GetOr(DefaultMemberRole);
    if user.None? || entryRole !in MemberRoles {
      return Failure(Internal);
    }
    doc.users := doc.users + [Member(user.value, entryRole)];
    r := Success(doc.users);
  }

  /** `updateUser`. */
  method UpdateUser(doc: Project?, caller: Credentials, user: Option<Id>, role: Option<string>)
    returns (r: Result<seq<Member>>)
    modifies doc
    ensures !old(Finds(caller, true, doc)) ==> r == Failure(NotFound) && (doc != null ==> unchanged(doc))
    ensures old(Finds(caller, true, doc)) ==> (r == UpdatedMember(old(doc.users), user, role) &&
      doc.users == (if r.Success? then r.value else old(doc.users)) &&
      doc.name == old(doc.name) && doc.keys == old(doc.keys) && doc.locales == old(doc.locales))
  {
    if !Finds(caller, true, doc) {
      return Failure(NotFound);
    }
    var i := MemberIndex(doc.users, user.GetOr(""));
    if i == -1 {
      return Failure(NotFound);
    }
    var newRole := role.GetOr("");
    if newRole !in MemberRoles {
      return Failure(Internal);
    }
    doc.users := doc.users[i := Member(doc.users[i].user, newRole)];
    r := Success(doc.users);
  }

  /** `deleteUser`: `user` is the id the handler reads (`params.user`), which
      the route as declared never supplies. */
  method DeleteUser(doc: Project?, caller: Credentials, user: Id) returns (r: Result<seq<Member>>)
    modifies doc
    ensures !old(Finds(caller, true, doc)) ==> r == Failure(NotFound) && (doc != null ==> unchanged(doc))
    ensures old(Finds(caller, true, doc)) ==> (r == RemovedMember(old(doc.users), user) &&
      doc.users == (if r.Success? then r.value else old(doc.users)) &&
      doc.name == old(doc.name) && doc.keys == old(doc.keys) && doc.locales == old(doc.locales))
  {
    if !Finds(caller, true, doc) {
      return Failure(NotFound);
    }
    var i := MemberIndex(doc.users, user);
    if i == -1 {
      return Failure(NotFound);
    }
    doc.users := RemoveAt(doc.users, i);
    r := Success(doc.users);
  }

  /** `roleProject` as written: a caller with an entry gets that entry's
      role; a caller without one gets `admin` when its account role is NOT
      `admin`, and `NotFound` when it is. */
  function RoleProjectAsWritten(caller: Credentials, doc: Project?): (r: Result<string>)
    reads doc
    ensures !Finds(caller, true, doc) ==> r == Failure(NotFound)
    ensures Finds(caller, true, doc) && caller.id in MemberIds(doc.users) ==>
      r == Success(doc.users[MemberIndex(doc.users, caller.id)].role)
    ensures Finds(caller, true, doc) && caller.id !in MemberIds(doc.users) ==>
      r == (if caller.role != "admin" then Success("admin") else Failure(NotFound))
  {
    if !Finds(caller, true, doc) then Failure(NotFound)
    else
      var i := MemberIndex(doc.users, caller.id);
      if i == -1 then
        if caller.role != "admin" then Success("admin") else Failure(NotFound)
      else Success(doc.users[i].role)
  }

  /** `roleProject` as evidently intended: an administrator without an
      entry is told `admin`; any other caller without one gets `NotFound`. */
  function RoleProject(caller: Credentials, doc: Project?): (r: Result<string>)
    reads doc
    ensures !Finds(caller, true, doc) ==> r == Failure(NotFound)
    ensures Finds(caller, true, doc) && caller.id in MemberIds(doc.users) ==>
      r == Success(doc.users[MemberIndex(doc.users, caller.id)].role)
    ensures Finds(caller, true, doc) && caller.id !in MemberIds(doc.users) ==>
      r == (if caller.role == "admin" then Success("admin") else Failure(NotFound))
  {
    if !Finds(caller, true, doc) then Failure(NotFound)
    else
      var i := MemberIndex(doc.users, caller.id);
      if i == -1 then
        if caller.role == "admin" then Success("admin") else Failure(NotFound)
      else Success(doc.users[i].role)
  }

  /** With the corrected reply only an administrator is ever told `admin`
      without being a member, and every member is told a member role. */
  lemma RoleProjectSound(caller: Credentials, doc: Project?)
    requires doc != null && RolesValid(doc.users)
    ensures RoleProject(caller, doc) == Success("admin") ==> caller.role == "admin"
    ensures RoleProject(caller, doc).Success? && caller.id in MemberIds(doc.users) ==>
      RoleProject(caller, doc).value in MemberRoles
    ensures caller.role == "admin" ==> RoleProject(caller, doc).Success?
  {
    if caller.id in MemberIds(doc.users) {
      assert doc.users[MemberIndex(doc.users, caller.id)].role in MemberRoles;
    }
  }

  /** The reply as written is inverted for callers without an entry: an api
      client (account role `client`) is told it is `admin`, and an
      administrator is told the project has no such user. */
  lemma RoleProjectInverted(doc: Project?, id: Id)
    requires doc != null && doc.users == []
    ensures RoleProjectAsWritten(Credentials(id, "client"), doc) == Success("admin")
    ensures RoleProjectAsWritten(Credentials(id, "admin"), doc) == Failure(NotFound)
    ensures RoleProject(Credentials(id, "client"), doc) == Failure(NotFound)
    ensures RoleProject(Credentials(id, "admin"), doc) == Success("admin")
  {
  }
}
