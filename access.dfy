/** `projectsListQuery`: the filter added to every project lookup, and how
    a stored project's member list meets it under the document store's
    array-matching rules. */
module Access {
  import opened Outcomes
  import opened Documents

  /** The authenticated caller: id and account role (`admin`, `user`, or
      `client` for an api client). */
  datatype Credentials = Credentials(id: Id, role: string)

  /** The filter: an optional condition on `users.user` and an optional
      condition `users.role $in roles`; an absent condition matches everything. */
  datatype Query = Query(member: Option<Id>, roles: Option<set<string>>)

  /** The filter built for a caller; `isEditor` asks for the editor condition. */
  function ProjectsListQuery(caller: Credentials, isEditor: bool): (q: Query)
    ensures q.member.Some? <==> caller.role == "user"
    ensures q.member.Some? ==> q.member.value == caller.id
    ensures q.roles.Some? <==> caller.role == "user" && isEditor
    ensures q.roles.Some? ==> q.roles.value == MemberRoles
  {
    if caller.role == "user" then
      Query(Some(caller.id), if isEditor then Some(MemberRoles) else None)
    else Query(None, None)
  }

  /** Each array condition is met by some entry on its own: the member id
      and the role need not belong to the same entry. */
  predicate Matches(q: Query, users: seq<Member>)
  {
    (q.member.Some? ==> exists i :: 0 <= i < |users| && users[i].user == q.member.value) &&
    (q.roles.Some? ==> exists i :: 0 <= i < |users| && users[i].role in q.roles.value)
  }

  /** The document a lookup by id returns: the stored project with that id
      (`null` when there is none), kept only when it meets the filter. */
  predicate Finds(caller: Credentials, isEditor: bool, doc: Project?)
    reads doc
  {
    doc != null && Matches(ProjectsListQuery(caller, isEditor), doc.users)
  }

  /** Anyone but a `user`-role caller sees every project, editor or not. */
  lemma OthersSeeAll(caller: Credentials, isEditor: bool, users: seq<Member>)
    requires caller.role != "user"
    ensures Matches(ProjectsListQuery(caller, isEditor), users)
  {
  }

  /** A `user`-role caller sees a project exactly when listed as a member,
      whatever the role; with the editor flag someone on the list must
      also be an editor or owner. */
  lemma UserSeesOwn(caller: Credentials, users: seq<Member>)
    requires caller.role == "user"
    ensures Matches(ProjectsListQuery(caller, false), users) <==> caller.id in MemberIds(users)
    ensures Matches(ProjectsListQuery(caller, true), users) <==>
      caller.id in MemberIds(users) && exists i :: 0 <= i < |users| && users[i].role in MemberRoles
  {
    if caller.id in MemberIds(users) {
      var i :| 0 <= i < |users| && MemberIds(users)[i] == caller.id;
      assert users[i].user == caller.id;
    }
  }

  /** Since a saved member entry always holds `editor` or `owner`, the
      editor condition adds nothing to membership for stored projects. */
  lemma EditorFilterRedundant(caller: Credentials, users: seq<Member>)
    requires forall i :: 0 <= i < |users| ==> users[i].role in MemberRoles
    ensures Matches(ProjectsListQuery(caller, true), users) == Matches(ProjectsListQuery(caller, false), users)
  {
    if caller.role == "user" && Matches(ProjectsListQuery(caller, false), users) {
      var i :| 0 <= i < |users| && users[i].user == caller.id;
      assert users[i].role in MemberRoles;
    }
  }

  /** The two conditions are met by different entries: a caller listed with
      a role outside the editor roles passes the editor filter because
      another member is an owner. */
  lemma SplitMatch()
    ensures Matches(ProjectsListQuery(Credentials("u1", "user"), true),
                    [Member("u1", "viewer"), Member("u2", "owner")])
  {
    var users := [Member("u1", "viewer"), Member("u2", "owner")];
    assert users[0].user == "u1";
    assert users[1].role in MemberRoles;
  }
}
