/** The project handlers: create a project owned by its creator, rename a
    project, and delete a project together with the clients' references
    to it. */
module ProjectHandlers {
  import opened Outcomes
  import opened Seqs
  import opened Documents
  import opened Access

  /** What the handlers reply about a project (its `small` view). */
  datatype Summary = Summary(id: Id, name: string)

  /** A project name some stored project already has. */
  predicate NameTaken(store: ProjectStore, name: string)
    reads store, set id | id in store.docs :: store.docs[id]
  {
    exists id :: id in store.docs && store.docs[id].name == name
  }

  /** The name a creation may use: saving refuses a missing or empty name,
      and the pre-save hook refuses, for a new document, a name already in
      use; every refusal is replied as `Conflict`. */
  function CreatedName(taken: set<string>, name: string): (r: Result<string>)
    ensures r.Success? <==> name != "" && name !in taken
    ensures r.Failure? ==> r.error == Conflict
    ensures r.Success? ==> r.value == name
  {
    if name == "" || name in taken then Failure(Conflict) else Success(name)
  }

  /** The name a rename writes: a missing name is written as "", which
      saving rejects (`Internal`); names in use are not looked at, since the
      pre-save check only runs for new documents. */
  function UpdatedName(name: Option<string>): (r: Result<string>)
    ensures r.Success? <==> name.Some? && name.value != ""
    ensures r.Failure? ==> r.error == Internal
    ensures r.Success? ==> r.value == name.value
  {
    if name.GetOr("") == "" then Failure(Internal) else Success(name.value)
  }

  /** A rename goes through onto a name that a creation would refuse. */
  lemma RenameOntoTakenName(name: string)
    requires name != ""
    ensures CreatedName({name}, name) == Failure(Conflict)
    ensures UpdatedName(Some(name)) == Success(name)
  {
  }

  /** `createProject`: `newId` is the id the database assigns. The only
      member of the new project is its creator, as owner. */
  method CreateProject(store: ProjectStore, caller: Credentials, name: string, newId: Id) returns (r: Result<Summary>)
    requires newId !in store.docs
    modifies store
    ensures (name == "" || old(NameTaken(store, name))) ==> r == Failure(Conflict) && store.docs == old(store.docs)
    ensures !(name == "" || old(NameTaken(store, name))) ==> (r == Success(Summary(newId, name)) &&
      store.docs.Keys == old(store.docs.Keys) + {newId} &&
      (forall id :: id in old(store.docs) ==> store.docs[id] == old(store.docs[id])) &&
      fresh(store.docs[newId]) && store.docs[newId].name == name &&
      store.docs[newId].users == [Member(caller.id, "owner")] &&
      store.docs[newId].keys == [] && store.docs[newId].locales == [])
  {
    if name == "" || NameTaken(store, name) {
      return Failure(Conflict);
    }
    var p := new Project(newId, name, [Member(caller.id, "owner")]);
    store.docs := store.docs[newId := p];
    r := Success(Summary(newId, name));
  }

  /** The creator of a project passes the editor filter for it: owners can
      go on to edit what they created. */
  lemma CreatorIsEditor(caller: Credentials, users: seq<Member>)
    requires users == [Member(caller.id, "owner")]
    ensures Matches(ProjectsListQuery(caller, true), users)
  {
    assert users[0].user == caller.id && users[0].role in MemberRoles;
  }

  /** `updateProject`: only the name changes. */
  method UpdateProject(doc: Project?, caller: Credentials, name: Option<string>) returns (r: Result<Summary>)
    modifies doc
    ensures !old(Finds(caller, true, doc)) ==> r == Failure(NotFound) && (doc != null ==> unchanged(doc))
    ensures old(Finds(caller, true, doc)) ==>
      (match UpdatedName(name)
       case Success(n) => doc.name == n && r == Success(Summary(doc.id, n))
       case Failure(e) => doc.name == old(doc.name) && r == Failure(e)) &&
      doc.keys == old(doc.keys) && doc.locales == old(doc.locales) && doc.users == old(doc.users)
  {
    if !Finds(caller, true, doc) {
      return Failure(NotFound);
    }
    var newName := name.GetOr("");
    if newName == "" {
      return Failure(Internal);
    }
    doc.name := newName;
    r := Success(Summary(doc.id, newName));
  }

  /** The followed-project lists of the clients, in store order. */
  function ProjectLists(clients: seq<Client>): (r: seq<seq<Id>>)
    reads set c | c in clients
    ensures |r| == |clients|
    ensures forall i :: 0 <= i < |clients| ==> r[i] == clients[i].projects
  {
    seq(|clients|, i reads set c | c in clients requires 0 <= i < |clients| => clients[i].projects)
  }

  /** The cascade as written: the removal predicate calls the project id as
      a function, so the first client that follows the deleted project makes
      the handler fail with nothing changed; with no follower nothing is
      changed either. */
  function CascadeAsWritten(lists: seq<seq<Id>>, id: Id): (r: Result<seq<seq<Id>>>)
    ensures r.Success? <==> forall i :: 0 <= i < |lists| ==> id !in lists[i]
    ensures r.Failure? ==> r.error == Internal
    ensures r.Success? ==> r.value == lists
  {
    if exists i :: 0 <= i < |lists| && id in lists[i] then Failure(Internal) else Success(lists)
  }

  /** The cascade as intended: the deleted id is dropped from every list,
      the other ids stay in their order. */
  function Cascade(lists: seq<seq<Id>>, id: Id): (r: seq<seq<Id>>)
    ensures |r| == |lists|
    ensures forall i :: 0 <= i < |lists| ==> r[i] == Without(lists[i], {id})
  {
    seq(|lists|, i requires 0 <= i < |lists| => Without(lists[i], {id}))
  }

  /** After the intended cascade no client follows the deleted project, each
      still follows every other project it followed, and a client that did
      not follow it is left as it was. */
  lemma CascadeDropsReferences(lists: seq<seq<Id>>, id: Id, i: int, other: Id)
    requires 0 <= i < |lists|
    ensures id !in Cascade(lists, id)[i]
    ensures other != id ==> (other in Cascade(lists, id)[i] <==> other in lists[i])
    ensures id !in lists[i] ==> Cascade(lists, id)[i] == lists[i]
  {
    if id !in lists[i] {
      WithoutNone(lists[i], {id});
    }
  }

  /** The discrepancy on the smallest case: one client following the
      deleted project. As written the handler fails and the client keeps a
      reference to a project that no longer exists; as intended the client
      follows nothing. */
  lemma CascadeDangling()
    ensures CascadeAsWritten([["p"]], "p") == Failure(Internal)
    ensures Cascade([["p"]], "p") == [[]]
  {
    var l: seq<seq<Id>> := [["p"]];
    assert "p" in l[0];
    assert Without(["p"], {"p"}) == [] by {
      assert ["p"][1..] == [];
    }
  }

  /** The project a lookup by id returns, `null` when none. */
  function Lookup(store: ProjectStore, id: Id): (doc: Project?)
    reads store
    ensures doc != null <==> id in store.docs
    ensures doc != null ==> doc == store.docs[id]
  {
    if id in store.docs then store.docs[id] else null
  }

  /** `deleteProject` as written: the project is removed first; the cascade
      then fails on the first following client. */
  method DeleteProjectAsWritten(store: ProjectStore, clients: ClientStore, caller: Credentials, id: Id)
    returns (r: Outcome)
    modifies store
    ensures !old(Finds(caller, true, Lookup(store, id))) ==> r == NotFound && store.docs == old(store.docs)
    ensures old(Finds(caller, true, Lookup(store, id))) ==>
      (store.docs == old(store.docs) - {id} &&
       match CascadeAsWritten(ProjectLists(clients.docs), id)
       case Success(_) => r == Ok
       case Failure(e) => r == e)
  {
    var doc := Lookup(store, id);
    if !Finds(caller, true, doc) {
      return NotFound;
    }
    store.docs := store.docs - {id};
    var i := 0;
    while i < |clients.docs|
      invariant 0 <= i <= |clients.docs|
      invariant forall j :: 0 <= j < i ==> id !in clients.docs[j].projects
    {
      if FirstIndex(clients.docs[i].projects, id) != -1 {
        return Internal;
      }
      i := i + 1;
    }
    r := Ok;
  }

  /** The followers' updates: each client drops the id from its list. The
      clients are distinct documents. */
  method DropReferences(cs: seq<Client>, id: Id)
    requires forall i, j :: 0 <= i < j < |cs| ==> cs[i] != cs[j]
    modifies set c | c in cs
    ensures forall i :: 0 <= i < |cs| ==> cs[i].projects == Without(old(cs[i].projects), {id})
    ensures forall i :: 0 <= i < |cs| ==>
      cs[i].name == old(cs[i].name) && cs[i].owner == old(cs[i].owner) && cs[i].token == old(cs[i].token)
  {
    var i := 0;
    while i < |cs|
      invariant 0 <= i <= |cs|
      invariant forall j :: 0 <= j < i ==> cs[j].projects == Without(old(cs[j].projects), {id})
      invariant forall j :: i <= j < |cs| ==> cs[j].projects == old(cs[j].projects)
      invariant forall j :: 0 <= j < |cs| ==>
        cs[j].name == old(cs[j].name) && cs[j].owner == old(cs[j].owner) && cs[j].token == old(cs[j].token)
    {
      cs[i].projects := Without(cs[i].projects, {id});
      i := i + 1;
    }
  }

  /** `deleteProject` as intended: the project is removed and every client
      stops following it. */
  method DeleteProject(store: ProjectStore, clients: ClientStore, caller: Credentials, id: Id)
    returns (r: Outcome)
    requires forall i, j :: 0 <= i < j < |clients.docs| ==> clients.docs[i] != clients.docs[j]
    modifies store, set c | c in clients.docs
    ensures !old(Finds(caller, true, Lookup(store, id))) ==>
      (r == NotFound && store.docs == old(store.docs) && forall c :: c in clients.docs ==> unchanged(c))
    ensures old(Finds(caller, true, Lookup(store, id))) ==>
      (r == Ok && store.docs == old(store.docs) - {id} &&
       ProjectLists(clients.docs) == Cascade(old(ProjectLists(clients.docs)), id))
    ensures forall i :: 0 <= i < |clients.docs| ==>
      (clients.docs[i].name == old(clients.docs[i].name) && clients.docs[i].owner == old(clients.docs[i].owner) &&
       clients.docs[i].token == old(clients.docs[i].token))
    ensures clients.docs == old(clients.docs)
  {
    var doc := Lookup(store, id);
    if !Finds(caller, true, doc) {
      return NotFound;
    }
    store.docs := store.docs - {id};
    DropReferences(clients.docs, id);
    r := Ok;
  }
}
