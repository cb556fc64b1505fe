/** The handlers linking api clients to a project: list the clients that
    may read it, make a client follow it, and make a client stop following
    it. Each first looks the project up with the editor filter. */
module ClientLinks {
  import opened Outcomes
  import opened Seqs
  import opened Documents
  import opened Access

  /** What the handlers reply about a client: its id and its token. */
  datatype ClientView = ClientView(id: Id, token: Option<string>)

  /** The views of a list of clients, in order. */
  function Views(clients: seq<Client>): (r: seq<ClientView>)
    reads set c | c in clients
    ensures |r| == |clients|
    ensures forall i :: 0 <= i < |clients| ==> r[i] == ClientView(clients[i].id, clients[i].token)
  {
    seq(|clients|, i reads set c | c in clients requires 0 <= i < |clients| =>
      ClientView(clients[i].id, clients[i].token))
  }

  /** `getClients`: `listed` holds the clients the client lookup for this
      caller and project returned. No project, or no client, is `NotFound`. */
  function GetClients(doc: Project?, caller: Credentials, listed: seq<Client>): (r: Result<seq<ClientView>>)
    reads doc, set c | c in listed
    ensures r.Failure? <==> !Finds(caller, true, doc) || |listed| == 0
    ensures r.Failure? ==> r.error == NotFound
    ensures r.Success? ==> (|r.value| == |listed| &&
      forall i :: 0 <= i < |listed| ==> r.value[i].id == listed[i].id && r.value[i].token == listed[i].token)
  {
    if !Finds(caller, true, doc) || |listed| == 0 then Failure(NotFound)
    else Success(Views(listed))
  }

  /** A client's followed projects after following one more: `Conflict`
      when it already follows that project. */
  function Followed(projects: seq<Id>, project: Id): (r: Result<seq<Id>>)
    ensures r.Failure? <==> project in projects
    ensures r.Failure? ==> r.error == Conflict
    ensures r.Success? ==> (Elems(r.value) == Elems(projects) + {project} && |r.value| == |projects| + 1 &&
      r.value[..|projects|] == projects)
    ensures r.Success? && NoDup(projects) ==> NoDup(r.value)
  {
    if FirstIndex(projects, project) != -1 then Failure(Conflict)
    else
      assert forall i :: 0 <= i < |projects| ==> projects[i] in projects;
      Success(projects + [project])
  }

  /** A client's followed projects without the first occurrence of one:
      `NotFound` when it does not follow that project. */
  function Unfollowed(projects: seq<Id>, project: Id): (r: Result<seq<Id>>)
    ensures r.Failure? <==> project !in projects
    ensures r.Failure? ==> r.error == NotFound
    ensures r.Success? ==> exists i ::
      (0 <= i < |projects| && projects[i] == project && project !in projects[..i] &&
       r.value == projects[..i] + projects[i + 1..])
    ensures r.Success? && NoDup(projects) ==> project !in r.value
  {
    var i := FirstIndex(projects, project);
    if i == -1 then Failure(NotFound)
    else
      assert NoDup(projects) ==> forall j :: 0 <= j < |projects| && j != i ==> projects[j] != project;
      Success(RemoveAt(projects, i))
  }

  /** Stopping to follow a project just followed gives back the list. */
  lemma UnfollowAfterFollow(projects: seq<Id>, project: Id)
    requires project !in projects
    ensures Followed(projects, project).Success?
    ensures Unfollowed(Followed(projects, project).value, project) == Success(projects)
  {
    var f := projects + [project];
    assert FirstIndex(f, project) == |projects| by {
      assert f[..|projects|] == projects;
    }
    assert RemoveAt(f, |projects|) == projects;
  }

  /** `addClient`: `client` is what the client lookup for the requested id
      and this caller returned (`null` when none). */
  method AddClient(doc: Project?, caller: Credentials, client: Client?) returns (r: Result<ClientView>)
    modifies client
    ensures !Finds(caller, true, doc) || client == null ==> r == Failure(NotFound)
    ensures !Finds(caller, true, doc) && client != null ==> unchanged(client)
    ensures Finds(caller, true, doc) && client != null ==>
      (match Followed(old(client.projects), doc.id)
       case Success(ps) => client.projects == ps && r == Success(ClientView(client.id, client.token))
       case Failure(e) => client.projects == old(client.projects) && r == Failure(e)) &&
      client.name == old(client.name) && client.owner == old(client.owner) && client.token == old(client.token)
  {
    if !Finds(caller, true, doc) {
      return Failure(NotFound);
    }
    if client == null {
      return Failure(NotFound);
    }
    if FirstIndex(client.projects, doc.id) != -1 {
      return Failure(Conflict);
    }
    client.projects := client.projects + [doc.id];
    r := Success(ClientView(client.id, client.token));
  }

  /** `deleteClient`: `client` is the result of the client lookup for the
      id in the route and this caller. */
  method DeleteClient(doc: Project?, caller: Credentials, client: Client?) returns (r: Outcome)
    modifies client
    ensures !Finds(caller, true, doc) || client == null ==> r == NotFound
    ensures !Finds(caller, true, doc) && client != null ==> unchanged(client)
    ensures Finds(caller, true, doc) && client != null ==>
      (match Unfollowed(old(client.projects), doc.id)
       case Success(ps) => client.projects == ps && r == Ok
       case Failure(e) => client.projects == old(client.projects) && r == e) &&
      client.name == old(client.name) && client.owner == old(client.owner) && client.token == old(client.token)
  {
    if !Finds(caller, true, doc) {
      return NotFound;
    }
    if client == null {
      return NotFound;
    }
    var i := FirstIndex(client.projects, doc.id);
    if i == -1 {
      return NotFound;
    }
    client.projects := RemoveAt(client.projects, i);
    r := Ok;
  }
}
