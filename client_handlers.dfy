/** The api-client handlers: create a client owned by its creator, update
    a client's name or drop its token, and delete a client. */
module ClientHandlers {
  import opened Outcomes
  import opened Documents
  import opened Access
  import opened ClientLinks

  /** The ids of the stored clients. */
  function ClientIds(docs: seq<Client>): (r: set<Id>)
    reads set c | c in docs
    ensures forall id :: id in r <==> exists i :: 0 <= i < |docs| && docs[i].id == id
  {
    set i | 0 <= i < |docs| :: docs[i].id
  }

  /** The stored clients without those with a given id, in store order. */
  function WithoutClient(docs: seq<Client>, id: Id): (r: seq<Client>)
    reads set c | c in docs
    ensures forall i :: 0 <= i < |r| ==> r[i] in docs && r[i].id != id
    ensures forall i :: 0 <= i < |docs| && docs[i].id != id ==> docs[i] in r
    ensures |r| <= |docs|
    ensures id !in ClientIds(r)
  {
    if |docs| == 0 then []
    else
      var rest := WithoutClient(docs[1..], id);
      assert forall i :: 1 <= i < |docs| ==> docs[i] == docs[1..][i - 1];
      if docs[0].id == id then rest else [docs[0]] + rest
  }

  /** Removal by id works client by client: a single client stays exactly
      when its id differs, and the removal from a concatenation is the
      concatenation of the removals, so the survivors keep store order and
      multiplicity. */
  lemma WithoutClientSingle(c: Client, id: Id)
    ensures WithoutClient([c], id) == if c.id == id then [] else [c]
  {
    assert [c][1..] == [];
  }

  lemma {:induction false} WithoutClientAppend(a: seq<Client>, b: seq<Client>, id: Id)
    ensures WithoutClient(a + b, id) == WithoutClient(a, id) + WithoutClient(b, id)
  {
    if |a| == 0 {
      assert a + b == b;
    } else {
      assert (a + b)[0] == a[0];
      assert (a + b)[1..] == a[1..] + b;
      WithoutClientAppend(a[1..], b, id);
    }
  }

  /** Deleting an id that no client has keeps the store as it is. */
  lemma {:induction false} WithoutAbsentClient(docs: seq<Client>, id: Id)
    requires id !in ClientIds(docs)
    ensures WithoutClient(docs, id) == docs
  {
    if |docs| > 0 {
      assert docs[0].id != id;
      assert id !in ClientIds(docs[1..]) by {
        forall i | 0 <= i < |docs[1..]|
          ensures docs[1..][i].id != id
        {
          assert docs[1..][i] == docs[i + 1];
        }
      }
      WithoutAbsentClient(docs[1..], id);
    }
  }

  /** `createClient`: the owner is always the caller, whatever the request
      says; `token` is what the token generator produced (`None` when it
      failed, which makes the creation fail with `Conflict`). */
  method CreateClient(store: ClientStore, caller: Credentials, name: string, requestedOwner: Option<Id>,
                      token: Option<string>, newId: Id) returns (r: Result<ClientView>)
    requires newId !in ClientIds(store.docs)
    modifies store
    ensures token.None? ==> r == Failure(Conflict) && store.docs == old(store.docs)
    ensures token.Some? ==> (r == Success(ClientView(newId, token)) &&
      |store.docs| == |old(store.docs)| + 1 && store.docs[..|old(store.docs)|] == old(store.docs) &&
      fresh(store.docs[|old(store.docs)|]) &&
      store.docs[|old(store.docs)|].id == newId && store.docs[|old(store.docs)|].name == name &&
      store.docs[|old(store.docs)|].owner == caller.id && store.docs[|old(store.docs)|].token == token &&
      store.docs[|old(store.docs)|].projects == [])
  {
    if token.None? {
      return Failure(Conflict);
    }
    var c := new Client(newId, name, caller.id, token);
    store.docs := store.docs + [c];
    r := Success(ClientView(newId, token));
  }

  /** `updateClient`: `client` is what the client lookup for the requested
      id and this caller returned. A true `dropToken` sets the token to
      null: no new token is generated, since the generator only runs for
      new documents. */
  method UpdateClient(client: Client?, dropToken: bool, name: Option<string>) returns (r: Result<ClientView>)
    modifies client
    ensures client == null ==> r == Failure(NotFound)
    ensures client != null ==>
      (client.token == (if dropToken then None else old(client.token)) &&
       client.name == name.GetOr(old(client.name)) &&
       client.owner == old(client.owner) && client.projects == old(client.projects) &&
       r == Success(ClientView(client.id, client.token)))
  {
    if client == null {
      return Failure(NotFound);
    }
    if dropToken {
      client.token := None;
    }
    if name.Some? {
      client.name := name.value;
    }
    r := Success(ClientView(client.id, client.token));
  }

  /** `deleteClient`: every stored client with the id of the one found is
      removed. */
  method DeleteClient(store: ClientStore, client: Client?) returns (r: Outcome)
    modifies store
    ensures client == null ==> r == NotFound && store.docs == old(store.docs)
    ensures client != null ==> r == Ok && store.docs == WithoutClient(old(store.docs), client.id)
  {
    if client == null {
      return NotFound;
    }
    store.docs := WithoutClient(store.docs, client.id);
    r := Ok;
  }
}
