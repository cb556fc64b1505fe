/** The stored documents: projects with their keys, locales and members,
    clients with the projects they follow, and user accounts; plus the
    collections they are stored in. */
module Documents {
  import opened Outcomes
  import opened Seqs
  import opened Objects

  /** A document id, compared as its string form. */
  type Id = string

  /** A locale of a project: its code and its translations, an object whose
      property names are the literal dotted keys. */
  datatype Locale = Locale(code: string, keys: Fields<string>)

  /** An entry of a project's member list. */
  datatype Member = Member(user: Id, role: string)

  /** The roles a member entry may hold; `editor` is the default. */
  const MemberRoles: set<string> := {"editor", "owner"}
  const DefaultMemberRole: string := "editor"

  /** The roles an account may hold; `user` is the default. */
  const UserRoles: set<string> := {"user", "admin"}
  const DefaultUserRole: string := "user"

  class Project {
    const id: Id
    var name: string
    var keys: seq<string>
    var locales: seq<Locale>
    var users: seq<Member>

    /** A new project: no keys, no locales; only the name and the members
        come from the creator. */
    constructor (id: Id, name: string, users: seq<Member>)
      ensures this.id == id && this.name == name && this.users == users
      ensures keys == [] && locales == []
    {
      this.id := id;
      this.name := name;
      this.users := users;
      keys := [];
      locales := [];
    }
  }

  class Client {
    const id: Id
    var name: string
    var owner: Id
    var token: Option<string>
    var projects: seq<Id>

    /** A new client follows no project. */
    constructor (id: Id, name: string, owner: Id, token: Option<string>)
      ensures this.id == id && this.name == name && this.owner == owner && this.token == token
      ensures projects == []
    {
      this.id := id;
      this.name := name;
      this.owner := owner;
      this.token := token;
      projects := [];
    }
  }

  class User {
    const id: Id
    var email: string
    var username: string
    var role: string
    var password: Option<string>

    constructor (id: Id, email: string, username: string, role: string, password: Option<string>)
      ensures this.id == id && this.email == email && this.username == username
      ensures this.role == role && this.password == password
    {
      this.id := id;
      this.email := email;
      this.username := username;
      this.role := role;
      this.password := password;
    }
  }

  /** The projects collection, by id. */
  class ProjectStore {
    var docs: map<Id, Project>

    constructor ()
      ensures docs == map[]
    {
      docs := map[];
    }
  }

  /** The users collection, by id. */
  class UserStore {
    var docs: map<Id, User>

    constructor ()
      ensures docs == map[]
    {
      docs := map[];
    }
  }

  /** The clients collection, in insertion order. */
  class ClientStore {
    var docs: seq<Client>

    constructor ()
      ensures docs == []
    {
      docs := [];
    }
  }

  /** The locale codes of a project, in order. */
  function Codes(locales: seq<Locale>): (r: seq<string>)
    ensures |r| == |locales|
    ensures forall i :: 0 <= i < |locales| ==> r[i] == locales[i].code
  {
    seq(|locales|, i requires 0 <= i < |locales| => locales[i].code)
  }

  /** `findIndex` of the locale with a code: its first position, or -1. */
  function LocaleIndex(locales: seq<Locale>, code: string): (i: int)
    ensures -1 <= i < |locales|
    ensures i == -1 <==> forall j :: 0 <= j < |locales| ==> locales[j].code != code
    ensures 0 <= i ==> locales[i].code == code && forall j :: 0 <= j < i ==> locales[j].code != code
  {
    var i := FirstIndex(Codes(locales), code);
    assert 0 <= i ==> forall j :: 0 <= j < i ==> Codes(locales)[j] in Codes(locales)[..i];
    i
  }

  /** The user ids of a member list, in order. */
  function MemberIds(users: seq<Member>): (r: seq<Id>)
    ensures |r| == |users|
    ensures forall i :: 0 <= i < |users| ==> r[i] == users[i].user
  {
    seq(|users|, i requires 0 <= i < |users| => users[i].user)
  }

  /** `findIndex` of a user's entry in a member list: its first position, or -1. */
  function MemberIndex(users: seq<Member>, user: Id): (i: int)
    ensures -1 <= i < |users|
    ensures i == -1 <==> forall j :: 0 <= j < |users| ==> users[j].user != user
    ensures 0 <= i ==> users[i].user == user && forall j :: 0 <= j < i ==> users[j].user != user
  {
    var i := FirstIndex(MemberIds(users), user);
    assert 0 <= i ==> forall j :: 0 <= j < i ==> MemberIds(users)[j] in MemberIds(users)[..i];
    i
  }

  /** `splice(i, 1)`: drop the element at one position, keep the rest in order. */
  function RemoveAt<T>(s: seq<T>, i: nat): (r: seq<T>)
    requires i < |s|
    ensures |r| == |s| - 1
    ensures forall j :: 0 <= j < i ==> r[j] == s[j]
    ensures forall j :: i <= j < |r| ==> r[j] == s[j + 1]
  {
    s[..i] + s[i + 1..]
  }
}
