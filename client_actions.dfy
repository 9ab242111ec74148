/** The client server actions. Creating a client first makes sure the
    caller has a `users` row; deleting one cascades to its projects and,
    through them, to their tasks and documents. */
module ClientActions {
  import opened Wrappers
  import opened Schema
  import opened Tables
  import opened Store
  import opened UserActions

  /** `createClient`: syncs the caller into `users`, then inserts the client
      with the caller as its creator. A failed sync aborts with the sync's
      error; a failed insert leaves the user row the sync created. */
  method CreateClient(db: Database, caller: Option<Id>, profile: Option<Profile>, data: NewClient, id: Id, now: Timestamp)
    returns (r: Result<Client, Failure>)
    requires db.Valid()
    modifies db
    ensures db.Valid()
    ensures !SignedIn(caller) ==> r == Failure(Unauthorized) && db.users == old(db.users)
    ensures SignedIn(caller) ==>
      var users := SyncedUsers(old(db.users), caller.value, profile, now);
      var c := ClientRow(data, id, caller.value, now);
      && db.users == users
      && if !IsUser(users, caller.value) then
           r == Failure(if profile.None? then UserNotFound else ConstraintFailed)
         else if id in old(ValuesOf(db.clients, ClientKey)) then r == Failure(ConstraintFailed)
         else r == Success(c) && db.clients == old(db.clients) + [c]
    ensures r.Failure? ==> db.clients == old(db.clients)
    ensures db.projects == old(db.projects) && db.tasks == old(db.tasks) && db.documents == old(db.documents)
  {
    if !SignedIn(caller) {
      return Failure(Unauthorized);
    }
    var synced := SyncCurrentUser(db, caller, profile, now);
    if synced.Failure? {
      return Failure(synced.error);
    }
    var c := ClientRow(data, id, caller.value, now);
    if c.id in ValuesOf(db.clients, ClientKey) {
      return Failure(ConstraintFailed);
    }
    AppendKeepsUnique(db.clients, ClientKey, c);
    db.clients := db.clients + [c];
    r := Success(c);
  }

  /** `getClients`: every client, newest first. */
  function GetClients(db: Database, caller: Option<Id>): (r: Result<seq<Client>, Failure>)
    reads db
    ensures r.Success? <==> SignedIn(caller)
    ensures r.Success? ==> multiset(r.value) == multiset(db.clients)
    ensures r.Success? ==> forall i, j | 0 <= i < j < |r.value| :: r.value[i].createdAt >= r.value[j].createdAt
  {
    if !SignedIn(caller) then Failure(Unauthorized)
    else
      var rows := SortBy(db.clients, ClientNewestFirst);
      assert forall i, j | 0 <= i < j < |rows| :: ClientNewestFirst(rows[i]) <= ClientNewestFirst(rows[j]);
      Success(rows)
  }

  /** `getClientById`: the client with that id, if there is one. */
  function GetClientById(db: Database, caller: Option<Id>, id: Id): (r: Result<Option<Client>, Failure>)
    reads db
    ensures r.Success? <==> SignedIn(caller)
    ensures r.Success? && r.value.Some? ==> r.value.value in db.clients && r.value.value.id == id
    ensures r.Success? ==> (r.value.None? <==> id !in ValuesOf(db.clients, ClientKey))
  {
    if !SignedIn(caller) then Failure(Unauthorized)
    else Success(Find(db.clients, ClientKey, id))
  }

  /** `updateClient`: patches the client and stamps `updatedAt`; nothing
      happens when no client has the id, and the update fails when the new
      creator is not a user. */
  method UpdateClient(db: Database, caller: Option<Id>, id: Id, patch: ClientPatch, now: Timestamp)
    returns (r: Result<Option<Client>, Failure>)
    requires db.Valid()
    modifies db
    ensures db.Valid()
    ensures !SignedIn(caller) ==> r == Failure(Unauthorized)
    ensures SignedIn(caller) && id !in old(ValuesOf(db.clients, ClientKey)) ==> r == Success(None)
    ensures SignedIn(caller) && id in old(ValuesOf(db.clients, ClientKey)) ==>
      var c := PatchClient(old(Find(db.clients, ClientKey, id)).value, patch, now);
      if ClientRefsOk(c, db.users)
      then r == Success(Some(c)) && db.clients == Replace(old(db.clients), ClientKey, id, c)
      else r == Failure(ConstraintFailed)
    ensures r.Failure? || r == Success(None) ==> db.clients == old(db.clients)
    ensures db.users == old(db.users) && db.projects == old(db.projects)
    ensures db.tasks == old(db.tasks) && db.documents == old(db.documents)
  {
    if !SignedIn(caller) {
      return Failure(Unauthorized);
    }
    var found := Find(db.clients, ClientKey, id);
    if found.None? {
      return Success(None);
    }
    var c := PatchClient(found.value, patch, now);
    if !ClientRefsOk(c, db.users) {
      return Failure(ConstraintFailed);
    }
    ReplaceKeepsKeys(db.clients, ClientKey, id, c);
    db.clients := Replace(db.clients, ClientKey, id, c);
    r := Success(Some(c));
  }

  /** What a client delete leaves behind still meets every constraint, and
      no surviving project names the deleted client. */
  lemma DeleteClientKeepsConstraints(users: seq<User>, clients: seq<Client>, projects: seq<Project>,
                                     tasks: seq<Task>, documents: seq<Document>, id: Id)
    requires Unique(clients, ClientKey) && Unique(projects, ProjectKey)
    requires Unique(tasks, TaskKey) && Unique(documents, DocumentKey)
    requires ClientsRefsOk(clients, users)
    requires ProjectsRefsOk(projects, clients, users)
    requires TasksRefsOk(tasks, projects, users)
    requires DocumentsRefsOk(documents, projects, users)
    ensures var gone := ProjectsOfClient(projects, id);
      var clients' := Without(clients, ClientKey, {id});
      var projects' := Without(projects, ProjectClient, {id});
      var tasks' := Without(tasks, TaskProject, gone);
      var documents' := Without(documents, DocumentProject, gone);
      && Unique(clients', ClientKey) && Unique(projects', ProjectKey)
      && Unique(tasks', TaskKey) && Unique(documents', DocumentKey)
      && ClientsRefsOk(clients', users)
      && ProjectsRefsOk(projects', clients', users)
      && TasksRefsOk(tasks', projects', users)
      && DocumentsRefsOk(documents', projects', users)
      && (forall p | p in projects' :: p.clientId != id)
  {
    var gone := ProjectsOfClient(projects, id);
    WithoutKeepsUnique(clients, ClientKey, {id}, ClientKey);
    WithoutKeepsUnique(projects, ProjectClient, {id}, ProjectKey);
    WithoutKeepsUnique(tasks, TaskProject, gone, TaskKey);
    WithoutKeepsUnique(documents, DocumentProject, gone, DocumentKey);
    DeleteClientKeepsRefs(clients, projects, tasks, documents, users, id);
  }

  /** The cascade spares other clients: a task whose project belongs to
      another client survives the delete. */
  lemma DeleteClientSparesOtherTasks(projects: seq<Project>, tasks: seq<Task>, id: Id, t: Task, p: Project)
    requires Unique(projects, ProjectKey)
    requires t in tasks && p in projects && t.projectId == p.id && p.clientId != id
    ensures t in Without(tasks, TaskProject, ProjectsOfClient(projects, id))
  {
  }

  /** `deleteClient`: removes the client; the database removes its projects
      and their tasks and documents with it. */
  method DeleteClient(db: Database, caller: Option<Id>, id: Id) returns (r: Result<(), Failure>)
    requires db.Valid()
    modifies db
    ensures db.Valid()
    ensures r.Failure? <==> !SignedIn(caller)
    ensures r.Success? ==>
      var gone := ProjectsOfClient(old(db.projects), id);
      && db.clients == Without(old(db.clients), ClientKey, {id})
      && db.projects == Without(old(db.projects), ProjectClient, {id})
      && db.tasks == Without(old(db.tasks), TaskProject, gone)
      && db.documents == Without(old(db.documents), DocumentProject, gone)
    ensures r.Success? ==> forall p | p in db.projects :: p.clientId != id
    ensures r.Failure? ==>
      && db.clients == old(db.clients) && db.projects == old(db.projects)
      && db.tasks == old(db.tasks) && db.documents == old(db.documents)
    ensures db.users == old(db.users)
  {
    if !SignedIn(caller) {
      return Failure(Unauthorized);
    }
    DeleteClientKeepsConstraints(db.users, db.clients, db.projects, db.tasks, db.documents, id);
    var gone := ProjectsOfClient(db.projects, id);
    var clients := Without(db.clients, ClientKey, {id});
    var projects := Without(db.projects, ProjectClient, {id});
    var tasks := Without(db.tasks, TaskProject, gone);
    var documents := Without(db.documents, DocumentProject, gone);
    db.clients, db.projects, db.tasks, db.documents := clients, projects, tasks, documents;
    r := Success(());
  }
}
