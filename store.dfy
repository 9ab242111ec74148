/** The SQLite database behind the server actions: five tables held by one
    object, the constraints the schema declares on them (primary keys, the
    unique e-mail, the foreign keys) and the errors an action can raise. */
module Store {
  import opened Wrappers
  import opened Schema
  import opened Tables

  /** The errors the actions throw. `ConstraintFailed` stands for the
      driver's error on a violated primary-key, unique or foreign-key
      constraint; the others carry the action's own message. */
  datatype Failure = Unauthorized | ProjectNotFound | DocumentNotFound | UserNotFound | ConstraintFailed
  {
    function Message(): (m: string)
      ensures |m| > 0
    {
      match this
      case Unauthorized => "Unauthorized"
      case ProjectNotFound => "Project not found"
      case DocumentNotFound => "Document not found"
      case UserNotFound => "User not found"
      case ConstraintFailed => "SQLITE_CONSTRAINT"
    }
  }

  /** A caller can tell every error apart by its message alone. */
  lemma MessagesAreDistinct(a: Failure, b: Failure)
    ensures a != b ==> a.Message() != b.Message()
  {
  }

  /** `auth()` yields the signed-in user's id or null; `if (!userId)` also
      turns away the empty id. */
  predicate SignedIn(caller: Option<Id>)
  {
    caller.Some? && caller.value != ""
  }

  // --------------------------------------------------- foreign keys

  predicate IsUser(users: seq<User>, id: Id)
  {
    id in ValuesOf(users, UserKey)
  }

  /** A nullable reference: null, or an existing user. */
  predicate IsUserOrNull(users: seq<User>, id: Option<Id>)
  {
    id.None? || IsUser(users, id.value)
  }

  predicate ClientRefsOk(c: Client, users: seq<User>)
  {
    IsUser(users, c.createdBy)
  }

  predicate ProjectRefsOk(p: Project, clients: seq<Client>, users: seq<User>)
  {
    p.clientId in ValuesOf(clients, ClientKey) && IsUser(users, p.createdBy)
  }

  predicate TaskRefsOk(t: Task, projects: seq<Project>, users: seq<User>)
  {
    t.projectId in ValuesOf(projects, ProjectKey)
    && IsUserOrNull(users, t.assigneeId) && IsUserOrNull(users, t.reporterId)
  }

  predicate DocumentRefsOk(d: Document, projects: seq<Project>, users: seq<User>)
  {
    d.projectId in ValuesOf(projects, ProjectKey) && IsUser(users, d.uploadedBy)
  }

  predicate ClientsRefsOk(clients: seq<Client>, users: seq<User>)
  {
    forall c | c in clients :: ClientRefsOk(c, users)
  }

  predicate ProjectsRefsOk(projects: seq<Project>, clients: seq<Client>, users: seq<User>)
  {
    forall p | p in projects :: ProjectRefsOk(p, clients, users)
  }

  predicate TasksRefsOk(tasks: seq<Task>, projects: seq<Project>, users: seq<User>)
  {
    forall t | t in tasks :: TaskRefsOk(t, projects, users)
  }

  predicate DocumentsRefsOk(documents: seq<Document>, projects: seq<Project>, users: seq<User>)
  {
    forall d | d in documents :: DocumentRefsOk(d, projects, users)
  }

  /** The database. Each table is a sequence of rows in insertion order;
      `Valid` is every constraint the schema declares. */
  class Database {
    var users: seq<User>
    var clients: seq<Client>
    var projects: seq<Project>
    var tasks: seq<Task>
    var documents: seq<Document>

    predicate Valid()
      reads this
    {
      Unique(users, UserKey) && Unique(users, UserEmail)
      && Unique(clients, ClientKey) && Unique(projects, ProjectKey)
      && Unique(tasks, TaskKey) && Unique(documents, DocumentKey)
      && ClientsRefsOk(clients, users)
      && ProjectsRefsOk(projects, clients, users)
      && TasksRefsOk(tasks, projects, users)
      && DocumentsRefsOk(documents, projects, users)
    }

    constructor()
      ensures Valid()
      ensures users == [] && clients == [] && projects == [] && tasks == [] && documents == []
    {
      users, clients, projects, tasks, documents := [], [], [], [], [];
    }
  }

  // ------------------------------------------------ cascading deletes

  /** The ids of the projects of client `c`: the rows `on delete cascade`
      removes together with the client. */
  function ProjectsOfClient(projects: seq<Project>, c: Id): (ids: set<Id>)
    ensures forall p | p in projects :: p.id in ids <== p.clientId == c
    ensures forall i | i in ids :: exists p | p in projects :: p.id == i && p.clientId == c
  {
    ValuesOf(Where(projects, ProjectClient, c), ProjectKey)
  }

  /** Adding a user breaks no reference: every row that named a user still
      finds it. */
  lemma AddUserKeepsRefs(users: seq<User>, u: User, clients: seq<Client>, projects: seq<Project>,
                         tasks: seq<Task>, documents: seq<Document>)
    requires ClientsRefsOk(clients, users)
    requires ProjectsRefsOk(projects, clients, users)
    requires TasksRefsOk(tasks, projects, users)
    requires DocumentsRefsOk(documents, projects, users)
    ensures ClientsRefsOk(clients, users + [u])
    ensures ProjectsRefsOk(projects, clients, users + [u])
    ensures TasksRefsOk(tasks, projects, users + [u])
    ensures DocumentsRefsOk(documents, projects, users + [u])
  {
    forall id | IsUser(users, id) ensures IsUser(users + [u], id) {
      var x :| x in users && x.id == id;
      assert x in users + [u];
    }
  }

  /** Deleting project `id` together with the tasks and documents that
      reference it leaves no dangling reference. */
  lemma DeleteProjectKeepsRefs(projects: seq<Project>, tasks: seq<Task>, documents: seq<Document>,
                               users: seq<User>, id: Id)
    requires TasksRefsOk(tasks, projects, users)
    requires DocumentsRefsOk(documents, projects, users)
    ensures TasksRefsOk(Without(tasks, TaskProject, {id}), Without(projects, ProjectKey, {id}), users)
    ensures DocumentsRefsOk(Without(documents, DocumentProject, {id}), Without(projects, ProjectKey, {id}), users)
  {
    WithoutKeys(projects, ProjectKey, {id});
  }

  /** Deleting a client removes its projects, and through them their tasks
      and documents; what survives references only surviving rows. */
  lemma DeleteClientKeepsRefs(clients: seq<Client>, projects: seq<Project>, tasks: seq<Task>,
                              documents: seq<Document>, users: seq<User>, id: Id)
    requires ProjectsRefsOk(projects, clients, users)
    requires TasksRefsOk(tasks, projects, users)
    requires DocumentsRefsOk(documents, projects, users)
    ensures ProjectsRefsOk(Without(projects, ProjectClient, {id}), Without(clients, ClientKey, {id}), users)
    ensures TasksRefsOk(Without(tasks, TaskProject, ProjectsOfClient(projects, id)),
                        Without(projects, ProjectClient, {id}), users)
    ensures DocumentsRefsOk(Without(documents, DocumentProject, ProjectsOfClient(projects, id)),
                            Without(projects, ProjectClient, {id}), users)
  {
    WithoutKeys(clients, ClientKey, {id});
    var gone := ProjectsOfClient(projects, id);
    var kept := Without(projects, ProjectClient, {id});
    forall pid | pid in ValuesOf(projects, ProjectKey) && pid !in gone
      ensures pid in ValuesOf(kept, ProjectKey)
    {
      var p :| p in projects && p.id == pid;
      assert p in kept;
    }
  }
}
