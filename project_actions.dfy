/** The project server actions. Deleting a project cascades to its tasks
    and documents (`on delete cascade` on both foreign keys). */
module ProjectActions {
  import opened Wrappers
  import opened Schema
  import opened Tables
  import opened Store

  /** Whether the database accepts `p` as a new row of `projects`. */
  predicate ProjectInsertable(db: Database, p: Project)
    reads db
  {
    p.id !in ValuesOf(db.projects, ProjectKey) && ProjectRefsOk(p, db.clients, db.users)
  }

  /** `createProject`: inserts the project with the caller as its creator. */
  method CreateProject(db: Database, caller: Option<Id>, data: NewProject, id: Id, now: Timestamp)
    returns (r: Result<Project, Failure>)
    requires db.Valid()
    modifies db
    ensures db.Valid()
    ensures !SignedIn(caller) ==> r == Failure(Unauthorized)
    ensures SignedIn(caller) ==>
      var p := ProjectRow(data, id, caller.value, now);
      if old(ProjectInsertable(db, p)) then r == Success(p) && db.projects == old(db.projects) + [p]
      else r == Failure(ConstraintFailed)
    ensures r.Failure? ==> db.projects == old(db.projects)
    ensures db.users == old(db.users) && db.clients == old(db.clients)
    ensures db.tasks == old(db.tasks) && db.documents == old(db.documents)
  {
    if !SignedIn(caller) {
      return Failure(Unauthorized);
    }
    var p := ProjectRow(data, id, caller.value, now);
    if !ProjectInsertable(db, p) {
      return Failure(ConstraintFailed);
    }
    AppendKeepsUnique(db.projects, ProjectKey, p);
    db.projects := db.projects + [p];
    r := Success(p);
  }

  /** `getProjects`: every project, newest first. */
  function GetProjects(db: Database, caller: Option<Id>): (r: Result<seq<Project>, Failure>)
    reads db
    ensures r.Success? <==> SignedIn(caller)
    ensures r.Success? ==> multiset(r.value) == multiset(db.projects)
    ensures r.Success? ==> forall i, j | 0 <= i < j < |r.value| :: r.value[i].createdAt >= r.value[j].createdAt
  {
    if !SignedIn(caller) then Failure(Unauthorized)
    else
      var rows := SortBy(db.projects, ProjectNewestFirst);
      assert forall i, j | 0 <= i < j < |rows| :: ProjectNewestFirst(rows[i]) <= ProjectNewestFirst(rows[j]);
      Success(rows)
  }

  /** `getProjectById`: the project with that id, if there is one. */
  function GetProjectById(db: Database, caller: Option<Id>, id: Id): (r: Result<Option<Project>, Failure>)
    reads db
    ensures r.Success? <==> SignedIn(caller)
    ensures r.Success? && r.value.Some? ==> r.value.value in db.projects && r.value.value.id == id
    ensures r.Success? ==> (r.value.None? <==> id !in ValuesOf(db.projects, ProjectKey))
  {
    if !SignedIn(caller) then Failure(Unauthorized)
    else Success(Find(db.projects, ProjectKey, id))
  }

  /** `getProjectsByClientId`: the client's projects, newest first. */
  function GetProjectsByClientId(db: Database, caller: Option<Id>, clientId: Id): (r: Result<seq<Project>, Failure>)
    reads db
    ensures r.Success? <==> SignedIn(caller)
    ensures r.Success? ==> forall p :: p in r.value <==> p in db.projects && p.clientId == clientId
    ensures r.Success? ==> multiset(r.value) == multiset(Where(db.projects, ProjectClient, clientId))
    ensures r.Success? ==> forall i, j | 0 <= i < j < |r.value| :: r.value[i].createdAt >= r.value[j].createdAt
  {
    if !SignedIn(caller) then Failure(Unauthorized)
    else
      var matching := Where(db.projects, ProjectClient, clientId);
      var rows := SortBy(matching, ProjectNewestFirst);
      assert forall i, j | 0 <= i < j < |rows| :: ProjectNewestFirst(rows[i]) <= ProjectNewestFirst(rows[j]);
      assert forall p :: p in rows <==> p in matching by {
        forall p ensures p in rows <==> p in matching {
          assert p in rows <==> p in multiset(rows);
          assert p in matching <==> p in multiset(matching);
        }
      }
      Success(rows)
  }

  /** `updateProject`: patches the project and stamps `updatedAt`; nothing
      happens when no project has the id, and the update fails when the
      patched row would reference a missing client or user. The project
      keeps its id, so its tasks and documents stay attached. */
  method UpdateProject(db: Database, caller: Option<Id>, id: Id, patch: ProjectPatch, now: Timestamp)
    returns (r: Result<Option<Project>, Failure>)
    requires db.Valid()
    modifies db
    ensures db.Valid()
    ensures !SignedIn(caller) ==> r == Failure(Unauthorized)
    ensures SignedIn(caller) && id !in old(ValuesOf(db.projects, ProjectKey)) ==> r == Success(None)
    ensures SignedIn(caller) && id in old(ValuesOf(db.projects, ProjectKey)) ==>
      var p := PatchProject(old(Find(db.projects, ProjectKey, id)).value, patch, now);
      if ProjectRefsOk(p, db.clients, db.users)
      then r == Success(Some(p)) && db.projects == Replace(old(db.projects), ProjectKey, id, p)
      else r == Failure(ConstraintFailed)
    ensures r.Failure? || r == Success(None) ==> db.projects == old(db.projects)
    ensures db.users == old(db.users) && db.clients == old(db.clients)
    ensures db.tasks == old(db.tasks) && db.documents == old(db.documents)
  {
    if !SignedIn(caller) {
      return Failure(Unauthorized);
    }
    var found := Find(db.projects, ProjectKey, id);
    if found.None? {
      return Success(None);
    }
    var p := PatchProject(found.value, patch, now);
    if !ProjectRefsOk(p, db.clients, db.users) {
      return Failure(ConstraintFailed);
    }
    ReplaceKeepsKeys(db.projects, ProjectKey, id, p);
    db.projects := Replace(db.projects, ProjectKey, id, p);
    r := Success(Some(p));
  }

  /** `deleteProject`: removes the project, and the database removes its
      tasks and documents with it; never fails for a signed-in caller. */
  method DeleteProject(db: Database, caller: Option<Id>, id: Id) returns (r: Result<(), Failure>)
    requires db.Valid()
    modifies db
    ensures db.Valid()
    ensures r.Failure? <==> !SignedIn(caller)
    ensures r.Success? ==>
      && db.projects == Without(old(db.projects), ProjectKey, {id})
      && db.tasks == Without(old(db.tasks), TaskProject, {id})
      && db.documents == Without(old(db.documents), DocumentProject, {id})
    ensures r.Success? ==> forall t | t in db.tasks :: t.projectId != id
    ensures r.Success? ==> forall d | d in db.documents :: d.projectId != id
    ensures r.Failure? ==> db.projects == old(db.projects) && db.tasks == old(db.tasks) && db.documents == old(db.documents)
    ensures db.users == old(db.users) && db.clients == old(db.clients)
  {
    if !SignedIn(caller) {
      return Failure(Unauthorized);
    }
    WithoutKeepsUnique(db.projects, ProjectKey, {id}, ProjectKey);
    WithoutKeepsUnique(db.tasks, TaskProject, {id}, TaskKey);
    WithoutKeepsUnique(db.documents, DocumentProject, {id}, DocumentKey);
    DeleteProjectKeepsRefs(db.projects, db.tasks, db.documents, db.users, id);
    db.projects, db.tasks, db.documents :=
      Without(db.projects, ProjectKey, {id}),
      Without(db.tasks, TaskProject, {id}),
      Without(db.documents, DocumentProject, {id});
    r := Success(());
  }
}
