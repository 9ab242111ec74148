/** The task server actions: create (appending the task to the bottom of
    its board column), the three reads, the two updates and delete. */
module TaskActions {
  import opened Wrappers
  import opened Schema
  import opened Tables
  import opened Store

  /** Task `t` sits in the board column (`projectId`, `status`). */
  predicate InColumn(t: Task, projectId: Id, status: TaskStatus)
  {
    t.projectId == projectId && t.status == status
  }

  /** The position of the task `findFirst(... orderBy desc(position))`
      returns for a column: the largest one, or none for an empty column. */
  function MaxPosition(tasks: seq<Task>, projectId: Id, status: TaskStatus): (r: Option<int>)
    ensures r.None? <==> forall t | t in tasks :: !InColumn(t, projectId, status)
    ensures r.Some? ==> forall t | t in tasks && InColumn(t, projectId, status) :: t.position <= r.value
    ensures r.Some? ==> exists t | t in tasks && InColumn(t, projectId, status) :: t.position == r.value
  {
    if |tasks| == 0 then None
    else
      var rest := MaxPosition(tasks[1..], projectId, status);
      var t := tasks[0];
      assert forall x | x in tasks :: x == t || x in tasks[1..];
      if !InColumn(t, projectId, status) then rest
      else if rest.None? || rest.value < t.position then Some(t.position)
      else rest
  }

  /** `(maxPosition?.position || 0) + 1`. A 0 position is falsy and is
      replaced by 0, so the expression is one more than the column's
      largest position, or 1 for an empty column. The new task goes
      strictly below every task already in its column, and directly below
      the lowest one. */
  function NextPosition(tasks: seq<Task>, projectId: Id, status: TaskStatus): (p: int)
    ensures forall t | t in tasks && InColumn(t, projectId, status) :: t.position < p
    ensures (forall t | t in tasks :: !InColumn(t, projectId, status)) ==> p == 1
    ensures (exists t | t in tasks :: InColumn(t, projectId, status))
            ==> exists t | t in tasks && InColumn(t, projectId, status) :: t.position + 1 == p
  {
    var m := MaxPosition(tasks, projectId, status);
    (if m.Some? && m.value != 0 then m.value else 0) + 1
  }

  /** The row `createTask` inserts for the signed-in user `userId`. */
  function CreatedTask(tasks: seq<Task>, data: NewTask, userId: Id, id: Id, now: Timestamp): (t: Task)
    ensures t.id == id && t.projectId == data.projectId && t.title == data.title
    ensures t.reporterId == Some(userId)
    ensures t.status == data.status.GetOr(Todo)
    ensures t.position == NextPosition(tasks, data.projectId, t.status)
  {
    var status := data.status.GetOr(Todo);
    TaskRow(data.(position := Some(NextPosition(tasks, data.projectId, status)),
                  reporterId := Some(userId)), id, now)
  }

  /** Whether the database accepts `t` as a new row of `tasks`. */
  predicate TaskInsertable(db: Database, t: Task)
    reads db
  {
    t.id !in ValuesOf(db.tasks, TaskKey) && TaskRefsOk(t, db.projects, db.users)
  }

  method CreateTask(db: Database, caller: Option<Id>, data: NewTask, id: Id, now: Timestamp)
    returns (r: Result<Task, Failure>)
    requires db.Valid()
    modifies db
    ensures db.Valid()
    ensures !SignedIn(caller) ==> r == Failure(Unauthorized)
    ensures SignedIn(caller) ==>
      var t := CreatedTask(old(db.tasks), data, caller.value, id, now);
      if old(TaskInsertable(db, t)) then r == Success(t) && db.tasks == old(db.tasks) + [t]
      else r == Failure(ConstraintFailed)
    ensures r.Failure? ==> db.tasks == old(db.tasks)
    ensures db.users == old(db.users) && db.clients == old(db.clients)
    ensures db.projects == old(db.projects) && db.documents == old(db.documents)
  {
    if !SignedIn(caller) {
      return Failure(Unauthorized);
    }
    var t := CreatedTask(db.tasks, data, caller.value, id, now);
    if !TaskInsertable(db, t) {
      return Failure(ConstraintFailed);
    }
    AppendKeepsUnique(db.tasks, TaskKey, t);
    db.tasks := db.tasks + [t];
    r := Success(t);
  }

  /** `getTasks`: every task, newest first. */
  function GetTasks(db: Database, caller: Option<Id>): (r: Result<seq<Task>, Failure>)
    reads db
    ensures r.Success? <==> SignedIn(caller)
    ensures r.Success? ==> multiset(r.value) == multiset(db.tasks)
    ensures r.Success? ==> forall i, j | 0 <= i < j < |r.value| :: r.value[i].createdAt >= r.value[j].createdAt
  {
    if !SignedIn(caller) then Failure(Unauthorized)
    else
      var rows := SortBy(db.tasks, TaskNewestFirst);
      assert forall i, j | 0 <= i < j < |rows| :: TaskNewestFirst(rows[i]) <= TaskNewestFirst(rows[j]);
      Success(rows)
  }

  /** `getTasksByProjectId`: the project's tasks in position order. */
  function GetTasksByProjectId(db: Database, caller: Option<Id>, projectId: Id): (r: Result<seq<Task>, Failure>)
    reads db
    ensures r.Success? <==> SignedIn(caller)
    ensures r.Success? ==> forall t :: t in r.value <==> t in db.tasks && t.projectId == projectId
    ensures r.Success? ==> multiset(r.value) == multiset(Where(db.tasks, TaskProject, projectId))
    ensures r.Success? ==> SortedBy(r.value, TaskPosition)
  {
    if !SignedIn(caller) then Failure(Unauthorized)
    else
      var matching := Where(db.tasks, TaskProject, projectId);
      var rows := SortBy(matching, TaskPosition);
      assert forall t :: t in rows <==> t in matching by {
        forall t ensures t in rows <==> t in matching {
          assert t in rows <==> t in multiset(rows);
          assert t in matching <==> t in multiset(matching);
        }
      }
      Success(rows)
  }

  /** `getTaskById`: the task with that id, if there is one. */
  function GetTaskById(db: Database, caller: Option<Id>, id: Id): (r: Result<Option<Task>, Failure>)
    reads db
    ensures r.Success? <==> SignedIn(caller)
    ensures r.Success? && r.value.Some? ==> r.value.value in db.tasks && r.value.value.id == id
    ensures r.Success? ==> (r.value.None? <==> id !in ValuesOf(db.tasks, TaskKey))
  {
    if !SignedIn(caller) then Failure(Unauthorized)
    else Success(Find(db.tasks, TaskKey, id))
  }

  /** `update tasks set ...patch, updatedAt = now where id = ...`: nothing
      happens when no task has the id; the update fails when the patched
      row would reference a missing project or user. */
  method UpdateTask(db: Database, caller: Option<Id>, id: Id, patch: TaskPatch, now: Timestamp)
    returns (r: Result<Option<Task>, Failure>)
    requires db.Valid()
    modifies db
    ensures db.Valid()
    ensures !SignedIn(caller) ==> r == Failure(Unauthorized)
    ensures SignedIn(caller) && id !in old(ValuesOf(db.tasks, TaskKey)) ==> r == Success(None)
    ensures SignedIn(caller) && id in old(ValuesOf(db.tasks, TaskKey)) ==>
      var t := PatchTask(old(Find(db.tasks, TaskKey, id)).value, patch, now);
      if TaskRefsOk(t, db.projects, db.users)
      then r == Success(Some(t)) && db.tasks == Replace(old(db.tasks), TaskKey, id, t)
      else r == Failure(ConstraintFailed)
    ensures r.Failure? || r == Success(None) ==> db.tasks == old(db.tasks)
    ensures db.users == old(db.users) && db.clients == old(db.clients)
    ensures db.projects == old(db.projects) && db.documents == old(db.documents)
  {
    if !SignedIn(caller) {
      return Failure(Unauthorized);
    }
    var found := Find(db.tasks, TaskKey, id);
    if found.None? {
      return Success(None);
    }
    var t := PatchTask(found.value, patch, now);
    if !TaskRefsOk(t, db.projects, db.users) {
      return Failure(ConstraintFailed);
    }
    ReplaceKeepsKeys(db.tasks, TaskKey, id, t);
    db.tasks := Replace(db.tasks, TaskKey, id, t);
    r := Success(Some(t));
  }

  /** The change `updateTaskStatus` makes: the task moves to column
      `status` at `position`. */
  function MoveTo(status: TaskStatus, position: int): (p: TaskPatch)
    ensures forall t: Task, now | true ::
      var m := PatchTask(t, p, now);
      m == t.(status := status, position := position, updatedAt := now)
  {
    NoTaskChanges.(status := Some(status), position := Some(position))
  }

  /** `updateTaskStatus`: the drag-and-drop move of a task. A move never
      touches a reference, so it fails only for a signed-out caller. */
  method UpdateTaskStatus(db: Database, caller: Option<Id>, id: Id, status: TaskStatus, position: int, now: Timestamp)
    returns (r: Result<Option<Task>, Failure>)
    requires db.Valid()
    modifies db
    ensures db.Valid()
    ensures r.Failure? <==> !SignedIn(caller)
    ensures SignedIn(caller) && id !in old(ValuesOf(db.tasks, TaskKey)) ==> r == Success(None)
    ensures SignedIn(caller) && id in old(ValuesOf(db.tasks, TaskKey)) ==>
      var t := old(Find(db.tasks, TaskKey, id)).value.(status := status, position := position, updatedAt := now);
      r == Success(Some(t)) && db.tasks == Replace(old(db.tasks), TaskKey, id, t)
    ensures r.Failure? || r == Success(None) ==> db.tasks == old(db.tasks)
    ensures db.users == old(db.users) && db.clients == old(db.clients)
    ensures db.projects == old(db.projects) && db.documents == old(db.documents)
  {
    var found := Find(db.tasks, TaskKey, id);
    r := UpdateTask(db, caller, id, MoveTo(status, position), now);
    assert found.Some? ==> TaskRefsOk(found.value, db.projects, db.users);
  }

  /** `deleteTask`: removes the task if it exists; never fails for a
      signed-in caller. No other row references a task. */
  method DeleteTask(db: Database, caller: Option<Id>, id: Id) returns (r: Result<(), Failure>)
    requires db.Valid()
    modifies db
    ensures db.Valid()
    ensures r.Failure? <==> !SignedIn(caller)
    ensures r.Success? ==> db.tasks == Without(old(db.tasks), TaskKey, {id})
    ensures r.Failure? ==> db.tasks == old(db.tasks)
    ensures id !in ValuesOf(db.tasks, TaskKey) || r.Failure?
    ensures db.users == old(db.users) && db.clients == old(db.clients)
    ensures db.projects == old(db.projects) && db.documents == old(db.documents)
  {
    if !SignedIn(caller) {
      return Failure(Unauthorized);
    }
    WithoutKeepsUnique(db.tasks, TaskKey, {id}, TaskKey);
    WithoutKeys(db.tasks, TaskKey, {id});
    db.tasks := Without(db.tasks, TaskKey, {id});
    r := Success(());
  }

  /** Creating a task appends it below its whole column: in the project's
      position-ordered task list the new task comes after every task of its
      column. */
  lemma CreatedTaskIsLastInColumn(tasks: seq<Task>, data: NewTask, userId: Id, id: Id, now: Timestamp)
    ensures var t := CreatedTask(tasks, data, userId, id, now);
      forall u | u in tasks && InColumn(u, t.projectId, t.status) :: TaskPosition(u) < TaskPosition(t)
  {
    var t := CreatedTask(tasks, data, userId, id, now);
  }
}
