/** The kanban board of a project page: four columns, one per open task
    status, each listing the tasks with that status and a count badge. */
module KanbanBoard {
  import opened Wrappers
  import opened Schema
  import opened Tables
  import opened TaskActions

  datatype Column = Column(id: TaskStatus, title: string, color: string)

  /** The board's columns, left to right. There is no column for blocked
      tasks. */
  const Columns: seq<Column> := [
    Column(TaskStatus.Todo, "To Do", "bg-gray-100"),
    Column(TaskStatus.InProgress, "In Progress", "bg-blue-100"),
    Column(TaskStatus.InReview, "In Review", "bg-yellow-100"),
    Column(TaskStatus.Done, "Done", "bg-green-100")
  ]

  function StatusOf(t: Task): TaskStatus { t.status }

  /** `getTasksByStatus`: the tasks with that status, in the order given. */
  function TasksByStatus(tasks: seq<Task>, status: TaskStatus): (r: seq<Task>)
    ensures forall t :: t in r <==> t in tasks && t.status == status
  {
    Where(tasks, StatusOf, status)
  }

  /** What one column shows: its tasks, the badge with their number and
      whether the "No tasks" notice is displayed. */
  datatype ColumnView = ColumnView(column: Column, tasks: seq<Task>, badge: nat, noTasksNotice: bool)

  function ViewOf(column: Column, tasks: seq<Task>): (v: ColumnView)
    ensures v.column == column
    ensures forall t :: t in v.tasks <==> t in tasks && t.status == column.id
    ensures v.badge == |v.tasks|
    ensures v.noTasksNotice <==> forall t | t in tasks :: t.status != column.id
  {
    var shown := TasksByStatus(tasks, column.id);
    assert |shown| > 0 ==> shown[0] in shown;
    ColumnView(column, shown, |shown|, |shown| == 0)
  }

  /** The whole board, one view per column. */
  function Board(tasks: seq<Task>): (b: seq<ColumnView>)
    ensures |b| == |Columns|
    ensures forall i | 0 <= i < |b| :: b[i] == ViewOf(Columns[i], tasks)
  {
    seq(|Columns|, i requires 0 <= i < |Columns| => ViewOf(Columns[i], tasks))
  }

  /** How many times the board displays task `t`, over all columns. */
  function ShownCount(b: seq<ColumnView>, t: Task): nat
  {
    if b == [] then 0 else multiset(b[0].tasks)[t] + ShownCount(b[1..], t)
  }

  /** Some column is for status `s`. */
  predicate HasColumn(s: TaskStatus)
  {
    exists i | 0 <= i < |Columns| :: Columns[i].id == s
  }

  /** The columns are the four statuses other than "blocked", each once. */
  lemma ColumnsAreOpenStatuses()
    ensures forall s: TaskStatus :: HasColumn(s) <==> s != TaskStatus.Blocked
    ensures forall i, j | 0 <= i < j < |Columns| :: Columns[i].id != Columns[j].id
  {
    forall s: TaskStatus | s != TaskStatus.Blocked
      ensures HasColumn(s)
    {
      match s
      case Todo => assert Columns[0].id == s;
      case InProgress => assert Columns[1].id == s;
      case InReview => assert Columns[2].id == s;
      case Done => assert Columns[3].id == s;
    }
  }

  /** The board partitions the tasks: every copy of a task that is not
      blocked is displayed exactly once, in the column of its status, and a
      blocked task is displayed nowhere. */
  lemma {:induction false} BoardPartitionsTasks(tasks: seq<Task>, t: Task)
    ensures ShownCount(Board(tasks), t) == if t.status == TaskStatus.Blocked then 0 else multiset(tasks)[t]
  {
    var b := Board(tasks);
    var n := multiset(tasks)[t];
    ShownCountOfFour(b, t);
    forall i | 0 <= i < |Columns|
      ensures multiset(b[i].tasks)[t] == if Columns[i].id == t.status then n else 0
    {
      WhereCount(tasks, StatusOf, Columns[i].id);
    }
  }

  lemma ShownCountOfFour(b: seq<ColumnView>, t: Task)
    requires |b| == 4
    ensures ShownCount(b, t)
      == multiset(b[0].tasks)[t] + multiset(b[1].tasks)[t] + multiset(b[2].tasks)[t] + multiset(b[3].tasks)[t]
  {
    assert ShownCount(b[4..], t) == 0;
    assert ShownCount(b[3..], t) == multiset(b[3].tasks)[t] by { assert b[3..][1..] == b[4..]; }
    assert ShownCount(b[2..], t) == multiset(b[2].tasks)[t] + ShownCount(b[3..], t) by { assert b[2..][1..] == b[3..]; }
    assert ShownCount(b[1..], t) == multiset(b[1].tasks)[t] + ShownCount(b[2..], t) by { assert b[1..][1..] == b[2..]; }
  }

  /** A column lists its tasks in the order it receives them: a list sorted
      by any rank gives sorted columns. */
  lemma ColumnKeepsOrder(tasks: seq<Task>, status: TaskStatus, rank: Task -> int)
    requires SortedBy(tasks, rank)
    ensures SortedBy(TasksByStatus(tasks, status), rank)
  {
    WhereKeepsSorted(tasks, StatusOf, status, rank);
  }

  /** In a position-ordered list, a task placed below every other task of
      its status is the last card of its column. */
  lemma LowestTaskIsLastCard(shown: seq<Task>, t: Task)
    requires SortedBy(shown, TaskPosition)
    requires t in shown
    requires forall u | u in shown && u.status == t.status && u != t :: u.position < t.position
    ensures var col := TasksByStatus(shown, t.status); |col| > 0 && col[|col| - 1] == t
  {
    var col := TasksByStatus(shown, t.status);
    ColumnKeepsOrder(shown, t.status, TaskPosition);
    var k :| 0 <= k < |col| && col[k] == t;
    var last := col[|col| - 1];
    assert TaskPosition(col[k]) <= TaskPosition(last);
    assert last in shown && last.status == t.status;
  }

  /** A task created through `createTask` shows as the last card of its
      column on its project's board, whose tasks come position-ordered
      from `getTasksByProjectId`. */
  lemma CreatedTaskShowsLastOnBoard(tasks: seq<Task>, data: NewTask, userId: Id, id: Id, now: Timestamp,
                                    shown: seq<Task>)
    requires var t := CreatedTask(tasks, data, userId, id, now);
      forall u :: u in shown <==> u in tasks + [t] && u.projectId == t.projectId
    requires SortedBy(shown, TaskPosition)
    ensures var t := CreatedTask(tasks, data, userId, id, now);
      var col := TasksByStatus(shown, t.status);
      |col| > 0 && col[|col| - 1] == t
  {
    var t := CreatedTask(tasks, data, userId, id, now);
    CreatedTaskIsLastInColumn(tasks, data, userId, id, now);
    assert t in shown;
    forall u | u in shown && u.status == t.status && u != t
      ensures u.position < t.position
    {
      assert u in tasks && InColumn(u, t.projectId, t.status);
    }
    LowestTaskIsLastCard(shown, t);
  }
}
