/** The "new task" form: its validation schema, the values it opens with,
    the projects it offers and the `createTask` call it makes. */
module TaskForm {
  import opened Wrappers
  import opened Text
  import opened Schema
  import opened Tables
  import opened Forms
  import opened TaskActions

  /** The form's fields as typed. */
  datatype Fields = Fields(
    title: Option<string>,
    description: Option<string>,
    projectId: Option<string>,
    status: Option<string>,
    priority: Option<string>,
    category: Option<string>,
    timeEstimate: Option<string>)

  /** The fields once the schema accepted them. */
  datatype Data = Data(
    title: string,
    description: Option<string>,
    projectId: string,
    status: TaskStatus,
    priority: Priority,
    category: Option<string>,
    timeEstimate: Option<string>)

  /** Status and priority are enums that default to "todo" and "medium". */
  function StatusField(v: Option<string>): Option<TaskStatus>
  {
    EnumField(v, ParseTaskStatus, Some(TaskStatus.Todo))
  }

  function PriorityField(v: Option<string>): Option<Priority>
  {
    EnumField(v, ParsePriority, Some(Priority.Medium))
  }

  /** `taskSchema`: a title and a project are required, and status and
      priority must name members of their enums. A rejection names every
      offending field. */
  function Validate(f: Fields): (r: Result<Data, set<string>>)
    ensures r.Success? <==>
      NonEmpty(f.title) && NonEmpty(f.projectId) && StatusField(f.status).Some? && PriorityField(f.priority).Some?
    ensures r.Success? ==>
      r.value == Data(f.title.value, f.description, f.projectId.value, StatusField(f.status).value,
                      PriorityField(f.priority).value, f.category, f.timeEstimate)
    ensures r.Failure? ==>
      && ("title" in r.error <==> !NonEmpty(f.title))
      && ("projectId" in r.error <==> !NonEmpty(f.projectId))
      && ("status" in r.error <==> StatusField(f.status).None?)
      && ("priority" in r.error <==> PriorityField(f.priority).None?)
      && r.error <= {"title", "projectId", "status", "priority"}
  {
    var bad :=
      (if NonEmpty(f.title) then {} else {"title"})
      + (if NonEmpty(f.projectId) then {} else {"projectId"})
      + (if StatusField(f.status).Some? then {} else {"status"})
      + (if PriorityField(f.priority).Some? then {} else {"priority"});
    if bad == {} then
      Success(Data(f.title.value, f.description, f.projectId.value, StatusField(f.status).value,
                   PriorityField(f.priority).value, f.category, f.timeEstimate))
    else Failure(bad)
  }

  /** The accepted status and priority are the ones the fields name, or
      the defaults for fields left unset. */
  lemma ValidatedEnumsAreTheFieldsText(f: Fields)
    requires Validate(f).Success?
    ensures TaskStatusName(Validate(f).value.status) == f.status.GetOr("todo")
    ensures PriorityName(Validate(f).value.priority) == f.priority.GetOr("medium")
  {
    if f.status.Some? {
      ParsedNamesRoundTrip(f.status.value);
    }
    if f.priority.Some? {
      ParsedNamesRoundTrip(f.priority.value);
    }
  }

  /** The values the form opens with: the status the caller asks for (any
      non-empty text is taken as is), else "todo"; "medium"; the project
      the caller asks for, else no project. */
  function Defaults(defaultProjectId: Option<string>, defaultStatus: Option<string>): (f: Fields)
    ensures f.title.None? && f.description.None? && f.category.None? && f.timeEstimate.None?
    ensures f.priority == Some("medium")
    ensures f.status == Some(if NonEmpty(defaultStatus) then defaultStatus.value else "todo")
    ensures f.projectId == Some(NullToEmpty(defaultProjectId))
  {
    Fields(None, None, Some(NullToEmpty(defaultProjectId)),
           Some(if NonEmpty(defaultStatus) then defaultStatus.value else "todo"),
           Some("medium"), None, None)
  }

  /** Opened from a project with a valid (or no) status, the form needs
      only a title to be accepted. */
  lemma DefaultsNeedOnlyATitle(defaultProjectId: Option<string>, defaultStatus: Option<string>, title: string)
    requires NonEmpty(defaultProjectId)
    requires NonEmpty(defaultStatus) ==> ParseTaskStatus(defaultStatus.value).Some?
    ensures Validate(Defaults(defaultProjectId, defaultStatus).(title := Some(title))).Success? <==> title != ""
  {
  }

  /** Opened with a status text that names no task status, the form
      rejects every submission until another status is picked. */
  lemma BadDefaultStatusBlocksSubmit(defaultProjectId: Option<string>, defaultStatus: Option<string>, f: Fields)
    requires NonEmpty(defaultStatus) && ParseTaskStatus(defaultStatus.value).None?
    requires f.status == Defaults(defaultProjectId, defaultStatus).status
    ensures Validate(f).Failure? && "status" in Validate(f).error
  {
  }

  /** Projects a task can be added to: the active and the planned ones. */
  function OpenForTasks(p: Project): bool
  {
    p.status == ProjectStatus.Active || p.status == ProjectStatus.Planning
  }

  /** The project choices, in the order `getProjects` returns them. */
  function OfferedProjects(projects: seq<Project>): (offered: seq<Project>)
    ensures forall p :: p in offered <==> p in projects && (p.status == ProjectStatus.Active || p.status == ProjectStatus.Planning)
  {
    Where(projects, OpenForTasks, true)
  }

  /** The `createTask` argument built from accepted data: empty texts become
      null and the estimate is converted from hours to minutes. */
  function Payload(d: Data): (v: NewTask)
    ensures v.title == d.title && v.projectId == d.projectId
    ensures v.status == Some(d.status) && v.priority == Some(d.priority)
    ensures v.description == EmptyToNull(d.description) && v.category == EmptyToNull(d.category)
    ensures v.timeEstimate == HoursToMinutes(d.timeEstimate)
    ensures v.assigneeId.None? && v.tags.None? && v.dueDate.None? && v.position.None? && v.timeTracked.None?
  {
    NewTask(d.projectId, d.title, EmptyToNull(d.description), None, Some(d.status), Some(d.priority),
            EmptyToNull(d.category), None, None, None, HoursToMinutes(d.timeEstimate), None, None, None, None)
  }

  /** The task `createTask` inserts for an accepted form: what was typed,
      empty texts as null, the estimate in minutes, nothing tracked yet,
      unassigned, reported by the caller. */
  lemma CreatedTaskFromForm(f: Fields, tasks: seq<Task>, userId: Id, id: Id, now: Timestamp)
    requires Validate(f).Success?
    ensures var t := CreatedTask(tasks, Payload(Validate(f).value), userId, id, now);
      && t.title == f.title.value && t.projectId == f.projectId.value
      && TaskStatusName(t.status) == f.status.GetOr("todo")
      && PriorityName(t.priority) == f.priority.GetOr("medium")
      && t.description == EmptyToNull(f.description) && t.category == EmptyToNull(f.category)
      && t.timeEstimate == HoursToMinutes(f.timeEstimate) && t.timeTracked == Some(0)
      && t.assigneeId.None? && t.reporterId == Some(userId)
  {
    ValidatedEnumsAreTheFieldsText(f);
  }
}
