/** The five tables of the relational schema: their rows, the enumerations
    their text columns are restricted to, the defaults an insert fills in and
    the JSON columns as explicit records. Timestamps are integers (the
    schema stores them as integer seconds); identifiers are text. */
module Schema {
  import opened Wrappers

  type Id = string
  type Timestamp = int

  // ---------------------------------------------------------------- enums

  datatype TaskStatus = Todo | InProgress | InReview | Done | Blocked
  datatype Priority = Low | Medium | High | Urgent
  datatype ProjectStatus = Planning | Active | OnHold | Completed | Cancelled
  datatype ClientStatus = Active | Inactive | OnHold | Archived
  datatype UserRole = Owner | Admin | Member | Viewer
  datatype NotificationFrequency = Daily | Weekly | Monthly
  datatype BudgetType = Fixed | Hourly
  datatype DeliverableStatus = Pending | InProgress | Completed
  datatype Theme = Light | Dark
  datatype DefaultView = Board | List | Timeline
  datatype BlockType = Text | Checklist | File | Link

  /** The text stored for a task status; it reads back as the same status. */
  function TaskStatusName(s: TaskStatus): (name: string)
    ensures ParseTaskStatus(name) == Some(s)
  {
    match s
    case Todo => "todo"
    case InProgress => "in_progress"
    case InReview => "in_review"
    case Done => "done"
    case Blocked => "blocked"
  }

  /** The task status a text names, if it names one. */
  function ParseTaskStatus(name: string): (r: Option<TaskStatus>)
  {
    if name == "todo" then Some(Todo)
    else if name == "in_progress" then Some(TaskStatus.InProgress)
    else if name == "in_review" then Some(InReview)
    else if name == "done" then Some(Done)
    else if name == "blocked" then Some(Blocked)
    else None
  }

  function PriorityName(p: Priority): (name: string)
    ensures ParsePriority(name) == Some(p)
  {
    match p
    case Low => "low"
    case Medium => "medium"
    case High => "high"
    case Urgent => "urgent"
  }

  function ParsePriority(name: string): (r: Option<Priority>)
  {
    if name == "low" then Some(Low)
    else if name == "medium" then Some(Medium)
    else if name == "high" then Some(High)
    else if name == "urgent" then Some(Urgent)
    else None
  }

  function ProjectStatusName(s: ProjectStatus): (name: string)
    ensures ParseProjectStatus(name) == Some(s)
  {
    match s
    case Planning => "planning"
    case Active => "active"
    case OnHold => "on_hold"
    case Completed => "completed"
    case Cancelled => "cancelled"
  }

  function ParseProjectStatus(name: string): (r: Option<ProjectStatus>)
  {
    if name == "planning" then Some(Planning)
    else if name == "active" then Some(ProjectStatus.Active)
    else if name == "on_hold" then Some(ProjectStatus.OnHold)
    else if name == "completed" then Some(ProjectStatus.Completed)
    else if name == "cancelled" then Some(Cancelled)
    else None
  }

  function ClientStatusName(s: ClientStatus): (name: string)
    ensures ParseClientStatus(name) == Some(s)
  {
    match s
    case Active => "active"
    case Inactive => "inactive"
    case OnHold => "on_hold"
    case Archived => "archived"
  }

  function ParseClientStatus(name: string): (r: Option<ClientStatus>)
  {
    if name == "active" then Some(ClientStatus.Active)
    else if name == "inactive" then Some(Inactive)
    else if name == "on_hold" then Some(ClientStatus.OnHold)
    else if name == "archived" then Some(Archived)
    else None
  }

  /** Reading a stored text back as an enumeration value succeeds exactly on
      the texts the schema's enum lists, and gives back the value named. */
  lemma ParsedNamesRoundTrip(name: string)
    ensures ParseTaskStatus(name).Some? ==> TaskStatusName(ParseTaskStatus(name).value) == name
    ensures ParsePriority(name).Some? ==> PriorityName(ParsePriority(name).value) == name
    ensures ParseProjectStatus(name).Some? ==> ProjectStatusName(ParseProjectStatus(name).value) == name
    ensures ParseClientStatus(name).Some? ==> ClientStatusName(ParseClientStatus(name).value) == name
  {
  }

  // --------------------------------------------------------- column defaults

  const DefaultTaskStatus: TaskStatus := Todo
  const DefaultPriority: Priority := Medium
  const DefaultProjectStatus: ProjectStatus := Planning
  const DefaultClientStatus: ClientStatus := ClientStatus.Active
  const DefaultUserRole: UserRole := Member
  const DefaultPosition: int := 0
  const DefaultTimeTracked: int := 0

  // ------------------------------------------------------------ JSON columns

  datatype UserPermissions = UserPermissions(
    canDeleteProjects: Option<bool>,
    canManageBilling: Option<bool>,
    canInviteUsers: Option<bool>)

  datatype UserPreferences = UserPreferences(
    theme: Option<Theme>,
    defaultView: Option<DefaultView>,
    emailNotifications: Option<bool>,
    taskReminders: Option<bool>)

  datatype ClientMetadata = ClientMetadata(
    industry: Option<string>,
    companySize: Option<string>,
    preferredContact: Option<string>,
    timezone: Option<string>)

  datatype ClientSettings = ClientSettings(
    portalAccess: Option<bool>,
    allowTaskComments: Option<bool>,
    notificationFrequency: Option<NotificationFrequency>)

  /** The only place a project budget lives: inside its `config` column. */
  datatype Budget = Budget(amount: real, currency: string, kind: BudgetType)
  datatype Deliverable = Deliverable(name: string, status: DeliverableStatus)
  datatype Milestone = Milestone(name: string, date: string, completed: bool)

  datatype ProjectConfig = ProjectConfig(
    budget: Option<Budget>,
    deliverables: Option<seq<Deliverable>>,
    milestones: Option<seq<Milestone>>)

  datatype ProjectMetadata = ProjectMetadata(
    projectType: Option<string>,
    techStack: Option<seq<string>>,
    estimatedHours: Option<real>)

  datatype ChecklistItem = ChecklistItem(text: string, checked: bool)

  datatype ContentBlock = ContentBlock(
    kind: BlockType,
    value: Option<string>,
    items: Option<seq<ChecklistItem>>,
    url: Option<string>,
    name: Option<string>,
    size: Option<int>,
    title: Option<string>)

  datatype TaskContent = TaskContent(blocks: Option<seq<ContentBlock>>)

  // -------------------------------------------------------------------- rows

  /** A `users` row: the id is the identity provider's, never generated. */
  datatype User = User(
    id: Id,
    email: string,
    name: Option<string>,
    avatarUrl: Option<string>,
    role: UserRole,
    permissions: Option<UserPermissions>,
    preferences: Option<UserPreferences>,
    createdAt: Timestamp,
    updatedAt: Timestamp)

  datatype Client = Client(
    id: Id,
    name: string,
    email: Option<string>,
    phone: Option<string>,
    company: Option<string>,
    website: Option<string>,
    avatarUrl: Option<string>,
    status: ClientStatus,
    metadata: Option<ClientMetadata>,
    settings: Option<ClientSettings>,
    createdBy: Id,
    createdAt: Timestamp,
    updatedAt: Timestamp)

  /** A `projects` row. There is no budget column: see `ProjectConfig`. */
  datatype Project = Project(
    id: Id,
    clientId: Id,
    name: string,
    description: Option<string>,
    status: ProjectStatus,
    priority: Priority,
    config: Option<ProjectConfig>,
    metadata: Option<ProjectMetadata>,
    startDate: Option<Timestamp>,
    endDate: Option<Timestamp>,
    createdBy: Id,
    createdAt: Timestamp,
    updatedAt: Timestamp)

  /** A `tasks` row; `position` orders a task inside its (project, status)
      column, and both time fields count minutes. */
  datatype Task = Task(
    id: Id,
    projectId: Id,
    title: string,
    description: Option<string>,
    content: Option<TaskContent>,
    status: TaskStatus,
    priority: Priority,
    category: Option<string>,
    assigneeId: Option<Id>,
    reporterId: Option<Id>,
    tags: Option<seq<string>>,
    timeEstimate: Option<int>,
    timeTracked: Option<int>,
    position: int,
    dueDate: Option<Timestamp>,
    completedAt: Option<Timestamp>,
    createdAt: Timestamp,
    updatedAt: Timestamp)

  /** A `documents` row; `mimeType` is the `type` column (a keyword here)
      and `content` is the extracted text, if any. */
  datatype Document = Document(
    id: Id,
    projectId: Id,
    name: string,
    mimeType: string,
    size: int,
    url: string,
    content: Option<string>,
    uploadedBy: Id,
    createdAt: Timestamp,
    updatedAt: Timestamp)

  // ---------------------------------------------------- column accessors

  function UserKey(u: User): Id { u.id }
  function UserEmail(u: User): string { u.email }
  function ClientKey(c: Client): Id { c.id }
  function ProjectKey(p: Project): Id { p.id }
  function ProjectClient(p: Project): Id { p.clientId }
  function TaskKey(t: Task): Id { t.id }
  function TaskProject(t: Task): Id { t.projectId }
  function TaskPosition(t: Task): int { t.position }
  function DocumentKey(d: Document): Id { d.id }
  function DocumentProject(d: Document): Id { d.projectId }

  /** Sort keys for `ORDER BY created_at DESC`. */
  function ClientNewestFirst(c: Client): int { -c.createdAt }
  function ProjectNewestFirst(p: Project): int { -p.createdAt }
  function TaskNewestFirst(t: Task): int { -t.createdAt }
  function DocumentNewestFirst(d: Document): int { -d.createdAt }

  // ------------------------------------------------------- insert values

  /** The values an insert into `tasks` may carry (`NewTask` without the
      generated id and timestamps). `timeTracked` distinguishes "not given"
      (the column default applies) from an explicit null. */
  datatype NewTask = NewTask(
    projectId: Id,
    title: string,
    description: Option<string>,
    content: Option<TaskContent>,
    status: Option<TaskStatus>,
    priority: Option<Priority>,
    category: Option<string>,
    assigneeId: Option<Id>,
    reporterId: Option<Id>,
    tags: Option<seq<string>>,
    timeEstimate: Option<int>,
    timeTracked: Option<Option<int>>,
    position: Option<int>,
    dueDate: Option<Timestamp>,
    completedAt: Option<Timestamp>)

  /** The row an insert of `v` creates: given values, else column defaults,
      a fresh id and both timestamps set to the insert time. */
  function TaskRow(v: NewTask, id: Id, now: Timestamp): (t: Task)
    ensures t.id == id && t.projectId == v.projectId && t.title == v.title
    ensures t.createdAt == now && t.updatedAt == now
    ensures t.description == v.description && t.content == v.content && t.category == v.category
    ensures t.assigneeId == v.assigneeId && t.reporterId == v.reporterId && t.tags == v.tags
    ensures t.timeEstimate == v.timeEstimate && t.dueDate == v.dueDate && t.completedAt == v.completedAt
    ensures v.status.Some? ==> t.status == v.status.value
    ensures v.status.None? ==> t.status == Todo
    ensures v.priority.Some? ==> t.priority == v.priority.value
    ensures v.priority.None? ==> t.priority == Medium
    ensures v.position.Some? ==> t.position == v.position.value
    ensures v.position.None? ==> t.position == 0
    ensures v.timeTracked.Some? ==> t.timeTracked == v.timeTracked.value
    ensures v.timeTracked.None? ==> t.timeTracked == Some(0)
  {
    Task(id, v.projectId, v.title, v.description, v.content,
         v.status.GetOr(DefaultTaskStatus), v.priority.GetOr(DefaultPriority),
         v.category, v.assigneeId, v.reporterId, v.tags, v.timeEstimate,
         v.timeTracked.GetOr(Some(DefaultTimeTracked)), v.position.GetOr(DefaultPosition),
         v.dueDate, v.completedAt, now, now)
  }

  datatype NewProject = NewProject(
    clientId: Id,
    name: string,
    description: Option<string>,
    status: Option<ProjectStatus>,
    priority: Option<Priority>,
    config: Option<ProjectConfig>,
    metadata: Option<ProjectMetadata>,
    startDate: Option<Timestamp>,
    endDate: Option<Timestamp>)

  function ProjectRow(v: NewProject, id: Id, createdBy: Id, now: Timestamp): (p: Project)
    ensures p.id == id && p.clientId == v.clientId && p.name == v.name && p.createdBy == createdBy
    ensures p.createdAt == now && p.updatedAt == now
    ensures p.description == v.description && p.config == v.config && p.metadata == v.metadata
    ensures p.startDate == v.startDate && p.endDate == v.endDate
    ensures v.status.Some? ==> p.status == v.status.value
    ensures v.status.None? ==> p.status == Planning
    ensures v.priority.Some? ==> p.priority == v.priority.value
    ensures v.priority.None? ==> p.priority == Medium
  {
    Project(id, v.clientId, v.name, v.description,
            v.status.GetOr(DefaultProjectStatus), v.priority.GetOr(DefaultPriority),
            v.config, v.metadata, v.startDate, v.endDate, createdBy, now, now)
  }

  datatype NewClient = NewClient(
    name: string,
    email: Option<string>,
    phone: Option<string>,
    company: Option<string>,
    website: Option<string>,
    avatarUrl: Option<string>,
    status: Option<ClientStatus>,
    metadata: Option<ClientMetadata>,
    settings: Option<ClientSettings>)

  function ClientRow(v: NewClient, id: Id, createdBy: Id, now: Timestamp): (c: Client)
    ensures c.id == id && c.name == v.name && c.createdBy == createdBy
    ensures c.createdAt == now && c.updatedAt == now
    ensures c.email == v.email && c.phone == v.phone && c.company == v.company
    ensures c.website == v.website && c.avatarUrl == v.avatarUrl
    ensures c.metadata == v.metadata && c.settings == v.settings
    ensures v.status.Some? ==> c.status == v.status.value
    ensures v.status.None? ==> c.status == ClientStatus.Active
  {
    Client(id, v.name, v.email, v.phone, v.company, v.website, v.avatarUrl,
           v.status.GetOr(DefaultClientStatus), v.metadata, v.settings, createdBy, now, now)
  }

  datatype NewDocument = NewDocument(
    projectId: Id,
    name: string,
    mimeType: string,
    size: int,
    url: string,
    content: Option<string>)

  function DocumentRow(v: NewDocument, id: Id, uploadedBy: Id, now: Timestamp): (d: Document)
    ensures d.id == id && d.projectId == v.projectId && d.uploadedBy == uploadedBy
    ensures d.name == v.name && d.mimeType == v.mimeType && d.size == v.size && d.url == v.url
    ensures d.content == v.content
    ensures d.createdAt == now && d.updatedAt == now
  {
    Document(id, v.projectId, v.name, v.mimeType, v.size, v.url, v.content, uploadedBy, now, now)
  }

  datatype NewUser = NewUser(
    id: Id,
    email: string,
    name: Option<string>,
    avatarUrl: Option<string>,
    role: Option<UserRole>)

  function UserRow(v: NewUser, now: Timestamp): (u: User)
    ensures u.id == v.id && u.email == v.email && u.name == v.name
    ensures u.createdAt == now && u.updatedAt == now
    ensures u.avatarUrl == v.avatarUrl && u.permissions.None? && u.preferences.None?
    ensures v.role.Some? ==> u.role == v.role.value
    ensures v.role.None? ==> u.role == Member
  {
    User(v.id, v.email, v.name, v.avatarUrl, v.role.GetOr(DefaultUserRole), None, None, now, now)
  }

  // ----------------------------------------------------- partial updates

  /** `Partial<NewTask>` for an update: `None` leaves a column alone; for a
      nullable column `Some(None)` writes null. A supplied `updatedAt` is
      accepted but always overwritten by the update time. */
  datatype TaskPatch = TaskPatch(
    projectId: Option<Id>,
    title: Option<string>,
    description: Option<Option<string>>,
    content: Option<Option<TaskContent>>,
    status: Option<TaskStatus>,
    priority: Option<Priority>,
    category: Option<Option<string>>,
    assigneeId: Option<Option<Id>>,
    reporterId: Option<Option<Id>>,
    tags: Option<Option<seq<string>>>,
    timeEstimate: Option<Option<int>>,
    timeTracked: Option<Option<int>>,
    position: Option<int>,
    dueDate: Option<Option<Timestamp>>,
    completedAt: Option<Option<Timestamp>>,
    createdAt: Option<Timestamp>,
    updatedAt: Option<Timestamp>)

  /** One column under `SET`: written when the change supplies it, kept
      otherwise. */
  predicate Applied<T(==)>(change: Option<T>, before: T, after: T) {
    (change.Some? ==> after == change.value) && (change.None? ==> after == before)
  }

  const NoTaskChanges: TaskPatch :=
    TaskPatch(None, None, None, None, None, None, None, None, None, None, None, None, None, None, None, None, None)

  /** `SET ...data, updatedAt = now` on one task row. */
  function PatchTask(t: Task, p: TaskPatch, now: Timestamp): (r: Task)
    ensures r.id == t.id && r.updatedAt == now
    ensures Applied(p.projectId, t.projectId, r.projectId) && Applied(p.title, t.title, r.title)
    ensures Applied(p.description, t.description, r.description) && Applied(p.content, t.content, r.content)
    ensures Applied(p.status, t.status, r.status) && Applied(p.priority, t.priority, r.priority)
    ensures Applied(p.category, t.category, r.category) && Applied(p.assigneeId, t.assigneeId, r.assigneeId)
    ensures Applied(p.reporterId, t.reporterId, r.reporterId) && Applied(p.tags, t.tags, r.tags)
    ensures Applied(p.timeEstimate, t.timeEstimate, r.timeEstimate)
    ensures Applied(p.timeTracked, t.timeTracked, r.timeTracked) && Applied(p.position, t.position, r.position)
    ensures Applied(p.dueDate, t.dueDate, r.dueDate) && Applied(p.completedAt, t.completedAt, r.completedAt)
    ensures Applied(p.createdAt, t.createdAt, r.createdAt)
  {
    Task(t.id, p.projectId.GetOr(t.projectId), p.title.GetOr(t.title),
         p.description.GetOr(t.description), p.content.GetOr(t.content),
         p.status.GetOr(t.status), p.priority.GetOr(t.priority), p.category.GetOr(t.category),
         p.assigneeId.GetOr(t.assigneeId), p.reporterId.GetOr(t.reporterId), p.tags.GetOr(t.tags),
         p.timeEstimate.GetOr(t.timeEstimate), p.timeTracked.GetOr(t.timeTracked),
         p.position.GetOr(t.position), p.dueDate.GetOr(t.dueDate), p.completedAt.GetOr(t.completedAt),
         p.createdAt.GetOr(t.createdAt), now)
  }

  /** An update that supplies nothing still stamps `updatedAt`, and applying
      the same update twice is applying it once (at the later time). */
  lemma PatchTaskProperties(t: Task, p: TaskPatch, now: Timestamp, later: Timestamp)
    ensures PatchTask(t, NoTaskChanges, now) == t.(updatedAt := now)
    ensures PatchTask(PatchTask(t, p, now), p, later) == PatchTask(t, p, later)
    ensures p.updatedAt.Some? ==> PatchTask(t, p, now).updatedAt == now
  {
  }

  datatype ProjectPatch = ProjectPatch(
    clientId: Option<Id>,
    name: Option<string>,
    description: Option<Option<string>>,
    status: Option<ProjectStatus>,
    priority: Option<Priority>,
    config: Option<Option<ProjectConfig>>,
    metadata: Option<Option<ProjectMetadata>>,
    startDate: Option<Option<Timestamp>>,
    endDate: Option<Option<Timestamp>>,
    createdBy: Option<Id>,
    createdAt: Option<Timestamp>,
    updatedAt: Option<Timestamp>)

  /** `SET ...data, updatedAt = now` on one project row. */
  function PatchProject(p: Project, d: ProjectPatch, now: Timestamp): (r: Project)
    ensures r.id == p.id && r.updatedAt == now
    ensures Applied(d.clientId, p.clientId, r.clientId) && Applied(d.name, p.name, r.name)
    ensures Applied(d.description, p.description, r.description) && Applied(d.status, p.status, r.status)
    ensures Applied(d.priority, p.priority, r.priority) && Applied(d.config, p.config, r.config)
    ensures Applied(d.metadata, p.metadata, r.metadata)
    ensures Applied(d.startDate, p.startDate, r.startDate) && Applied(d.endDate, p.endDate, r.endDate)
    ensures Applied(d.createdBy, p.createdBy, r.createdBy) && Applied(d.createdAt, p.createdAt, r.createdAt)
  {
    Project(p.id, d.clientId.GetOr(p.clientId), d.name.GetOr(p.name),
            d.description.GetOr(p.description), d.status.GetOr(p.status),
            d.priority.GetOr(p.priority), d.config.GetOr(p.config), d.metadata.GetOr(p.metadata),
            d.startDate.GetOr(p.startDate), d.endDate.GetOr(p.endDate),
            d.createdBy.GetOr(p.createdBy), d.createdAt.GetOr(p.createdAt), now)
  }

  datatype ClientPatch = ClientPatch(
    name: Option<string>,
    email: Option<Option<string>>,
    phone: Option<Option<string>>,
    company: Option<Option<string>>,
    website: Option<Option<string>>,
    avatarUrl: Option<Option<string>>,
    status: Option<ClientStatus>,
    metadata: Option<Option<ClientMetadata>>,
    settings: Option<Option<ClientSettings>>,
    createdBy: Option<Id>,
    createdAt: Option<Timestamp>,
    updatedAt: Option<Timestamp>)

  /** `SET ...data, updatedAt = now` on one client row. */
  function PatchClient(c: Client, d: ClientPatch, now: Timestamp): (r: Client)
    ensures r.id == c.id && r.updatedAt == now
    ensures Applied(d.name, c.name, r.name) && Applied(d.email, c.email, r.email)
    ensures Applied(d.phone, c.phone, r.phone) && Applied(d.company, c.company, r.company)
    ensures Applied(d.website, c.website, r.website) && Applied(d.avatarUrl, c.avatarUrl, r.avatarUrl)
    ensures Applied(d.status, c.status, r.status) && Applied(d.metadata, c.metadata, r.metadata)
    ensures Applied(d.settings, c.settings, r.settings)
    ensures Applied(d.createdBy, c.createdBy, r.createdBy) && Applied(d.createdAt, c.createdAt, r.createdAt)
  {
    Client(c.id, d.name.GetOr(c.name), d.email.GetOr(c.email), d.phone.GetOr(c.phone),
           d.company.GetOr(c.company), d.website.GetOr(c.website), d.avatarUrl.GetOr(c.avatarUrl),
           d.status.GetOr(c.status), d.metadata.GetOr(c.metadata), d.settings.GetOr(c.settings),
           d.createdBy.GetOr(c.createdBy), d.createdAt.GetOr(c.createdAt), now)
  }
}
