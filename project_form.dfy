/** The "new project" form: its validation schema, the values it opens
    with, the clients it offers and the `createProject` call it makes. */
module ProjectForm {
  import opened Wrappers
  import opened Text
  import opened Schema
  import opened Tables
  import opened Forms

  /** The project forms' fields as typed. */
  datatype Fields = Fields(
    name: Option<string>,
    description: Option<string>,
    clientId: Option<string>,
    status: Option<string>,
    priority: Option<string>,
    startDate: Option<string>,
    endDate: Option<string>)

  /** The fields once a project schema accepted them. */
  datatype Data = Data(
    name: string,
    description: Option<string>,
    clientId: string,
    status: ProjectStatus,
    priority: Priority,
    startDate: Option<string>,
    endDate: Option<string>)

  /** `projectSchema` with the given enum defaults: a name and a client are
      required, status and priority must name members of their enums. */
  function ValidateWith(f: Fields, defaultStatus: Option<ProjectStatus>, defaultPriority: Option<Priority>)
    : (r: Result<Data, set<string>>)
    ensures r.Success? <==>
      && NonEmpty(f.name) && NonEmpty(f.clientId)
      && EnumField(f.status, ParseProjectStatus, defaultStatus).Some?
      && EnumField(f.priority, ParsePriority, defaultPriority).Some?
    ensures r.Success? ==>
      r.value == Data(f.name.value, f.description, f.clientId.value,
                      EnumField(f.status, ParseProjectStatus, defaultStatus).value,
                      EnumField(f.priority, ParsePriority, defaultPriority).value,
                      f.startDate, f.endDate)
    ensures r.Failure? ==>
      && ("name" in r.error <==> !NonEmpty(f.name))
      && ("clientId" in r.error <==> !NonEmpty(f.clientId))
      && ("status" in r.error <==> EnumField(f.status, ParseProjectStatus, defaultStatus).None?)
      && ("priority" in r.error <==> EnumField(f.priority, ParsePriority, defaultPriority).None?)
      && r.error <= {"name", "clientId", "status", "priority"}
  {
    var status := EnumField(f.status, ParseProjectStatus, defaultStatus);
    var priority := EnumField(f.priority, ParsePriority, defaultPriority);
    var bad :=
      (if NonEmpty(f.name) then {} else {"name"})
      + (if NonEmpty(f.clientId) then {} else {"clientId"})
      + (if status.Some? then {} else {"status"})
      + (if priority.Some? then {} else {"priority"});
    if bad == {} then
      Success(Data(f.name.value, f.description, f.clientId.value, status.value, priority.value,
                   f.startDate, f.endDate))
    else Failure(bad)
  }

  /** This form's schema: status defaults to "planning", priority to
      "medium". */
  function Validate(f: Fields): (r: Result<Data, set<string>>)
    ensures r.Success? <==>
      && NonEmpty(f.name) && NonEmpty(f.clientId)
      && (f.status.None? || ParseProjectStatus(f.status.value).Some?)
      && (f.priority.None? || ParsePriority(f.priority.value).Some?)
    ensures r.Success? ==>
      && r.value.name == f.name.value && r.value.clientId == f.clientId.value
      && r.value.description == f.description
      && r.value.startDate == f.startDate && r.value.endDate == f.endDate
    ensures r.Success? && f.status.None? ==> r.value.status == ProjectStatus.Planning
    ensures r.Success? && f.status.Some? ==> Some(r.value.status) == ParseProjectStatus(f.status.value)
    ensures r.Success? && f.priority.None? ==> r.value.priority == Priority.Medium
    ensures r.Success? && f.priority.Some? ==> Some(r.value.priority) == ParsePriority(f.priority.value)
  {
    ValidateWith(f, Some(ProjectStatus.Planning), Some(Priority.Medium))
  }

  /** The values the form opens with: "planning", "medium" and the client
      the caller asks for, else no client. */
  function Defaults(defaultClientId: Option<string>): (f: Fields)
    ensures f.name.None? && f.description.None? && f.startDate.None? && f.endDate.None?
    ensures f.clientId == Some(NullToEmpty(defaultClientId))
    ensures f.status == Some("planning") && f.priority == Some("medium")
  {
    Fields(None, None, Some(NullToEmpty(defaultClientId)), Some("planning"), Some("medium"), None, None)
  }

  /** The effect that copies a non-empty `defaultClientId` into the client
      field after the form opens. */
  function ApplyDefaultClient(f: Fields, defaultClientId: Option<string>): (g: Fields)
    ensures NonEmpty(defaultClientId) ==> g == f.(clientId := defaultClientId)
    ensures !NonEmpty(defaultClientId) ==> g == f
  {
    if NonEmpty(defaultClientId) then f.(clientId := defaultClientId) else f
  }

  /** The effect agrees with the defaults: on a freshly opened form it
      changes nothing. Opened with a client, the form needs only a name. */
  lemma DefaultClientIsPrefilled(defaultClientId: Option<string>, name: string)
    ensures ApplyDefaultClient(Defaults(defaultClientId), defaultClientId) == Defaults(defaultClientId)
    ensures NonEmpty(defaultClientId) ==>
      (Validate(Defaults(defaultClientId).(name := Some(name))).Success? <==> name != "")
    ensures NonEmpty(defaultClientId) && name != "" ==>
      var d := Validate(Defaults(defaultClientId).(name := Some(name))).value;
      d.status == ProjectStatus.Planning && d.priority == Priority.Medium && d.clientId == defaultClientId.value
  {
  }

  function IsActiveClient(c: Client): bool
  {
    c.status == ClientStatus.Active
  }

  /** The client choices: the active clients, in the order `getClients`
      returns them. */
  function OfferedClients(clients: seq<Client>): (offered: seq<Client>)
    ensures forall c :: c in offered <==> c in clients && c.status == ClientStatus.Active
  {
    Where(clients, IsActiveClient, true)
  }

  /** The `createProject` argument built from accepted data: an empty
      description or date becomes null. */
  function Payload(d: Data, toDate: string -> Timestamp): (v: NewProject)
    ensures v.name == d.name && v.clientId == d.clientId
    ensures v.status == Some(d.status) && v.priority == Some(d.priority)
    ensures v.description == EmptyToNull(d.description)
    ensures v.startDate == DateOrNull(d.startDate, toDate) && v.endDate == DateOrNull(d.endDate, toDate)
    ensures v.config.None? && v.metadata.None?
  {
    NewProject(d.clientId, d.name, EmptyToNull(d.description), Some(d.status), Some(d.priority),
               None, None, DateOrNull(d.startDate, toDate), DateOrNull(d.endDate, toDate))
  }

  /** The project `createProject` inserts for an accepted form: what was
      typed, the defaults for unset enums, empty texts and dates as null. */
  lemma CreatedProjectFromForm(f: Fields, toDate: string -> Timestamp, id: Id, userId: Id, now: Timestamp)
    requires Validate(f).Success?
    ensures var p := ProjectRow(Payload(Validate(f).value, toDate), id, userId, now);
      && p.name == f.name.value && p.clientId == f.clientId.value
      && ProjectStatusName(p.status) == f.status.GetOr("planning")
      && PriorityName(p.priority) == f.priority.GetOr("medium")
      && p.description == EmptyToNull(f.description)
      && p.startDate == DateOrNull(f.startDate, toDate) && p.endDate == DateOrNull(f.endDate, toDate)
      && p.createdBy == userId
  {
    if f.status.Some? {
      ParsedNamesRoundTrip(f.status.value);
    }
    if f.priority.Some? {
      ParsedNamesRoundTrip(f.priority.value);
    }
  }
}
