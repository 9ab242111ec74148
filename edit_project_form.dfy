/** The "edit project" form: the project schema without defaults, the
    values it opens with (and resets to when the project changes) and the
    `updateProject` change it submits. */
module EditProjectForm {
  import opened Wrappers
  import opened Text
  import opened Schema
  import opened Forms
  import opened ProjectForm

  /** `projectSchema` of this form: status and priority must be given. */
  function Validate(f: Fields): (r: Result<Data, set<string>>)
    ensures r.Success? <==>
      && NonEmpty(f.name) && NonEmpty(f.clientId)
      && f.status.Some? && ParseProjectStatus(f.status.value).Some?
      && f.priority.Some? && ParsePriority(f.priority.value).Some?
    ensures r.Success? ==>
      && r.value.name == f.name.value && r.value.clientId == f.clientId.value
      && r.value.description == f.description
      && r.value.startDate == f.startDate && r.value.endDate == f.endDate
      && Some(r.value.status) == ParseProjectStatus(f.status.value)
      && Some(r.value.priority) == ParsePriority(f.priority.value)
    ensures r.Failure? ==>
      && ("name" in r.error <==> !NonEmpty(f.name))
      && ("clientId" in r.error <==> !NonEmpty(f.clientId))
      && ("status" in r.error <==> (f.status.None? || ParseProjectStatus(f.status.value).None?))
      && ("priority" in r.error <==> (f.priority.None? || ParsePriority(f.priority.value).None?))
      && r.error <= {"name", "clientId", "status", "priority"}
  {
    ValidateWith(f, None, None)
  }

  /** The values the form opens with, and resets to whenever it is given
      another project: the project's, a null description as "", the dates
      as date input texts. */
  function InitialFields(p: Project, formatDate: Timestamp -> string): (f: Fields)
    ensures f.name == Some(p.name) && f.clientId == Some(p.clientId)
    ensures f.status == Some(ProjectStatusName(p.status)) && f.priority == Some(PriorityName(p.priority))
    ensures f.description == Some(NullToEmpty(p.description))
    ensures f.startDate == Some(DateText(p.startDate, formatDate)) && f.endDate == Some(DateText(p.endDate, formatDate))
  {
    Fields(Some(p.name), Some(NullToEmpty(p.description)), Some(p.clientId),
           Some(ProjectStatusName(p.status)), Some(PriorityName(p.priority)),
           Some(DateText(p.startDate, formatDate)), Some(DateText(p.endDate, formatDate)))
  }

  /** The `updateProject` change of `onSubmit`: every field is written, an
      empty description or date as null. */
  function Patch(d: Data, toDate: string -> Timestamp): (c: ProjectPatch)
    ensures c.name == Some(d.name) && c.clientId == Some(d.clientId)
    ensures c.status == Some(d.status) && c.priority == Some(d.priority)
    ensures c.description == Some(EmptyToNull(d.description))
    ensures c.startDate == Some(DateOrNull(d.startDate, toDate)) && c.endDate == Some(DateOrNull(d.endDate, toDate))
    ensures c.config.None? && c.metadata.None? && c.createdBy.None? && c.createdAt.None?
  {
    ProjectPatch(Some(d.clientId), Some(d.name), Some(EmptyToNull(d.description)), Some(d.status),
                 Some(d.priority), None, None, Some(DateOrNull(d.startDate, toDate)),
                 Some(DateOrNull(d.endDate, toDate)), None, None, None)
  }

  /** Saving the form unchanged keeps the project, except that `updatedAt`
      is stamped and an empty description becomes null; a date survives
      when the date input's text reads back as the same instant. */
  lemma SaveUnchangedKeepsProject(p: Project, formatDate: Timestamp -> string, toDate: string -> Timestamp, now: Timestamp)
    requires p.name != "" && p.clientId != ""
    requires p.startDate.Some? ==> formatDate(p.startDate.value) != "" && toDate(formatDate(p.startDate.value)) == p.startDate.value
    requires p.endDate.Some? ==> formatDate(p.endDate.value) != "" && toDate(formatDate(p.endDate.value)) == p.endDate.value
    ensures Validate(InitialFields(p, formatDate)).Success?
    ensures var d := Validate(InitialFields(p, formatDate)).value;
      PatchProject(p, Patch(d, toDate), now)
        == p.(description := EmptyToNull(p.description), updatedAt := now)
  {
    var f := InitialFields(p, formatDate);
    ParsedNamesRoundTrip(ProjectStatusName(p.status));
    ParsedNamesRoundTrip(PriorityName(p.priority));
    assert Validate(f).Success?;
    var d := Validate(f).value;
    assert d.status == p.status && d.priority == p.priority;
    NullToEmptyRoundTrip(p.description);
    DateRoundTrip(p.startDate, formatDate, toDate);
    DateRoundTrip(p.endDate, formatDate, toDate);
    var c := Patch(d, toDate);
    assert c.startDate == Some(p.startDate) && c.endDate == Some(p.endDate);
    assert c.description == Some(EmptyToNull(p.description));
  }
}
