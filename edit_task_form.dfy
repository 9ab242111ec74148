/** The "edit task" form: its validation schema (no defaults), the values
    it opens with, the `updateTask` change it submits and its delete
    button. */
module EditTaskForm {
  import opened Wrappers
  import opened Text
  import opened Schema
  import opened Tables
  import opened Store
  import opened Forms
  import opened TaskActions

  datatype Fields = Fields(
    title: Option<string>,
    description: Option<string>,
    projectId: Option<string>,
    status: Option<string>,
    priority: Option<string>,
    category: Option<string>,
    timeEstimate: Option<string>,
    dueDate: Option<string>)

  datatype Data = Data(
    title: string,
    description: Option<string>,
    projectId: string,
    status: TaskStatus,
    priority: Priority,
    category: Option<string>,
    timeEstimate: Option<string>,
    dueDate: Option<string>)

  /** `taskSchema` of this form: as the create form's, but status and
      priority have no default and must be given. */
  function Validate(f: Fields): (r: Result<Data, set<string>>)
    ensures r.Success? <==>
      && NonEmpty(f.title) && NonEmpty(f.projectId)
      && f.status.Some? && ParseTaskStatus(f.status.value).Some?
      && f.priority.Some? && ParsePriority(f.priority.value).Some?
    ensures r.Success? ==>
      && r.value.title == f.title.value && r.value.projectId == f.projectId.value
      && Some(r.value.status) == ParseTaskStatus(f.status.value)
      && Some(r.value.priority) == ParsePriority(f.priority.value)
      && r.value.description == f.description && r.value.category == f.category
      && r.value.timeEstimate == f.timeEstimate && r.value.dueDate == f.dueDate
    ensures r.Failure? ==>
      && ("title" in r.error <==> !NonEmpty(f.title))
      && ("projectId" in r.error <==> !NonEmpty(f.projectId))
      && ("status" in r.error <==> EnumField(f.status, ParseTaskStatus, None).None?)
      && ("priority" in r.error <==> EnumField(f.priority, ParsePriority, None).None?)
      && r.error <= {"title", "projectId", "status", "priority"}
  {
    var status := EnumField(f.status, ParseTaskStatus, None);
    var priority := EnumField(f.priority, ParsePriority, None);
    var bad :=
      (if NonEmpty(f.title) then {} else {"title"})
      + (if NonEmpty(f.projectId) then {} else {"projectId"})
      + (if status.Some? then {} else {"status"})
      + (if priority.Some? then {} else {"priority"});
    if bad == {} then
      Success(Data(f.title.value, f.description, f.projectId.value, status.value, priority.value,
                   f.category, f.timeEstimate, f.dueDate))
    else Failure(bad)
  }

  /** The estimate field as the form fills it: `timeEstimate?.toString() ||
      ""`, the stored number of MINUTES in a field labelled in hours. */
  function EstimateFieldAsWritten(timeEstimate: Option<int>): (text: string)
    ensures timeEstimate.None? ==> text == ""
    ensures timeEstimate.Some? ==> ParseInt(text) == Finite(timeEstimate.value)
  {
    if timeEstimate.Some? then
      ParseIntOfIntToString(timeEstimate.value);
      IntToString(timeEstimate.value)
    else ""
  }

  /** The estimate field filled in hours, as its label and the submit
      conversion expect: whole hours, rounded down. */
  function EstimateField(timeEstimate: Option<int>): (text: string)
    ensures timeEstimate.None? ==> text == ""
    ensures timeEstimate.Some? ==>
      ParseInt(text).Finite? && ParseInt(text).value * 60 <= timeEstimate.value < ParseInt(text).value * 60 + 60
  {
    if timeEstimate.Some? then
      ParseIntOfIntToString(timeEstimate.value / 60);
      IntToString(timeEstimate.value / 60)
    else ""
  }

  /** The values the form opens with: the task's, null texts as "", the
      due date as a date input text, the estimate in hours. */
  function InitialFields(t: Task, formatDate: Timestamp -> string): (f: Fields)
    ensures f.title == Some(t.title) && f.projectId == Some(t.projectId)
    ensures f.status == Some(TaskStatusName(t.status)) && f.priority == Some(PriorityName(t.priority))
    ensures f.description == Some(NullToEmpty(t.description)) && f.category == Some(NullToEmpty(t.category))
    ensures f.timeEstimate == Some(EstimateField(t.timeEstimate))
    ensures f.dueDate == Some(DateText(t.dueDate, formatDate))
  {
    Fields(Some(t.title), Some(NullToEmpty(t.description)), Some(t.projectId),
           Some(TaskStatusName(t.status)), Some(PriorityName(t.priority)),
           Some(NullToEmpty(t.category)), Some(EstimateField(t.timeEstimate)),
           Some(DateText(t.dueDate, formatDate)))
  }

  /** The values the form opens with as the source fills them. */
  function InitialFieldsAsWritten(t: Task, formatDate: Timestamp -> string): (f: Fields)
    ensures f == InitialFields(t, formatDate).(timeEstimate := Some(EstimateFieldAsWritten(t.timeEstimate)))
  {
    InitialFields(t, formatDate).(timeEstimate := Some(EstimateFieldAsWritten(t.timeEstimate)))
  }

  /** The `updateTask` change of `onSubmit`: `{...data, timeEstimate,
      dueDate}`. An empty estimate or due date is `undefined`, which the
      update skips, so clearing either field keeps the stored value; the
      other texts are written as typed, "" included. */
  function Patch(d: Data, toDate: string -> Timestamp): (p: TaskPatch)
    ensures p.title == Some(d.title) && p.projectId == Some(d.projectId)
    ensures p.status == Some(d.status) && p.priority == Some(d.priority)
    ensures d.description.Some? ==> p.description == Some(d.description)
    ensures d.description.None? ==> p.description.None?
    ensures d.category.Some? ==> p.category == Some(d.category)
    ensures d.category.None? ==> p.category.None?
    ensures p.timeEstimate.None? <==> !NonEmpty(d.timeEstimate)
    ensures p.timeEstimate.Some? ==> p.timeEstimate.value == HoursToMinutes(d.timeEstimate)
    ensures p.dueDate.None? <==> !NonEmpty(d.dueDate)
    ensures p.dueDate.Some? ==> p.dueDate.value == DateOrNull(d.dueDate, toDate)
    ensures p.content.None? && p.assigneeId.None? && p.tags.None? && p.position.None?
    ensures p.reporterId.None? && p.timeTracked.None? && p.completedAt.None?
    ensures p.createdAt.None? && p.updatedAt.None?
  {
    NoTaskChanges.(
      title := Some(d.title), projectId := Some(d.projectId),
      description := if d.description.Some? then Some(d.description) else None,
      status := Some(d.status), priority := Some(d.priority),
      category := if d.category.Some? then Some(d.category) else None,
      timeEstimate := if NonEmpty(d.timeEstimate) then Some(HoursToMinutes(d.timeEstimate)) else None,
      dueDate := if NonEmpty(d.dueDate) then Some(DateOrNull(d.dueDate, toDate)) else None)
  }

  /** The form as opened always passes validation when the task has a title
      and a project. */
  lemma InitialFieldsAreAccepted(t: Task, formatDate: Timestamp -> string)
    requires t.title != "" && t.projectId != ""
    ensures Validate(InitialFields(t, formatDate)).Success?
    ensures Validate(InitialFieldsAsWritten(t, formatDate)).Success?
  {
  }

  /** As written, saving the form unchanged multiplies the estimate by 60:
      the minutes shown are read back as hours. A 90-minute estimate comes
      back as 5400 minutes. */
  lemma SaveUnchangedScalesEstimate(t: Task, formatDate: Timestamp -> string, toDate: string -> Timestamp, now: Timestamp)
    requires t.title != "" && t.projectId != ""
    requires t.timeEstimate.Some?
    ensures var d := Validate(InitialFieldsAsWritten(t, formatDate)).value;
      PatchTask(t, Patch(d, toDate), now).timeEstimate == Some(t.timeEstimate.value * 60)
  {
    var m := t.timeEstimate.value;
    ParseIntOfIntToString(m);
    assert NonEmpty(Some(IntToString(m)));
  }

  /** A concrete instance of the above. */
  lemma NinetyMinutesBecomeFiveThousandFourHundred(t: Task, formatDate: Timestamp -> string, toDate: string -> Timestamp, now: Timestamp)
    requires t.title != "" && t.projectId != "" && t.timeEstimate == Some(90)
    ensures var d := Validate(InitialFieldsAsWritten(t, formatDate)).value;
      PatchTask(t, Patch(d, toDate), now).timeEstimate == Some(5400)
  {
    SaveUnchangedScalesEstimate(t, formatDate, toDate, now);
  }

  /** With the estimate shown in hours, saving the form unchanged keeps the
      task as it is (a whole-hour estimate exactly; any other rounded down
      to whole hours), except that a null description or category becomes
      "" and `updatedAt` is stamped. */
  lemma SaveUnchangedKeepsTask(t: Task, formatDate: Timestamp -> string, toDate: string -> Timestamp, now: Timestamp)
    requires t.title != "" && t.projectId != ""
    requires t.dueDate.Some? ==> formatDate(t.dueDate.value) != "" && toDate(formatDate(t.dueDate.value)) == t.dueDate.value
    ensures var d := Validate(InitialFields(t, formatDate)).value;
      PatchTask(t, Patch(d, toDate), now)
        == t.(description := Some(NullToEmpty(t.description)),
              category := Some(NullToEmpty(t.category)),
              timeEstimate := if t.timeEstimate.Some? then Some(t.timeEstimate.value / 60 * 60) else None,
              updatedAt := now)
  {
    var f := InitialFields(t, formatDate);
    var d := Validate(f).value;
    ParsedNamesRoundTrip(TaskStatusName(t.status));
    ParsedNamesRoundTrip(PriorityName(t.priority));
    assert d.status == t.status && d.priority == t.priority;
    DateRoundTrip(t.dueDate, formatDate, toDate);
    EstimateFieldRoundTrip(t.timeEstimate);
  }

  /** The estimate survives any number of unchanged saves once it is in
      whole hours, as the create form always stores it. */
  lemma SaveUnchangedKeepsWholeHours(t: Task, formatDate: Timestamp -> string, toDate: string -> Timestamp, now: Timestamp)
    requires t.title != "" && t.projectId != ""
    requires t.timeEstimate.Some? ==> t.timeEstimate.value % 60 == 0
    ensures var d := Validate(InitialFields(t, formatDate)).value;
      PatchTask(t, Patch(d, toDate), now).timeEstimate == t.timeEstimate
  {
    var f := InitialFields(t, formatDate);
    InitialFieldsAreAccepted(t, formatDate);
    var d := Validate(f).value;
    assert d.timeEstimate == Some(EstimateField(t.timeEstimate));
    EstimateFieldRoundTrip(t.timeEstimate);
    var p := Patch(d, toDate);
    if t.timeEstimate.Some? {
      var m := t.timeEstimate.value;
      assert p.timeEstimate == Some(Some(m / 60 * 60));
      assert m / 60 * 60 == m by {
        assert m == 60 * (m / 60) + m % 60;
      }
    } else {
      assert p.timeEstimate.None?;
    }
  }

  /** The estimate field, filled in hours and submitted unchanged, writes
      the estimate rounded down to whole hours; an empty field (no
      estimate) writes nothing. */
  lemma EstimateFieldRoundTrip(e: Option<int>)
    ensures NonEmpty(Some(EstimateField(e))) <==> e.Some?
    ensures e.Some? ==> HoursToMinutes(Some(EstimateField(e))) == Some(e.value / 60 * 60)
  {
    if e.Some? {
      HoursToMinutesOfNumber(e.value / 60);
      assert NonEmpty(Some(IntToString(e.value / 60)));
    }
  }

  const DeleteQuestion: string := "Are you sure you want to delete this task?"

  /** `handleDelete`: deletes only when the dialog is confirmed (`confirmed`
      is the user's answer to `DeleteQuestion`). */
  method HandleDelete(db: Database, caller: Option<Id>, id: Id, confirmed: bool) returns (toast: Option<Toast>)
    requires db.Valid()
    modifies db
    ensures db.Valid()
    ensures !confirmed ==> toast.None? && db.tasks == old(db.tasks)
    ensures confirmed && SignedIn(caller) ==>
      toast == Some(Toast(true, "Task deleted successfully")) && db.tasks == Without(old(db.tasks), TaskKey, {id})
    ensures confirmed && !SignedIn(caller) ==>
      toast == Some(Toast(false, "Failed to delete task")) && db.tasks == old(db.tasks)
    ensures db.users == old(db.users) && db.clients == old(db.clients)
    ensures db.projects == old(db.projects) && db.documents == old(db.documents)
  {
    if !confirmed {
      return None;
    }
    var r := DeleteTask(db, caller, id);
    if r.Success? {
      toast := Some(Toast(true, "Task deleted successfully"));
    } else {
      toast := Some(Toast(false, "Failed to delete task"));
    }
  }
}
