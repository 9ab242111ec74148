/** The "edit client" form: its validation schema, the values it opens with
    (and resets to when the client changes) and the `updateClient` change it
    submits. The e-mail and URL checks of the validation library are
    parameters. */
module EditClientForm {
  import opened Wrappers
  import opened Text
  import opened Schema
  import opened Forms

  datatype Fields = Fields(
    name: Option<string>,
    email: Option<string>,
    phone: Option<string>,
    company: Option<string>,
    website: Option<string>,
    status: Option<string>)

  datatype Data = Data(
    name: string,
    email: Option<string>,
    phone: Option<string>,
    company: Option<string>,
    website: Option<string>,
    status: ClientStatus)

  /** An optional field that, when given, is "" or passes `check`. */
  predicate EmptyOr(v: Option<string>, check: string -> bool)
  {
    v.None? || v.value == "" || check(v.value)
  }

  /** `clientSchema`: a name is required, e-mail and website are empty or
      well-formed, status names a client status. */
  function Validate(f: Fields, isEmail: string -> bool, isUrl: string -> bool): (r: Result<Data, set<string>>)
    ensures r.Success? <==>
      && NonEmpty(f.name) && EmptyOr(f.email, isEmail) && EmptyOr(f.website, isUrl)
      && f.status.Some? && ParseClientStatus(f.status.value).Some?
    ensures r.Success? ==>
      && r.value.name == f.name.value && Some(r.value.status) == ParseClientStatus(f.status.value)
      && r.value.email == f.email && r.value.phone == f.phone
      && r.value.company == f.company && r.value.website == f.website
    ensures r.Failure? ==>
      && ("name" in r.error <==> !NonEmpty(f.name))
      && ("email" in r.error <==> !EmptyOr(f.email, isEmail))
      && ("website" in r.error <==> !EmptyOr(f.website, isUrl))
      && ("status" in r.error <==> EnumField(f.status, ParseClientStatus, None).None?)
      && r.error <= {"name", "email", "website", "status"}
  {
    var status := EnumField(f.status, ParseClientStatus, None);
    var bad :=
      (if NonEmpty(f.name) then {} else {"name"})
      + (if EmptyOr(f.email, isEmail) then {} else {"email"})
      + (if EmptyOr(f.website, isUrl) then {} else {"website"})
      + (if status.Some? then {} else {"status"});
    if bad == {} then Success(Data(f.name.value, f.email, f.phone, f.company, f.website, status.value))
    else Failure(bad)
  }

  /** The values the form opens with: the client's, null contact fields as
      "". */
  function InitialFields(c: Client): (f: Fields)
    ensures f.name == Some(c.name) && f.status == Some(ClientStatusName(c.status))
    ensures f.email == Some(NullToEmpty(c.email)) && f.phone == Some(NullToEmpty(c.phone))
    ensures f.company == Some(NullToEmpty(c.company)) && f.website == Some(NullToEmpty(c.website))
  {
    Fields(Some(c.name), Some(NullToEmpty(c.email)), Some(NullToEmpty(c.phone)),
           Some(NullToEmpty(c.company)), Some(NullToEmpty(c.website)), Some(ClientStatusName(c.status)))
  }

  /** The `updateClient` change of `onSubmit`: name and status as given,
      empty contact fields as null. */
  function Patch(d: Data): (p: ClientPatch)
    ensures p.name == Some(d.name) && p.status == Some(d.status)
    ensures p.email == Some(EmptyToNull(d.email)) && p.phone == Some(EmptyToNull(d.phone))
    ensures p.company == Some(EmptyToNull(d.company)) && p.website == Some(EmptyToNull(d.website))
    ensures p.avatarUrl.None? && p.metadata.None? && p.settings.None? && p.createdBy.None?
  {
    ClientPatch(Some(d.name), Some(EmptyToNull(d.email)), Some(EmptyToNull(d.phone)),
                Some(EmptyToNull(d.company)), Some(EmptyToNull(d.website)), None,
                Some(d.status), None, None, None, None, None)
  }

  /** Saving the form unchanged keeps the client (an empty contact field
      becomes null) and stamps `updatedAt`, provided its stored e-mail and
      website pass the checks. */
  lemma SaveUnchangedKeepsClient(c: Client, isEmail: string -> bool, isUrl: string -> bool, now: Timestamp)
    requires c.name != ""
    requires EmptyOr(c.email, isEmail) && EmptyOr(c.website, isUrl)
    ensures Validate(InitialFields(c), isEmail, isUrl).Success?
    ensures var d := Validate(InitialFields(c), isEmail, isUrl).value;
      PatchClient(c, Patch(d), now)
        == c.(email := EmptyToNull(c.email), phone := EmptyToNull(c.phone),
              company := EmptyToNull(c.company), website := EmptyToNull(c.website), updatedAt := now)
  {
    ParsedNamesRoundTrip(ClientStatusName(c.status));
    NullToEmptyRoundTrip(c.email);
    NullToEmptyRoundTrip(c.phone);
    NullToEmptyRoundTrip(c.company);
    NullToEmptyRoundTrip(c.website);
  }
}
