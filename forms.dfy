/** What the create and edit forms have in common: how a form field's text
    becomes a column value on submit and how a column value becomes field
    text when the form opens. A field registered with the form holds text;
    an optional field the user never touched is `None` (`undefined`). */
module Forms {
  import opened Wrappers
  import opened Text
  import opened Schema

  /** `value || null`: an empty or missing text is stored as null. */
  function EmptyToNull(v: Option<string>): (r: Option<string>)
    ensures r.None? <==> v.None? || v.value == ""
    ensures r.Some? ==> r == v
  {
    if v.Some? && v.value != "" then v else None
  }

  /** `value || ""`: a null column shows as an empty field. */
  function NullToEmpty(v: Option<string>): (s: string)
    ensures s == v.GetOr("")
  {
    if v.Some? && v.value != "" then v.value else ""
  }

  /** Showing a nullable column in a field and saving the field gives the
      column back, unless it held the empty text, which comes back null. */
  lemma NullToEmptyRoundTrip(v: Option<string>)
    ensures v != Some("") ==> EmptyToNull(Some(NullToEmpty(v))) == v
    ensures v == Some("") ==> EmptyToNull(Some(NullToEmpty(v))) == None
  {
  }

  /** Saving a field and showing the stored column gives the field back. */
  lemma EmptyToNullRoundTrip(s: string)
    ensures NullToEmpty(EmptyToNull(Some(s))) == s
  {
  }

  /** `z.string().min(1)`: present and not empty. */
  predicate NonEmpty(v: Option<string>)
  {
    v.Some? && v.value != ""
  }

  /** A `z.enum([...])` field, with `.default(d)` when `default` is given:
      a missing value takes the default (or is rejected without one), a
      present one must name a member. */
  function EnumField<E>(v: Option<string>, parse: string -> Option<E>, default: Option<E>): (r: Option<E>)
    ensures v.None? ==> r == default
    ensures v.Some? ==> r == parse(v.value)
  {
    if v.None? then default else parse(v.value)
  }

  /** `text ? toDate(text) : null` for a date input: `toDate` is
      `new Date(text)` read as a timestamp. */
  function DateOrNull(v: Option<string>, toDate: string -> Timestamp): (r: Option<Timestamp>)
    ensures r.Some? <==> NonEmpty(v)
    ensures r.Some? ==> r.value == toDate(v.value)
  {
    if NonEmpty(v) then Some(toDate(v.value)) else None
  }

  /** `date ? formatDate(date) : ""` for a date input: `formatDate` is the
      `YYYY-MM-DD` part of the ISO form of the timestamp. */
  function DateText(d: Option<Timestamp>, formatDate: Timestamp -> string): (s: string)
    ensures d.None? ==> s == ""
    ensures d.Some? ==> s == formatDate(d.value)
  {
    if d.Some? then formatDate(d.value) else ""
  }

  /** A date survives being shown and saved when the two conversions are
      inverse on it (a date at midnight UTC, say); no date stays none. */
  lemma DateRoundTrip(d: Option<Timestamp>, formatDate: Timestamp -> string, toDate: string -> Timestamp)
    requires d.Some? ==> formatDate(d.value) != "" && toDate(formatDate(d.value)) == d.value
    ensures DateOrNull(Some(DateText(d, formatDate)), toDate) == d
  {
  }

  /** `text ? parseInt(text) * 60 : ...` for an estimate in hours: minutes,
      or `None` for an empty field or a text with no leading number (NaN,
      which the database stores as null). */
  function HoursToMinutes(v: Option<string>): (r: Option<int>)
    ensures !NonEmpty(v) ==> r.None?
    ensures NonEmpty(v) ==> (r.Some? <==> ParseInt(v.value).Finite?)
    ensures r.Some? ==> r.value == ParseInt(v.value).value * 60
  {
    if !NonEmpty(v) then None
    else match ParseInt(v.value)
      case Finite(n) => Some(n * 60)
      case NaN => None
  }

  /** A whole number of hours typed into the field is stored as that many
      hours in minutes. */
  lemma HoursToMinutesOfNumber(hours: int)
    ensures HoursToMinutes(Some(IntToString(hours))) == Some(hours * 60)
  {
    ParseIntOfIntToString(hours);
  }

  /** A success or error notification. */
  datatype Toast = Toast(ok: bool, message: string)
}
