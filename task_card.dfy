/** What a task card on the board displays: the priority badge and its
    colour, the assignee's initials, the first tags, the estimate in hours
    and the overdue warning. */
module TaskCard {
  import opened Wrappers
  import opened Text
  import opened Schema

  /** `getPriorityColor`: the badge classes of a priority name; an unknown
      name gets no classes. */
  function PriorityColor(priority: string): (classes: string)
    ensures classes != "" <==> ParsePriority(priority).Some?
  {
    if priority == "urgent" then "bg-red-100 text-red-800 border-red-200"
    else if priority == "high" then "bg-orange-100 text-orange-800 border-orange-200"
    else if priority == "medium" then "bg-yellow-100 text-yellow-800 border-yellow-200"
    else if priority == "low" then "bg-blue-100 text-blue-800 border-blue-200"
    else ""
  }

  /** Each priority has its own, non-empty colour; any other text has none. */
  lemma PriorityColorsAreDistinct(p: Priority, q: Priority, other: string)
    requires ParsePriority(other).None?
    ensures PriorityColor(PriorityName(p)) != ""
    ensures p != q ==> PriorityColor(PriorityName(p)) != PriorityColor(PriorityName(q))
    ensures PriorityColor(other) == ""
  {
  }

  /** The badge only appears for a priority other than "medium". */
  predicate ShowsPriorityBadge(p: Priority)
  {
    PriorityName(p) != "medium"
  }

  /** The badge appears for exactly three of the four priorities, so the
      yellow "medium" colour is never displayed. */
  lemma PriorityBadgeHidesMedium(p: Priority)
    ensures ShowsPriorityBadge(p) <==> p != Priority.Medium
    ensures ShowsPriorityBadge(p) ==> PriorityColor(PriorityName(p)) != PriorityColor("medium")
  {
  }

  // ---------------------------------------------------------------- initials

  /** `parts.map(n => n[0]).join("")`: the first character of each part;
      an empty part gives `undefined`, which `join` writes as nothing. */
  function FirstChars(parts: seq<string>): (r: string)
    ensures |r| <= |parts|
  {
    if parts == [] then ""
    else (if parts[0] == "" then "" else [parts[0][0]]) + FirstChars(parts[1..])
  }

  /** `getInitials`: "?" for a missing or empty name, otherwise the first
      two of the upper-cased first characters of its space-separated parts. */
  function Initials(name: Option<string>): (r: string)
    ensures name.None? || name.value == "" ==> r == "?"
    ensures name.Some? && name.value != "" ==> |r| <= 2
  {
    if name.None? || name.value == "" then "?"
    else Take(ToUpper(FirstChars(Split(name.value, ' '))), 2)
  }

  /** An independent reading of the same text: the characters that start a
      word, that is, that are not a space and follow a space or the start
      (`atStart`). */
  function WordStarts(s: string, atStart: bool): (r: string)
  {
    if s == [] then ""
    else (if s[0] != ' ' && atStart then [s[0]] else "") + WordStarts(s[1..], s[0] == ' ')
  }

  lemma {:induction false} FirstCharsOfSplit(s: string)
    ensures FirstChars(Split(s, ' ')) == WordStarts(s, true)
    ensures FirstChars(Split(s, ' ')[1..]) == WordStarts(s, false)
  {
    if s != [] {
      FirstCharsOfSplit(s[1..]);
      var rest := Split(s[1..], ' ');
      if s[0] == ' ' {
        assert Split(s, ' ') == [""] + rest;
        assert (([""] + rest)[1..]) == rest;
      } else {
        var parts := [[s[0]] + rest[0]] + rest[1..];
        assert Split(s, ' ') == parts;
        assert parts[1..] == rest[1..];
        assert FirstChars(parts) == [s[0]] + FirstChars(rest[1..]);
      }
    }
  }

  /** The initials are the first two word starts, upper-cased. */
  lemma InitialsAreWordStarts(name: string)
    requires name != ""
    ensures Initials(Some(name)) == Take(ToUpper(WordStarts(name, true)), 2)
  {
    FirstCharsOfSplit(name);
  }

  /** A name made only of spaces is not empty, so it escapes the "?"
      fallback and its avatar shows no initials at all. */
  lemma {:induction false} SpacesHaveNoInitials(name: string, atStart: bool)
    requires forall i | 0 <= i < |name| :: name[i] == ' '
    ensures WordStarts(name, atStart) == ""
    ensures name != "" ==> Initials(Some(name)) == ""
  {
    if name != [] {
      SpacesHaveNoInitials(name[1..], true);
      InitialsAreWordStarts(name);
    }
  }

  /** The avatar: the initials of the assignee's id (the card has no user
      name to go on), or "?" for an unassigned task. */
  function AvatarText(t: Task): (text: string)
    ensures text == Initials(t.assigneeId)
    ensures t.assigneeId.None? ==> text == "?"
  {
    if t.assigneeId.Some? && t.assigneeId.value != "" then Initials(t.assigneeId) else "?"
  }

  // -------------------------------------------------------------------- tags

  /** `tags.slice(0, 3)`, for a task that has tags. */
  function VisibleTags(tags: Option<seq<string>>): (shown: seq<string>)
    ensures tags.None? ==> shown == []
    ensures tags.Some? ==> |shown| == (if |tags.value| <= 3 then |tags.value| else 3)
    ensures tags.Some? ==> shown == tags.value[..|shown|]
  {
    if tags.None? then [] else if |tags.value| <= 3 then tags.value else tags.value[..3]
  }

  /** The "+n" badge shown after the third tag. */
  function OverflowLabel(tags: Option<seq<string>>): (badge: Option<string>)
    ensures badge.Some? <==> tags.Some? && |tags.value| > 3
  {
    if tags.Some? && |tags.value| > 3 then Some("+" + IntToString(|tags.value| - 3)) else None
  }

  /** The shown tags and the number in the "+n" badge add up to the task's
      tag count. */
  lemma TagsAreAccountedFor(tags: seq<string>)
    ensures var badge := OverflowLabel(Some(tags));
      var hidden := if badge.None? then 0 else match ParseInt(badge.value[1..]) case Finite(n) => n case NaN => -1;
      |VisibleTags(Some(tags))| + hidden == |tags|
  {
    if |tags| > 3 {
      var badge := "+" + IntToString(|tags| - 3);
      assert badge[1..] == IntToString(|tags| - 3);
      ParseIntOfIntToString(|tags| - 3);
    }
  }

  // ---------------------------------------------------------------- estimate

  /** `{task.timeEstimate && <>{Math.floor(timeEstimate / 60)}h</>}` as
      React renders it: nothing for null, but the number itself for a 0
      estimate, since `0 && x` is `0` and React prints numbers. */
  function EstimateTextAsWritten(timeEstimate: Option<int>): (text: Option<string>)
    ensures text.Some? <==> timeEstimate.Some?
    ensures timeEstimate == Some(0) ==> text == Some("0")
  {
    match timeEstimate
    case None => None
    case Some(m) => if m == 0 then Some("0") else Some(IntToString(m / 60) + "h")
  }

  /** A card whose estimate is 0 minutes shows a stray "0". */
  lemma ZeroEstimateShowsStrayZero()
    ensures EstimateTextAsWritten(Some(0)) == Some("0")
  {
  }

  /** The estimate in whole hours, rounded down, shown only for a set,
      non-zero estimate. */
  function EstimateText(timeEstimate: Option<int>): (text: Option<string>)
    ensures text.Some? <==> timeEstimate.Some? && timeEstimate.value != 0
    ensures text.Some? ==> exists h :: h * 60 <= timeEstimate.value < h * 60 + 60 && text.value == IntToString(h) + "h"
  {
    match timeEstimate
    case None => None
    case Some(m) =>
      if m == 0 then None
      else
        var h := m / 60;
        assert h * 60 <= m < h * 60 + 60;
        Some(IntToString(h) + "h")
  }

  /** The corrected text agrees with the source everywhere but at 0. */
  lemma EstimateTextDiffersOnlyAtZero(timeEstimate: Option<int>)
    requires timeEstimate != Some(0)
    ensures EstimateText(timeEstimate) == EstimateTextAsWritten(timeEstimate)
  {
  }

  /** The hours shown read back as the estimate rounded down to hours. */
  lemma EstimateTextReadsBack(minutes: int)
    requires minutes != 0
    ensures var n := ParseInt(EstimateText(Some(minutes)).value);
      n.Finite? && n.value * 60 <= minutes < n.value * 60 + 60
  {
    ParseIntOfIntToStringThen(minutes / 60, "h");
  }

  // ----------------------------------------------------------------- overdue

  /** The "Overdue" warning: a due date before `now` on a task not done. */
  predicate IsOverdue(t: Task, now: Timestamp)
  {
    t.dueDate.Some? && t.dueDate.value < now && t.status != TaskStatus.Done
  }

  /** A task stays overdue as time passes, and stops being overdue once it
      is done. */
  lemma OverdueIsPermanentUntilDone(t: Task, now: Timestamp, later: Timestamp)
    requires IsOverdue(t, now) && now <= later
    ensures IsOverdue(t, later)
    ensures !IsOverdue(t.(status := TaskStatus.Done), later)
  {
  }
}
