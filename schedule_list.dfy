/** The schedule list's labels: recurrence, status badge and display count. */
module ScheduleList {
  import opened Collections
  import opened Strings
  import opened ScheduleCalendar

  /** `getRecurringLabel`; an absent day list prints as "undefined". */
  function RecurringLabel(recurring: string, daysOfWeek: Option<seq<string>>): (r: string)
    ensures recurring == "none" ==> r == "One-time"
    ensures recurring == "daily" ==> r == "Daily"
    ensures recurring == "monthly" ==> r == "Monthly"
    ensures recurring == "weekly" && daysOfWeek.Some? ==> r == "Weekly (" + Join(daysOfWeek.value, ", ") + ")"
    ensures recurring == "weekly" && daysOfWeek.None? ==> r == "Weekly (undefined)"
    ensures recurring !in {"none", "daily", "weekly", "monthly"} ==> r == recurring
  {
    if recurring == "none" then "One-time"
    else if recurring == "daily" then "Daily"
    else if recurring == "weekly" then
      "Weekly (" + (if daysOfWeek.Some? then Join(daysOfWeek.value, ", ") else "undefined") + ")"
    else if recurring == "monthly" then "Monthly"
    else recurring
  }

  /** The status badge: the first character upper-cased, the rest unchanged. */
  function StatusLabel(status: string): (r: string)
    ensures |r| == |status|
    ensures status != [] ==> r[0] == ToUpperChar(status[0]) && r[1..] == status[1..]
  {
    if status == [] then [] else [ToUpperChar(status[0])] + status[1..]
  }

  /** Capitalising an already capitalised label changes nothing. */
  lemma StatusLabelIdempotent(status: string)
    ensures StatusLabel(StatusLabel(status)) == StatusLabel(status)
  {
  }

  lemma StatusLabelExamples()
    ensures StatusLabel("active") == "Active"
    ensures StatusLabel("scheduled") == "Scheduled"
    ensures StatusLabel("completed") == "Completed"
  {
  }

  /** The count shown under "Displays": the number of displays in decimal,
      without leading zeros, then " display(s)". */
  function DisplayCountLabel(s: Schedule): (r: string)
    ensures EndsWith(r, " display(s)") && |r| > 11
    ensures AllDigits(r[..|r| - 11]) && DigitsValue(r[..|r| - 11]) == |s.displays|
    ensures |s.displays| > 0 ==> r[0] != '0'
    ensures |s.displays| == 0 ==> r == "0 display(s)"
  {
    var digits := NatToString(|s.displays|);
    NatToStringValue(|s.displays|);
    var r := digits + " display(s)";
    assert r[..|r| - 11] == digits;
    assert r[|r| - 11..] == " display(s)";
    r
  }

  /** The weekly label lists the days of a two-day schedule. */
  lemma WeeklyExample()
    ensures RecurringLabel("weekly", Some(["Monday", "Friday"])) == "Weekly (Monday, Friday)"
  {
  }
}
