/** The activity-log page: the search/type filter and the relative time shown
    next to each entry. */
module LogsPage {
  import opened Collections
  import opened Strings

  datatype LogEntry = LogEntry(
    id: string,
    timestamp: string,
    kind: string,
    action: string,
    description: string,
    user: string,
    display: Option<string>)

  /** The search part of the `filteredLogs` predicate: a case-insensitive
      substring of the action, the description or the user. */
  predicate MatchesSearch(log: LogEntry, searchTerm: string) {
    var term := ToLower(searchTerm);
    Contains(ToLower(log.action), term) ||
    Contains(ToLower(log.description), term) ||
    Contains(ToLower(log.user), term)
  }

  /** The type part: "all" passes everything, anything else only its own type. */
  predicate MatchesType(log: LogEntry, filterType: string) {
    filterType == "all" || log.kind == filterType
  }

  function FilteredLogs(logs: seq<LogEntry>, searchTerm: string, filterType: string): (r: seq<LogEntry>)
    ensures IsSubsequence(r, logs) && |r| <= |logs|
    ensures forall i :: 0 <= i < |r| ==> MatchesSearch(r[i], searchTerm) && MatchesType(r[i], filterType)
    ensures forall i :: 0 <= i < |logs| && MatchesSearch(logs[i], searchTerm) && MatchesType(logs[i], filterType) ==>
              logs[i] in r
    ensures forall l :: multiset(r)[l] ==
              if MatchesSearch(l, searchTerm) && MatchesType(l, filterType) then multiset(logs)[l] else 0
    ensures filterType != "all" ==> forall i :: 0 <= i < |r| ==> r[i].kind == filterType
  {
    FilterIsSubsequence((l: LogEntry) => MatchesSearch(l, searchTerm) && MatchesType(l, filterType), logs);
    Filter((l: LogEntry) => MatchesSearch(l, searchTerm) && MatchesType(l, filterType), logs)
  }

  /** The display field never takes part in the search. */
  lemma DisplayNotSearched(log: LogEntry, searchTerm: string, display: Option<string>)
    ensures MatchesSearch(log.(display := display), searchTerm) <==> MatchesSearch(log, searchTerm)
  {
  }

  /** An empty search with filter "all" shows every log. */
  lemma EmptySearchShowsAll(logs: seq<LogEntry>)
    ensures FilteredLogs(logs, "", "all") == logs
  {
    forall i | 0 <= i < |logs| ensures MatchesSearch(logs[i], "") {
      ContainsEmpty(ToLower(logs[i].action));
    }
    FilterAll((l: LogEntry) => MatchesSearch(l, "") && MatchesType(l, "all"), logs);
  }

  /** The search ignores the case of the term. */
  lemma SearchIgnoresCase(log: LogEntry, searchTerm: string)
    ensures MatchesSearch(log, ToLower(searchTerm)) <==> MatchesSearch(log, searchTerm)
  {
    ToLowerIdempotent(searchTerm);
  }

  /** The bucket `formatTime` puts an age of `diffMs` milliseconds in. */
  datatype RelativeTime = JustNow | MinutesAgo(m: int) | HoursAgo(h: int) | DaysAgo(d: int) | OnDate

  const MinuteMs := 60000
  const HourMs := 3600000
  const DayMs := 86400000

  /** `formatTime` on the age `diffMs = now - timestamp`, with floor division. */
  function FormatTime(diffMs: int): (r: RelativeTime)
    ensures r == JustNow <==> diffMs < MinuteMs
    ensures r.MinutesAgo? <==> MinuteMs <= diffMs < HourMs
    ensures r.HoursAgo? <==> HourMs <= diffMs < DayMs
    ensures r.DaysAgo? <==> DayMs <= diffMs < 7 * DayMs
    ensures r == OnDate <==> diffMs >= 7 * DayMs
    ensures r.MinutesAgo? ==> 1 <= r.m < 60 && r.m * MinuteMs <= diffMs < (r.m + 1) * MinuteMs
    ensures r.HoursAgo? ==> 1 <= r.h < 24 && r.h * HourMs <= diffMs < (r.h + 1) * HourMs
    ensures r.DaysAgo? ==> 1 <= r.d < 7 && r.d * DayMs <= diffMs < (r.d + 1) * DayMs
  {
    var diffMins := diffMs / MinuteMs;
    var diffHours := diffMs / HourMs;
    var diffDays := diffMs / DayMs;
    if diffMins < 1 then JustNow
    else if diffMins < 60 then MinutesAgo(diffMins)
    else if diffHours < 24 then HoursAgo(diffHours)
    else if diffDays < 7 then DaysAgo(diffDays)
    else OnDate
  }

  /** `text` is the decimal digits of `n`, without leading zeros, then `suffix`. */
  predicate IsCountText(text: string, n: nat, suffix: string) {
    |text| > |suffix| && text[|text| - |suffix|..] == suffix &&
    AllDigits(text[..|text| - |suffix|]) && text[0] != '0' &&
    DigitsValue(text[..|text| - |suffix|]) == n
  }

  /** `${n}` followed by `suffix`. */
  function CountText(n: int, suffix: string): (text: string)
    ensures n > 0 ==> IsCountText(text, n, suffix)
  {
    var digits := IntToString(n);
    var text := digits + suffix;
    if n > 0 then
      NatToStringValue(n);
      assert text[..|text| - |suffix|] == digits && text[|text| - |suffix|..] == suffix;
      text
    else text
  }

  /** The text `formatTime` returns for a bucket; `localeDate` is the
      browser's `toLocaleDateString()` of the entry, used from a week on. */
  function Label(r: RelativeTime, localeDate: string): (text: string)
    ensures r.JustNow? ==> text == "Just now"
    ensures r.MinutesAgo? && r.m > 0 ==> IsCountText(text, r.m, "m ago")
    ensures r.HoursAgo? && r.h > 0 ==> IsCountText(text, r.h, "h ago")
    ensures r.DaysAgo? && r.d > 0 ==> IsCountText(text, r.d, "d ago")
    ensures r.OnDate? ==> text == localeDate
  {
    match r
    case JustNow => "Just now"
    case MinutesAgo(m) => CountText(m, "m ago")
    case HoursAgo(h) => CountText(h, "h ago")
    case DaysAgo(d) => CountText(d, "d ago")
    case OnDate => localeDate
  }

  /** An age from one minute up to a week reads as its whole minutes, hours or
      days in decimal, then "m ago", "h ago" or "d ago". */
  lemma LabelOfAge(diffMs: int, localeDate: string)
    requires MinuteMs <= diffMs < 7 * DayMs
    ensures var text := Label(FormatTime(diffMs), localeDate);
            (diffMs < HourMs ==> IsCountText(text, diffMs / MinuteMs, "m ago")) &&
            (HourMs <= diffMs < DayMs ==> IsCountText(text, diffMs / HourMs, "h ago")) &&
            (DayMs <= diffMs ==> IsCountText(text, diffMs / DayMs, "d ago"))
  {
  }

  /** Entries stamped in the future also read "Just now". */
  lemma FutureIsJustNow(diffMs: int)
    requires diffMs < 0
    ensures forall localeDate :: Label(FormatTime(diffMs), localeDate) == "Just now"
  {
  }

  /** Ninety seconds ago reads "1m ago"; two hours ago "2h ago"; three days ago "3d ago". */
  lemma FormatTimeExamples()
    ensures Label(FormatTime(90000), "") == "1m ago"
    ensures Label(FormatTime(2 * HourMs), "") == "2h ago"
    ensures Label(FormatTime(3 * DayMs + 5), "") == "3d ago"
    ensures Label(FormatTime(8 * DayMs), "10/21/2025") == "10/21/2025"
  {
  }
}
