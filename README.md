# PanelSena core, modelled in Dafny

PanelSena is a digital-signage system. It has two parts:

- a web dashboard, where a company manages its displays, content, schedules and activity logs;
- a player on a Raspberry Pi that runs on every screen. The player reports its status to a
  realtime database and carries out the commands the dashboard queues for it.

This project models the decision logic of both parts and proves properties of it:

- the dashboard pages' handlers, filters and counters;
- the schedule calendar's date arithmetic and occurrence rule;
- the schedule and content hooks, with their success and failure paths;
- the upload form;
- the player's state machine and command dispatch.

The player class (`Player.PanelSenaPlayer`) keeps the Python object's fields and updates them in
place. Each of its methods is proved equal to a pure transition of `PlayerModel`, and the
properties are proved about those transitions. The upload form (`ContentUpload.UploadForm`), the
schedule hook (`UseSchedules.ScheduleStore`) and the content hook (`UseContent.ContentStore`) are
also classes with mutable fields. The pages' handlers are pure functions from one page state to
the next, because each of them replaces React state with a newly computed value.

Two shared modules hold generic helpers:

- `Collections` provides Option and Result, an order-preserving filter, index-wise replacement,
  toggling membership and de-duplication.
- `Strings` provides prefix, suffix and substring tests, ASCII case mapping, joining and decimal
  digits.

Notable behaviour of the code:

- The calendar has no "invalid range" error. A schedule whose start lies after its end is simply
  never shown.
- A start or end date that cannot be parsed becomes an invalid JavaScript date. Every comparison
  with that date is false, so such a bound excludes no day (`ScheduleCalendar.IsActiveOn`).
- The player's `set_volume` always reports status "online", even while content is playing
  (raspberry-pi/player.py:435). The heartbeat corrects the status on its next round.

## Model

| member | source | states |
|---|---|---|
| ScheduleCalendar.NextDay | components/schedule-calendar.tsx:30-32 | the calendar day after a valid date is valid and later |
| ScheduleCalendar.DayBefore | components/schedule-calendar.tsx:30-32 | the day before a valid date (day 0 of a month) is valid and earlier |
| ScheduleCalendar.NextDayInverse | components/schedule-calendar.tsx:30-32 | stepping forward and back returns the same date, in both orders |
| ScheduleCalendar.MonthStart | components/schedule-calendar.tsx:30-36 | a month index outside 0..11 rolls into the neighbouring year: index -1 is December of the year before, index 12 January of the year after |
| ScheduleCalendar.GetDaysInMonth | components/schedule-calendar.tsx:30-32 | day 0 of the next month gives the month's length: 28 to 31, 29 in February exactly in leap years, 30 exactly for April, June, September and November |
| ScheduleCalendar.DayOfWeek | components/schedule-calendar.tsx:34-36 | the weekday index lies in 0..6 |
| ScheduleCalendar.YearTermStep | components/schedule-calendar.tsx:34-36 | each year shifts the weekday count by one, or by two after a leap year |
| ScheduleCalendar.DayOfWeekNextDay | components/schedule-calendar.tsx:34-36 | the weekday of the next day is the next weekday, so the weekday formula agrees with stepping day by day |
| ScheduleCalendar.EpochIsThursday | components/schedule-calendar.tsx:34-36 | 1 January 1970 is a Thursday, which anchors the formula to the JavaScript calendar |
| ScheduleCalendar.DayOfWeekInMonth | components/schedule-calendar.tsx:34-36 | the weekday of the d-th of a month is the first's weekday shifted by d-1 |
| ScheduleCalendar.GetFirstDayOfMonth | components/schedule-calendar.tsx:34-36 | the first day of the viewed month is a weekday index in 0..6 (0 is Sunday) |
| ScheduleCalendar.FormatIsoDate | components/schedule-calendar.tsx:39 | the date text is ten characters long, with dashes at positions 4 and 7 |
| ScheduleCalendar.ParseIsoDate | components/schedule-calendar.tsx:41-43 | a parsed date is a valid calendar date with a four-digit year; any other text is absent (an invalid date) |
| ScheduleCalendar.WeekdayName | components/schedule-calendar.tsx:50 | the long English weekday name ends in "day"; 0 is "Sunday" and 6 is "Saturday" |
| ScheduleCalendar.WeekdayNamesDistinct | components/schedule-calendar.tsx:50-51 | different weekdays have different names, so a listed name selects one weekday |
| ScheduleCalendar.IsActiveOn | components/schedule-calendar.tsx:40-55 | a schedule is active only on a day no parsed bound excludes, only for a "none", "daily" or "weekly" recurrence, and a weekly one only on a listed weekday |
| ScheduleCalendar.IsoRoundTrip | components/schedule-calendar.tsx:39-45 | parsing a formatted date gives the date back |
| ScheduleCalendar.IsoCanonical | components/schedule-calendar.tsx:39-45 | formatting a parsed text gives the text back |
| ScheduleCalendar.NeverOutsideRange | components/schedule-calendar.tsx:45 | a day before a parsed start, or after a parsed end, never shows the schedule (the other bound may be anything) |
| ScheduleCalendar.InsideRange | components/schedule-calendar.tsx:45-54 | on any day no parsed bound excludes (a bound that does not parse excludes nothing): one-time and daily schedules are shown; weekly ones exactly when the weekday's name is listed; any other recurrence never |
| ScheduleCalendar.SchedulesForDate | components/schedule-calendar.tsx:38-56 | the day's schedules are exactly those active on it, in list order, each as many times as it is listed |
| ScheduleCalendar.MonthGrid | components/schedule-calendar.tsx:62-68 | the grid has first-weekday plus month-length cells; a cell is blank iff it precedes the first; the cell at index i holds day i - first-weekday + 1 of the shown month, so every day appears once, in order |
| ScheduleCalendar.BuildMonthGrid | components/schedule-calendar.tsx:62-68 | the two loops build the grid: blanks for the leading weekdays, then every day of the month |
| ScheduleCalendar.MonthGridShape | components/schedule-calendar.tsx:62-68 | the grid has first-weekday plus month-length cells; a cell is blank iff it precedes the first; cell i falls on weekday i mod 7 |
| ScheduleCalendar.CellSchedules | components/schedule-calendar.tsx:102 | a blank cell has no schedules; a day cell has exactly the day's schedules, a subsequence of the list |
| ScheduleCalendar.CellBadges | components/schedule-calendar.tsx:122-132 | at most the first two schedules are shown as badges; the "+n more" count is the rest, and it is non-zero only when two badges are shown |
| ScheduleCalendar.PrevMonth | components/schedule-calendar.tsx:70-72 | the previous month's first day, wrapping January to December of the year before |
| ScheduleCalendar.NextMonth | components/schedule-calendar.tsx:74-76 | the next month's first day, wrapping December to January of the next year |
| ScheduleCalendar.NavigationRoundTrip | components/schedule-calendar.tsx:70-76 | next then previous, and previous then next, return the month viewed |
| ScheduleCalendar.NextMonthN | components/schedule-calendar.tsx:74-76 | repeated "next" always stays on a month in 1..12 |
| ScheduleCalendar.NextMonthNSteps | components/schedule-calendar.tsx:74-76 | n "next" clicks advance the month index by n, carrying into the year |
| ScheduleCalendar.TwelveNextMonths | components/schedule-calendar.tsx:74-76 | twelve "next" clicks from any month reach the first of that month one year on |
| ScheduleCalendar.NovemberWeekdays | components/schedule-calendar.tsx:34-36 | 1 November 2025 is a Saturday; the 3rd and 4th are a Monday and a Tuesday |
| ScheduleCalendar.NovemberGrid | components/schedule-calendar.tsx:62-68 | the November 2025 grid starts on Saturday and has 36 cells |
| ScheduleCalendar.DailyExample | components/schedule-calendar.tsx:45-48 | the daily seed schedule is shown on a day inside its range |
| ScheduleCalendar.ParseExampleDates | components/schedule-calendar.tsx:42-43 | the seed dates parse to the intended days |
| ScheduleCalendar.PrintExampleDates | components/schedule-calendar.tsx:39 | the seed days print as the seed texts |
| PlayerModel.Initial | raspberry-pi/player.py:51-58 | a fresh player runs, is idle, has volume 80 and an empty queue, and has made no writes |
| PlayerModel.StatusFor | raspberry-pi/player.py:166-209 | the status record carries the display, status, heartbeat time, volume and content; the loaded schedule's id, name, queue and index exactly when one is loaded; the error text exactly when it is non-empty |
| PlayerModel.UpdateStatus | raspberry-pi/player.py:166-209 | a status update appends exactly one status write and changes nothing else |
| PlayerModel.HeartbeatStatus | raspberry-pi/player.py:215-216 | "playing" iff playing and not paused; "paused" iff paused; "online" iff neither |
| PlayerModel.Heartbeat | raspberry-pi/player.py:211-221 | one heartbeat round appends one status write with the status the player's flags call for, and changes nothing else |
| PlayerModel.HeartbeatValid | raspberry-pi/player.py:211-221 | a heartbeat keeps the player consistent; "paused" implies content is playing; "online" iff nothing plays |
| PlayerModel.SetVolume | raspberry-pi/player.py:431-436 | the volume is clamped to 0..100 (below 0 gives 0, above 100 gives 100, otherwise unchanged) and status "online" is reported |
| PlayerModel.PlayFromQueue | raspberry-pi/player.py:389-400 | an index inside the queue plays that item; past the end it wraps to the first item, or plays nothing from an empty queue |
| PlayerModel.Skip | raspberry-pi/player.py:422-429 | skipping an empty queue does nothing; otherwise the index moves one place, wrapping to 0 |
| PlayerModel.SkipCyclic | raspberry-pi/player.py:422-429 | for a non-empty queue, the next index is (index + 1) mod the queue length, and nothing else changes |
| PlayerModel.SkipN | raspberry-pi/player.py:422-429 | repeated skips keep the player consistent and the queue unchanged |
| PlayerModel.SkipNAdvances | raspberry-pi/player.py:422-429 | n skips advance the index by n, wrapping once past the end |
| PlayerModel.SkipFullCycle | raspberry-pi/player.py:422-429 | skipping as many times as the queue is long returns to the same state |
| PlayerModel.Pause | raspberry-pi/player.py:402-408 | pausing unpaused playback marks it paused and reports "paused"; otherwise nothing changes |
| PlayerModel.PauseIdempotent | raspberry-pi/player.py:402-408 | a second pause changes nothing |
| PlayerModel.Stop | raspberry-pi/player.py:410-420 | stopping clears playback, content, schedule and queue, keeps the volume, and appends one "online" status write |
| PlayerModel.StopRestoresInitial | raspberry-pi/player.py:410-420 | after stop, the playback fields equal those of a freshly started player |
| PlayerModel.LoadAndPlaySchedule | raspberry-pi/player.py:287-310 | the schedule is recorded as "Schedule <id>", the index resets, and the queue's first item plays if there is one |
| PlayerModel.PlayFile | raspberry-pi/player.py:335-372 | a missing file changes nothing and fails; otherwise the content, stamped with the start time, plays unpaused, only those fields change, and one "playing" status write is appended |
| PlayerModel.PlayFilePreservesValid | raspberry-pi/player.py:335-372 | playing a file keeps the player consistent |
| PlayerModel.Cleanup | raspberry-pi/player.py:444-449 | clean-up is the stop transition with the loop stopped; it keeps the volume and appends exactly two status writes, "online" (from the stop) then "offline" |
| PlayerModel.Dispatch | raspberry-pi/player.py:240-285 | a command fails exactly when it is a volume command whose volume is not an integer (payload numbers are integers here); a successful one keeps the display's identity |
| PlayerModel.ExecuteCommand | raspberry-pi/player.py:240-285 | a successful dispatch is followed by an "executed" mark; a raised error leaves the state as it was and marks the command "failed" with the error's message; either way the last write marks this command |
| PlayerModel.PlayPrefersSchedule | raspberry-pi/player.py:244-251 | a play command with a schedule id loads that schedule |
| PlayerModel.VolumeDefault | raspberry-pi/player.py:261-263 | a volume command without a volume sets 80 and is marked executed |
| PlayerModel.UnknownTypeExecuted | raspberry-pi/player.py:240-285 | a command of an unknown type changes nothing but is marked executed |
| PlayerModel.BadVolumeFails | raspberry-pi/player.py:261-263 | a text volume makes the command fail with the comparison error |
| PlayerModel.ExecutePreservesValid | raspberry-pi/player.py:240-285 | executing any command keeps the player consistent |
| PlayerModel.DispatchPreservesValid | raspberry-pi/player.py:240-285 | every successful dispatch keeps the player consistent |
| PlayerModel.ExecutePending | raspberry-pi/player.py:231-234 | the loop keeps the display's identity and never shortens the outbox |
| PlayerModel.NothingPendingNoChange | raspberry-pi/player.py:231-234 | an event with no pending command changes nothing: no command runs and nothing is written |
| PlayerModel.CommandListener | raspberry-pi/player.py:227-235 | an event without data changes nothing |
| PlayerModel.OnlyPendingExecuted | raspberry-pi/player.py:231-234 | the listener's effect equals executing only the pending commands, in order |
| PlayerModel.MarkedIdsAppend | raspberry-pi/player.py:268-285 | appending a write adds a command mark exactly when the write marks a command |
| PlayerModel.UpdateStatusMarksNothing | raspberry-pi/player.py:166-209 | status updates never mark a command |
| PlayerModel.ExecuteMarksOnce | raspberry-pi/player.py:268-285 | executing a command marks that command exactly once |
| PlayerModel.DispatchMarksNothing | raspberry-pi/player.py:240-266 | the command's own effect marks no command |
| PlayerModel.StopMarksNothing | raspberry-pi/player.py:410-420 | stopping marks no command |
| PlayerModel.ListenerMarksPending | raspberry-pi/player.py:227-235 | one listener event marks exactly its pending commands, each once, in order |
| PlayerModel.ListenerPreservesValid | raspberry-pi/player.py:227-235 | a listener event keeps the player consistent |
| Player.PanelSenaPlayer.constructor | raspberry-pi/player.py:51-58 | the object's fields form the initial player state |
| Player.PanelSenaPlayer.UpdateStatus | raspberry-pi/player.py:166-209 | the fields change as the status transition says |
| Player.PanelSenaPlayer.HeartbeatTick | raspberry-pi/player.py:211-221 | one heartbeat round is the heartbeat transition |
| Player.PanelSenaPlayer.SetVolume | raspberry-pi/player.py:431-436 | matches the volume transition and leaves the volume in 0..100 |
| Player.PanelSenaPlayer.PlayFromQueue | raspberry-pi/player.py:389-400 | the recursive method matches the queue transition and its played item |
| Player.PanelSenaPlayer.SkipContent | raspberry-pi/player.py:422-429 | matches the skip transition |
| Player.PanelSenaPlayer.PausePlayback | raspberry-pi/player.py:402-408 | matches the pause transition |
| Player.PanelSenaPlayer.StopPlayback | raspberry-pi/player.py:410-420 | matches the stop transition |
| Player.PanelSenaPlayer.LoadAndPlaySchedule | raspberry-pi/player.py:287-310 | matches the schedule-loading transition |
| Player.PanelSenaPlayer.PlayFile | raspberry-pi/player.py:335-372 | matches the play-file transition and its result |
| Player.PanelSenaPlayer.Cleanup | raspberry-pi/player.py:444-449 | matches the clean-up transition |
| Player.PanelSenaPlayer.RestartDevice | raspberry-pi/player.py:438-442 | the restart's effect on the player is the clean-up |
| Player.PanelSenaPlayer.ExecuteCommand | raspberry-pi/player.py:240-285 | matches command execution, including the failure mark |
| Player.PanelSenaPlayer.CommandListener | raspberry-pi/player.py:227-235 | the loop over the event's commands matches executing the pending ones in order |
| UseSchedules.NameOr | hooks/use-schedules.ts:85 | a non-empty name is used, otherwise the fallback (JavaScript's `||` on a string) |
| UseSchedules.Prepend | hooks/use-schedules.ts:43 | the created schedule goes first, followed by the old list |
| UseSchedules.Merge | hooks/use-schedules.ts:76-78 | the merged document has both key sets; the new data wins |
| UseSchedules.MergeById | hooks/use-schedules.ts:75-79 | schedules with the id are merged with the data; the others stay |
| UseSchedules.RemoveById | hooks/use-schedules.ts:110 | removal drops every schedule with the id and keeps the others in order, each as many times as before |
| UseSchedules.MergeUnknownId | hooks/use-schedules.ts:75-79 | editing an id that is not listed changes no schedule |
| UseSchedules.RemoveUnknownId | hooks/use-schedules.ts:110 | removing an id that is not listed changes nothing |
| UseSchedules.RemoveUndoesPrepend | hooks/use-schedules.ts:43 | removing a freshly created schedule restores the list |
| UseSchedules.Find | hooks/use-schedules.ts:108 | absent iff no schedule has the id; otherwise the first one that has it |
| UseSchedules.DeletedActivity | hooks/use-schedules.ts:113-118 | a "schedule" / "Schedule Deleted" record; a found schedule is described by its quoted name (its id when the name is empty), an unknown one by its quoted id |
| UseSchedules.CreatedActivity | hooks/use-schedules.ts:46-51 | a "schedule" / "Schedule Created" record whose description is "Created schedule " and the quoted name, or the quoted text "undefined" when the data has no name |
| UseSchedules.UpdatedActivity | hooks/use-schedules.ts:82-87 | a "schedule" / "Schedule Updated" record whose description is "Updated schedule " and the quoted new name, or quoted "Unnamed" when the update carries no name or an empty one |
| UseSchedules.ErrorActivity | hooks/use-schedules.ts:59-64 | a "system" record with the given error action, whose description is "Failed to <operation> schedule: " followed by the error text |
| UseSchedules.QuotedNameReadBack | hooks/use-schedules.ts:49 | the quoted name can be read back from a description: two names giving the same description are equal |
| UseSchedules.ScheduleStore.constructor | hooks/use-schedules.ts:11-14 | the hook starts loading, with no schedules and no error; an empty user id counts as signed out |
| UseSchedules.ScheduleStore.Load | hooks/use-schedules.ts:16-36 | loading ends; without a user nothing is fetched; a fetch replaces the list or records the error |
| UseSchedules.ScheduleStore.Fail | hooks/use-schedules.ts:54-66 | a failure records the error and, if the error entry is written, logs it |
| UseSchedules.ScheduleStore.AddSchedule | hooks/use-schedules.ts:38-68 | without a user it rejects and changes nothing; a created schedule is prepended and logged; a failure records the error and its log entry |
| UseSchedules.ScheduleStore.EditSchedule | hooks/use-schedules.ts:70-102 | without a user it rejects; a successful update merges by id and is logged; a failure records the error |
| UseSchedules.ScheduleStore.RemoveSchedule | hooks/use-schedules.ts:104-133 | without a user it rejects; a successful delete drops the id and is logged with the found name; a failure records the error |
| SchedulingPage.InitialPage | app/dashboard/scheduling/page.tsx:32-86 | four seed schedules with ids 1..4 and known statuses; no form is open; every status is shown |
| SchedulingPage.AddSchedule | app/dashboard/scheduling/page.tsx:88-96 | the new schedule takes the clock as its id, is appended, and the form closes |
| SchedulingPage.OpenForm | app/dashboard/scheduling/page.tsx:170-173 | "New Schedule" opens the form and leaves what is being edited, the list and the filter as they were |
| SchedulingPage.EditSchedule | app/dashboard/scheduling/page.tsx:98-102 | the form opens on the schedule |
| SchedulingPage.UpdateSchedule | app/dashboard/scheduling/page.tsx:104-109 | every schedule with the id is replaced, the rest stay; the form closes |
| SchedulingPage.DeleteSchedule | app/dashboard/scheduling/page.tsx:111-114 | every schedule with the id goes; the others stay in order, each as many times as before |
| SchedulingPage.CloseForm | app/dashboard/scheduling/page.tsx:116-120 | the form closes and nothing is being edited |
| SchedulingPage.Save | app/dashboard/scheduling/page.tsx:211 | saving updates while editing and adds otherwise |
| SchedulingPage.ToggleFilter | app/dashboard/scheduling/page.tsx:122-125 | only the toggled status changes membership |
| SchedulingPage.ToggleFilterTwice | app/dashboard/scheduling/page.tsx:122-125 | toggling twice restores the selected statuses |
| SchedulingPage.FilteredSchedules | app/dashboard/scheduling/page.tsx:127 | exactly the schedules with a selected status, in order, each as many times as listed |
| SchedulingPage.DefaultFilterShowsAll | app/dashboard/scheduling/page.tsx:86 | the default filter lists every schedule with a known status |
| SchedulingPage.CountStatus | app/dashboard/scheduling/page.tsx:129-130 | a status count is the number of schedules carrying that status |
| SchedulingPage.CountsBounded | app/dashboard/scheduling/page.tsx:129-130 | the active and scheduled counts together never exceed the list |
| SchedulingPage.AddCounts | app/dashboard/scheduling/page.tsx:88-96 | adding raises exactly its own status's count by one |
| SchedulingPage.DeleteUndoesAdd | app/dashboard/scheduling/page.tsx:88-114 | deleting a just-added schedule with a fresh id restores the list |
| SchedulingPage.UpdateUnknownId | app/dashboard/scheduling/page.tsx:104-109 | an update to an unlisted id changes no schedule |
| SchedulingPage.EditThenClose | app/dashboard/scheduling/page.tsx:98-120 | editing and then closing only closes the form |
| SchedulingPage.HandlersKeepClosedFormEditsNothing | app/dashboard/scheduling/page.tsx:88-212 | the page starts, and every handler keeps it, with nothing being edited while the form is closed |
| SchedulingPage.NewScheduleAdds | app/dashboard/scheduling/page.tsx:170-211 | "New Schedule" on a closed form leads to a save that appends the schedule and closes the form |
| DisplaysPage.EditDisplay | app/dashboard/displays/page.tsx:109-113 | the modal opens on the display |
| DisplaysPage.SaveDisplay | app/dashboard/displays/page.tsx:115-119 | displays with the saved id are replaced, the rest stay; the modal closes |
| DisplaysPage.DeleteDisplay | app/dashboard/displays/page.tsx:121-125 | every display with the id goes, the others stay in order, each as many times as before; the modal closes |
| DisplaysPage.NewDisplayDraft | app/dashboard/displays/page.tsx:127-143 | the draft takes the clock as its id; it is offline, landscape, in group "New", at brightness 50 |
| DisplaysPage.AddDisplay | app/dashboard/displays/page.tsx:127-143 | the modal opens on the draft, and the list is unchanged |
| DisplaysPage.SaveUnknownIdUnchanged | app/dashboard/displays/page.tsx:115-119 | saving a display whose id is not listed changes nothing |
| DisplaysPage.SaveDraftNeverInserts | app/dashboard/displays/page.tsx:115-143 | saving a new draft never adds it to the list |
| DisplaysPage.ToggleFilter | app/dashboard/displays/page.tsx:145-148 | only the toggled status changes membership |
| DisplaysPage.ToggleFilterTwice | app/dashboard/displays/page.tsx:145-148 | toggling twice restores the selected statuses |
| DisplaysPage.FilteredDisplays | app/dashboard/displays/page.tsx:150 | exactly the displays with a selected status, in order, each as many times as listed |
| DisplaysPage.DefaultFilterShowsAll | app/dashboard/displays/page.tsx:107 | the default filter shows every online or offline display |
| DisplaysPage.HidingOffline | app/dashboard/displays/page.tsx:150 | with "offline" deselected no offline display is shown |
| ContentPage.Upload | app/dashboard/content/page.tsx:78-80 | the uploaded item is appended to the list |
| ContentPage.Delete | app/dashboard/content/page.tsx:82-84 | every item with the id goes; the others stay in order, each as many times as before |
| ContentPage.CountOf | app/dashboard/content/page.tsx:86-88 | a type count is the number of items of that type |
| ContentPage.CountsPartition | app/dashboard/content/page.tsx:86-88 | the image, video and document counts add up to the list's length |
| ContentPage.UploadCounts | app/dashboard/content/page.tsx:78-88 | an upload raises exactly its own type's count by one |
| ContentPage.DeleteUndoesUpload | app/dashboard/content/page.tsx:78-84 | deleting a freshly uploaded item restores the list |
| ContentLibrary.CategoryList | components/content-library.tsx:29 | one category per item, in order |
| ContentLibrary.Categories | components/content-library.tsx:29 | the category list has no duplicates and holds exactly the items' categories |
| ContentLibrary.CategoriesInFirstAppearanceOrder | components/content-library.tsx:29 | categories appear in the order of their first use |
| ContentLibrary.FilteredItems | components/content-library.tsx:31-35 | exactly the items whose name contains the search term, ignoring case, and whose category is the selected one (if any), in order, each as many times as listed |
| ContentLibrary.EmptyFilterShowsAll | components/content-library.tsx:31-35 | no search and no category lists every item |
| ContentLibrary.SearchIgnoresCase | components/content-library.tsx:32 | the search result ignores the case of both the term and the name |
| ContentLibrary.SearchIsSubstring | components/content-library.tsx:32 | an item matches iff the lower-cased term occurs in the lower-cased name |
| ContentUpload.InferType | components/content-upload.tsx:65 | ".mp4" means video; otherwise ".pdf" means document; anything else is an image |
| ContentUpload.InferTypeIsCaseSensitive | components/content-upload.tsx:65 | an upper-case extension is not recognised |
| ContentUpload.UploadedItem | components/content-upload.tsx:62-70 | the new item takes the clock as its id, the inferred type, size "2.5 MB", date "just now" and the fixed thumbnail |
| ContentUpload.UploadForm.constructor | components/content-upload.tsx:30-34 | the form starts empty, idle and at progress 0 |
| ContentUpload.UploadForm.SelectFile | components/content-upload.tsx:38-43 | choosing a file sets the name; no other field may change |
| ContentUpload.UploadForm.SelectCategory | components/content-upload.tsx:118 | choosing a category sets it; no other field may change |
| ContentUpload.UploadForm.HandleUpload | components/content-upload.tsx:45-55 | a no-op while uploading; a missing name or category only alerts; otherwise the upload starts at 0 and captures the form |
| ContentUpload.UploadForm.Tick | components/content-upload.tsx:55-81 | below 100 the progress grows by the step and every other field is kept; at 100 or more the captured item is appended and delivered once, the form is cleared and the upload stops |
| ContentUpload.UploadDeliversClickedFile | components/content-upload.tsx:45-81 | a whole upload delivers one item with the file name and category chosen before the click, even when another file is picked meanwhile, and clears the form |
| ContentUpload.UploadForm.Cancel | components/content-upload.tsx:151-158 | disabled while uploading; otherwise it clears the name and category; no other field may change |
| UseContent.FolderFor | hooks/use-content.ts:45 | images, videos and documents each go to their own folder, one-to-one |
| UseContent.FileId | hooks/use-content.ts:42 | the key starts with the clock reading and an underscore and ends with the file name |
| UseContent.FormatFileSize | hooks/use-content.ts:118-126 | below 1024 the text is the exact byte count in decimal without leading zeros, followed by " Bytes"; zero gives "0 Bytes" |
| UseContent.ContentStore.constructor | hooks/use-content.ts:11-15 | no progress entries and no error; an empty user id counts as signed out |
| UseContent.ContentStore.RecordProgress | hooks/use-content.ts:47-52 | a progress report overwrites only its own upload's entry |
| UseContent.ContentStore.UploadContent | hooks/use-content.ts:34-81 | without a user it rejects and changes nothing; on success its progress entry is removed and it resolves with the item the metadata write created; on failure the error is recorded, the error is rethrown and the last progress entry stays |
| LogsPage.FilteredLogs | app/dashboard/logs/page.tsx:100-107 | exactly the entries that match the search and the type filter, in order, each as many times as listed |
| LogsPage.DisplayNotSearched | app/dashboard/logs/page.tsx:101-104 | the display name is not searched |
| LogsPage.EmptySearchShowsAll | app/dashboard/logs/page.tsx:100-107 | an empty search under "all" shows every entry |
| LogsPage.SearchIgnoresCase | app/dashboard/logs/page.tsx:101-104 | the case of the search term does not matter |
| LogsPage.FormatTime | app/dashboard/logs/page.tsx:124-137 | each relative-time bucket holds exactly its range of ages, and the count shown is the floor of the age in that unit |
| LogsPage.FutureIsJustNow | app/dashboard/logs/page.tsx:132 | a timestamp in the future reads "Just now" |
| LogsPage.Label | app/dashboard/logs/page.tsx:132-136 | "Just now" for the newest bucket; for a positive count, the count's decimal digits without leading zeros followed by "m ago", "h ago" or "d ago"; the locale date text from a week on |
| LogsPage.LabelOfAge | app/dashboard/logs/page.tsx:129-135 | an age from one minute to a week reads as the floor of the age in minutes, hours or days, written in decimal, with that unit's suffix |
| LogsPage.FormatTimeExamples | app/dashboard/logs/page.tsx:132-135 | 90 seconds reads "1m ago", two hours "2h ago", three days "3d ago" |
| ScheduleList.RecurringLabel | components/schedule-list.tsx:42-48 | the labels for one-time, daily, weekly (with "undefined" when days are missing) and monthly; other values pass through |
| ScheduleList.StatusLabel | components/schedule-list.tsx:60 | the first letter is upper-cased and the rest kept |
| ScheduleList.StatusLabelIdempotent | components/schedule-list.tsx:60 | capitalising twice changes nothing more |
| ScheduleList.StatusLabelExamples | components/schedule-list.tsx:60 | the three statuses read "Active", "Scheduled", "Completed" |
| ScheduleList.DisplayCountLabel | components/schedule-list.tsx:69 | the label is the number of displays in decimal, without leading zeros (`"0"` for none), then " display(s)" |
| ScheduleList.WeeklyExample | components/schedule-list.tsx:46 | weekly days are joined with ", " |
| Strings.JoinAppend | components/schedule-list.tsx:46 | joining one more day adds the separator and that day at the end of the label's list |
| Sidebar.ActiveOnSegmentBoundary | components/sidebar.tsx:54 | an active item's path is a prefix of the page's path that ends at a segment boundary |
| Sidebar.BoundaryPrefixActive | components/sidebar.tsx:54 | conversely, a prefix at a segment boundary is active |
| Sidebar.SchedulingIsNotSchedule | components/sidebar.tsx:54 | the scheduling page does not highlight the schedule item |
| Sidebar.DashboardAlwaysActive | components/sidebar.tsx:13-14 | the dashboard item is highlighted on every dashboard sub-page |
| Sidebar.LogsPageItemActivity | components/sidebar.tsx:13-22 | on the logs page only the dashboard and logs items are active |
| Sidebar.Highlights | components/sidebar.tsx:50-54 | one flag per menu item, in menu order, set exactly when that item is active for the path; any path under /dashboard/ highlights the first item |
| Sidebar.LogsPageHighlights | components/sidebar.tsx:52-54 | the logs page highlights exactly the first and sixth menu items |
| TopBar.UserName | components/top-bar.tsx:49 | a name is shown iff there is a user with an email; it is the email up to the first "@" |
| TopBar.UserNameIsLocalPart | components/top-bar.tsx:49 | for "local@domain" the name is the local part |
| TopBar.Heading | components/top-bar.tsx:27 | the company name when it is non-empty, "Dashboard" otherwise; never empty |

## Left out

- Firebase (authentication, realtime database, storage, metadata documents) is not modelled. Its
  results are parameters, and its writes are recorded as a sequence (`outbox`) or as the hooks'
  state.
- The player's VLC control, file downloads, the operating-system reboot, the configuration file,
  device linking and the start-up sequence are not modelled. They are external calls. File
  existence is a parameter of `PlayFile`.
- The player's threads (heartbeat loop, playback monitor) are not modelled; each round is one call.
  The command listener assumes the event carries the whole command collection, which is the only
  event shape the listener handles.
- play_single_content (raspberry-pi/player.py:312-321) is not modelled: it only logs and downloads,
  and leaves the player's state unchanged.
- The clock and `Math.random` are parameters (`now`, `step`), not sources of values.
- The calendar's month title and the today highlight are not modelled: both depend on the browser's
  locale and the current day.
- Time zones are not modelled: dates are taken as calendar days, as the ISO parse of a date string
  yields.
- Years outside 0..9999 in ISO text are not modelled.
- ScheduleCalendar.ParseIsoDate: only the exact ten-character `YYYY-MM-DD` text of a real calendar
  date parses. The JavaScript engine's fallback parsing of other texts (local-time dates, other
  layouts, the rollover of an impossible day such as 2025-02-30) is not modelled: such a bound is
  treated as an invalid date.
- PlayerModel.Dispatch: payload numbers are taken as integers. A floating-point or boolean volume,
  which Python's `min`/`max` would accept (55.5, True), is not represented; only integers, text and
  null are.
- ScheduleCalendar.MonthStart: the JavaScript Date constructor's two limits are not modelled: a
  year 0..99 is read as 1900 + year, and a date more than 8.64e15 ms from 1970 is an Invalid Date.
  The model keeps the year as given. Both are reachable only by thousands of month clicks (from
  1 January 100, two "previous" clicks show November 1999).
- ScheduleCalendar.PrevMonth: inherits the MonthStart gap; "previous" from a month of a year 0..99
  shows a month of 1900 + year (December of 1899 + year from January) in the browser, and of
  the model's own year here.
- ScheduleCalendar.NextMonth: inherits the MonthStart gap; "next" from a month of a year 0..99 shows
  a month of 1900 + year in the browser (December of 99 leads to January 2000), of the same year
  here.
- ScheduleCalendar.NavigationRoundTrip: holds for the model's years; in the browser it fails at the
  year-99/100 boundary and beyond the Date range, which the model does not represent.
- ScheduleCalendar.NextMonthN, NextMonthNSteps, TwelveNextMonths: inherit the MonthStart gap.
- ScheduleCalendar.GetFirstDayOfMonth: the weekday is that of the model's year, not of 1900 + year
  for years 0..99, and no Invalid Date arises.
- ScheduleCalendar.MonthGrid: built from GetFirstDayOfMonth and the month length of the model's
  year, so it shares that gap.
- ScheduleCalendar.BuildMonthGrid: shares the MonthGrid gap.
- LogsPage.Label: the locale date text (`toLocaleDateString`) of entries a week old or older is a
  parameter, because it depends on the browser's locale.
- Case-insensitive search uses ASCII letters only; Unicode case folding is left out.
- UseContent.FormatFileSize: covers only sizes below 1024 bytes, because the larger units need
  floating-point logarithms and rounding.
- ScheduleCalendar.FormatIsoDate: requires a four-digit year and a day of at most 31, because the
  calendar only prints real dates of the seed range.
- The displays and content pages' seed lists are not modelled; their handlers are proved for every
  list.
- The content hook's subscription, removeContent and editContent are not modelled; they forward to
  the database.
- hooks/use-displays.ts and lib/types.ts are not part of this model. The schedule documents of the
  schedule hook are modelled as maps from field names to text.
- React's rendering, styling and icons are not modelled.
