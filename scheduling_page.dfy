/** The scheduling page: its schedule list, the form's open/editing state and
    the status filter. Every handler replaces the state with a new value. */
module SchedulingPage {
  import opened Collections
  import opened ScheduleCalendar

  datatype PageState = PageState(
    schedules: seq<Schedule>,
    showForm: bool,
    editing: Option<Schedule>,
    filterStatus: seq<string>)

  const DefaultFilter: seq<string> := ["active", "scheduled", "completed"]

  /** The statuses a page-local schedule can have. */
  predicate KnownStatus(s: Schedule) {
    s.status in DefaultFilter
  }

  /** The page as it opens: the seed schedules, no form, every status shown. */
  function InitialPage(): (p: PageState)
    ensures |p.schedules| == 4 && !p.showForm && p.editing.None? && p.filterStatus == DefaultFilter
    ensures forall i :: 0 <= i < |p.schedules| ==> KnownStatus(p.schedules[i]) && p.schedules[i].id == i + 1
  {
    PageState(
      [Schedule(1, "Morning Welcome", "Welcome Banner.jpg", ["Lobby Display", "Waiting Area"],
                "2025-10-29", "2025-12-31", "08:00", "12:00", "daily", None, "active"),
       Schedule(2, "Lunch Menu", "Menu Board.jpg", ["Cafeteria Display"],
                "2025-10-29", "2025-12-31", "11:30", "13:30", "daily", None, "active"),
       Schedule(3, "Event Announcement", "Event Poster.jpg", ["Conference Room A", "Meeting Room 1"],
                "2025-11-01", "2025-11-15", "09:00", "17:00", "none", None, "scheduled"),
       Schedule(4, "Product Demo", "Product Demo.mp4", ["Lobby Display"],
                "2025-10-29", "2025-12-31", "14:00", "14:30", "weekly",
                Some(["Monday", "Wednesday", "Friday"]), "active")],
      false, None, DefaultFilter)
  }

  /** `handleAddSchedule`: the form's schedule, with the clock reading `now`
      as its id, goes to the end; the form closes. */
  function AddSchedule(p: PageState, form: Schedule, now: int): (r: PageState)
    ensures r.schedules == p.schedules + [form.(id := now)]
    ensures !r.showForm && r.editing == p.editing && r.filterStatus == p.filterStatus
  {
    p.(schedules := p.schedules + [form.(id := now)], showForm := false)
  }

  /** The "New Schedule" button: the form opens; what is being edited is
      left as it is. */
  function OpenForm(p: PageState): (r: PageState)
    ensures r.showForm
    ensures r.editing == p.editing && r.schedules == p.schedules && r.filterStatus == p.filterStatus
  {
    p.(showForm := true)
  }

  /** `handleEditSchedule`: the form opens on `s`. */
  function EditSchedule(p: PageState, s: Schedule): (r: PageState)
    ensures r.showForm && r.editing == Some(s)
    ensures r.schedules == p.schedules && r.filterStatus == p.filterStatus
  {
    p.(editing := Some(s), showForm := true)
  }

  /** `handleUpdateSchedule`: every schedule with the updated one's id is
      replaced by it; the form closes and nothing is being edited. */
  function UpdateSchedule(p: PageState, updated: Schedule): (r: PageState)
    ensures |r.schedules| == |p.schedules|
    ensures forall i :: 0 <= i < |p.schedules| ==>
              r.schedules[i] == if p.schedules[i].id == updated.id then updated else p.schedules[i]
    ensures !r.showForm && r.editing.None? && r.filterStatus == p.filterStatus
  {
    var replaced := MapWhere(p.schedules, (s: Schedule) => s.id == updated.id, (s: Schedule) => updated);
    p.(schedules := replaced, showForm := false, editing := None)
  }

  /** `handleDeleteSchedule`: every schedule with the id goes, the others stay in order. */
  function DeleteSchedule(p: PageState, id: int): (r: PageState)
    ensures forall i :: 0 <= i < |r.schedules| ==> r.schedules[i].id != id
    ensures forall i :: 0 <= i < |p.schedules| && p.schedules[i].id != id ==> p.schedules[i] in r.schedules
    ensures forall s :: multiset(r.schedules)[s] == if s.id != id then multiset(p.schedules)[s] else 0
    ensures IsSubsequence(r.schedules, p.schedules)
    ensures r.showForm == p.showForm && r.editing == p.editing && r.filterStatus == p.filterStatus
  {
    FilterIsSubsequence((s: Schedule) => s.id != id, p.schedules);
    p.(schedules := Filter((s: Schedule) => s.id != id, p.schedules))
  }

  /** `handleCloseForm` */
  function CloseForm(p: PageState): (r: PageState)
    ensures !r.showForm && r.editing.None?
    ensures r.schedules == p.schedules && r.filterStatus == p.filterStatus
  {
    p.(showForm := false, editing := None)
  }

  /** The form's `onSave`: update while a schedule is being edited, add otherwise. */
  function Save(p: PageState, form: Schedule, now: int): (r: PageState)
    ensures p.editing.Some? ==> r == UpdateSchedule(p, form)
    ensures p.editing.None? ==> r == AddSchedule(p, form, now)
  {
    if p.editing.Some? then UpdateSchedule(p, form) else AddSchedule(p, form, now)
  }

  /** `toggleFilter` */
  function ToggleFilter(p: PageState, status: string): (r: PageState)
    ensures status in r.filterStatus <==> status !in p.filterStatus
    ensures forall t :: t != status ==> (t in r.filterStatus <==> t in p.filterStatus)
    ensures r.schedules == p.schedules && r.showForm == p.showForm && r.editing == p.editing
  {
    p.(filterStatus := Toggle(p.filterStatus, status))
  }

  /** Toggling a status twice restores whether every status is shown. */
  lemma ToggleFilterTwice(p: PageState, status: string)
    ensures forall t :: t in ToggleFilter(ToggleFilter(p, status), status).filterStatus <==> t in p.filterStatus
  {
  }

  /** `filteredSchedules`: the schedules whose status is selected, in order. */
  function FilteredSchedules(p: PageState): (r: seq<Schedule>)
    ensures IsSubsequence(r, p.schedules)
    ensures forall i :: 0 <= i < |r| ==> r[i].status in p.filterStatus
    ensures forall i :: 0 <= i < |p.schedules| && p.schedules[i].status in p.filterStatus ==>
              p.schedules[i] in r
    ensures forall s :: multiset(r)[s] == if s.status in p.filterStatus then multiset(p.schedules)[s] else 0
  {
    FilterIsSubsequence((s: Schedule) => s.status in p.filterStatus, p.schedules);
    Filter((s: Schedule) => s.status in p.filterStatus, p.schedules)
  }

  /** With the default filter every schedule is listed. */
  lemma DefaultFilterShowsAll(p: PageState)
    requires p.filterStatus == DefaultFilter
    requires forall i :: 0 <= i < |p.schedules| ==> KnownStatus(p.schedules[i])
    ensures FilteredSchedules(p) == p.schedules
  {
    FilterAll((s: Schedule) => s.status in p.filterStatus, p.schedules);
  }

  /** `activeCount` and `scheduledCount`: how many schedules carry the status. */
  function CountStatus(schedules: seq<Schedule>, status: string): (n: nat)
    ensures n == multiset(Project((s: Schedule) => s.status, schedules))[status]
    ensures n <= |schedules|
  {
    FilterCountsOccurrences((s: Schedule) => s.status == status, (s: Schedule) => s.status, status, schedules);
    |Filter((s: Schedule) => s.status == status, schedules)|
  }

  /** `activeCount` and `scheduledCount` together never exceed the list. */
  lemma CountsBounded(p: PageState)
    ensures CountStatus(p.schedules, "active") + CountStatus(p.schedules, "scheduled") <= |p.schedules|
  {
    FilterDisjointCounts((s: Schedule) => s.status == "active", (s: Schedule) => s.status == "scheduled", p.schedules);
  }

  /** Adding a schedule raises the count of its status by one and leaves the
      count of every other status as it was. */
  lemma AddCounts(p: PageState, form: Schedule, now: int, status: string)
    ensures CountStatus(AddSchedule(p, form, now).schedules, status) ==
            CountStatus(p.schedules, status) + (if form.status == status then 1 else 0)
  {
    FilterAppend((s: Schedule) => s.status == status, p.schedules, [form.(id := now)]);
  }

  /** Adding with a fresh id and then deleting that id restores the list. */
  lemma DeleteUndoesAdd(p: PageState, form: Schedule, now: int)
    requires forall i :: 0 <= i < |p.schedules| ==> p.schedules[i].id != now
    ensures DeleteSchedule(AddSchedule(p, form, now), now).schedules == p.schedules
  {
    var keep := (s: Schedule) => s.id != now;
    FilterAppend(keep, p.schedules, [form.(id := now)]);
    FilterAll(keep, p.schedules);
  }

  /** Updating a schedule whose id is not listed changes no schedule. */
  lemma UpdateUnknownId(p: PageState, updated: Schedule)
    requires forall i :: 0 <= i < |p.schedules| ==> p.schedules[i].id != updated.id
    ensures UpdateSchedule(p, updated).schedules == p.schedules
  {
  }

  /** Editing then closing leaves the schedules and filter untouched and no
      form open. */
  lemma EditThenClose(p: PageState, s: Schedule)
    ensures CloseForm(EditSchedule(p, s)) == p.(showForm := false, editing := None)
  {
  }

  /** While the form is closed nothing is being edited. */
  predicate ClosedFormEditsNothing(p: PageState) {
    !p.showForm ==> p.editing.None?
  }

  /** Every handler reachable from the page keeps that invariant. */
  lemma HandlersKeepClosedFormEditsNothing(p: PageState, s: Schedule, form: Schedule, now: int, id: int, status: string)
    requires ClosedFormEditsNothing(p)
    ensures ClosedFormEditsNothing(InitialPage())
    ensures ClosedFormEditsNothing(OpenForm(p))
    ensures ClosedFormEditsNothing(EditSchedule(p, s))
    ensures ClosedFormEditsNothing(CloseForm(p))
    ensures ClosedFormEditsNothing(Save(p, form, now))
    ensures ClosedFormEditsNothing(DeleteSchedule(p, id))
    ensures ClosedFormEditsNothing(ToggleFilter(p, status))
  {
  }

  /** So "New Schedule" on a closed form always leads to a save that adds. */
  lemma NewScheduleAdds(p: PageState, form: Schedule, now: int)
    requires ClosedFormEditsNothing(p) && !p.showForm
    ensures Save(OpenForm(p), form, now).schedules == p.schedules + [form.(id := now)]
    ensures !Save(OpenForm(p), form, now).showForm
  {
  }
}
