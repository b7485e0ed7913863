/** The displays page: the list of screens, the details modal and the
    online/offline filter. Every handler replaces the state with a new value. */
module DisplaysPage {
  import opened Collections

  datatype Display = Display(
    id: int,
    name: string,
    location: string,
    status: string,
    resolution: string,
    uptime: string,
    brightness: int,
    orientation: string,
    lastUpdate: string,
    group: string)

  datatype PageState = PageState(
    displays: seq<Display>,
    selected: Option<Display>,
    modalOpen: bool,
    filterStatus: seq<string>)

  const DefaultFilter: seq<string> := ["online", "offline"]

  /** `handleEditDisplay`: the modal opens on `d`. */
  function EditDisplay(p: PageState, d: Display): (r: PageState)
    ensures r.selected == Some(d) && r.modalOpen
    ensures r.displays == p.displays && r.filterStatus == p.filterStatus
  {
    p.(selected := Some(d), modalOpen := true)
  }

  /** `handleSaveDisplay`: the displays with the saved one's id are replaced
      by it and the modal closes; the selection is kept. */
  function SaveDisplay(p: PageState, saved: Display): (r: PageState)
    ensures |r.displays| == |p.displays|
    ensures forall i :: 0 <= i < |p.displays| ==>
              r.displays[i] == if p.displays[i].id == saved.id then saved else p.displays[i]
    ensures !r.modalOpen && r.selected == p.selected && r.filterStatus == p.filterStatus
  {
    p.(displays := MapWhere(p.displays, (d: Display) => d.id == saved.id, (d: Display) => saved),
       modalOpen := false)
  }

  /** `handleDeleteDisplay`: every display with the id goes, the rest keep
      their order, and the modal closes. */
  function DeleteDisplay(p: PageState, id: int): (r: PageState)
    ensures forall i :: 0 <= i < |r.displays| ==> r.displays[i].id != id
    ensures forall i :: 0 <= i < |p.displays| && p.displays[i].id != id ==> p.displays[i] in r.displays
    ensures forall d :: multiset(r.displays)[d] == if d.id != id then multiset(p.displays)[d] else 0
    ensures IsSubsequence(r.displays, p.displays)
    ensures !r.modalOpen && r.selected == p.selected && r.filterStatus == p.filterStatus
  {
    FilterIsSubsequence((d: Display) => d.id != id, p.displays);
    p.(displays := Filter((d: Display) => d.id != id, p.displays), modalOpen := false)
  }

  /** The draft `handleAddDisplay` opens the modal on; `now` is its id. */
  function NewDisplayDraft(now: int): (d: Display)
    ensures d.id == now && d.status == "offline" && d.brightness == 50
    ensures d.orientation == "landscape" && d.group == "New" && d.name == "New Display"
  {
    Display(now, "New Display", "Location", "offline", "1920x1080", "0%", 50, "landscape", "Just now", "New")
  }

  /** `handleAddDisplay`: only selects the draft and opens the modal; the
      list itself does not change. */
  function AddDisplay(p: PageState, now: int): (r: PageState)
    ensures r.displays == p.displays && r.modalOpen && r.selected == Some(NewDisplayDraft(now))
  {
    p.(selected := Some(NewDisplayDraft(now)), modalOpen := true)
  }

  /** Saving a display whose id is not listed changes no display: in
      particular, saving the Add Display draft with a fresh id never inserts it. */
  lemma SaveUnknownIdUnchanged(p: PageState, saved: Display)
    requires forall i :: 0 <= i < |p.displays| ==> p.displays[i].id != saved.id
    ensures SaveDisplay(p, saved).displays == p.displays
  {
  }

  lemma SaveDraftNeverInserts(p: PageState, now: int)
    requires forall i :: 0 <= i < |p.displays| ==> p.displays[i].id != now
    ensures SaveDisplay(AddDisplay(p, now), AddDisplay(p, now).selected.value).displays == p.displays
  {
    SaveUnknownIdUnchanged(AddDisplay(p, now), NewDisplayDraft(now));
  }

  /** `toggleFilter` */
  function ToggleFilter(p: PageState, status: string): (r: PageState)
    ensures status in r.filterStatus <==> status !in p.filterStatus
    ensures forall t :: t != status ==> (t in r.filterStatus <==> t in p.filterStatus)
    ensures r.displays == p.displays && r.selected == p.selected && r.modalOpen == p.modalOpen
  {
    p.(filterStatus := Toggle(p.filterStatus, status))
  }

  /** Toggling a status twice restores whether every status is shown. */
  lemma ToggleFilterTwice(p: PageState, status: string)
    ensures forall t :: t in ToggleFilter(ToggleFilter(p, status), status).filterStatus <==> t in p.filterStatus
  {
  }

  /** `filteredDisplays`: exactly the displays whose status is selected, in order. */
  function FilteredDisplays(p: PageState): (r: seq<Display>)
    ensures IsSubsequence(r, p.displays)
    ensures forall i :: 0 <= i < |r| ==> r[i].status in p.filterStatus
    ensures forall i :: 0 <= i < |p.displays| && p.displays[i].status in p.filterStatus ==> p.displays[i] in r
    ensures forall d :: multiset(r)[d] == if d.status in p.filterStatus then multiset(p.displays)[d] else 0
  {
    FilterIsSubsequence((d: Display) => d.status in p.filterStatus, p.displays);
    Filter((d: Display) => d.status in p.filterStatus, p.displays)
  }

  /** With the default filter every online or offline display is shown. */
  lemma DefaultFilterShowsAll(p: PageState)
    requires p.filterStatus == DefaultFilter
    requires forall i :: 0 <= i < |p.displays| ==> p.displays[i].status in DefaultFilter
    ensures FilteredDisplays(p) == p.displays
  {
    FilterAll((d: Display) => d.status in p.filterStatus, p.displays);
  }

  /** Hiding "offline" shows no offline display, and the draft (which is
      offline) would not be shown if it were listed. */
  lemma HidingOffline(p: PageState)
    requires "offline" !in p.filterStatus
    ensures forall i :: 0 <= i < |FilteredDisplays(p)| ==> FilteredDisplays(p)[i].status != "offline"
  {
  }
}
