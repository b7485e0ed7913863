/** The schedules hook: the user's schedule documents, kept in step with the
    document database. Each remote call (create, update, delete, the activity
    log) is a parameter carrying its outcome; the list changes only after the
    remote call has succeeded. */
module UseSchedules {
  import opened Collections

  /** A schedule document: its fields by name (`id`, `name`, dates, ...). */
  type Doc = map<string, string>

  /** An activity-log entry as `createActivity` receives it. */
  datatype Activity = Activity(kind: string, action: string, description: string)

  const NotAuthenticated := "User not authenticated"

  predicate HasId(doc: Doc, id: string) {
    "id" in doc && doc["id"] == id
  }

  /** JavaScript's `doc.name || fallback` for a string field. */
  function NameOr(doc: Doc, fallback: string): (r: string)
    ensures "name" in doc && doc["name"] != "" ==> r == doc["name"]
    ensures !("name" in doc && doc["name"] != "") ==> r == fallback
  {
    if "name" in doc && doc["name"] != "" then doc["name"] else fallback
  }

  /** `${doc.name}` in a template: an absent field prints as "undefined". */
  function NameText(doc: Doc): string {
    if "name" in doc then doc["name"] else "undefined"
  }

  // ---------------------------------------------------------------------
  // The list transforms

  /** `[created, ...prev]` */
  function Prepend(list: seq<Doc>, created: Doc): (r: seq<Doc>)
    ensures |r| == |list| + 1 && r[0] == created && r[1..] == list
  {
    [created] + list
  }

  /** `{...doc, ...data}`: the fields of `data` win. */
  function Merge(doc: Doc, data: Doc): (r: Doc)
    ensures r.Keys == doc.Keys + data.Keys
    ensures forall k :: k in data ==> r[k] == data[k]
    ensures forall k :: k in doc && k !in data ==> r[k] == doc[k]
  {
    doc + data
  }

  /** `prev.map(s => s.id === id ? {...s, ...data} : s)` */
  function MergeById(list: seq<Doc>, id: string, data: Doc): (r: seq<Doc>)
    ensures |r| == |list|
    ensures forall i :: 0 <= i < |list| && HasId(list[i], id) ==> r[i] == Merge(list[i], data)
    ensures forall i :: 0 <= i < |list| && !HasId(list[i], id) ==> r[i] == list[i]
  {
    MapWhere(list, (d: Doc) => HasId(d, id), (d: Doc) => Merge(d, data))
  }

  /** `prev.filter(s => s.id !== id)` */
  function RemoveById(list: seq<Doc>, id: string): (r: seq<Doc>)
    ensures forall i :: 0 <= i < |r| ==> !HasId(r[i], id)
    ensures forall i :: 0 <= i < |list| && !HasId(list[i], id) ==> list[i] in r
    ensures forall d :: multiset(r)[d] == if !HasId(d, id) then multiset(list)[d] else 0
    ensures IsSubsequence(r, list)
  {
    FilterIsSubsequence((d: Doc) => !HasId(d, id), list);
    Filter((d: Doc) => !HasId(d, id), list)
  }

  /** Patching an id no document has changes nothing. */
  lemma MergeUnknownId(list: seq<Doc>, id: string, data: Doc)
    requires forall i :: 0 <= i < |list| ==> !HasId(list[i], id)
    ensures MergeById(list, id, data) == list
  {
  }

  /** Removing an id no document has changes nothing. */
  lemma RemoveUnknownId(list: seq<Doc>, id: string)
    requires forall i :: 0 <= i < |list| ==> !HasId(list[i], id)
    ensures RemoveById(list, id) == list
  {
    FilterAll((d: Doc) => !HasId(d, id), list);
  }

  /** Removing after adding: a created document with a fresh id disappears
      again and the list is what it was. */
  lemma {:induction false} RemoveUndoesPrepend(list: seq<Doc>, created: Doc, id: string)
    requires HasId(created, id)
    requires forall i :: 0 <= i < |list| ==> !HasId(list[i], id)
    ensures RemoveById(Prepend(list, created), id) == list
  {
    var p := Prepend(list, created);
    assert p[1..] == list;
    RemoveUnknownId(list, id);
  }

  /** `prev.find(s => s.id === id)`: the first document with the id. */
  function Find(list: seq<Doc>, id: string): (r: Option<Doc>)
    ensures r.None? <==> forall i :: 0 <= i < |list| ==> !HasId(list[i], id)
    ensures forall i :: (0 <= i < |list| && HasId(list[i], id) &&
                         (forall j :: 0 <= j < i ==> !HasId(list[j], id))) ==> r == Some(list[i])
    decreases |list|
  {
    if list == [] then None
    else if HasId(list[0], id) then Some(list[0])
    else
      assert forall i :: 1 <= i < |list| ==> list[i] == list[1..][i - 1];
      Find(list[1..], id)
  }

  // ---------------------------------------------------------------------
  // Activity descriptions

  /** `text` is `lead` followed by `name` in double quotes. */
  predicate QuotedAfter(text: string, lead: string, name: string) {
    |text| == |lead| + |name| + 2 && text[..|lead|] == lead &&
    text[|lead|] == '"' && text[|lead| + 1..|text| - 1] == name && text[|text| - 1] == '"'
  }

  /** The quoted name can be read back, so different names give different
      descriptions. */
  lemma QuotedNameReadBack(text: string, lead: string, name: string, other: string)
    requires QuotedAfter(text, lead, name) && QuotedAfter(text, lead, other)
    ensures name == other
  {
  }

  /** The log entry of a created schedule: the name as the template literal
      prints it, `undefined` when the data has none. */
  function CreatedActivity(data: Doc): (a: Activity)
    ensures a.kind == "schedule" && a.action == "Schedule Created"
    ensures "name" in data ==> QuotedAfter(a.description, "Created schedule ", data["name"])
    ensures "name" !in data ==> QuotedAfter(a.description, "Created schedule ", "undefined")
  {
    Activity("schedule", "Schedule Created", "Created schedule \"" + NameText(data) + "\"")
  }

  /** The log entry of an updated schedule: its new name, or "Unnamed" when the
      data carries no non-empty name. */
  function UpdatedActivity(data: Doc): (a: Activity)
    ensures a.kind == "schedule" && a.action == "Schedule Updated"
    ensures "name" in data && data["name"] != "" ==> QuotedAfter(a.description, "Updated schedule ", data["name"])
    ensures !("name" in data && data["name"] != "") ==> QuotedAfter(a.description, "Updated schedule ", "Unnamed")
  {
    Activity("schedule", "Schedule Updated", "Updated schedule \"" + NameOr(data, "Unnamed") + "\"")
  }

  /** The deleted schedule is named by its name, or by the id when it was
      not in the list or has no name. */
  function DeletedActivity(found: Option<Doc>, id: string): (a: Activity)
    ensures a.kind == "schedule" && a.action == "Schedule Deleted"
    ensures found.None? ==> a.description == "Deleted schedule \"" + id + "\""
    ensures found.Some? ==> QuotedAfter(a.description, "Deleted schedule ", NameOr(found.value, id))
  {
    Activity("schedule", "Schedule Deleted",
             "Deleted schedule \"" + (if found.Some? then NameOr(found.value, id) else id) + "\"")
  }

  /** The "system" entry logged when an operation fails: the operation's
      name, then the error's text at the end. */
  function ErrorActivity(action: string, operation: string, err: string): (a: Activity)
    ensures a.kind == "system" && a.action == action
    ensures var lead := "Failed to " + operation + " schedule: ";
            |a.description| == |lead| + |err| && a.description[..|lead|] == lead && a.description[|lead|..] == err
  {
    Activity("system", action, "Failed to " + operation + " schedule: " + err)
  }

  // ---------------------------------------------------------------------
  // The hook

  class ScheduleStore {
    /** The signed-in user; `None` for `undefined` and for the empty id, both
        of which `!userId` treats as signed out. */
    const userId: Option<string>
    var schedules: seq<Doc>
    var loading: bool
    var error: Option<string>
    /** The activity entries written to the log so far. */
    var activities: seq<Activity>

    constructor(userId: Option<string>)
      ensures this.userId == if userId == Some("") then None else userId
      ensures schedules == [] && loading && error.None? && activities == []
    {
      this.userId := if userId == Some("") then None else userId;
      schedules := [];
      loading := true;
      error := None;
      activities := [];
    }

    /** The load effect. Without a user it only stops loading. */
    method Load(fetched: Result<seq<Doc>, string>)
      modifies this
      ensures !loading && activities == old(activities)
      ensures userId.None? ==> schedules == old(schedules) && error == old(error)
      ensures userId.Some? && fetched.Ok? ==> schedules == fetched.value && error == old(error)
      ensures userId.Some? && fetched.Err? ==>
                schedules == old(schedules) && error == Some("Failed to load schedules")
    {
      if userId.None? {
        loading := false;
        return;
      }
      loading := true;
      if fetched.Ok? {
        schedules := fetched.value;
      } else {
        error := Some("Failed to load schedules");
      }
      loading := false;
    }

    /** The catch block shared by the three operations: record the error
        message and, if the log accepts it, a system activity. */
    method Fail(message: string, errorEntry: Activity, errorLogged: bool)
      modifies this
      ensures error == Some(message) && schedules == old(schedules) && loading == old(loading)
      ensures activities == old(activities) + (if errorLogged then [errorEntry] else [])
    {
      error := Some(message);
      if errorLogged {
        activities := activities + [errorEntry];
      }
    }

    /** `addSchedule`. `created` is the outcome of the create call, `logFailure`
        that of the success log entry, `errorLogged` whether the error log
        entry was written. The result is the new document or the rethrown
        error's text. */
    method AddSchedule(data: Doc, created: Result<Doc, string>, logFailure: Option<string>, errorLogged: bool)
      returns (r: Result<Doc, string>)
      modifies this
      ensures loading == old(loading)
      ensures userId.None? ==>
                r == Err(NotAuthenticated) && schedules == old(schedules) &&
                error == old(error) && activities == old(activities)
      ensures userId.Some? && created.Err? ==>
                r == Err(created.error) && schedules == old(schedules) &&
                error == Some("Failed to add schedule") &&
                activities == old(activities) +
                  (if errorLogged then [ErrorActivity("Schedule Create Error", "create", created.error)] else [])
      ensures userId.Some? && created.Ok? ==> schedules == Prepend(old(schedules), created.value)
      ensures userId.Some? && created.Ok? && logFailure.None? ==>
                r == Ok(created.value) && error == old(error) &&
                activities == old(activities) + [CreatedActivity(data)]
      ensures userId.Some? && created.Ok? && logFailure.Some? ==>
                r == Err(logFailure.value) && error == Some("Failed to add schedule") &&
                activities == old(activities) +
                  (if errorLogged then [ErrorActivity("Schedule Create Error", "create", logFailure.value)] else [])
    {
      if userId.None? {
        return Err(NotAuthenticated);
      }
      var failure: string;
      if created.Ok? {
        schedules := Prepend(schedules, created.value);
        if logFailure.None? {
          activities := activities + [CreatedActivity(data)];
          return Ok(created.value);
        }
        failure := logFailure.value;
      } else {
        failure := created.error;
      }
      Fail("Failed to add schedule", ErrorActivity("Schedule Create Error", "create", failure), errorLogged);
      r := Err(failure);
    }

    /** `editSchedule`: on success the documents with the id are patched. */
    method EditSchedule(id: string, data: Doc, updated: Option<string>, logFailure: Option<string>, errorLogged: bool)
      returns (r: Result<(), string>)
      modifies this
      ensures loading == old(loading)
      ensures userId.None? ==>
                r == Err(NotAuthenticated) && schedules == old(schedules) &&
                error == old(error) && activities == old(activities)
      ensures userId.Some? && updated.Some? ==>
                r == Err(updated.value) && schedules == old(schedules) &&
                error == Some("Failed to update schedule") &&
                activities == old(activities) +
                  (if errorLogged then [ErrorActivity("Schedule Update Error", "update", updated.value)] else [])
      ensures userId.Some? && updated.None? ==> schedules == MergeById(old(schedules), id, data)
      ensures userId.Some? && updated.None? && logFailure.None? ==>
                r == Ok(()) && error == old(error) && activities == old(activities) + [UpdatedActivity(data)]
      ensures userId.Some? && updated.None? && logFailure.Some? ==>
                r == Err(logFailure.value) && error == Some("Failed to update schedule") &&
                activities == old(activities) +
                  (if errorLogged then [ErrorActivity("Schedule Update Error", "update", logFailure.value)] else [])
    {
      if userId.None? {
        return Err(NotAuthenticated);
      }
      var failure: string;
      if updated.None? {
        schedules := MergeById(schedules, id, data);
        if logFailure.None? {
          activities := activities + [UpdatedActivity(data)];
          return Ok(());
        }
        failure := logFailure.value;
      } else {
        failure := updated.value;
      }
      Fail("Failed to update schedule", ErrorActivity("Schedule Update Error", "update", failure), errorLogged);
      r := Err(failure);
    }

    /** `removeSchedule`: on success no document with the id is left. */
    method RemoveSchedule(id: string, deleted: Option<string>, logFailure: Option<string>, errorLogged: bool)
      returns (r: Result<(), string>)
      modifies this
      ensures loading == old(loading)
      ensures userId.None? ==>
                r == Err(NotAuthenticated) && schedules == old(schedules) &&
                error == old(error) && activities == old(activities)
      ensures userId.Some? && deleted.Some? ==>
                r == Err(deleted.value) && schedules == old(schedules) &&
                error == Some("Failed to delete schedule") &&
                activities == old(activities) +
                  (if errorLogged then [ErrorActivity("Schedule Delete Error", "delete", deleted.value)] else [])
      ensures userId.Some? && deleted.None? ==> schedules == RemoveById(old(schedules), id)
      ensures userId.Some? && deleted.None? && logFailure.None? ==>
                r == Ok(()) && error == old(error) &&
                activities == old(activities) + [DeletedActivity(Find(old(schedules), id), id)]
      ensures userId.Some? && deleted.None? && logFailure.Some? ==>
                r == Err(logFailure.value) && error == Some("Failed to delete schedule") &&
                activities == old(activities) +
                  (if errorLogged then [ErrorActivity("Schedule Delete Error", "delete", logFailure.value)] else [])
    {
      if userId.None? {
        return Err(NotAuthenticated);
      }
      var found := Find(schedules, id);
      var failure: string;
      if deleted.None? {
        schedules := RemoveById(schedules, id);
        if logFailure.None? {
          activities := activities + [DeletedActivity(found, id)];
          return Ok(());
        }
        failure := logFailure.value;
      } else {
        failure := deleted.value;
      }
      Fail("Failed to delete schedule", ErrorActivity("Schedule Delete Error", "delete", failure), errorLogged);
      r := Err(failure);
    }
  }
}
