/** The Raspberry Pi player's state machine as values: the playback flags, the
    content queue with its cyclic cursor, the clamped volume and the command
    dispatcher. Every write the player makes to the realtime database is
    appended to an `outbox`, so "what was reported" is part of the state. The
    media player, the file system and the clock are parameters. */
module PlayerModel {
  import opened Collections
  import opened Strings

  /** A scalar of a command payload as the realtime database delivers it. */
  datatype Value = Int(i: int) | Str(s: string) | Null

  /** Python's `str(v)`. */
  function ValueText(v: Value): string {
    match v
    case Int(i) => IntToString(i)
    case Str(t) => t
    case Null => "None"
  }

  /** Python's name for the type of a value, as it appears in a `TypeError`. */
  function TypeName(v: Value): string {
    match v
    case Int(_) => "int"
    case Str(_) => "str"
    case Null => "NoneType"
  }

  datatype ContentInfo = ContentInfo(id: string, name: string, kind: string, url: string, startedAt: int)

  datatype ScheduleRef = ScheduleRef(id: Value, name: string)

  /** The `schedule` part of a status record. */
  datatype ScheduleStatus = ScheduleStatus(id: Value, name: string, contentQueue: seq<string>, currentIndex: int)

  /** The record `update_status` writes under the display's `status` key. */
  datatype StatusRecord = StatusRecord(
    displayId: string,
    displayName: string,
    status: string,
    lastHeartbeat: int,
    volume: int,
    currentContent: Option<ContentInfo>,
    schedule: Option<ScheduleStatus>,
    errorMessage: Option<string>)

  /** A write to the realtime database. */
  datatype DbWrite =
    | SetStatus(record: StatusRecord)
    | MarkCommand(commandId: string, status: string, result: string)

  datatype PlayerState = PlayerState(
    displayId: string,
    displayName: string,
    running: bool,
    isPlaying: bool,
    isPaused: bool,
    currentContent: Option<ContentInfo>,
    currentSchedule: Option<ScheduleRef>,
    contentQueue: seq<string>,
    currentIndex: nat,
    volume: int,
    outbox: seq<DbWrite>)

  /** A command record under the display's `commands` key. */
  datatype Command = Command(status: Option<string>, kind: Option<string>, payload: map<string, Value>)

  /** What every reachable state satisfies: the cursor is in the queue (or 0
      for an empty queue), the volume is a percentage, a paused player is
      playing, and a playing player has content. */
  predicate Valid(s: PlayerState) {
    (s.currentIndex == 0 || s.currentIndex < |s.contentQueue|) &&
    0 <= s.volume <= 100 &&
    (s.isPaused ==> s.isPlaying) &&
    (s.isPlaying ==> s.currentContent.Some?)
  }

  /** The state right after construction. */
  function Initial(displayId: string, displayName: string): (s: PlayerState)
    ensures Valid(s) && s.running && !s.isPlaying && !s.isPaused
    ensures s.volume == 80 && s.contentQueue == [] && s.currentIndex == 0
    ensures s.currentContent.None? && s.currentSchedule.None? && s.outbox == []
  {
    PlayerState(displayId, displayName, true, false, false, None, None, [], 0, 80, [])
  }

  // ---------------------------------------------------------------------
  // Status reporting

  /** The record `update_status(status, errorMessage)` writes at time `now`. */
  function StatusFor(s: PlayerState, status: string, errorMessage: Option<string>, now: int): (r: StatusRecord)
    ensures r.displayId == s.displayId && r.displayName == s.displayName
    ensures r.status == status && r.lastHeartbeat == now && r.volume == s.volume
    ensures r.currentContent == s.currentContent
    ensures r.schedule.Some? <==> s.currentSchedule.Some?
    ensures r.schedule.Some? ==>
              r.schedule.value.id == s.currentSchedule.value.id &&
              r.schedule.value.contentQueue == s.contentQueue &&
              r.schedule.value.currentIndex == s.currentIndex &&
              r.schedule.value.name == s.currentSchedule.value.name
    ensures r.errorMessage.Some? <==> errorMessage.Some? && errorMessage.value != ""
    ensures r.errorMessage.Some? ==> r.errorMessage == errorMessage
  {
    StatusRecord(
      s.displayId, s.displayName, status, now, s.volume, s.currentContent,
      if s.currentSchedule.Some? then
        Some(ScheduleStatus(s.currentSchedule.value.id, s.currentSchedule.value.name, s.contentQueue, s.currentIndex))
      else None,
      if errorMessage.Some? && errorMessage.value != "" then errorMessage else None)
  }

  /** `update_status`: one status write, no other change. */
  function UpdateStatus(s: PlayerState, status: string, errorMessage: Option<string>, now: int): (r: PlayerState)
    ensures r == s.(outbox := s.outbox + [SetStatus(StatusFor(s, status, errorMessage, now))])
  {
    s.(outbox := s.outbox + [SetStatus(StatusFor(s, status, errorMessage, now))])
  }

  /** The status the heartbeat reports. */
  function HeartbeatStatus(s: PlayerState): (status: string)
    ensures status == "playing" <==> s.isPlaying && !s.isPaused
    ensures status == "paused" <==> s.isPaused
    ensures status == "online" <==> !s.isPlaying && !s.isPaused
    ensures status in {"playing", "paused", "online"}
  {
    if s.isPlaying && !s.isPaused then "playing"
    else if s.isPaused then "paused"
    else "online"
  }

  /** One iteration of the heartbeat loop. */
  function Heartbeat(s: PlayerState, now: int): (r: PlayerState)
    ensures r.outbox == s.outbox + [SetStatus(StatusFor(s, HeartbeatStatus(s), None, now))]
    ensures r.(outbox := s.outbox) == s
  {
    UpdateStatus(s, HeartbeatStatus(s), None, now)
  }

  /** In a valid state the heartbeat never reports a paused player that is not
      playing, and reports "online" exactly when nothing is playing. */
  lemma HeartbeatValid(s: PlayerState, now: int)
    requires Valid(s)
    ensures Valid(Heartbeat(s, now))
    ensures HeartbeatStatus(s) == "paused" ==> s.isPlaying && s.currentContent.Some?
    ensures HeartbeatStatus(s) == "online" <==> !s.isPlaying
  {
  }

  // ---------------------------------------------------------------------
  // Playback transitions

  /** `set_volume`: the volume clamped to 0..100, then an "online" status write. */
  function SetVolume(s: PlayerState, volume: int, now: int): (r: PlayerState)
    ensures 0 <= r.volume <= 100
    ensures volume < 0 ==> r.volume == 0
    ensures volume > 100 ==> r.volume == 100
    ensures 0 <= volume <= 100 ==> r.volume == volume
    ensures r == UpdateStatus(s.(volume := r.volume), "online", None, now)
  {
    var clamped := if volume < 0 then 0 else if volume > 100 then 100 else volume;
    UpdateStatus(s.(volume := clamped), "online", None, now)
  }

  /** `play_from_queue`: the cursor is reset to 0 when it is past the end,
      and the id at the cursor is played (when there is one). */
  function PlayFromQueue(s: PlayerState): (r: (PlayerState, Option<string>))
    ensures s.currentIndex < |s.contentQueue| ==>
              r.0 == s && r.1 == Some(s.contentQueue[s.currentIndex])
    ensures s.currentIndex >= |s.contentQueue| ==> r.0 == s.(currentIndex := 0)
    ensures s.currentIndex >= |s.contentQueue| && s.contentQueue != [] ==>
              r.1 == Some(s.contentQueue[0])
    ensures s.contentQueue == [] ==> r.1.None?
    decreases if s.currentIndex < |s.contentQueue| then 0 else 1
  {
    if s.currentIndex < |s.contentQueue| then
      (s, Some(s.contentQueue[s.currentIndex]))
    else
      var reset := s.(currentIndex := 0);
      if s.contentQueue != [] then PlayFromQueue(reset) else (reset, None)
  }

  /** `skip_content`: with a queue, the cursor advances cyclically and the
      item under it is played; with an empty queue nothing changes. */
  function Skip(s: PlayerState): (r: PlayerState)
    ensures s.contentQueue == [] ==> r == s
    ensures s.contentQueue != [] ==>
              r == s.(currentIndex := (s.currentIndex + 1) % |s.contentQueue|) ||
              (s.currentIndex >= |s.contentQueue| && r == s.(currentIndex := 0))
  {
    if s.contentQueue != [] then
      var next := s.currentIndex + 1;
      var wrapped := if next >= |s.contentQueue| then 0 else next;
      PlayFromQueue(s.(currentIndex := wrapped)).0
    else s
  }

  /** In a valid state, skipping moves the cursor to its cyclic successor and
      keeps it inside the queue; nothing else changes. */
  lemma SkipCyclic(s: PlayerState)
    requires Valid(s) && s.contentQueue != []
    ensures Skip(s).currentIndex == if s.currentIndex + 1 < |s.contentQueue| then s.currentIndex + 1 else 0
    ensures Skip(s).currentIndex == (s.currentIndex + 1) % |s.contentQueue|
    ensures Skip(s) == s.(currentIndex := Skip(s).currentIndex)
  {
  }

  /** `n` skips, one after another. */
  function SkipN(s: PlayerState, n: nat): (r: PlayerState)
    requires Valid(s)
    ensures Valid(r) && r.contentQueue == s.contentQueue
    decreases n
  {
    if n == 0 then s
    else
      var t := SkipN(s, n - 1);
      if t.contentQueue != [] then SkipCyclic(t); Skip(t) else Skip(t)
  }

  /** Up to a full round, `n` skips move the cursor `n` places forward,
      wrapping once past the end; nothing else changes. */
  lemma {:induction false} SkipNAdvances(s: PlayerState, n: nat)
    requires Valid(s) && s.contentQueue != [] && n <= |s.contentQueue|
    ensures var q := |s.contentQueue|;
            SkipN(s, n) == s.(currentIndex := if s.currentIndex + n < q then s.currentIndex + n
                                              else s.currentIndex + n - q)
    decreases n
  {
    if n > 0 {
      SkipNAdvances(s, n - 1);
      SkipCyclic(SkipN(s, n - 1));
    }
  }

  /** Skipping once per queue item comes back to the same item. */
  lemma SkipFullCycle(s: PlayerState)
    requires Valid(s) && s.contentQueue != []
    ensures SkipN(s, |s.contentQueue|) == s
  {
    SkipNAdvances(s, |s.contentQueue|);
  }

  /** `pause_playback`: only a playing, unpaused player pauses and reports it. */
  function Pause(s: PlayerState, now: int): (r: PlayerState)
    ensures s.isPlaying && !s.isPaused ==> r == UpdateStatus(s.(isPaused := true), "paused", None, now)
    ensures !(s.isPlaying && !s.isPaused) ==> r == s
    ensures r.isPaused <==> s.isPaused || s.isPlaying
  {
    if s.isPlaying && !s.isPaused then UpdateStatus(s.(isPaused := true), "paused", None, now) else s
  }

  /** Pausing twice is pausing once. */
  lemma PauseIdempotent(s: PlayerState, now: int, later: int)
    ensures Pause(Pause(s, now), later) == Pause(s, now)
  {
  }

  /** `stop_playback`: playback fields back to their initial values, volume
      kept, then an "online" status write. */
  function Stop(s: PlayerState, now: int): (r: PlayerState)
    ensures !r.isPlaying && !r.isPaused
    ensures r.currentContent.None? && r.currentSchedule.None?
    ensures r.contentQueue == [] && r.currentIndex == 0
    ensures r.volume == s.volume && r.running == s.running
    ensures r.displayId == s.displayId && r.displayName == s.displayName
    ensures |r.outbox| == |s.outbox| + 1 && r.outbox[..|s.outbox|] == s.outbox
    ensures r.outbox[|s.outbox|].SetStatus? && r.outbox[|s.outbox|].record.status == "online"
  {
    var cleared := s.(isPlaying := false, isPaused := false, currentContent := None,
                      currentSchedule := None, contentQueue := [], currentIndex := 0);
    var r := UpdateStatus(cleared, "online", None, now);
    assert r.outbox[..|s.outbox|] == s.outbox;
    r
  }

  /** Stopping brings every playback field back to the constructor's value. */
  lemma StopRestoresInitial(s: PlayerState, now: int)
    ensures var r := Stop(s, now);
            var i := Initial(s.displayId, s.displayName);
            r.isPlaying == i.isPlaying && r.isPaused == i.isPaused &&
            r.currentContent == i.currentContent && r.currentSchedule == i.currentSchedule &&
            r.contentQueue == i.contentQueue && r.currentIndex == i.currentIndex
  {
  }

  /** `load_and_play_schedule`: the schedule reference is set, the cursor goes
      to 0 and the queue is kept; a non-empty queue starts at its first item. */
  function LoadAndPlaySchedule(s: PlayerState, scheduleId: Value): (r: (PlayerState, Option<string>))
    ensures r.0 == s.(currentSchedule := Some(ScheduleRef(scheduleId, "Schedule " + ValueText(scheduleId))),
                      currentIndex := 0)
    ensures r.1 == if s.contentQueue == [] then None else Some(s.contentQueue[0])
  {
    var loaded := s.(currentSchedule := Some(ScheduleRef(scheduleId, "Schedule " + ValueText(scheduleId))),
                     currentIndex := 0);
    if loaded.contentQueue != [] then PlayFromQueue(loaded) else (loaded, None)
  }

  /** `play_file`: a missing file fails without a change; otherwise the
      content starts, unpaused, stamped with `now`, and "playing" is reported. */
  function PlayFile(s: PlayerState, fileExists: bool, info: ContentInfo, now: int): (r: (PlayerState, bool))
    ensures !fileExists ==> r == (s, false)
    ensures fileExists ==> r.1 && r.0.isPlaying && !r.0.isPaused
    ensures fileExists ==>
              r.0.(outbox := s.outbox) ==
              s.(isPlaying := true, isPaused := false, currentContent := Some(info.(startedAt := now)))
    ensures fileExists ==> r.0.currentContent == Some(info.(startedAt := now))
    ensures fileExists ==> r.0.outbox == s.outbox + [SetStatus(StatusFor(r.0.(outbox := s.outbox), "playing", None, now))]
  {
    if !fileExists then (s, false)
    else
      var started := s.(isPlaying := true, isPaused := false, currentContent := Some(info.(startedAt := now)));
      (UpdateStatus(started, "playing", None, now), true)
  }

  /** `cleanup`: the player stops running, stops playback (which reports
      "online") and then reports "offline". */
  function Cleanup(s: PlayerState, now: int): (r: PlayerState)
    ensures !r.running && !r.isPlaying && r.contentQueue == []
    ensures r.volume == s.volume
    ensures r.(outbox := s.outbox) == Stop(s, now).(running := false, outbox := s.outbox)
    ensures |r.outbox| == |s.outbox| + 2 && r.outbox[..|s.outbox|] == s.outbox
    ensures r.outbox[|s.outbox|].SetStatus? && r.outbox[|s.outbox|].record.status == "online"
    ensures r.outbox[|s.outbox| + 1].SetStatus? && r.outbox[|s.outbox| + 1].record.status == "offline"
  {
    UpdateStatus(Stop(s.(running := false), now), "offline", None, now)
  }

  // ---------------------------------------------------------------------
  // Command dispatch

  const ExecutedResult := "Command executed successfully"

  /** The message of the `TypeError` that `min(100, v)` raises for a
      non-number. */
  function CompareError(v: Value): string {
    "'<' not supported between instances of '" + TypeName(v) + "' and 'int'"
  }

  /** The state change a command causes, or the message of the error it raises. */
  function Dispatch(s: PlayerState, cmd: Command, now: int): (r: Result<PlayerState, string>)
    ensures r.Err? <==> cmd.kind == Some("volume") && "volume" in cmd.payload && !cmd.payload["volume"].Int?
    ensures r.Ok? ==> r.value.displayId == s.displayId && r.value.displayName == s.displayName
  {
    if cmd.kind == Some("play") then
      if "scheduleId" in cmd.payload then Ok(LoadAndPlaySchedule(s, cmd.payload["scheduleId"]).0)
      else Ok(s)  // play_single_content only announces the content
    else if cmd.kind == Some("pause") then Ok(Pause(s, now))
    else if cmd.kind == Some("stop") then Ok(Stop(s, now))
    else if cmd.kind == Some("skip") then Ok(Skip(s))
    else if cmd.kind == Some("volume") then
      var v := if "volume" in cmd.payload then cmd.payload["volume"] else Int(80);
      if v.Int? then Ok(SetVolume(s, v.i, now)) else Err(CompareError(v))
    else if cmd.kind == Some("restart") then Ok(Cleanup(s, now))
    else Ok(s)
  }

  /** `execute_command`: dispatch, then mark the command "executed"; when the
      dispatch raises, the state is untouched and the command is marked
      "failed" with the error's message. */
  function ExecuteCommand(s: PlayerState, commandId: string, cmd: Command, now: int): (r: PlayerState)
    ensures Dispatch(s, cmd, now).Ok? ==>
              var t := Dispatch(s, cmd, now).value;
              r == t.(outbox := t.outbox + [MarkCommand(commandId, "executed", ExecutedResult)])
    ensures Dispatch(s, cmd, now).Err? ==>
              r == s.(outbox := s.outbox + [MarkCommand(commandId, "failed", Dispatch(s, cmd, now).error)])
    ensures r.displayId == s.displayId && r.displayName == s.displayName
    ensures r.outbox != [] && r.outbox[|r.outbox| - 1].MarkCommand? &&
            r.outbox[|r.outbox| - 1].commandId == commandId
  {
    match Dispatch(s, cmd, now)
    case Ok(t) => t.(outbox := t.outbox + [MarkCommand(commandId, "executed", ExecutedResult)])
    case Err(e) => s.(outbox := s.outbox + [MarkCommand(commandId, "failed", e)])
  }

  /** A `play` command with both ids loads the schedule; the content id is
      used only when there is no schedule id. */
  lemma PlayPrefersSchedule(s: PlayerState, cmd: Command, now: int)
    requires cmd.kind == Some("play") && "scheduleId" in cmd.payload
    ensures Dispatch(s, cmd, now) == Ok(LoadAndPlaySchedule(s, cmd.payload["scheduleId"]).0)
    ensures ExecuteCommand(s, "c", cmd, now).currentSchedule ==
            Some(ScheduleRef(cmd.payload["scheduleId"], "Schedule " + ValueText(cmd.payload["scheduleId"])))
  {
  }

  /** A `volume` command without a volume sets 80. */
  lemma VolumeDefault(s: PlayerState, id: string, cmd: Command, now: int)
    requires cmd.kind == Some("volume") && "volume" !in cmd.payload
    ensures ExecuteCommand(s, id, cmd, now).volume == 80
    ensures ExecuteCommand(s, id, cmd, now).outbox[|s.outbox| + 1] == MarkCommand(id, "executed", ExecutedResult)
  {
  }

  /** A command of unknown (or missing) type changes nothing but is still
      marked executed. */
  lemma UnknownTypeExecuted(s: PlayerState, id: string, cmd: Command, now: int)
    requires cmd.kind !in {Some("play"), Some("pause"), Some("stop"), Some("skip"), Some("volume"), Some("restart")}
    ensures ExecuteCommand(s, id, cmd, now) == s.(outbox := s.outbox + [MarkCommand(id, "executed", ExecutedResult)])
  {
  }

  /** A volume that is not a number raises: the state is unchanged and the
      command is marked failed with the error's message. */
  lemma BadVolumeFails(s: PlayerState, id: string, cmd: Command, now: int)
    requires cmd.kind == Some("volume") && "volume" in cmd.payload && cmd.payload["volume"].Str?
    ensures ExecuteCommand(s, id, cmd, now) ==
            s.(outbox := s.outbox + [MarkCommand(id, "failed", "'<' not supported between instances of 'str' and 'int'")])
  {
    assert CompareError(cmd.payload["volume"]) == "'<' not supported between instances of 'str' and 'int'";
  }

  /** Every command keeps the invariant. */
  lemma ExecutePreservesValid(s: PlayerState, id: string, cmd: Command, now: int)
    requires Valid(s)
    ensures Valid(ExecuteCommand(s, id, cmd, now))
  {
    var d := Dispatch(s, cmd, now);
    if d.Ok? {
      DispatchPreservesValid(s, cmd, now);
    }
  }

  lemma DispatchPreservesValid(s: PlayerState, cmd: Command, now: int)
    requires Valid(s) && Dispatch(s, cmd, now).Ok?
    ensures Valid(Dispatch(s, cmd, now).value)
  {
    if cmd.kind in {Some("play"), Some("pause"), Some("stop"), Some("skip")} {
      PlaybackDispatchPreservesValid(s, cmd, now);
    } else {
      OtherDispatchPreservesValid(s, cmd, now);
    }
  }

  lemma PlaybackDispatchPreservesValid(s: PlayerState, cmd: Command, now: int)
    requires Valid(s) && cmd.kind in {Some("play"), Some("pause"), Some("stop"), Some("skip")}
    ensures Dispatch(s, cmd, now).Ok? && Valid(Dispatch(s, cmd, now).value)
  {
    var r := Dispatch(s, cmd, now).value;
    if cmd.kind == Some("play") {
      if "scheduleId" in cmd.payload {
        assert r == LoadAndPlaySchedule(s, cmd.payload["scheduleId"]).0;
      } else {
        assert r == s;
      }
    } else if cmd.kind == Some("pause") {
      assert r == Pause(s, now);
    } else if cmd.kind == Some("stop") {
      assert r == Stop(s, now);
    } else {
      assert r == Skip(s);
      if s.contentQueue != [] {
        SkipCyclic(s);
      }
    }
  }

  lemma OtherDispatchPreservesValid(s: PlayerState, cmd: Command, now: int)
    requires Valid(s) && Dispatch(s, cmd, now).Ok?
    requires cmd.kind !in {Some("play"), Some("pause"), Some("stop"), Some("skip")}
    ensures Valid(Dispatch(s, cmd, now).value)
  {
    var r := Dispatch(s, cmd, now).value;
    if cmd.kind == Some("volume") {
      var v := if "volume" in cmd.payload then cmd.payload["volume"] else Int(80);
      assert r == SetVolume(s, v.i, now);
    } else if cmd.kind == Some("restart") {
      assert r == Cleanup(s, now);
    } else {
      assert r == s;
    }
  }

  // ---------------------------------------------------------------------
  // The command listener

  predicate IsPending(item: (string, Command)) {
    item.1.status == Some("pending")
  }

  /** The loop of `command_listener` over the commands of one event, in the
      order the event lists them. */
  function ExecutePending(s: PlayerState, items: seq<(string, Command)>, now: int): (r: PlayerState)
    ensures r.displayId == s.displayId && r.displayName == s.displayName
    ensures |r.outbox| >= |s.outbox|
    decreases |items|
  {
    if items == [] then s
    else
      var next := if IsPending(items[0]) then ExecuteCommand(s, items[0].0, items[0].1, now) else s;
      ExecutePending(next, items[1..], now)
  }

  /** An event whose commands are all done (or failed) changes nothing. */
  lemma {:induction false} NothingPendingNoChange(s: PlayerState, items: seq<(string, Command)>, now: int)
    requires forall i :: 0 <= i < |items| ==> !IsPending(items[i])
    ensures ExecutePending(s, items, now) == s
    decreases |items|
  {
    if items != [] {
      NothingPendingNoChange(s, items[1..], now);
    }
  }

  /** `command_listener`: an event without data is ignored. */
  function CommandListener(s: PlayerState, event: Option<seq<(string, Command)>>, now: int): (r: PlayerState)
    ensures event.None? ==> r == s
  {
    if event.None? then s else ExecutePending(s, event.value, now)
  }

  /** Only pending commands matter: the listener behaves as if the others
      were not in the event. */
  lemma {:induction false} OnlyPendingExecuted(s: PlayerState, items: seq<(string, Command)>, now: int)
    ensures ExecutePending(s, items, now) == ExecutePending(s, Filter(IsPending, items), now)
    decreases |items|
  {
    if items != [] {
      var next := if IsPending(items[0]) then ExecuteCommand(s, items[0].0, items[0].1, now) else s;
      OnlyPendingExecuted(next, items[1..], now);
      var f := Filter(IsPending, items);
      if IsPending(items[0]) {
        assert f == [items[0]] + Filter(IsPending, items[1..]);
        assert f[0] == items[0] && f[1..] == Filter(IsPending, items[1..]);
      } else {
        assert f == Filter(IsPending, items[1..]);
      }
    }
  }

  /** The ids of the commands the outbox marks, in order. */
  function MarkedIds(o: seq<DbWrite>): seq<string>
    decreases |o|
  {
    if o == [] then []
    else MarkedIds(o[..|o| - 1]) + (if o[|o| - 1].MarkCommand? then [o[|o| - 1].commandId] else [])
  }

  lemma MarkedIdsAppend(o: seq<DbWrite>, w: DbWrite)
    ensures MarkedIds(o + [w]) == MarkedIds(o) + (if w.MarkCommand? then [w.commandId] else [])
  {
    assert (o + [w])[..|o|] == o;
  }

  /** Status writes mark nothing. */
  lemma UpdateStatusMarksNothing(s: PlayerState, status: string, err: Option<string>, now: int)
    ensures MarkedIds(UpdateStatus(s, status, err, now).outbox) == MarkedIds(s.outbox)
  {
    MarkedIdsAppend(s.outbox, SetStatus(StatusFor(s, status, err, now)));
  }

  /** Executing a command marks exactly that command, once. */
  lemma ExecuteMarksOnce(s: PlayerState, id: string, cmd: Command, now: int)
    ensures MarkedIds(ExecuteCommand(s, id, cmd, now).outbox) == MarkedIds(s.outbox) + [id]
  {
    var d := Dispatch(s, cmd, now);
    if d.Ok? {
      DispatchMarksNothing(s, cmd, now);
      MarkedIdsAppend(d.value.outbox, MarkCommand(id, "executed", ExecutedResult));
    } else {
      MarkedIdsAppend(s.outbox, MarkCommand(id, "failed", d.error));
    }
  }

  lemma DispatchMarksNothing(s: PlayerState, cmd: Command, now: int)
    requires Dispatch(s, cmd, now).Ok?
    ensures MarkedIds(Dispatch(s, cmd, now).value.outbox) == MarkedIds(s.outbox)
  {
    var r := Dispatch(s, cmd, now).value;
    if cmd.kind == Some("pause") {
      assert r == Pause(s, now);
      if s.isPlaying && !s.isPaused {
        UpdateStatusMarksNothing(s.(isPaused := true), "paused", None, now);
      }
    } else if cmd.kind == Some("stop") {
      assert r == Stop(s, now);
      StopMarksNothing(s, now);
    } else if cmd.kind == Some("volume") {
      var v := if "volume" in cmd.payload then cmd.payload["volume"] else Int(80);
      assert r == SetVolume(s, v.i, now);
      UpdateStatusMarksNothing(s.(volume := r.volume), "online", None, now);
    } else if cmd.kind == Some("restart") {
      assert r == Cleanup(s, now);
      StopMarksNothing(s.(running := false), now);
      UpdateStatusMarksNothing(Stop(s.(running := false), now), "offline", None, now);
    } else {
      assert r.outbox == s.outbox;
    }
  }

  lemma StopMarksNothing(s: PlayerState, now: int)
    ensures MarkedIds(Stop(s, now).outbox) == MarkedIds(s.outbox)
  {
    var cleared := s.(isPlaying := false, isPaused := false, currentContent := None,
                      currentSchedule := None, contentQueue := [], currentIndex := 0);
    UpdateStatusMarksNothing(cleared, "online", None, now);
  }

  function PendingIds(items: seq<(string, Command)>): seq<string>
    decreases |items|
  {
    if items == [] then [] else (if IsPending(items[0]) then [items[0].0] else []) + PendingIds(items[1..])
  }

  /** Every pending command of an event is marked exactly once, in the order
      of the event, and no other command is marked. */
  lemma {:induction false} ListenerMarksPending(s: PlayerState, items: seq<(string, Command)>, now: int)
    ensures MarkedIds(ExecutePending(s, items, now).outbox) == MarkedIds(s.outbox) + PendingIds(items)
    decreases |items|
  {
    if items != [] {
      var next := if IsPending(items[0]) then ExecuteCommand(s, items[0].0, items[0].1, now) else s;
      if IsPending(items[0]) {
        ExecuteMarksOnce(s, items[0].0, items[0].1, now);
      }
      ListenerMarksPending(next, items[1..], now);
    }
  }

  /** The listener keeps the invariant, whatever the event holds. */
  lemma {:induction false} ListenerPreservesValid(s: PlayerState, items: seq<(string, Command)>, now: int)
    requires Valid(s)
    ensures Valid(ExecutePending(s, items, now))
    decreases |items|
  {
    if items != [] {
      var next := if IsPending(items[0]) then ExecuteCommand(s, items[0].0, items[0].1, now) else s;
      if IsPending(items[0]) {
        ExecutePreservesValid(s, items[0].0, items[0].1, now);
      }
      ListenerPreservesValid(next, items[1..], now);
    }
  }

  /** Playing a file and then running any commands keeps the invariant. */
  lemma PlayFilePreservesValid(s: PlayerState, fileExists: bool, info: ContentInfo, now: int)
    requires Valid(s)
    ensures Valid(PlayFile(s, fileExists, info, now).0)
  {
  }
}
