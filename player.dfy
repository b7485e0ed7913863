/** The player object: the fields `PanelSenaPlayer` mutates, and its methods
    proved against the transitions of `PlayerModel`. */
module Player {
  import opened Collections
  import opened PlayerModel

  class PanelSenaPlayer {
    const displayId: string
    const displayName: string
    var running: bool
    var isPlaying: bool
    var isPaused: bool
    var currentContent: Option<ContentInfo>
    var currentSchedule: Option<ScheduleRef>
    var contentQueue: seq<string>
    var currentIndex: nat
    var volume: int
    /** The writes made to the realtime database so far, oldest first. */
    var outbox: seq<DbWrite>

    /** The object's fields as a value. */
    function State(): PlayerState
      reads this
    {
      PlayerState(displayId, displayName, running, isPlaying, isPaused, currentContent,
                  currentSchedule, contentQueue, currentIndex, volume, outbox)
    }

    constructor(displayId: string, displayName: string)
      ensures State() == Initial(displayId, displayName)
      ensures Valid(State())
    {
      this.displayId := displayId;
      this.displayName := displayName;
      running := true;
      isPlaying := false;
      isPaused := false;
      currentContent := None;
      currentSchedule := None;
      contentQueue := [];
      currentIndex := 0;
      volume := 80;
      outbox := [];
    }

    method UpdateStatus(status: string, errorMessage: Option<string>, now: int)
      modifies this
      ensures State() == PlayerModel.UpdateStatus(old(State()), status, errorMessage, now)
    {
      outbox := outbox + [SetStatus(StatusFor(State(), status, errorMessage, now))];
    }

    /** One round of `heartbeat_loop`. */
    method HeartbeatTick(now: int)
      modifies this
      ensures State() == Heartbeat(old(State()), now)
    {
      var status := if isPlaying && !isPaused then "playing" else if isPaused then "paused" else "online";
      UpdateStatus(status, None, now);
    }

    method SetVolume(level: int, now: int)
      modifies this
      ensures State() == PlayerModel.SetVolume(old(State()), level, now)
      ensures 0 <= volume <= 100
    {
      volume := if level < 0 then 0 else if level > 100 then 100 else level;
      UpdateStatus("online", None, now);
    }

    method PlayFromQueue() returns (played: Option<string>)
      modifies this
      ensures (State(), played) == PlayerModel.PlayFromQueue(old(State()))
      decreases if currentIndex < |contentQueue| then 0 else 1
    {
      if currentIndex < |contentQueue| {
        played := Some(contentQueue[currentIndex]);
      } else {
        currentIndex := 0;
        if contentQueue != [] {
          played := PlayFromQueue();
        } else {
          played := None;
        }
      }
    }

    method SkipContent()
      modifies this
      ensures State() == Skip(old(State()))
    {
      if contentQueue != [] {
        currentIndex := currentIndex + 1;
        if currentIndex >= |contentQueue| {
          currentIndex := 0;
        }
        var _ := PlayFromQueue();
      }
    }

    method PausePlayback(now: int)
      modifies this
      ensures State() == Pause(old(State()), now)
    {
      if isPlaying && !isPaused {
        isPaused := true;
        UpdateStatus("paused", None, now);
      }
    }

    method StopPlayback(now: int)
      modifies this
      ensures State() == Stop(old(State()), now)
    {
      isPlaying := false;
      isPaused := false;
      currentContent := None;
      currentSchedule := None;
      contentQueue := [];
      currentIndex := 0;
      UpdateStatus("online", None, now);
    }

    method LoadAndPlaySchedule(scheduleId: Value) returns (played: Option<string>)
      modifies this
      ensures (State(), played) == PlayerModel.LoadAndPlaySchedule(old(State()), scheduleId)
    {
      currentSchedule := Some(ScheduleRef(scheduleId, "Schedule " + ValueText(scheduleId)));
      currentIndex := 0;
      played := None;
      if contentQueue != [] {
        played := PlayFromQueue();
      }
    }

    method PlayFile(fileExists: bool, info: ContentInfo, now: int) returns (ok: bool)
      modifies this
      ensures (State(), ok) == PlayerModel.PlayFile(old(State()), fileExists, info, now)
    {
      if !fileExists {
        return false;
      }
      isPlaying := true;
      isPaused := false;
      currentContent := Some(info.(startedAt := now));
      UpdateStatus("playing", None, now);
      ok := true;
    }

    method Cleanup(now: int)
      modifies this
      ensures State() == PlayerModel.Cleanup(old(State()), now)
    {
      running := false;
      StopPlayback(now);
      UpdateStatus("offline", None, now);
    }

    /** `restart_device`: the clean-up; the reboot itself is outside the model. */
    method RestartDevice(now: int)
      modifies this
      ensures State() == PlayerModel.Cleanup(old(State()), now)
    {
      Cleanup(now);
    }

    method ExecuteCommand(commandId: string, cmd: Command, now: int)
      modifies this
      ensures State() == PlayerModel.ExecuteCommand(old(State()), commandId, cmd, now)
    {
      var failure: Option<string> := None;
      if cmd.kind == Some("play") {
        if "scheduleId" in cmd.payload {
          var _ := LoadAndPlaySchedule(cmd.payload["scheduleId"]);
        }
      } else if cmd.kind == Some("pause") {
        PausePlayback(now);
      } else if cmd.kind == Some("stop") {
        StopPlayback(now);
      } else if cmd.kind == Some("skip") {
        SkipContent();
      } else if cmd.kind == Some("volume") {
        var v := if "volume" in cmd.payload then cmd.payload["volume"] else Int(80);
        if v.Int? {
          SetVolume(v.i, now);
        } else {
          failure := Some(CompareError(v));
        }
      } else if cmd.kind == Some("restart") {
        RestartDevice(now);
      }
      if failure.None? {
        outbox := outbox + [MarkCommand(commandId, "executed", ExecutedResult)];
      } else {
        outbox := outbox + [MarkCommand(commandId, "failed", failure.value)];
      }
    }

    /** `command_listener`: the pending commands of the event, in its order. */
    method CommandListener(event: Option<seq<(string, Command)>>, now: int)
      modifies this
      ensures State() == PlayerModel.CommandListener(old(State()), event, now)
    {
      if event.None? {
        return;
      }
      var items := event.value;
      var i := 0;
      while i < |items|
        invariant 0 <= i <= |items|
        invariant ExecutePending(State(), items[i..], now) == ExecutePending(old(State()), items, now)
      {
        var (commandId, command) := items[i];
        assert items[i..][1..] == items[i + 1..];
        if command.status == Some("pending") {
          ExecuteCommand(commandId, command, now);
        }
        i := i + 1;
      }
    }
  }
}
