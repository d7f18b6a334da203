/** The per-device touch-recording registry: starting a `getevent` session, collecting its
    event lines, and stopping it to obtain the parsed script. */
module TouchRecorder {
  import opened Wrappers
  import opened Text
  import opened TouchParse
  import opened TouchDevice
  import opened Notifications

  /** How launching `getevent -lt <device>` went; a failure carries the process layer's error. */
  datatype Launch = Launched | StdoutPipeFailed(error: string) | StderrPipeFailed(error: string) | StartFailed(error: string)

  /** What the device answered to the commands one start issues: the `getevent -p` listing used by
      the locator, `wm size`, the launch of the recording process, and `getevent -p <device>`. */
  datatype Replies = Replies(listing: Result<string, string>, windowSize: Result<string, string>, launch: Launch,
                             props: Result<string, string>)

  /** The session a start creates at time `now`, or the error it reports. */
  function NewSession(deviceId: string, replies: Replies, now: int): (r: Result<Session, string>)
    ensures r.Ok? <==> LocateTouchDevice(replies.listing).Ok? && replies.launch.Launched?
    ensures r.Ok? ==> && r.value.deviceId == deviceId && r.value.startTime == now && r.value.rawEvents == []
                      && r.value.inputDevice == LocateTouchDevice(replies.listing).value
    ensures r.Err? && LocateTouchDevice(replies.listing).Err? ==>
      r.error == "failed to find touch input device: " + LocateTouchDevice(replies.listing).error
  {
    match LocateTouchDevice(replies.listing)
    case Err(e) => Err("failed to find touch input device: " + e)
    case Ok(input) =>
      match replies.launch
      case StdoutPipeFailed(e) => Err("failed to create stdout pipe: " + e)
      case StderrPipeFailed(e) => Err("failed to create stderr pipe: " + e)
      case StartFailed(e) => Err("failed to start getevent: " + e)
      case Launched =>
        var resolution := match GetDeviceResolution(replies.windowSize) case Ok(size) => size case Err(_) => "";
        var ranges := DetectRanges(replies.props);
        Ok(Session(deviceId, now, [], resolution, input, ranges.maxX, ranges.maxY, ranges.minX, ranges.minY))
  }

  /** The lines of the recording process's output that are kept: those mentioning `EV_`. */
  function EventLines(lines: seq<string>): (kept: seq<string>)
    ensures |kept| <= |lines|
    ensures forall line :: line in kept ==> line in lines && Contains(line, "EV_")
  {
    if lines == [] then []
    else
      var last := lines[|lines| - 1];
      EventLines(lines[..|lines| - 1]) + (if Contains(last, "EV_") then [last] else [])
  }

  /** Filtering distributes over concatenation, so kept lines stay in arrival order. */
  lemma {:induction false} EventLinesAppend(a: seq<string>, b: seq<string>)
    ensures EventLines(a + b) == EventLines(a) + EventLines(b)
    decreases |b|
  {
    if b == [] {
      assert a + b == a;
    } else {
      var b0 := b[..|b| - 1];
      assert (a + b)[..|a + b| - 1] == a + b0;
      EventLinesAppend(a, b0);
    }
  }

  /** A single line is kept exactly when it mentions `EV_`. */
  lemma EventLinesSingle(line: string)
    ensures EventLines([line]) == (if Contains(line, "EV_") then [line] else [])
  {
    assert [line][..0] == [];
  }

  /** The sessions with `extra` appended to the raw events of `deviceId`'s session, when it has one. */
  function Appended(sessions: map<string, Session>, deviceId: string, extra: seq<string>): map<string, Session>
  {
    if deviceId in sessions then sessions[deviceId := sessions[deviceId].(rawEvents := sessions[deviceId].rawEvents + extra)]
    else sessions
  }

  /** Appending twice is appending the concatenation. */
  lemma AppendedTwice(sessions: map<string, Session>, deviceId: string, a: seq<string>, b: seq<string>)
    ensures Appended(Appended(sessions, deviceId, a), deviceId, b) == Appended(sessions, deviceId, a + b)
  {
    if deviceId in sessions {
      var raw := sessions[deviceId].rawEvents;
      assert raw + a + b == raw + (a + b);
    }
  }

  /** Appending nothing changes nothing. */
  lemma AppendedNothing(sessions: map<string, Session>, deviceId: string)
    ensures Appended(sessions, deviceId, []) == sessions
  {
    if deviceId in sessions {
      assert sessions[deviceId].rawEvents + [] == sessions[deviceId].rawEvents;
      assert sessions[deviceId := sessions[deviceId]] == sessions;
    }
  }

  /** The kept lines of one more line. */
  lemma EventLinesStep(lines: seq<string>, i: nat)
    requires i < |lines|
    ensures EventLines(lines[..i + 1]) == EventLines(lines[..i]) + (if Contains(lines[i], "EV_") then [lines[i]] else [])
  {
    assert lines[..i + 1][..i] == lines[..i];
  }

  /** The commands a start issues before it registers the session: locating the touchscreen,
      reading the screen size, launching the recording process and detecting the axis ranges. */
  method OpenSession(deviceId: string, replies: Replies, now: int) returns (r: Result<Session, string>)
    ensures r == NewSession(deviceId, replies, now)
  {
    var input := GetTouchInputDevice(replies.listing);
    if input.Err? {
      return Err("failed to find touch input device: " + input.error);
    }
    var size := GetDeviceResolution(replies.windowSize);
    var resolution := if size.Ok? then size.value else "";
    match replies.launch {
      case StdoutPipeFailed(e) =>
        r := Err("failed to create stdout pipe: " + e);
      case StderrPipeFailed(e) =>
        r := Err("failed to create stderr pipe: " + e);
      case StartFailed(e) =>
        r := Err("failed to start getevent: " + e);
      case Launched =>
        var minX, maxX, minY, maxY := DetectAxisRanges(replies.props);
        r := Ok(Session(deviceId, now, [], resolution, input.value, maxX, maxY, minX, minY));
    }
  }

  class Recorder {
    /** Devices with a running recording process (`touchRecordCmd`). */
    var processes: set<string>
    /** Devices with a cancellation handle (`touchRecordCancel`). */
    var cancels: set<string>
    /** The sessions being recorded (`touchRecordData`). */
    var sessions: map<string, Session>
    /** The devices whose recording was cancelled, in order. */
    var cancelled: seq<string>
    var notifications: seq<Notification>

    /** The three registries describe the same devices. The methods preserve it but do not
        require it: under it, the `no recording data found` branch of a stop could not happen. */
    predicate Valid()
      reads this
    {
      processes == cancels && cancels == sessions.Keys
    }

    constructor()
      ensures Valid()
      ensures processes == {} && cancels == {} && sessions == map[]
      ensures cancelled == [] && notifications == []
    {
      processes, cancels, sessions := {}, {}, map[];
      cancelled, notifications := [], [];
    }

    /** IsRecordingTouch. */
    predicate IsRecording(deviceId: string)
      reads this
    {
      deviceId in processes
    }

    /** GetRecordingEventCount: the lines captured so far, 0 without a session. */
    function EventCount(deviceId: string): nat
      reads this
    {
      if deviceId in sessions then |sessions[deviceId].rawEvents| else 0
    }

    /** StartTouchRecording at time `now`. */
    method StartRecording(deviceId: string, replies: Replies, now: int) returns (r: Outcome<string>)
      modifies this
      ensures old(IsRecording(deviceId)) ==> r == Fail("already recording on this device") && unchanged(this)
      ensures !old(IsRecording(deviceId)) && NewSession(deviceId, replies, now).Err? ==>
        r == Fail(NewSession(deviceId, replies, now).error) && unchanged(this)
      ensures !old(IsRecording(deviceId)) && NewSession(deviceId, replies, now).Ok? ==>
        var s := NewSession(deviceId, replies, now).value;
        && r == Pass
        && processes == old(processes) + {deviceId} && cancels == old(cancels) + {deviceId}
        && sessions == old(sessions)[deviceId := s]
        && cancelled == old(cancelled)
        && notifications == old(notifications) + [RecordStarted(deviceId, now, s.inputDevice)]
      ensures old(Valid()) ==> Valid()
      ensures r.Pass? ==> IsRecording(deviceId) && EventCount(deviceId) == 0
    {
      if deviceId in processes {
        r := Fail("already recording on this device");
      } else {
        var session := OpenSession(deviceId, replies, now);
        match session {
          case Err(e) =>
            r := Fail(e);
          case Ok(s) =>
            processes := processes + {deviceId};
            cancels := cancels + {deviceId};
            sessions := sessions[deviceId := s];
            notifications := notifications + [RecordStarted(deviceId, now, s.inputDevice)];
            r := Pass;
        }
      }
    }

    /** One line read from the recording process of `deviceId`: kept in its session when it
        mentions `EV_` and the session is still there. */
    method ReadLine(deviceId: string, line: string)
      modifies this
      ensures sessions == Appended(old(sessions), deviceId, if Contains(line, "EV_") then [line] else [])
      ensures processes == old(processes) && cancels == old(cancels)
      ensures cancelled == old(cancelled) && notifications == old(notifications)
      ensures old(Valid()) ==> Valid()
    {
      if Contains(line, "EV_") && deviceId in sessions {
        var s := sessions[deviceId];
        sessions := sessions[deviceId := s.(rawEvents := s.rawEvents + [line])];
      } else {
        AppendedNothing(sessions, deviceId);
      }
    }

    /** The reading loop over everything the recording process of `deviceId` printed. */
    method ReadOutput(deviceId: string, lines: seq<string>)
      modifies this
      ensures deviceId in old(sessions) ==>
        sessions == old(sessions)[deviceId := old(sessions)[deviceId].(rawEvents := old(sessions)[deviceId].rawEvents + EventLines(lines))]
      ensures deviceId !in old(sessions) ==> sessions == old(sessions)
      ensures processes == old(processes) && cancels == old(cancels)
      ensures cancelled == old(cancelled) && notifications == old(notifications)
      ensures old(Valid()) ==> Valid()
    {
      ghost var before := sessions;
      AppendedNothing(before, deviceId);
      var i := 0;
      while i < |lines|
        invariant 0 <= i <= |lines|
        invariant sessions == Appended(before, deviceId, EventLines(lines[..i]))
        invariant processes == old(processes) && cancels == old(cancels)
        invariant cancelled == old(cancelled) && notifications == old(notifications)
      {
        ghost var kept := EventLines(lines[..i]);
        ReadLine(deviceId, lines[i]);
        EventLinesStep(lines, i);
        AppendedTwice(before, deviceId, kept, if Contains(lines[i], "EV_") then [lines[i]] else []);
        i := i + 1;
      }
      assert lines[..i] == lines;
    }

    /** StopTouchRecording. */
    method StopRecording(deviceId: string) returns (r: Result<TouchScript, string>)
      modifies this
      ensures deviceId !in old(cancels) ==> r == Err("no active recording for this device") && unchanged(this)
      ensures deviceId in old(cancels) ==> cancelled == old(cancelled) + [deviceId]
      ensures deviceId in old(cancels) && deviceId !in old(sessions) ==>
        && r == Err("no recording data found")
        && processes == old(processes) && cancels == old(cancels) && sessions == old(sessions)
        && notifications == old(notifications)
      ensures deviceId in old(cancels) && deviceId in old(sessions) ==>
        && r == Ok(ParseScript(old(sessions)[deviceId]))
        && processes == old(processes) - {deviceId} && cancels == old(cancels) - {deviceId}
        && sessions == old(sessions) - {deviceId}
        && notifications == old(notifications) + [RecordStopped(deviceId, |r.value.events|)]
      ensures old(Valid()) ==> Valid()
      ensures r.Ok? ==> !IsRecording(deviceId) && EventCount(deviceId) == 0
    {
      if deviceId !in cancels {
        r := Err("no active recording for this device");
      } else {
        cancelled := cancelled + [deviceId];
        if deviceId !in sessions {
          r := Err("no recording data found");
        } else {
          var script := ParseRawEvents(sessions[deviceId]);
          processes := processes - {deviceId};
          cancels := cancels - {deviceId};
          sessions := sessions - {deviceId};
          notifications := notifications + [RecordStopped(deviceId, |script.events|)];
          r := Ok(script);
        }
      }
    }
  }

  /** A whole recording on a fresh registry: start, read the process output, stop. The script is
      the parse of exactly the `EV_` lines, in order, and a failed start is reported unchanged. */
  method RecordOnce(deviceId: string, replies: Replies, now: int, output: seq<string>)
    returns (r: Result<TouchScript, string>)
    ensures NewSession(deviceId, replies, now).Err? ==> r == Err(NewSession(deviceId, replies, now).error)
    ensures NewSession(deviceId, replies, now).Ok? ==>
      r == Ok(ParseScript(NewSession(deviceId, replies, now).value.(rawEvents := EventLines(output))))
  {
    var recorder := new Recorder();
    var started := recorder.StartRecording(deviceId, replies, now);
    if started.Fail? {
      r := Err(started.error);
    } else {
      ghost var session := NewSession(deviceId, replies, now).value;
      assert recorder.sessions == map[deviceId := session];
      recorder.ReadOutput(deviceId, output);
      assert session.rawEvents + EventLines(output) == EventLines(output);
      assert recorder.sessions[deviceId] == session.(rawEvents := EventLines(output));
      assert deviceId in recorder.cancels;
      r := recorder.StopRecording(deviceId);
    }
  }
}
