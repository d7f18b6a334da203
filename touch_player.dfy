/** Playback of a recorded touch script: the adb command each event becomes, the order they are
    issued in, the progress reported, and the per-device playback registry. */
module TouchPlayer {
  import opened Wrappers
  import opened Text
  import opened TouchParse
  import opened Notifications

  // ---------------------------------------------------------------------------
  // Command strings
  // ---------------------------------------------------------------------------

  function TapCommand(x: int, y: int): string
  {
    "shell input tap " + IntToString(x) + " " + IntToString(y)
  }

  function SwipeCommand(x: int, y: int, x2: int, y2: int, duration: int): string
  {
    "shell input swipe " + IntToString(x) + " " + IntToString(y) + " " + IntToString(x2) + " " + IntToString(y2)
      + " " + IntToString(duration)
  }

  /** The adb command an event is played as; `wait` and unknown kinds issue none. */
  function EventCommand(e: TouchEvent): (cmd: Option<string>)
    ensures cmd.Some? <==> e.kind == "tap" || e.kind == "swipe"
  {
    if e.kind == "tap" then Some(TapCommand(e.x, e.y))
    else if e.kind == "swipe" then Some(SwipeCommand(e.x, e.y, e.x2, e.y2, e.duration))
    else None
  }

  lemma NumberFreeOfSpace(n: int)
    ensures forall i :: 0 <= i < |IntToString(n)| ==> IntToString(n)[i] != ' '
  {
    forall i | 0 <= i < |IntToString(n)|
      ensures IntToString(n)[i] != ' '
    {
      assert IntToString(n)[i] == '-' || IsDigit(IntToString(n)[i]);
    }
  }

  /** Joining words with spaces, written out for the five and eight words of the two commands. */
  lemma JoinFive(a: string, b: string, c: string, d: string, e: string)
    ensures Join([a, b, c, d, e], " ") == a + " " + b + " " + c + " " + d + " " + e
  {
    var w := [a, b, c, d, e];
    assert w[1..] == [b, c, d, e] && w[2..] == [c, d, e] && w[3..] == [d, e] && w[4..] == [e];
    assert Join(w[3..], " ") == d + " " + e;
    assert Join(w[2..], " ") == c + " " + (d + " " + e);
    assert Join(w[1..], " ") == b + " " + (c + " " + (d + " " + e));
  }

  lemma JoinEight(a: string, b: string, c: string, d: string, e: string, f: string, g: string, h: string)
    ensures Join([a, b, c, d, e, f, g, h], " ") == a + " " + b + " " + c + " " + d + " " + e + " " + f + " " + g + " " + h
  {
    var w := [a, b, c, d, e, f, g, h];
    assert w[1..] == [b, c, d, e, f, g, h] && w[2..] == [c, d, e, f, g, h] && w[3..] == [d, e, f, g, h];
    JoinFive(d, e, f, g, h);
    var tail := d + " " + e + " " + f + " " + g + " " + h;
    assert Join(w[2..], " ") == c + " " + tail;
    assert Join(w[1..], " ") == b + " " + (c + " " + tail);
  }

  /** A tap command reads back, word by word, as `shell input tap X Y`. */
  lemma TapCommandWords(x: int, y: int)
    ensures var w := Split(TapCommand(x, y), " ");
      |w| == 5 && w[0] == "shell" && w[1] == "input" && w[2] == "tap"
      && Atoi(w[3]) == Some(x) && Atoi(w[4]) == Some(y)
  {
    var sx, sy := IntToString(x), IntToString(y);
    var words := ["shell", "input", "tap", sx, sy];
    NumberFreeOfSpace(x);
    NumberFreeOfSpace(y);
    JoinFive("shell", "input", "tap", sx, sy);
    assert "shell" + " " + "input" + " " + "tap" + " " == "shell input tap ";
    SplitJoin(words, ' ');
    AtoiIntToString(x);
    AtoiIntToString(y);
  }

  /** A swipe command reads back, word by word, as `shell input swipe X Y X2 Y2 D`. */
  lemma SwipeCommandWords(x: int, y: int, x2: int, y2: int, duration: int)
    ensures var w := Split(SwipeCommand(x, y, x2, y2, duration), " ");
      |w| == 8 && w[0] == "shell" && w[1] == "input" && w[2] == "swipe"
      && Atoi(w[3]) == Some(x) && Atoi(w[4]) == Some(y) && Atoi(w[5]) == Some(x2) && Atoi(w[6]) == Some(y2)
      && Atoi(w[7]) == Some(duration)
  {
    var sx, sy, sx2, sy2, sd := IntToString(x), IntToString(y), IntToString(x2), IntToString(y2), IntToString(duration);
    var words := ["shell", "input", "swipe", sx, sy, sx2, sy2, sd];
    NumberFreeOfSpace(x);
    NumberFreeOfSpace(y);
    NumberFreeOfSpace(x2);
    NumberFreeOfSpace(y2);
    NumberFreeOfSpace(duration);
    JoinEight("shell", "input", "swipe", sx, sy, sx2, sy2, sd);
    assert "shell" + " " + "input" + " " + "swipe" + " " == "shell input swipe ";
    SplitJoin(words, ' ');
    AtoiIntToString(x);
    AtoiIntToString(y);
    AtoiIntToString(x2);
    AtoiIntToString(y2);
    AtoiIntToString(duration);
  }

  // ---------------------------------------------------------------------------
  // The playback plan
  // ---------------------------------------------------------------------------

  /** One adb command issued for a device. */
  datatype AdbCall = AdbCall(deviceId: string, command: string)

  /** The commands playing `events` issues, in order. */
  function PlanCalls(deviceId: string, events: seq<TouchEvent>): seq<AdbCall>
  {
    if events == [] then []
    else
      var last := events[|events| - 1];
      PlanCalls(deviceId, events[..|events| - 1])
        + match EventCommand(last) case Some(cmd) => [AdbCall(deviceId, cmd)] case None => []
  }

  /** The progress notifications playing `events` out of `total` emits: the 1-based position of
      every event that issued a command. */
  function PlanProgress(deviceId: string, events: seq<TouchEvent>, total: nat): (log: seq<Notification>)
    ensures |log| <= |events|
    ensures forall k :: 0 <= k < |log| ==>
      log[k].PlaybackProgress? && log[k].deviceId == deviceId && log[k].total == total && 1 <= log[k].current <= |events|
  {
    if events == [] then []
    else
      PlanProgress(deviceId, events[..|events| - 1], total)
        + if EventCommand(events[|events| - 1]).Some? then [PlaybackProgress(deviceId, |events|, total)] else []
  }

  /** Playing one more event extends both plans by what that event contributes. */
  lemma PlanSnoc(deviceId: string, events: seq<TouchEvent>, i: nat, total: nat)
    requires i < |events|
    ensures EventCommand(events[i]).Some? ==>
      && PlanCalls(deviceId, events[..i + 1]) == PlanCalls(deviceId, events[..i]) + [AdbCall(deviceId, EventCommand(events[i]).value)]
      && PlanProgress(deviceId, events[..i + 1], total) == PlanProgress(deviceId, events[..i], total) + [PlaybackProgress(deviceId, i + 1, total)]
    ensures EventCommand(events[i]).None? ==>
      && PlanCalls(deviceId, events[..i + 1]) == PlanCalls(deviceId, events[..i])
      && PlanProgress(deviceId, events[..i + 1], total) == PlanProgress(deviceId, events[..i], total)
  {
    assert events[..i + 1][..i] == events[..i];
  }

  /** The j-th progress notification reports the event behind the j-th command. */
  predicate Reports(deviceId: string, events: seq<TouchEvent>, total: nat, call: AdbCall, note: Notification)
  {
    && note.PlaybackProgress? && note.deviceId == deviceId && note.total == total
    && 1 <= note.current <= |events|
    && EventCommand(events[note.current - 1]) == Some(call.command)
    && call.deviceId == deviceId
  }

  /** Commands and progress notifications pair up one to one, each report naming the event
      whose command it follows, at increasing positions. */
  lemma {:induction false} PlanAgreement(deviceId: string, events: seq<TouchEvent>, total: nat)
    ensures var calls, notes := PlanCalls(deviceId, events), PlanProgress(deviceId, events, total);
      && |calls| == |notes|
      && (forall j :: 0 <= j < |notes| ==> Reports(deviceId, events, total, calls[j], notes[j]))
      && (forall j, k :: 0 <= j < k < |notes| ==> notes[j].current < notes[k].current)
  {
    if events != [] {
      var n := |events| - 1;
      var init := events[..n];
      assert events[..n + 1] == events;
      PlanSnoc(deviceId, events, n, total);
      PlanAgreement(deviceId, init, total);
      var calls0, notes0 := PlanCalls(deviceId, init), PlanProgress(deviceId, init, total);
      var calls, notes := PlanCalls(deviceId, events), PlanProgress(deviceId, events, total);
      forall j | 0 <= j < |notes0|
        ensures Reports(deviceId, events, total, calls[j], notes[j]) && notes[j].current <= n
      {
        assert calls[j] == calls0[j] && notes[j] == notes0[j];
        assert events[notes0[j].current - 1] == init[notes0[j].current - 1];
      }
    }
  }

  /** Every tap or swipe is played and reported: `wait` and unknown kinds are the only events
      skipped. */
  lemma {:induction false} PlanComplete(deviceId: string, events: seq<TouchEvent>, total: nat, i: nat)
    requires i < |events| && EventCommand(events[i]).Some?
    ensures PlaybackProgress(deviceId, i + 1, total) in PlanProgress(deviceId, events, total)
  {
    var n := |events| - 1;
    var init := events[..n];
    var notes0 := PlanProgress(deviceId, init, total);
    var last := if EventCommand(events[n]).Some? then [PlaybackProgress(deviceId, n + 1, total)] else [];
    assert PlanProgress(deviceId, events, total) == notes0 + last;
    if i < n {
      assert events[i] == init[i];
      PlanComplete(deviceId, init, total, i);
      assert PlaybackProgress(deviceId, i + 1, total) in notes0;
    } else {
      assert last == [PlaybackProgress(deviceId, i + 1, total)];
    }
  }

  /** Stopping early issues a prefix of the full command sequence. */
  lemma {:induction false} PlanCallsPrefix(deviceId: string, events: seq<TouchEvent>, k: nat)
    requires k <= |events|
    ensures PlanCalls(deviceId, events[..k]) <= PlanCalls(deviceId, events)
    decreases |events|
  {
    if k < |events| {
      var init := events[..|events| - 1];
      assert events[..k] == init[..k];
      PlanCallsPrefix(deviceId, init, k);
    } else {
      assert events[..k] == events;
    }
  }

  /** The loop over the events of a playback cancelled just before position `stopAt` (it runs to
      the end when `stopAt` is past the last event): the commands issued and the progress
      reported, in order. Waiting for each event's timestamp is not modelled. */
  method PlayEvents(deviceId: string, events: seq<TouchEvent>, stopAt: nat)
    returns (issued: seq<AdbCall>, progress: seq<Notification>)
    ensures var played := events[..if stopAt < |events| then stopAt else |events|];
      && issued == PlanCalls(deviceId, played)
      && progress == PlanProgress(deviceId, played, |events|)
  {
    var total := |events|;
    issued, progress := [], [];
    var i := 0;
    while i < |events| && i < stopAt
      invariant 0 <= i <= |events| && i <= stopAt
      invariant issued == PlanCalls(deviceId, events[..i])
      invariant progress == PlanProgress(deviceId, events[..i], total)
    {
      PlanSnoc(deviceId, events, i, total);
      match EventCommand(events[i]) {
        case Some(cmd) =>
          issued := issued + [AdbCall(deviceId, cmd)];
          progress := progress + [PlaybackProgress(deviceId, i + 1, total)];
        case None =>
      }
      i := i + 1;
    }
    assert i == if stopAt < |events| then stopAt else |events|;
  }

  // ---------------------------------------------------------------------------
  // The playback registry
  // ---------------------------------------------------------------------------

  class Player {
    /** Devices with a playback in progress (`touchPlaybackCancel`). */
    var active: set<string>
    /** The devices whose playback was cancelled, in order. */
    var cancelled: seq<string>
    /** The adb commands issued so far. */
    var calls: seq<AdbCall>
    var notifications: seq<Notification>

    constructor()
      ensures active == {} && cancelled == [] && calls == [] && notifications == []
    {
      active, cancelled, calls, notifications := {}, [], [], [];
    }

    /** IsPlayingTouch. */
    predicate IsPlaying(deviceId: string)
      reads this
    {
      deviceId in active
    }

    /** PlayTouchScript, up to handing the events to the playback loop. */
    method PlayTouchScript(deviceId: string, script: TouchScript) returns (r: Outcome<string>)
      modifies this
      ensures old(IsPlaying(deviceId)) ==> r == Fail("playback already in progress") && unchanged(this)
      ensures !old(IsPlaying(deviceId)) ==>
        && r == Pass
        && active == old(active) + {deviceId}
        && notifications == old(notifications) + [PlaybackStarted(deviceId, |script.events|)]
        && cancelled == old(cancelled) && calls == old(calls)
      ensures r.Pass? ==> IsPlaying(deviceId)
    {
      if deviceId in active {
        r := Fail("playback already in progress");
      } else {
        active := active + {deviceId};
        notifications := notifications + [PlaybackStarted(deviceId, |script.events|)];
        r := Pass;
      }
    }

    /** The playback loop, cancelled just before the event at position `stopAt` (it runs to the end
        when `stopAt` is past the last event). Waiting for each event's timestamp is not modelled. */
    method Playback(deviceId: string, script: TouchScript, stopAt: nat)
      modifies this
      ensures var played := script.events[..if stopAt < |script.events| then stopAt else |script.events|];
        && calls == old(calls) + PlanCalls(deviceId, played)
        && notifications == old(notifications) + PlanProgress(deviceId, played, |script.events|)
                              + [PlaybackCompleted(deviceId)]
      ensures active == old(active) - {deviceId} && cancelled == old(cancelled)
      ensures !IsPlaying(deviceId)
    {
      var issued, progress := PlayEvents(deviceId, script.events, stopAt);
      calls := calls + issued;
      active := active - {deviceId};
      notifications := notifications + progress + [PlaybackCompleted(deviceId)];
    }

    /** StopTouchPlayback: cancels and forgets the device's playback, if there is one. */
    method StopTouchPlayback(deviceId: string)
      modifies this
      ensures old(IsPlaying(deviceId)) ==> cancelled == old(cancelled) + [deviceId] && active == old(active) - {deviceId}
      ensures !old(IsPlaying(deviceId)) ==> cancelled == old(cancelled) && active == old(active)
      ensures calls == old(calls) && notifications == old(notifications)
      ensures !IsPlaying(deviceId)
    {
      if deviceId in active {
        cancelled := cancelled + [deviceId];
        active := active - {deviceId};
      }
    }
  }

  /** A whole playback on a fresh registry, cancelled before position `stopAt`: the start
      notification, then one command and one progress report per tap or swipe played, then
      completion, with the device free again. */
  method PlayOnce(deviceId: string, script: TouchScript, stopAt: nat)
    returns (issued: seq<AdbCall>, log: seq<Notification>, stillPlaying: bool)
    ensures var played := script.events[..if stopAt < |script.events| then stopAt else |script.events|];
      && issued == PlanCalls(deviceId, played)
      && log == [PlaybackStarted(deviceId, |script.events|)] + PlanProgress(deviceId, played, |script.events|)
                  + [PlaybackCompleted(deviceId)]
    ensures !stillPlaying
  {
    var player := new Player();
    var started := player.PlayTouchScript(deviceId, script);
    assert started == Pass;
    player.Playback(deviceId, script, stopAt);
    issued, log, stillPlaying := player.calls, player.notifications, deviceId in player.active;
  }
}
