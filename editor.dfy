/** Playback and seek bookkeeping of the editor window
    (src/ui/windows/editor_window.py): the global playhead time over the clip list,
    the arrow-key steps, the same-clip / cross-clip seek, the pending seek that gates
    position updates while a clip loads, the minimum loading delay, the paging of the
    timeline's scroll bar, and the dirty flag with its save barrier.

    The media player is observed through `playerLog`, the commands sent to it in
    order. The clock (milliseconds since midnight, and the "HH:mm" text of the top
    bar), the scroll bar's viewport width, the timeline zoom and the user's answer to
    the save box are parameters. A timer callback is returned as a `ScheduledSeek`
    and run by calling `PerformDelayedSeekAndHide`. */
module Editor {
  import opened Text
  import opened ProjectData
  import Timeline
  import TopBarModule

  /** `seek_step_seconds`. */
  const SeekStepSeconds: real := 2.0
  /** `MIN_LOAD_DURATION`, in milliseconds. */
  const MinLoadDurationMs: int := 1000
  /** Safety margin added to every loading delay, in milliseconds. */
  const SafetyMarginMs: int := 50
  /** Length of a day in milliseconds: the range of `msecsSinceStartOfDay`. */
  const MsPerDay: int := 86_400_000
  const ScrollTriggerPercent: real := 0.95
  const NewViewStartPercent: real := 0.02
  const UntitledName: string := "Sem Nome"

  /** A value of `current_video_index`: -1 when no clip is loaded. */
  type VideoIndex = i: int | i >= -1 witness -1

  datatype PlayerCommand =
    | Pause
    | Play
    | Stop
    | SetPosition(ms: int)
    | LoadVideo(path: string)
    | ShowLoading(text: string)
    | HideLoading
    | SetHasVideo(hasVideo: bool)

  /** The attributes `pending_seek_time`, `pending_start_paused` and `load_start_time`,
      which exist together from a load until its delayed seek has run. */
  datatype PendingSeek = PendingSeek(seekTime: real, startPaused: bool, loadStartMs: int)

  datatype MediaStatus =
    | NoMedia | LoadingMedia | LoadedMedia | StalledMedia | BufferingMedia | BufferedMedia
    | EndOfMedia | InvalidMedia

  /** A `QTimer.singleShot(delayMs, ...)` whose callback seeks to `posMs`. */
  datatype ScheduledSeek = ScheduledSeek(delayMs: int, posMs: int)

  datatype SaveReply = SaveButton | DiscardButton | CancelButton

  // ---------------------------------------------------------------------------
  // Global time

  /** Number of clips the `global_offset` loop sums: those before `index`, or all of
      them when no position equals `index`. */
  function ClipsSummed(vs: seq<Video>, index: int): (k: nat)
    ensures k <= |vs|
  {
    if 0 <= index <= |vs| then index else |vs|
  }

  /** `global_offset`: the sum of `duracao` (0 when absent) over the clips before
      `index`. */
  function OffsetBefore(vs: seq<Video>, index: int): real {
    SumDurations(vs[..ClipsSummed(vs, index)])
  }

  /** A clip's global span starts where the earlier clips end: a local time inside
      clip k maps to a global time inside [offset k, offset k+1), so global times of
      different clips do not overlap. */
  lemma GlobalTimeInClip(vs: seq<Video>, k: nat, local: real)
    requires k < |vs| && 0.0 <= local < DurationOf(vs[k])
    ensures OffsetBefore(vs, k) <= OffsetBefore(vs, k) + local < OffsetBefore(vs, k + 1)
  {
    OffsetStep(vs, k);
  }

  /** The next clip starts where a clip ends. */
  lemma OffsetStep(vs: seq<Video>, k: nat)
    requires k < |vs|
    ensures OffsetBefore(vs, k + 1) == OffsetBefore(vs, k) + DurationOf(vs[k])
  {
    assert vs[..k + 1][..k] == vs[..k];
  }

  /** With no negative duration the offsets grow with the index. */
  lemma {:induction false} OffsetMonotonic(vs: seq<Video>, j: nat, k: nat)
    requires j <= k <= |vs|
    requires forall i :: 0 <= i < |vs| ==> DurationOf(vs[i]) >= 0.0
    ensures OffsetBefore(vs, j) <= OffsetBefore(vs, k)
  {
    if j < k {
      OffsetMonotonic(vs, j, k - 1);
      OffsetStep(vs, k - 1);
    }
  }

  // ---------------------------------------------------------------------------
  // Paging the scroll bar

  /** The value `ensure_playhead_visible` writes to the scroll bar, or `None` when it
      writes nothing. `pps` is the timeline's zoom; 0 stands for a falsy value. */
  function PagedScroll(globalTime: real, pps: real, scroll: int, width: int): (r: Option<int>)
    ensures pps == 0.0 ==> r.None?
    ensures r.Some? && globalTime * pps >= scroll as real ==>
      globalTime * pps > scroll as real + width as real * ScrollTriggerPercent
      && r.value == Trunc(globalTime * pps - width as real * NewViewStartPercent)
    ensures r.Some? && globalTime * pps < scroll as real && width >= 0 ==> r.value >= 0
    ensures pps != 0.0 && scroll as real <= globalTime * pps <= scroll as real + width as real * ScrollTriggerPercent
      ==> r.None?
    // leaving the band on either side always writes
    ensures pps != 0.0 ==>
      (globalTime * pps > scroll as real + width as real * ScrollTriggerPercent || globalTime * pps < scroll as real)
      ==> r.Some?
    // a backward jump puts the playhead in the middle of the viewport, or shows the start
    ensures r.Some? && globalTime * pps < scroll as real && width >= 0 ==>
      var y := globalTime * pps - width as real * 0.5;
      if y >= 0.0 then r.value as real <= y < r.value as real + 1.0 else r.value == 0
  {
    if pps == 0.0 then None
    else
      var x := globalTime * pps;
      if x > scroll as real + width as real * ScrollTriggerPercent then
        Some(Trunc(x - width as real * NewViewStartPercent))
      else if x < scroll as real then
        var back := Trunc(x - width as real * 0.5);
        Some(if back >= 0 then back else 0)
      else None
  }

  /** After a jump the playhead is inside the trigger band of the new page, so
      paging again at the same time leaves the scroll bar alone (for a viewport at
      least 3 px wide and a playhead at or after 0). */
  lemma PagingSettles(globalTime: real, pps: real, scroll: int, width: int)
    requires width >= 3 && pps != 0.0 && globalTime * pps >= 0.0
    requires PagedScroll(globalTime, pps, scroll, width).Some?
    ensures var s := PagedScroll(globalTime, pps, scroll, width).value;
      PagedScroll(globalTime, pps, s, width).None?
  {
    var x := globalTime * pps;
    var w := width as real;
    var s := PagedScroll(globalTime, pps, scroll, width).value;
    if x > scroll as real + w * ScrollTriggerPercent {
      var y := x - w * NewViewStartPercent;
      if y >= 0.0 {
        assert s as real <= y < s as real + 1.0;
      } else {
        assert s as real - 1.0 < y <= s as real;
      }
    } else {
      var back := Trunc(x - w * 0.5);
      if x - w * 0.5 >= 0.0 {
        assert back as real <= x - w * 0.5 < back as real + 1.0;
      } else {
        assert back <= 0;
      }
    }
  }

  // ---------------------------------------------------------------------------
  // The loading delay

  /** `msecsSinceStartOfDay() - load_start_time`, as written. */
  function ElapsedAsWritten(startMs: int, nowMs: int): int {
    nowMs - startMs
  }

  /** Milliseconds from `startMs` to `nowMs` on a clock that wraps at midnight. */
  function Elapsed(startMs: int, nowMs: int): (e: int)
    requires 0 <= startMs < MsPerDay && 0 <= nowMs < MsPerDay
    ensures 0 <= e < MsPerDay
    ensures nowMs >= startMs ==> e == nowMs - startMs
    ensures nowMs < startMs ==> e == nowMs + MsPerDay - startMs
  {
    (nowMs - startMs) % MsPerDay
  }

  /** `max(0, MIN_LOAD_DURATION - elapsed) + 50`. */
  function LoadDelay(elapsed: int): (d: int)
    ensures d >= SafetyMarginMs
    ensures elapsed >= 0 ==> d <= MinLoadDurationMs + SafetyMarginMs
    ensures elapsed <= MinLoadDurationMs ==> elapsed + d == MinLoadDurationMs + SafetyMarginMs
  {
    var remaining := MinLoadDurationMs - elapsed;
    (if remaining >= 0 then remaining else 0) + SafetyMarginMs
  }

  /** A load started at 23:59:59.900 whose media is ready at 00:00:00.100: as
      written the elapsed time is negative and the seek waits about a day; with the
      wrap taken into account it waits 850 ms. */
  lemma MidnightWrapDelay()
    ensures ElapsedAsWritten(86_399_900, 100) == -86_399_800
    ensures LoadDelay(ElapsedAsWritten(86_399_900, 100)) == 86_400_850
    ensures LoadDelay(Elapsed(86_399_900, 100)) == 850
  {
  }

  /** With the wrap taken into account the delay is always between 50 and 1050 ms,
      and a load ready after at least 1000 ms waits only the 50 ms margin. */
  lemma LoadDelayBounded(startMs: int, nowMs: int)
    requires 0 <= startMs < MsPerDay && 0 <= nowMs < MsPerDay
    ensures SafetyMarginMs <= LoadDelay(Elapsed(startMs, nowMs)) <= MinLoadDurationMs + SafetyMarginMs
    ensures Elapsed(startMs, nowMs) >= MinLoadDurationMs ==> LoadDelay(Elapsed(startMs, nowMs)) == SafetyMarginMs
  {
  }

  // ---------------------------------------------------------------------------
  // Arrow keys

  /** The local time the left key seeks to. */
  function LeftTarget(local: real): (t: real)
    ensures t >= 0.0
    ensures t <= local || local < 0.0
    ensures local >= SeekStepSeconds ==> t == local - SeekStepSeconds
  {
    MaxReal(0.0, local - SeekStepSeconds)
  }

  /** The local time the right key seeks to, for a clip of duration `duration`. */
  function RightTarget(local: real, duration: real): (t: real)
    ensures t <= duration && t <= local + SeekStepSeconds
    ensures t == duration || t == local + SeekStepSeconds
  {
    MinReal(duration, local + SeekStepSeconds)
  }

  /** A right step from inside clip k lands at the clip's end at the latest. */
  lemma RightStepStaysInClip(vs: seq<Video>, k: nat, local: real)
    requires k < |vs|
    ensures OffsetBefore(vs, k) + RightTarget(local, DurationOf(vs[k])) <= OffsetBefore(vs, k + 1)
  {
    OffsetStep(vs, k);
  }

  /** What the save barrier decides: whether the action goes on, and whether the
      project is saved first. */
  function SaveBarrier(isDirty: bool, reply: SaveReply): (r: (bool, bool))
    ensures r.0 <==> !isDirty || reply != CancelButton
    ensures r.1 <==> isDirty && reply == SaveButton
    ensures r.1 ==> r.0
  {
    if !isDirty then (true, false)
    else match reply
      case SaveButton => (true, true)
      case DiscardButton => (true, false)
      case CancelButton => (false, false)
  }

  // ---------------------------------------------------------------------------
  // The window

  class EditorWindow {
    const timeline: Timeline.TimelineWidget
    const topBar: TopBarModule.TopBar
    /** `project_data["arquivosDeVideo"]`; empty when the key is absent. */
    var videos: seq<Video>
    var projectFilePath: Option<string>
    var isDirty: bool
    var currentVideoIndex: VideoIndex
    var currentLocalTime: real
    var pending: Option<PendingSeek>
    var playerLog: seq<PlayerCommand>
    /** The value of the timeline's horizontal scroll bar. */
    var scrollValue: int

    constructor ()
      ensures videos == [] && projectFilePath.None? && !isDirty
      ensures currentVideoIndex == -1 && currentLocalTime == 0.0
      ensures pending.None? && playerLog == [] && scrollValue == 0
      ensures fresh(timeline) && fresh(topBar)
      ensures timeline.playheadPositionSec == 0.0
      ensures topBar.nameText == TopBarModule.InitialName && !topBar.nameGold
    {
      timeline := new Timeline.TimelineWidget();
      topBar := new TopBarModule.TopBar();
      videos := [];
      projectFilePath := None;
      isDirty := false;
      currentVideoIndex := -1;
      currentLocalTime := 0.0;
      pending := None;
      playerLog := [];
      scrollValue := 0;
    }

    /** `set_dirty`; `clock` is the wall-clock "HH:mm" the top bar shows when clean. */
    method SetDirty(dirty: bool, clock: string)
      modifies this`isDirty, topBar
      ensures isDirty == dirty
      ensures topBar.nameText ==
        if dirty then TopBarModule.Marked(old(topBar.nameText)) else TopBarModule.Unmarked(old(topBar.nameText))
      ensures topBar.lastSavedText ==
        if dirty then TopBarModule.UnsavedText else TopBarModule.SavedAt(clock)
      ensures topBar.nameGold == dirty
    {
      isDirty := dirty;
      topBar.SetDirtyState(dirty, clock);
    }

    /** `check_save_barrier`: `proceed` is its result; `saveRequested` says whether
        it called `save_project`, whose file write is not modelled. */
    method CheckSaveBarrier(reply: SaveReply) returns (proceed: bool, saveRequested: bool)
      ensures (proceed, saveRequested) == SaveBarrier(isDirty, reply)
    {
      if !isDirty {
        return true, false;
      }
      if reply == SaveButton {
        return true, true;
      } else if reply == DiscardButton {
        return true, false;
      } else {
        return false, false;
      }
    }

    /** The `global_offset` loop. */
    method ClipOffset() returns (offset: real)
      ensures offset == OffsetBefore(videos, currentVideoIndex)
    {
      offset := 0.0;
      var i := 0;
      while i < |videos|
        invariant 0 <= i <= |videos|
        invariant offset == SumDurations(videos[..i])
        invariant currentVideoIndex < 0 || i <= currentVideoIndex
      {
        if i == currentVideoIndex {
          break;
        }
        assert videos[..i + 1][..i] == videos[..i];
        offset := offset + DurationOf(videos[i]);
        i := i + 1;
      }
      assert i == ClipsSummed(videos, currentVideoIndex);
    }

    /** `ensure_playhead_visible` (the later definition), for a viewport `width` px
        wide and a zoom of `pps` pixels per second. */
    method EnsurePlayheadVisible(globalTime: real, pps: real, width: int)
      modifies this`scrollValue
      ensures scrollValue ==
        match PagedScroll(globalTime, pps, old(scrollValue), width)
        case Some(v) => v
        case None => old(scrollValue)
    {
      if pps == 0.0 {
        return;
      }
      var playheadX := globalTime * pps;
      var currentScroll := scrollValue;
      var thresholdRight := currentScroll as real + width as real * ScrollTriggerPercent;
      if playheadX > thresholdRight {
        var targetScroll := playheadX - width as real * NewViewStartPercent;
        scrollValue := Trunc(targetScroll);
      } else if playheadX < currentScroll as real {
        var targetScroll := playheadX - width as real * 0.5;
        var t := Trunc(targetScroll);
        scrollValue := if t >= 0 then t else 0;
      }
    }

    /** `load_video_at_index`; `nowMs` is `msecsSinceStartOfDay()` at the call. */
    method LoadVideoAtIndex(index: int, startPaused: bool, seekTime: real, nowMs: int)
      modifies this`currentVideoIndex, this`pending, this`playerLog
      ensures !(0 <= index < |videos|) ==>
        currentVideoIndex == old(currentVideoIndex) && pending == old(pending) && playerLog == old(playerLog)
      ensures 0 <= index < |videos| ==>
        && currentVideoIndex == index
        && pending == Some(PendingSeek(seekTime, startPaused, nowMs))
        && playerLog == old(playerLog) + [
             ShowLoading("Carregando: " + videos[index].name + "..."), Stop, LoadVideo(videos[index].path)]
    {
      if index < 0 || index >= |videos| {
        return;
      }
      var videoData := videos[index];
      currentVideoIndex := index;
      pending := Some(PendingSeek(seekTime, startPaused, nowMs));
      playerLog := playerLog + [ShowLoading("Carregando: " + videoData.name + "...")];
      playerLog := playerLog + [Stop];
      playerLog := playerLog + [LoadVideo(videoData.path)];
    }

    /** `handle_seek_request` (the later definition). */
    method HandleSeekRequest(videoIndex: int, localTime: real, globalTime: real, forcePause: bool,
                             pps: real, width: int, nowMs: int)
      modifies timeline`playheadPositionSec, this`scrollValue, this`currentVideoIndex,
        this`pending, this`playerLog
      ensures timeline.playheadPositionSec == globalTime
      ensures scrollValue ==
        match PagedScroll(globalTime, pps, old(scrollValue), width)
        case Some(v) => v
        case None => old(scrollValue)
      // another clip: it is loaded, paused, with the local time as pending seek
      ensures videoIndex != old(currentVideoIndex) && 0 <= videoIndex < |videos| ==>
        && currentVideoIndex == videoIndex
        && pending == Some(PendingSeek(localTime, true, nowMs))
        && playerLog == old(playerLog) + [
             ShowLoading("Carregando: " + videos[videoIndex].name + "..."), Stop, LoadVideo(videos[videoIndex].path)]
      ensures videoIndex != old(currentVideoIndex) && !(0 <= videoIndex < |videos|) ==>
        currentVideoIndex == old(currentVideoIndex) && pending == old(pending) && playerLog == old(playerLog)
      // the same clip: a direct seek, after a pause only when asked for
      ensures videoIndex == old(currentVideoIndex) ==>
        && currentVideoIndex == old(currentVideoIndex) && pending == old(pending)
        && playerLog == old(playerLog) + (if forcePause then [Pause] else []) + [SetPosition(Trunc(localTime * 1000.0))]
    {
      timeline.UpdatePlayheadPosition(globalTime);
      EnsurePlayheadVisible(globalTime, pps, width);
      if videoIndex != currentVideoIndex {
        LoadVideoAtIndex(videoIndex, true, localTime, nowMs);
      } else {
        if forcePause {
          playerLog := playerLog + [Pause];
        }
        playerLog := playerLog + [SetPosition(Trunc(localTime * 1000.0))];
      }
    }

    /** `perform_seek_shortcut`: a seek within the loaded clip, keeping play state. */
    method PerformSeekShortcut(localTime: real, pps: real, width: int)
      modifies timeline`playheadPositionSec, this`scrollValue, this`playerLog,
        this`currentVideoIndex, this`pending
      ensures currentVideoIndex == old(currentVideoIndex) && pending == old(pending)
      ensures old(currentVideoIndex) == -1 ==>
        && timeline.playheadPositionSec == old(timeline.playheadPositionSec)
        && scrollValue == old(scrollValue) && playerLog == old(playerLog)
      ensures old(currentVideoIndex) != -1 ==>
        var globalTime := OffsetBefore(videos, currentVideoIndex) + localTime;
        && timeline.playheadPositionSec == globalTime
        && scrollValue == (
             match PagedScroll(globalTime, pps, old(scrollValue), width)
             case Some(v) => v
             case None => old(scrollValue))
        && playerLog == old(playerLog) + [SetPosition(Trunc(localTime * 1000.0))]
    {
      if currentVideoIndex == -1 {
        return;
      }
      var globalOffset := ClipOffset();
      var globalTime := globalOffset + localTime;
      // the same clip is targeted, so no load happens and the clock is not read
      HandleSeekRequest(currentVideoIndex, localTime, globalTime, false, pps, width, 0);
    }

    /** `_on_left_key`. */
    method OnLeftKey(pps: real, width: int)
      modifies timeline`playheadPositionSec, this`scrollValue, this`playerLog,
        this`currentVideoIndex, this`pending
      ensures currentVideoIndex == old(currentVideoIndex) && pending == old(pending)
      ensures old(currentVideoIndex) == -1 ==>
        && timeline.playheadPositionSec == old(timeline.playheadPositionSec)
        && scrollValue == old(scrollValue) && playerLog == old(playerLog)
      ensures old(currentVideoIndex) != -1 ==>
        var globalTime := OffsetBefore(videos, currentVideoIndex) + LeftTarget(currentLocalTime);
        && timeline.playheadPositionSec == globalTime
        && scrollValue == (
             match PagedScroll(globalTime, pps, old(scrollValue), width)
             case Some(v) => v
             case None => old(scrollValue))
        && playerLog == old(playerLog) + [SetPosition(Trunc(LeftTarget(currentLocalTime) * 1000.0))]
    {
      var newTime := MaxReal(0.0, currentLocalTime - SeekStepSeconds);
      PerformSeekShortcut(newTime, pps, width);
    }

    /** `_on_right_key`: nothing happens without a loaded clip in range. */
    method OnRightKey(pps: real, width: int)
      modifies timeline`playheadPositionSec, this`scrollValue, this`playerLog,
        this`currentVideoIndex, this`pending
      ensures currentVideoIndex == old(currentVideoIndex) && pending == old(pending)
      ensures !(0 <= currentVideoIndex < |videos|) ==>
        && timeline.playheadPositionSec == old(timeline.playheadPositionSec)
        && scrollValue == old(scrollValue) && playerLog == old(playerLog)
      ensures 0 <= currentVideoIndex < |videos| ==>
        var target := RightTarget(currentLocalTime, DurationOf(videos[currentVideoIndex]));
        var globalTime := OffsetBefore(videos, currentVideoIndex) + target;
        && timeline.playheadPositionSec == globalTime
        && scrollValue == (
             match PagedScroll(globalTime, pps, old(scrollValue), width)
             case Some(v) => v
             case None => old(scrollValue))
        && playerLog == old(playerLog) + [SetPosition(Trunc(target * 1000.0))]
    {
      if currentVideoIndex != -1 {
        if currentVideoIndex < |videos| {
          var vid := videos[currentVideoIndex];
          var dur := DurationOf(vid);
          var newTime := MinReal(dur, currentLocalTime + SeekStepSeconds);
          PerformSeekShortcut(newTime, pps, width);
        }
      }
    }

    /** `on_player_position_changed`: ignored without a clip or while a seek is
        pending; otherwise the local time is taken and the playhead follows. */
    method OnPlayerPositionChanged(positionMs: int, pps: real, width: int)
      modifies this`currentLocalTime, timeline`playheadPositionSec, this`scrollValue
      ensures currentVideoIndex == -1 || pending.Some? ==>
        && currentLocalTime == old(currentLocalTime)
        && timeline.playheadPositionSec == old(timeline.playheadPositionSec)
        && scrollValue == old(scrollValue)
      ensures currentVideoIndex != -1 && pending.None? ==>
        var globalTime := OffsetBefore(videos, currentVideoIndex) + positionMs as real / 1000.0;
        && currentLocalTime == positionMs as real / 1000.0
        && timeline.playheadPositionSec == globalTime
        && scrollValue == (
             match PagedScroll(globalTime, pps, old(scrollValue), width)
             case Some(v) => v
             case None => old(scrollValue))
    {
      if currentVideoIndex == -1 {
        return;
      }
      if pending.Some? {
        return;
      }
      var localTimeSec := positionMs as real / 1000.0;
      currentLocalTime := localTimeSec;
      var globalOffset := ClipOffset();
      var globalTime := globalOffset + localTimeSec;
      timeline.UpdatePlayheadPosition(globalTime);
      EnsurePlayheadVisible(globalTime, pps, width);
    }

    /** `on_media_status_changed` as written: once the media is loaded or buffered, a
        pending seek is scheduled to run after what is left of the minimum loading
        time plus the margin. `nowMs` is `msecsSinceStartOfDay()` at the call; the
        elapsed time is `nowMs` minus the load's reading, so across midnight it is
        negative and the delay grows by about a day. */
    method OnMediaStatusChanged(status: MediaStatus, nowMs: int) returns (scheduled: Option<ScheduledSeek>)
      ensures scheduled.Some? <==> (status == BufferedMedia || status == LoadedMedia) && pending.Some?
      ensures scheduled.Some? ==>
        && scheduled.value.posMs == Trunc(pending.value.seekTime * 1000.0)
        && scheduled.value.delayMs == LoadDelay(ElapsedAsWritten(pending.value.loadStartMs, nowMs))
        && SafetyMarginMs <= scheduled.value.delayMs
        && (nowMs >= pending.value.loadStartMs ==> scheduled.value.delayMs <= MinLoadDurationMs + SafetyMarginMs)
    {
      scheduled := None;
      if status == BufferedMedia || status == LoadedMedia {
        if pending.Some? {
          var posMs := Trunc(pending.value.seekTime * 1000.0);
          var elapsed := nowMs - pending.value.loadStartMs;
          var remaining := if MinLoadDurationMs - elapsed >= 0 then MinLoadDurationMs - elapsed else 0;
          var delayTotal := remaining + SafetyMarginMs;
          scheduled := Some(ScheduledSeek(delayTotal, posMs));
        }
      }
    }

    /** `on_media_status_changed` with the elapsed time taken on a clock that wraps
        at midnight: the delay always lies within [50, 1050] ms. */
    method OnMediaStatusChangedCorrected(status: MediaStatus, nowMs: int) returns (scheduled: Option<ScheduledSeek>)
      requires 0 <= nowMs < MsPerDay
      requires pending.Some? ==> 0 <= pending.value.loadStartMs < MsPerDay
      ensures scheduled.Some? <==> (status == BufferedMedia || status == LoadedMedia) && pending.Some?
      ensures scheduled.Some? ==>
        && scheduled.value.posMs == Trunc(pending.value.seekTime * 1000.0)
        && scheduled.value.delayMs == LoadDelay(Elapsed(pending.value.loadStartMs, nowMs))
        && SafetyMarginMs <= scheduled.value.delayMs <= MinLoadDurationMs + SafetyMarginMs
    {
      scheduled := None;
      if status == BufferedMedia || status == LoadedMedia {
        if pending.Some? {
          var posMs := Trunc(pending.value.seekTime * 1000.0);
          var elapsed := Elapsed(pending.value.loadStartMs, nowMs);
          var remaining := if MinLoadDurationMs - elapsed >= 0 then MinLoadDurationMs - elapsed else 0;
          var delayTotal := remaining + SafetyMarginMs;
          LoadDelayBounded(pending.value.loadStartMs, nowMs);
          scheduled := Some(ScheduledSeek(delayTotal, posMs));
        }
      }
    }

    /** `perform_delayed_seek_and_hide`, the timer callback of a `ScheduledSeek` for
        position `posMs`. */
    method PerformDelayedSeekAndHide(posMs: int)
      modifies this`pending, this`playerLog
      ensures old(pending).None? ==> pending.None? && playerLog == old(playerLog)
      ensures old(pending).Some? ==>
        && pending.None?
        && playerLog == old(playerLog) + [SetPosition(posMs), if old(pending).value.startPaused then Pause else Play, HideLoading]
    {
      if pending.None? {
        return;
      }
      playerLog := playerLog + [SetPosition(posMs)];
      var startPaused := pending.value.startPaused;
      if startPaused {
        playerLog := playerLog + [Pause];
      } else {
        playerLog := playerLog + [Play];
      }
      pending := None;
      playerLog := playerLog + [HideLoading];
    }

    /** `on_import_finished` as written, for a player that has `set_has_video`:
        imported clips are appended, the project becomes dirty and the player is told
        it has video; then `timeline.set_videos`, which the timeline widget does not
        define, raises, so the first clip is never loaded, even into a project that
        had none. (The repository's own player widget lacks `set_has_video`, so there
        the handler stops one call earlier, after marking the project dirty.) */
    method OnImportFinished(newVideos: seq<Video>, clock: string)
      modifies this`videos, this`isDirty, topBar, this`playerLog
      ensures newVideos == [] ==>
        && videos == old(videos) && isDirty == old(isDirty) && playerLog == old(playerLog)
        && topBar.nameText == old(topBar.nameText)
        && topBar.lastSavedText == old(topBar.lastSavedText) && topBar.nameGold == old(topBar.nameGold)
      ensures newVideos != [] ==>
        && videos == old(videos) + newVideos
        && isDirty && topBar.nameText == TopBarModule.Marked(old(topBar.nameText))
        && topBar.lastSavedText == TopBarModule.UnsavedText && topBar.nameGold
        && playerLog == old(playerLog) + [SetHasVideo(true)]
      ensures currentVideoIndex == old(currentVideoIndex) && pending == old(pending)
    {
      if newVideos == [] {
        return;
      }
      videos := videos + newVideos;
      SetDirty(true, clock);
      playerLog := playerLog + [SetHasVideo(true)];
    }

    /** `on_import_finished` as its comments intend, with the timeline refresh
        doing nothing the model observes: the first clip is loaded, paused at 0,
        when none was. */
    method OnImportFinishedCorrected(newVideos: seq<Video>, clock: string, nowMs: int)
      modifies this`videos, this`isDirty, topBar, this`playerLog, this`currentVideoIndex, this`pending
      ensures newVideos == [] ==>
        && videos == old(videos) && isDirty == old(isDirty) && playerLog == old(playerLog)
        && currentVideoIndex == old(currentVideoIndex) && pending == old(pending)
        && topBar.nameText == old(topBar.nameText)
        && topBar.lastSavedText == old(topBar.lastSavedText) && topBar.nameGold == old(topBar.nameGold)
      ensures newVideos != [] ==>
        && videos == old(videos) + newVideos
        && isDirty && topBar.nameText == TopBarModule.Marked(old(topBar.nameText))
        && topBar.lastSavedText == TopBarModule.UnsavedText && topBar.nameGold
        && if old(currentVideoIndex) == -1 then
             && currentVideoIndex == 0
             && pending == Some(PendingSeek(0.0, true, nowMs))
             && playerLog == old(playerLog) + [SetHasVideo(true),
                  ShowLoading("Carregando: " + videos[0].name + "..."), Stop, LoadVideo(videos[0].path)]
           else
             currentVideoIndex == old(currentVideoIndex) && pending == old(pending)
             && playerLog == old(playerLog) + [SetHasVideo(true)]
    {
      if newVideos == [] {
        return;
      }
      OnImportFinished(newVideos, clock);
      if currentVideoIndex == -1 && videos != [] {
        LoadVideoAtIndex(0, true, 0.0, nowMs);
      }
    }

    /** `reset_ui_state`. */
    method ResetUiState(clock: string)
      modifies this`videos, this`projectFilePath, this`isDirty, this`currentVideoIndex, topBar
      ensures videos == [] && projectFilePath.None? && !isDirty && currentVideoIndex == -1
      ensures topBar.nameText == UntitledName && !topBar.nameGold
      ensures topBar.lastSavedText == TopBarModule.SavedAt(clock)
    {
      videos := [];
      projectFilePath := None;
      isDirty := false;
      currentVideoIndex := -1;
      topBar.SetProjectName(UntitledName);
      assert !StartsWith(UntitledName, TopBarModule.DirtyPrefix) by {
        assert UntitledName[..2][0] == 'S';
      }
      topBar.SetDirtyState(false, clock);
    }
  }
}
