/** The timeline's interaction state machine (src/ui/components/timeline_widget.py):
    drop-to-create annotations, the press that picks an annotation to drag or resize
    or a clip to reorder, the in-place edits while the mouse moves, and the release
    that seeks or asks for a reorder. Painting is not modelled. Signals the widget
    emits are the `Signal` values a method returns; the mouse cursor is a field. */
module Timeline {
  import opened Text
  import Config

  /** One annotation record: `label` (here `labelText`), `startTime` and `duration` in seconds. */
  datatype Annotation = Annotation(labelText: string, startTime: real, duration: real)

  /** One clip record of the video track. */
  datatype Clip = Clip(path: string, startTime: real, duration: real)

  datatype Edge = LeftEdge | RightEdge

  datatype MouseButton = LeftButton | RightButton | OtherButton

  datatype Cursor = ArrowCursor | SizeHorCursor | ClosedHandCursor

  datatype Signal =
    | SeekRequested(time: real)
    | ClipReorderRequested(source: nat, target: int)
    | ClipRemoveRequested(index: nat)

  /** Width, in seconds, of the band at each end of an annotation that resizes it. */
  const EdgeThreshold: real := 0.5
  /** Duration of an annotation created by a drop. */
  const DropDuration: real := 5.0
  /** Shortest duration a resize leaves. */
  const MinDuration: real := 0.1

  /** Top of the video track: below the ruler and the annotation track. */
  const VideoTrackTop: real := Config.RulerHeight + Config.AnnotationTrackHeight
  const VideoTrackBottom: real := VideoTrackTop + Config.ThumbnailHeight

  /** The time under horizontal widget position x. */
  function TimeAt(x: real): real {
    x / Config.PixelsPerSecond
  }

  function End(a: Annotation): real { a.startTime + a.duration }

  /** The half-open interval [start, start + duration) holds t. */
  predicate Covers(a: Annotation, t: real) {
    a.startTime <= t < End(a)
  }

  predicate ClipCovers(c: Clip, t: real) {
    c.startTime <= t < c.startTime + c.duration
  }

  // ---------------------------------------------------------------------------
  // Hit tests

  /** The last annotation in list order that covers t (the `reversed` search). */
  function LastCovering(anns: seq<Annotation>, t: real): (r: Option<nat>)
    ensures r.Some? ==> r.value < |anns| && Covers(anns[r.value], t)
    ensures r.Some? ==> forall j :: r.value < j < |anns| ==> !Covers(anns[j], t)
    ensures r.None? ==> forall j :: 0 <= j < |anns| ==> !Covers(anns[j], t)
  {
    if anns == [] then None
    else if Covers(anns[|anns| - 1], t) then Some(|anns| - 1)
    else LastCovering(anns[..|anns| - 1], t)
  }

  /** The first clip in list order that covers t (the `enumerate` search). */
  function FirstClipCovering(clips: seq<Clip>, t: real): (r: Option<nat>)
    ensures r.Some? ==> r.value < |clips| && ClipCovers(clips[r.value], t)
    ensures r.Some? ==> forall j :: 0 <= j < r.value ==> !ClipCovers(clips[j], t)
    ensures r.None? ==> forall j :: 0 <= j < |clips| ==> !ClipCovers(clips[j], t)
  {
    if clips == [] then None
    else
      match FirstClipCovering(clips[..|clips| - 1], t)
      case Some(i) => Some(i)
      case None => if ClipCovers(clips[|clips| - 1], t) then Some(|clips| - 1) else None
  }

  /** What a left press on an annotation grabs. */
  datatype Grab = GrabLeft | GrabRight | GrabBody(offset: real)

  function PressZone(a: Annotation, t: real): Grab {
    if t < a.startTime + EdgeThreshold then GrabLeft
    else if t > End(a) - EdgeThreshold then GrabRight
    else GrabBody(t - a.startTime)
  }

  /** A press inside an annotation grabs its left edge within 0.5 s of its start,
      otherwise its right edge within 0.5 s of its end, and otherwise its body at the
      distance of the press from its start, which lies in [0.5, duration - 0.5]. */
  lemma PressZoneSpec(a: Annotation, t: real)
    requires Covers(a, t)
    ensures PressZone(a, t) == GrabLeft <==> t < a.startTime + EdgeThreshold
    ensures PressZone(a, t) == GrabRight <==>
      a.startTime + EdgeThreshold <= t && End(a) - EdgeThreshold < t
    ensures PressZone(a, t).GrabBody? ==>
      && a.startTime + PressZone(a, t).offset == t
      && EdgeThreshold <= PressZone(a, t).offset <= a.duration - EdgeThreshold
  {
  }

  /** The number of clips whose midpoint the drop time has reached, counting from
      the first and stopping at the first clip whose midpoint lies after it. */
  function ClipsBefore(clips: seq<Clip>, t: real): (r: nat)
    ensures r <= |clips|
    ensures forall j :: 0 <= j < r ==> !(t < Midpoint(clips[j]))
    ensures r < |clips| ==> t < Midpoint(clips[r])
  {
    if clips == [] then 0
    else
      var k := ClipsBefore(clips[..|clips| - 1], t);
      if k < |clips| - 1 then k
      else if t < Midpoint(clips[|clips| - 1]) then |clips| - 1
      else |clips|
  }

  function Midpoint(c: Clip): real { c.startTime + c.duration / 2.0 }

  /** The index a dragged clip is dropped at: `ClipsBefore` clamped to the last index. */
  function DropIndex(clips: seq<Clip>, t: real): int {
    var k := ClipsBefore(clips, t);
    if k < |clips| - 1 then k else |clips| - 1
  }

  /** The drop index is a valid clip index whenever there is a clip, and -1 only
      when there is none. */
  lemma DropIndexInRange(clips: seq<Clip>, t: real)
    ensures clips != [] ==> 0 <= DropIndex(clips, t) < |clips|
    ensures clips == [] ==> DropIndex(clips, t) == -1
    ensures 0 <= DropIndex(clips, t) < |clips| - 1 ==> t < Midpoint(clips[DropIndex(clips, t)])
    ensures forall j :: 0 <= j < DropIndex(clips, t) ==> t >= Midpoint(clips[j])
  {
  }

  /** The mouse is within 0.5 s of the annotation's start or end (a strict `abs` test). */
  predicate NearEdge(a: Annotation, t: real) {
    (t - a.startTime < EdgeThreshold && a.startTime - t < EdgeThreshold)
    || (t - End(a) < EdgeThreshold && End(a) - t < EdgeThreshold)
  }

  // ---------------------------------------------------------------------------
  // The edits made while the mouse moves

  /** Body drag: the start follows the mouse at the grab offset, floored at 0. */
  function Dragged(a: Annotation, t: real, offset: real): (r: Annotation)
    ensures r.labelText == a.labelText && r.duration == a.duration
    ensures r.startTime >= 0.0
    ensures t - offset >= 0.0 ==> t - r.startTime == offset
    ensures t - offset < 0.0 ==> r.startTime == 0.0
  {
    a.(startTime := MaxReal(0.0, t - offset))
  }

  /** Left-edge resize: the start moves to the mouse (floored at 0) and the
      duration is what is left up to the old end, at least 0.1 s. */
  function ResizedLeft(a: Annotation, t: real): (r: Annotation)
    ensures r.labelText == a.labelText
    ensures r.startTime >= 0.0 && r.duration >= MinDuration
    ensures r.startTime == if t >= 0.0 then t else 0.0
    ensures r.startTime + MinDuration <= End(a) ==> End(r) == End(a)
    ensures r.startTime + MinDuration > End(a) ==> r.duration == MinDuration
  {
    var start := MaxReal(0.0, t);
    a.(startTime := start, duration := MaxReal(MinDuration, End(a) - start))
  }

  /** Right-edge resize: the start stays, the end follows the mouse, and the
      duration is at least 0.1 s. */
  function ResizedRight(a: Annotation, t: real): (r: Annotation)
    ensures r.labelText == a.labelText && r.startTime == a.startTime
    ensures r.duration >= MinDuration
    ensures t >= a.startTime + MinDuration ==> End(r) == t
    ensures t < a.startTime + MinDuration ==> r.duration == MinDuration
  {
    a.(duration := MaxReal(MinDuration, t - a.startTime))
  }

  /** An annotation that starts at or after 0 and lasts at least 0.1 s. */
  predicate WellFormed(a: Annotation) {
    a.startTime >= 0.0 && a.duration >= MinDuration
  }

  /** Every edit keeps a well-formed annotation well formed, and both resizes make
      any annotation well formed. */
  lemma EditsKeepWellFormed(a: Annotation, t: real, offset: real)
    ensures WellFormed(a) ==> WellFormed(Dragged(a, t, offset))
    ensures WellFormed(ResizedLeft(a, t))
    ensures a.startTime >= 0.0 ==> WellFormed(ResizedRight(a, t))
  {
  }

  /** A drop at a non-negative position creates a well-formed annotation. */
  lemma DroppedWellFormed(text: string, x: real)
    requires x >= 0.0
    ensures WellFormed(Annotation(text, TimeAt(x), DropDuration))
  {
  }

  /** `sum(c['duration'] for c in clips)`. */
  function TotalDuration(clips: seq<Clip>): real {
    if clips == [] then 0.0 else TotalDuration(clips[..|clips| - 1]) + clips[|clips| - 1].duration
  }

  lemma {:induction false} TotalDurationNonNegative(clips: seq<Clip>)
    requires forall i :: 0 <= i < |clips| ==> clips[i].duration >= 0.0
    ensures TotalDuration(clips) >= 0.0
  {
    if clips != [] {
      TotalDurationNonNegative(clips[..|clips| - 1]);
    }
  }

  /** `int(total_duration * PIXELS_PER_SECOND) + 100`, at least the parent's width. */
  function MinimumWidthFor(clips: seq<Clip>, parentWidth: int): (w: int)
    ensures w >= parentWidth
  {
    var w := Trunc(TotalDuration(clips) * Config.PixelsPerSecond) + 100;
    if w >= parentWidth then w else parentWidth
  }

  /** With no negative duration the widget is at least the 100 px margin wide and
      wide enough to show every clip: 50 px per second of total duration. */
  lemma MinimumWidthCoversClips(clips: seq<Clip>, parentWidth: int)
    requires forall i :: 0 <= i < |clips| ==> clips[i].duration >= 0.0
    ensures MinimumWidthFor(clips, parentWidth) >= 100
    ensures MinimumWidthFor(clips, parentWidth) as real > TotalDuration(clips) * Config.PixelsPerSecond
  {
    TotalDurationNonNegative(clips);
  }

  // ---------------------------------------------------------------------------
  // The widget

  class TimelineWidget {
    var clips: seq<Clip>
    var annotations: seq<Annotation>
    /** Thumbnail handles by clip path and frame index. */
    var thumbnails: map<string, map<int, nat>>
    var totalDuration: real
    var playheadPositionSec: real
    var minimumWidth: int
    /** The annotation under a body drag, as an index into `annotations`. */
    var draggingAnnotation: Option<nat>
    /** The annotation under a resize, as an index into `annotations`. */
    var resizingAnnotation: Option<nat>
    var resizeEdge: Option<Edge>
    var dragOffsetX: real
    /** The annotation pressed, kept until the mouse moves. While it is set no
        edit has happened since the press, so its value is the value of the record. */
    var potentialClickAnn: Option<Annotation>
    var draggingClipIndex: Option<nat>
    var cursor: Cursor

    constructor ()
      ensures clips == [] && annotations == [] && thumbnails == map[]
      ensures totalDuration == 0.0 && playheadPositionSec == 0.0
      ensures draggingAnnotation.None? && resizingAnnotation.None? && resizeEdge.None?
      ensures dragOffsetX == 0.0 && potentialClickAnn.None? && draggingClipIndex.None?
      ensures cursor == ArrowCursor
    {
      clips := [];
      annotations := [];
      thumbnails := map[];
      totalDuration := 0.0;
      playheadPositionSec := 0.0;
      minimumWidth := 0;
      draggingAnnotation := None;
      resizingAnnotation := None;
      resizeEdge := None;
      dragOffsetX := 0.0;
      potentialClickAnn := None;
      draggingClipIndex := None;
      cursor := ArrowCursor;
    }

    /** `set_data`; `parentWidth` is the parent's width, or 0 without a parent. */
    method SetData(clipsData: seq<Clip>, annotationsData: seq<Annotation>, parentWidth: int)
      modifies this`clips, this`annotations, this`totalDuration, this`minimumWidth
      ensures clips == clipsData && annotations == annotationsData
      ensures totalDuration == TotalDuration(clipsData)
      ensures minimumWidth == MinimumWidthFor(clipsData, parentWidth)
    {
      clips := clipsData;
      annotations := annotationsData;
      if clips != [] {
        totalDuration := TotalDuration(clips);
      } else {
        totalDuration := 0.0;
      }
      var minWidth := Trunc(totalDuration * Config.PixelsPerSecond) + 100;
      minimumWidth := if minWidth >= parentWidth then minWidth else parentWidth;
    }

    method AddThumbnail(path: string, index: int, pixmap: nat)
      modifies this`thumbnails
      ensures path in thumbnails && index in thumbnails[path] && thumbnails[path][index] == pixmap
      ensures path in old(thumbnails) ==> thumbnails[path] == old(thumbnails)[path][index := pixmap]
      ensures path !in old(thumbnails) ==> thumbnails[path] == map[index := pixmap]
      ensures forall p :: p in old(thumbnails) && p != path ==> p in thumbnails && thumbnails[p] == old(thumbnails)[p]
      ensures thumbnails.Keys == old(thumbnails).Keys + {path}
    {
      if path !in thumbnails {
        thumbnails := thumbnails[path := map[]];
      }
      var frames: map<int, nat> := thumbnails[path];
      thumbnails := thumbnails[path := frames[index := pixmap]];
    }

    method ClearThumbnails()
      modifies this`thumbnails
      ensures thumbnails == map[]
    {
      thumbnails := map[];
    }

    method UpdatePlayheadPosition(seconds: real)
      modifies this`playheadPositionSec
      ensures playheadPositionSec == seconds
    {
      playheadPositionSec := seconds;
    }

    /** `dropEvent`: a skill dropped at horizontal position x. */
    method DropEvent(text: string, x: real)
      modifies this`annotations
      ensures |annotations| == |old(annotations)| + 1
      ensures annotations[..|old(annotations)|] == old(annotations)
      ensures annotations[|old(annotations)|] == Annotation(text, TimeAt(x), DropDuration)
    {
      var startTime := x / Config.PixelsPerSecond;
      annotations := annotations + [Annotation(text, startTime, 5.0)];
    }

    /** The `for ann in reversed(self.annotations)` search of a left press. */
    method HitAnnotation(t: real) returns (hit: Option<nat>)
      ensures hit == LastCovering(annotations, t)
    {
      var i := |annotations|;
      while i > 0
        invariant 0 <= i <= |annotations|
        invariant LastCovering(annotations[..i], t) == LastCovering(annotations, t)
      {
        assert annotations[..i][..i - 1] == annotations[..i - 1];
        if Covers(annotations[i - 1], t) {
          return Some(i - 1);
        }
        i := i - 1;
      }
      return None;
    }

    /** The `for i, clip in enumerate(self.clips)` search of a press on the video track. */
    method HitClip(t: real) returns (hit: Option<nat>)
      ensures hit == FirstClipCovering(clips, t)
    {
      var i := 0;
      while i < |clips|
        invariant 0 <= i <= |clips|
        invariant FirstClipCovering(clips[..i], t) == None
      {
        assert clips[..i + 1][..i] == clips[..i];
        if ClipCovers(clips[i], t) {
          FirstClipPrefix(clips, i + 1, t);
          return Some(i);
        }
        i := i + 1;
      }
      assert clips[..i] == clips;
      return None;
    }

    /** `mousePressEvent` at widget position (x, y). `removeChosen` is whether the
        user picks "remove" in the context menu a right press on a clip opens. */
    method MousePress(button: MouseButton, x: real, y: real, removeChosen: bool) returns (emitted: seq<Signal>)
      modifies this`potentialClickAnn, this`resizingAnnotation, this`resizeEdge,
        this`draggingAnnotation, this`dragOffsetX, this`draggingClipIndex
      // a right press on a clip offers to remove it and changes no state
      ensures button == RightButton ==>
        && unchanged(this)
        && emitted == (
          if VideoTrackTop <= y <= VideoTrackBottom && FirstClipCovering(clips, TimeAt(x)).Some? && removeChosen
          then [ClipRemoveRequested(FirstClipCovering(clips, TimeAt(x)).value)] else [])
      ensures button == OtherButton ==> unchanged(this) && emitted == []
      // a left press on an annotation grabs the last one covering the mouse
      ensures button == LeftButton && y < VideoTrackTop && LastCovering(annotations, TimeAt(x)).Some? ==>
        var i := LastCovering(annotations, TimeAt(x)).value;
        var a := annotations[i];
        && emitted == []
        && potentialClickAnn == Some(a)
        && draggingClipIndex == old(draggingClipIndex)
        && match PressZone(a, TimeAt(x))
          case GrabLeft =>
            resizingAnnotation == Some(i) && resizeEdge == Some(LeftEdge)
            && draggingAnnotation == old(draggingAnnotation) && dragOffsetX == old(dragOffsetX)
          case GrabRight =>
            resizingAnnotation == Some(i) && resizeEdge == Some(RightEdge)
            && draggingAnnotation == old(draggingAnnotation) && dragOffsetX == old(dragOffsetX)
          case GrabBody(offset) =>
            draggingAnnotation == Some(i) && dragOffsetX == offset
            && resizingAnnotation == old(resizingAnnotation) && resizeEdge == old(resizeEdge)
      // otherwise a left press on a clip starts dragging it, and anywhere else seeks
      ensures button == LeftButton && !(y < VideoTrackTop && LastCovering(annotations, TimeAt(x)).Some?) ==>
        && potentialClickAnn == (if y < VideoTrackTop then None else old(potentialClickAnn))
        && resizingAnnotation == old(resizingAnnotation) && resizeEdge == old(resizeEdge)
        && draggingAnnotation == old(draggingAnnotation) && dragOffsetX == old(dragOffsetX)
        && if VideoTrackTop <= y <= VideoTrackBottom && FirstClipCovering(clips, TimeAt(x)).Some? then
             draggingClipIndex == FirstClipCovering(clips, TimeAt(x)) && emitted == []
           else
             draggingClipIndex == old(draggingClipIndex) && emitted == [SeekRequested(TimeAt(x))]
    {
      var clickTime := x / Config.PixelsPerSecond;
      emitted := [];
      if button == RightButton {
        if VideoTrackTop <= y && y <= VideoTrackBottom {
          var hit := HitClip(clickTime);
          if hit.Some? {
            if removeChosen {
              emitted := [ClipRemoveRequested(hit.value)];
            }
            return;
          }
        }
        return;
      }
      if button != LeftButton {
        return;
      }
      if y < Config.RulerHeight + Config.AnnotationTrackHeight {
        potentialClickAnn := None;
        var hit := HitAnnotation(clickTime);
        if hit.Some? {
          var ann := annotations[hit.value];
          potentialClickAnn := Some(ann);
          if clickTime < ann.startTime + EdgeThreshold {
            resizingAnnotation, resizeEdge := hit, Some(LeftEdge);
          } else if clickTime > ann.startTime + ann.duration - EdgeThreshold {
            resizingAnnotation, resizeEdge := hit, Some(RightEdge);
          } else {
            draggingAnnotation, dragOffsetX := hit, clickTime - ann.startTime;
          }
          return;
        }
      }
      if VideoTrackTop <= y && y <= VideoTrackBottom {
        var hit := HitClip(clickTime);
        if hit.Some? {
          draggingClipIndex := hit;
          return;
        }
      }
      emitted := [SeekRequested(clickTime)];
    }

    /** The cursor loop of a free move: is the mouse near an edge of some annotation? */
    method OnAnyEdge(t: real) returns (onEdge: bool)
      ensures onEdge <==> exists i :: 0 <= i < |annotations| && NearEdge(annotations[i], t)
    {
      onEdge := false;
      var i := 0;
      while i < |annotations|
        invariant 0 <= i <= |annotations|
        invariant forall j :: 0 <= j < i ==> !NearEdge(annotations[j], t)
      {
        if NearEdge(annotations[i], t) {
          onEdge := true;
          break;
        }
        i := i + 1;
      }
    }

    /** `mouseMoveEvent` at horizontal position x: the pending click is dropped and
        the grabbed annotation, if any, follows the mouse. */
    method MouseMove(x: real)
      modifies this`potentialClickAnn, this`annotations, this`cursor
      ensures potentialClickAnn.None?
      ensures |annotations| == |old(annotations)|
      ensures draggingAnnotation.Some? ==>
        && cursor == old(cursor)
        && annotations == (if draggingAnnotation.value < |annotations| then
             old(annotations)[draggingAnnotation.value :=
               Dragged(old(annotations)[draggingAnnotation.value], TimeAt(x), dragOffsetX)]
           else old(annotations))
      ensures draggingAnnotation.None? && resizingAnnotation.Some? ==>
        var i := resizingAnnotation.value;
        && cursor == old(cursor)
        && annotations == (if i < |annotations| && resizeEdge == Some(LeftEdge) then
             old(annotations)[i := ResizedLeft(old(annotations)[i], TimeAt(x))]
           else if i < |annotations| && resizeEdge == Some(RightEdge) then
             old(annotations)[i := ResizedRight(old(annotations)[i], TimeAt(x))]
           else old(annotations))
      ensures draggingAnnotation.None? && resizingAnnotation.None? ==>
        && annotations == old(annotations)
        && cursor == (
          if draggingClipIndex.Some? then ClosedHandCursor
          else if exists i :: 0 <= i < |annotations| && NearEdge(annotations[i], TimeAt(x)) then SizeHorCursor
          else ArrowCursor)
    {
      potentialClickAnn := None;
      var currentTime := x / Config.PixelsPerSecond;
      if draggingAnnotation.Some? {
        var i := draggingAnnotation.value;
        if i < |annotations| {
          var ann := annotations[i];
          annotations := annotations[i := ann.(startTime := MaxReal(0.0, currentTime - dragOffsetX))];
        }
      } else if resizingAnnotation.Some? {
        var i := resizingAnnotation.value;
        if i < |annotations| {
          var ann := annotations[i];
          if resizeEdge == Some(LeftEdge) {
            var newEnd := ann.startTime + ann.duration;
            ann := ann.(startTime := MaxReal(0.0, currentTime));
            ann := ann.(duration := MaxReal(MinDuration, newEnd - ann.startTime));
            annotations := annotations[i := ann];
          } else if resizeEdge == Some(RightEdge) {
            ann := ann.(duration := MaxReal(MinDuration, currentTime - ann.startTime));
            annotations := annotations[i := ann];
          }
        }
      } else if draggingClipIndex.Some? {
        cursor := ClosedHandCursor;
      } else {
        var onEdge := OnAnyEdge(currentTime);
        cursor := if onEdge then SizeHorCursor else ArrowCursor;
      }
    }

    /** The `new_index` loop of a release after a clip drag. */
    method ClipsBeforeDrop(t: real) returns (newIndex: nat)
      ensures newIndex == ClipsBefore(clips, t)
    {
      newIndex := 0;
      var i := 0;
      while i < |clips|
        invariant 0 <= i <= |clips|
        invariant newIndex == i
        invariant ClipsBefore(clips[..i], t) == i
      {
        assert clips[..i + 1][..i] == clips[..i];
        if t < Midpoint(clips[i]) {
          newIndex := i;
          ClipsBeforePrefix(clips, i + 1, t);
          return;
        }
        newIndex := i + 1;
        i := i + 1;
      }
      assert clips[..i] == clips;
    }

    /** `mouseReleaseEvent` at horizontal position x. */
    method MouseRelease(x: real) returns (emitted: seq<Signal>)
      modifies this`draggingClipIndex, this`cursor, this`draggingAnnotation,
        this`resizingAnnotation, this`potentialClickAnn
      ensures var reorder :=
          if old(draggingClipIndex).Some? && DropIndex(clips, TimeAt(x)) != old(draggingClipIndex).value as int
          then [ClipReorderRequested(old(draggingClipIndex).value, DropIndex(clips, TimeAt(x)))] else [];
        var seek :=
          if old(potentialClickAnn).Some? then [SeekRequested(old(potentialClickAnn).value.startTime)] else [];
        emitted == reorder + seek
      ensures cursor == if old(draggingClipIndex).Some? then ArrowCursor else old(cursor)
      ensures draggingClipIndex.None? && draggingAnnotation.None?
      ensures resizingAnnotation.None? && potentialClickAnn.None?
    {
      emitted := [];
      if draggingClipIndex.Some? {
        var dropTime := x / Config.PixelsPerSecond;
        var before := ClipsBeforeDrop(dropTime);
        var newIndex: int := if before < |clips| - 1 then before else |clips| - 1;
        if newIndex != draggingClipIndex.value as int {
          emitted := emitted + [ClipReorderRequested(draggingClipIndex.value, newIndex)];
        }
        draggingClipIndex := None;
        cursor := ArrowCursor;
      }
      if potentialClickAnn.Some? {
        emitted := emitted + [SeekRequested(potentialClickAnn.value.startTime)];
      }
      draggingAnnotation, resizingAnnotation, potentialClickAnn := None, None, None;
    }
  }

  lemma {:induction false} FirstClipPrefix(clips: seq<Clip>, k: nat, t: real)
    requires 0 < k <= |clips|
    requires FirstClipCovering(clips[..k - 1], t) == None && ClipCovers(clips[k - 1], t)
    ensures FirstClipCovering(clips, t) == Some(k - 1)
  {
    assert clips[..k][..k - 1] == clips[..k - 1];
    assert FirstClipCovering(clips[..k], t) == Some(k - 1);
  }

  lemma {:induction false} ClipsBeforePrefix(clips: seq<Clip>, k: nat, t: real)
    requires 0 < k <= |clips|
    requires ClipsBefore(clips[..k - 1], t) == k - 1 && t < Midpoint(clips[k - 1])
    ensures ClipsBefore(clips, t) == k - 1
  {
    forall j | 0 <= j < k - 1 ensures !(t < Midpoint(clips[j])) {
      assert clips[..k - 1][j] == clips[j];
    }
  }
}
