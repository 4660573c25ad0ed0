/** The single-variant fallback page (app/kiosk/working/page.tsx): it loads the V1
    timeline, advances the frame on a fixed-period interval and draws each scene type
    as plain text. Unlike the other drivers it reads the frame rate defensively,
    `timeline.canvas?.fps || 30`, except in the time it derives for montage slates. */
module WorkingPage {
  import opened Common
  import opened TimelineModel
  import opened Scheduler

  /** The fields of the fetched JSON that this page reads: `canvas?.fps` (absent when the
      canvas or its `fps` is missing) and `scenes?`. */
  datatype Loaded = Loaded(fps: Option<int>, scenes: Option<seq<Scene>>)

  /** `timeline.canvas?.fps || 30`: a missing or zero frame rate falls back to 30. */
  function EffectiveFps(tl: Loaded): (fps: int)
    ensures fps != 0
    ensures tl.fps.Some? && tl.fps.value != 0 ==> fps == tl.fps.value
  {
    OrInt(tl.fps, 30)
  }

  /** `fps * 30`: never zero, so the interval's `% totalFrames` is always defined. */
  function TotalFrames(tl: Loaded): (n: int)
    ensures n != 0
  {
    EffectiveFps(tl) * 30
  }

  /** `getCurrentScene()` at the defensive frame rate. */
  function PageScene(tl: Option<Loaded>, frame: int): (r: Option<Scene>)
    requires tl.Some? ==> EffectiveFps(tl.value) > 0
    ensures tl.None? || tl.value.scenes.None? ==> r.None?
    ensures tl.Some? && tl.value.scenes.Some? ==>
      r == CurrentScene(frame, tl.value.scenes.value, EffectiveFps(tl.value))
  {
    if tl.None? || tl.value.scenes.None? then None
    else CurrentScene(frame, tl.value.scenes.value, EffectiveFps(tl.value))
  }

  /** The montage slate as the page computes it: from `timeInSeconds = frame /
      timeline.canvas.fps`, the raw frame rate. With the rate missing the time is NaN
      and no slate is shown; with a zero rate and a positive frame the time is
      +Infinity and the clamp picks the last slate; `0 / 0` is NaN again. */
  function MontageSlateAsWritten(frame: int, rawFps: Option<int>, s: Scene): Option<string>
    requires s.dur > 0.0
  {
    if rawFps.Some? && rawFps.value != 0 then
      var t := frame as real / rawFps.value as real;
      ClampedSlate(s.slates, SlateIndex((t - s.start) / s.dur, s.slates))
    else if rawFps == Some(0) && frame > 0 then
      // +Infinity: Math.floor gives +Infinity and Math.min the last position; -Infinity
      // and NaN index no slate.
      var xs := if s.slates.Some? then s.slates.value else [];
      if |xs| > 0 then Some(xs[|xs| - 1]) else None
    else None
  }

  /** The montage slate at the frame rate the scene was looked up with. */
  function MontageSlate(frame: int, fps: int, s: Scene): (r: Option<string>)
    requires fps > 0 && Contains(s, TimeAt(frame, fps))
    ensures s.slates.Some? && |s.slates.value| > 0 ==> r.Some? && r.value in s.slates.value
  {
    ProgressOfContainingScene(frame, s, fps);
    SlateIndexInRange(SceneProgress(frame, s, fps), s.slates);
    ClampedSlate(s.slates, SlateIndex((TimeAt(frame, fps) - s.start) / s.dur, s.slates))
  }

  /** With a frame rate present and non-zero the two agree. */
  lemma MontageSlateAgreesWithRawFps(frame: int, fps: int, s: Scene)
    requires fps > 0 && Contains(s, TimeAt(frame, fps))
    ensures MontageSlateAsWritten(frame, Some(fps), s) == MontageSlate(frame, fps, s)
  {
  }

  /** A timeline whose canvas has no `fps`: the scene at frame 0 is found at the fallback
      rate, yet the raw-rate time is NaN and no slate is shown, where the slate of the
      scene's first share was evidently intended. A zero rate shows the last slate at
      frame 1 instead of the first. */
  lemma MontageSlateWithoutFps()
    ensures var s := Scene("m", 0.0, 5.0, "montage", Some(["A", "B"]), None, None, None, None, None, false, false);
      var tl := Loaded(None, Some([s]));
      && PageScene(Some(tl), 0) == Some(s)
      && MontageSlateAsWritten(0, tl.fps, s) == None
      && Screen(false, None, Some(tl), 0) == Montage(None, None)
      && MontageSlate(0, EffectiveFps(tl), s) == Some("A")
      && MontageSlateAsWritten(1, Some(0), s) == Some("B")
      && MontageSlate(1, EffectiveFps(Loaded(Some(0), Some([s]))), s) == Some("A")
  {
    var s := Scene("m", 0.0, 5.0, "montage", Some(["A", "B"]), None, None, None, None, None, false, false);
    assert Contains(s, TimeAt(0, 30));
    FirstMatchIsFound(0, [s], 30, 0);
    assert TimeAt(1, 30) == 1.0 / 30.0;
    assert (1.0 / 30.0 - 0.0) / 5.0 * 2.0 == 1.0 / 75.0;
  }

  /** `renderScene()` for the active scene, found at the fallback rate; the montage slate
      comes from the raw-rate time of line 54. */
  function SceneView(s: Scene, frame: int, tl: Loaded): View
    requires EffectiveFps(tl) > 0 && Contains(s, TimeAt(frame, EffectiveFps(tl)))
  {
    if s.kind == "brand" then Brand
    else if s.kind == "copy" then CopyText(None)
    else if s.kind == "montage" then Montage(MontageSlateAsWritten(frame, tl.fps, s), None)
    else if s.kind == "spin" then Spin(None)
    else if s.kind == "grid" then Grid(2, 3, None)
    else if s.kind == "cta" then Cta(None)
    else Unknown("Unknown scene: " + s.kind)
  }

  /** What the page shows: loading message, error message, `No Scene`, or the scene. An
      empty error message is falsy and does not stop the scene from showing. */
  function Screen(loading: bool, error: Option<string>, tl: Option<Loaded>, frame: int): View
    requires tl.Some? ==> EffectiveFps(tl.value) > 0
  {
    if loading then Placeholder("Loading Foot Locker Kiosk...")
    else if error.Some? && error.value != "" then Placeholder("Error: " + error.value)
    else match PageScene(tl, frame)
      case None => Placeholder("No Scene")
      case Some(s) => SceneView(s, frame, tl.value)
  }

  /** Loading and error messages take precedence; an unknown type takes the fallback; a
      montage with slates shows one of them when the canvas declares a positive frame
      rate, and none when it declares no rate. */
  lemma ScreenBranches(loading: bool, error: Option<string>, tl: Option<Loaded>, frame: int)
    requires tl.Some? ==> EffectiveFps(tl.value) > 0
    ensures var r := Screen(loading, error, tl, frame);
      && (loading ==> r == Placeholder("Loading Foot Locker Kiosk..."))
      && (!loading && error.Some? && error.value != "" ==> r == Placeholder("Error: " + error.value))
      && (IsSceneBranch(r) <==> !loading && (error.None? || error.value == "") && PageScene(tl, frame).Some? && KnownKind(PageScene(tl, frame).value.kind))
      && (r.Montage? && tl.value.fps.Some? && tl.value.fps.value > 0
          && PageScene(tl, frame).value.slates.Some? && |PageScene(tl, frame).value.slates.value| > 0 ==>
            r.slate.Some? && r.slate.value in PageScene(tl, frame).value.slates.value)
      && (r.Montage? && tl.value.fps.None? ==> r.slate.None?)
  {
    var r := Screen(loading, error, tl, frame);
    if r.Montage? && tl.value.fps.Some? && tl.value.fps.value > 0 {
      var s := PageScene(tl, frame).value;
      MontageSlateAgreesWithRawFps(frame, tl.value.fps.value, s);
    }
  }

  /** The page's state. `ticking` is whether the `setInterval` is installed. */
  class Page {
    var currentFrame: int
    var isPlaying: bool
    var timeline: Option<Loaded>
    var loading: bool
    var error: Option<string>
    var ticking: bool

    /** The frame is never negative; the interval runs exactly while playing with a timeline. */
    ghost predicate Valid()
      reads this
    {
      0 <= currentFrame && ticking == (isPlaying && timeline.Some?)
    }

    constructor()
      ensures Valid()
      ensures currentFrame == 0 && isPlaying && timeline.None? && loading && error.None? && !ticking
    {
      currentFrame := 0;
      isPlaying := true;
      timeline := None;
      loading := true;
      error := None;
      ticking := false;
    }

    /** `loadTimeline()`: a successful response sets the timeline, a failed one the error
        message; loading ends either way. */
    method Load(response: Option<Loaded>, message: string)
      requires Valid()
      modifies this
      ensures Valid() && !loading
      ensures response.Some? ==> timeline == response && error == old(error)
      ensures response.None? ==> error == Some(message) && timeline == old(timeline)
      ensures currentFrame == old(currentFrame) && isPlaying == old(isPlaying)
    {
      if response.Some? {
        timeline := response;
      } else {
        error := Some(message);
      }
      loading := false;
      ticking := isPlaying && timeline.Some?;
    }

    /** One interval tick: `(prev + 1) % totalFrames`. */
    method Tick()
      requires Valid() && ticking
      modifies this
      ensures Valid()
      ensures isPlaying == old(isPlaying) && timeline == old(timeline) && loading == old(loading) && error == old(error)
      ensures currentFrame == JsRem(old(currentFrame) + 1, TotalFrames(timeline.value))
      ensures 0 <= currentFrame < (if TotalFrames(timeline.value) < 0 then -TotalFrames(timeline.value) else TotalFrames(timeline.value))
    {
      currentFrame := JsRem(currentFrame + 1, TotalFrames(timeline.value));
    }

    /** The play/pause button; the effect installs or clears the interval. */
    method PlayPause()
      requires Valid()
      modifies this
      ensures Valid()
      ensures isPlaying == !old(isPlaying) && currentFrame == old(currentFrame)
      ensures timeline == old(timeline) && loading == old(loading) && error == old(error)
    {
      isPlaying := !isPlaying;
      ticking := isPlaying && timeline.Some?;
    }

    /** The restart button: `setCurrentFrame(0)` only; playing or paused stays as it was. */
    method Restart()
      requires Valid()
      modifies this
      ensures Valid()
      ensures currentFrame == 0
      ensures isPlaying == old(isPlaying) && ticking == old(ticking)
      ensures timeline == old(timeline) && loading == old(loading) && error == old(error)
    {
      currentFrame := 0;
    }
  }
}
