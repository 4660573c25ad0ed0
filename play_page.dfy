/** The two-variant play page (app/kiosk/play/page.tsx): it loads the V1 and V2
    timelines, lets the viewer switch between them, and runs the same
    animation-frame clock as the player over the selected timeline. */
module PlayPage {
  import opened Common
  import opened TimelineModel
  import opened Scheduler
  import FrameClock

  /** `currentTimeline`: the timeline of the selected variant, if it has loaded. */
  function Selected(v1: Option<Timeline>, v2: Option<Timeline>, variant: Variant): Option<Timeline>
  {
    if variant == V1 then v1 else v2
  }

  /** `totalFrames`: 30 seconds of the selected timeline, or 900 while none is loaded. */
  function TotalFrames(tl: Option<Timeline>): int
  {
    if tl.Some? then tl.value.canvas.fps * 30 else 900
  }

  /** `frameInterval` in milliseconds: `1000 / fps`, or 33 while no timeline is loaded. */
  function FrameInterval(tl: Option<Timeline>): real
    requires tl.Some? ==> tl.value.canvas.fps > 0
  {
    if tl.Some? then 1000.0 / tl.value.canvas.fps as real else 33.0
  }

  /** A loaded timeline the page can schedule: positive frame rate. */
  predicate Playable(tl: Option<Timeline>)
  {
    tl.Some? ==> tl.value.canvas.fps > 0
  }

  /** The loop has at least one frame whether or not a timeline is loaded. */
  lemma LoopIsNonEmpty(tl: Option<Timeline>)
    requires Playable(tl)
    ensures TotalFrames(tl) >= 30
    ensures tl.None? ==> TotalFrames(tl) == 900 && FrameInterval(tl) == 33.0
  {
  }

  /** `getCurrentScene()`: no scene without a timeline, else the scheduler's scene. */
  function PageScene(tl: Option<Timeline>, frame: int): (r: Option<Scene>)
    requires Playable(tl)
    ensures tl.None? ==> r.None?
    ensures tl.Some? ==> r == CurrentScene(frame, tl.value.scenes, tl.value.canvas.fps)
  {
    if tl.None? then None else CurrentScene(frame, tl.value.scenes, tl.value.canvas.fps)
  }

  /** The montage branch's own progress `(timeInSeconds - start) / dur`, without the clamp. */
  function MontageProgress(frame: int, s: Scene, fps: int): real
    requires fps > 0 && s.dur != 0.0
  {
    (TimeAt(frame, fps) - s.start) / s.dur
  }

  /** Inside the active scene's window the unclamped progress is the scheduler's clamped
      progress, so the page picks the same slate as the player. */
  lemma MontageProgressIsSceneProgress(frame: int, s: Scene, fps: int)
    requires fps > 0 && Contains(s, TimeAt(frame, fps))
    ensures s.dur > 0.0
    ensures MontageProgress(frame, s, fps) == SceneProgress(frame, s, fps)
  {
    ProgressOfContainingScene(frame, s, fps);
  }

  /** `renderScene()` for an active scene: plain text and a fixed 2 by 3 grid, no
      `Copy`, no spin frame number. */
  function SceneView(s: Scene, frame: int, fps: int): View
    requires fps > 0 && Contains(s, TimeAt(frame, fps))
  {
    if s.kind == "brand" then Brand
    else if s.kind == "copy" then CopyText(None)
    else if s.kind == "montage" then
      ProgressOfContainingScene(frame, s, fps);
      Montage(ClampedSlate(s.slates, SlateIndex(MontageProgress(frame, s, fps), s.slates)), None)
    else if s.kind == "spin" then Spin(None)
    else if s.kind == "grid" then Grid(2, 3, None)
    else if s.kind == "cta" then Cta(None)
    else Unknown("Unknown scene: " + s.kind)
  }

  /** What the page shows: a loading message, a missing-timeline message, the
      `Loading Scene...` placeholder, or the active scene. */
  function Screen(isLoading: bool, tl: Option<Timeline>, frame: int): View
    requires Playable(tl)
  {
    if isLoading then Placeholder("Loading Foot Locker Kiosk...")
    else if tl.None? then Placeholder("Timeline not available")
    else match PageScene(tl, frame)
      case None => Placeholder("Loading Scene...")
      case Some(s) => SceneView(s, frame, tl.value.canvas.fps)
  }

  /** The page shows a scene branch exactly when it has finished loading, has the selected
      timeline and a scene is active at the frame, and the unknown-type fallback exactly
      when that scene's type is not one of the six. */
  lemma ScreenBranches(isLoading: bool, tl: Option<Timeline>, frame: int)
    requires Playable(tl)
    ensures var r := Screen(isLoading, tl, frame);
      && (IsSceneBranch(r) <==> !isLoading && tl.Some? && PageScene(tl, frame).Some? && KnownKind(PageScene(tl, frame).value.kind))
      && (r.Unknown? <==> !isLoading && tl.Some? && PageScene(tl, frame).Some? && !KnownKind(PageScene(tl, frame).value.kind))
      && (isLoading ==> r == Placeholder("Loading Foot Locker Kiosk..."))
  {
  }

  /** The page's state: the two loaded timelines, the selected variant, the loading flag,
      the clock (`currentFrame`, `lastTimeRef`), `isPlaying`, and whether an animation-frame
      callback is scheduled. */
  class Page {
    var timelineV1: Option<Timeline>
    var timelineV2: Option<Timeline>
    var selectedVariant: Variant
    var isLoading: bool
    var currentFrame: int
    var isPlaying: bool
    var lastTime: real
    var scheduled: bool

    function Current(): Option<Timeline>
      reads this
    {
      Selected(timelineV1, timelineV2, selectedVariant)
    }

    /** Loaded timelines have a positive frame rate, the frame is never negative, and a
        callback is pending exactly while playing with the selected timeline loaded. */
    ghost predicate Valid()
      reads this
    {
      Playable(timelineV1) && Playable(timelineV2)
      && 0 <= currentFrame
      && scheduled == (isPlaying && Current().Some?)
    }

    /** The frame lies inside the selected loop. */
    ghost predicate InLoop()
      reads this
    {
      0 <= currentFrame < TotalFrames(Current())
    }

    constructor()
      ensures Valid() && InLoop()
      ensures timelineV1.None? && timelineV2.None? && selectedVariant == V1
      ensures isLoading && currentFrame == 0 && isPlaying && lastTime == 0.0 && !scheduled
    {
      timelineV1 := None;
      timelineV2 := None;
      selectedVariant := V1;
      isLoading := true;
      currentFrame := 0;
      isPlaying := true;
      lastTime := 0.0;
      scheduled := false;
    }

    /** `loadTimelines()`: both timelines arrive together, or (on any failure) neither;
        loading ends either way. */
    method Load(fetched: Option<(Timeline, Timeline)>)
      requires Valid()
      requires fetched.Some? ==> fetched.value.0.canvas.fps > 0 && fetched.value.1.canvas.fps > 0
      modifies this
      ensures Valid()
      ensures !isLoading
      ensures fetched.Some? ==> timelineV1 == Some(fetched.value.0) && timelineV2 == Some(fetched.value.1)
      ensures fetched.None? ==> timelineV1 == old(timelineV1) && timelineV2 == old(timelineV2)
      ensures selectedVariant == old(selectedVariant) && isPlaying == old(isPlaying)
      ensures currentFrame == old(currentFrame) && lastTime == old(lastTime)
    {
      if fetched.Some? {
        timelineV1 := Some(fetched.value.0);
        timelineV2 := Some(fetched.value.1);
      }
      isLoading := false;
      scheduled := isPlaying && Current().Some?;
    }

    /** A variant button: switch timelines; the frame number carries over, and the effect
        reschedules the clock for the new timeline. */
    method SelectVariant(v: Variant)
      requires Valid()
      modifies this
      ensures Valid()
      ensures selectedVariant == v
      ensures timelineV1 == old(timelineV1) && timelineV2 == old(timelineV2) && isLoading == old(isLoading)
      ensures currentFrame == old(currentFrame) && lastTime == old(lastTime) && isPlaying == old(isPlaying)
      ensures old(InLoop()) && TotalFrames(old(Current())) <= TotalFrames(Current()) ==> InLoop()
    {
      selectedVariant := v;
      scheduled := isPlaying && Current().Some?;
    }

    /** `updateFrame(timestamp)` over the selected timeline's loop length and interval. */
    method OnAnimationFrame(timestamp: real)
      requires Valid() && scheduled
      modifies this
      ensures Valid()
      ensures FrameClock.Clock(currentFrame, lastTime) ==
        FrameClock.Step(FrameClock.Clock(old(currentFrame), old(lastTime)), timestamp,
                        FrameInterval(Current()), TotalFrames(Current()))
      ensures old(InLoop()) ==> InLoop()
      ensures FrameClock.Advances(FrameClock.Clock(old(currentFrame), old(lastTime)), timestamp, FrameInterval(Current())) ==> InLoop()
      ensures timelineV1 == old(timelineV1) && timelineV2 == old(timelineV2) && selectedVariant == old(selectedVariant)
      ensures isPlaying == old(isPlaying) && isLoading == old(isLoading)
    {
      var total := TotalFrames(Current());
      var interval := FrameInterval(Current());
      if lastTime == 0.0 {
        lastTime := timestamp;
      }
      var deltaTime := timestamp - lastTime;
      if deltaTime >= interval {
        currentFrame := JsRem(currentFrame + 1, total);
        lastTime := timestamp;
      }
      scheduled := isPlaying;
    }

    /** `handlePlayPause`. */
    method PlayPause()
      requires Valid()
      modifies this
      ensures Valid()
      ensures isPlaying == !old(isPlaying)
      ensures currentFrame == old(currentFrame) && lastTime == old(lastTime)
      ensures timelineV1 == old(timelineV1) && timelineV2 == old(timelineV2) && selectedVariant == old(selectedVariant)
    {
      isPlaying := !isPlaying;
      scheduled := isPlaying && Current().Some?;
    }

    /** `handleRestart`: frame 0, clock unseeded, playing. */
    method Restart()
      requires Valid()
      modifies this
      ensures Valid() && InLoop()
      ensures currentFrame == 0 && lastTime == 0.0 && isPlaying
      ensures timelineV1 == old(timelineV1) && timelineV2 == old(timelineV2) && selectedVariant == old(selectedVariant)
    {
      currentFrame := 0;
      lastTime := 0.0;
      isPlaying := true;
      scheduled := Current().Some?;
    }

    /** What the page shows now. */
    function View(): View
      reads this
      requires Playable(Current())
    {
      Screen(isLoading, Current(), currentFrame)
    }
  }
}
