/** The live preview player (app/kiosk/play/KioskPlayer.tsx): one timeline and variant,
    a 30-second loop of `fps * 30` frames driven by the animation-frame clock, with
    play/pause and restart controls. */
module KioskPlayer {
  import opened Common
  import opened Text
  import opened TimelineModel
  import opened Scheduler
  import FrameClock

  /** `timeline.canvas.fps * 30`: the loop is 30 seconds long. */
  function TotalFrames(fps: int): int
  {
    fps * 30
  }

  /** `1000 / timeline.canvas.fps`, in milliseconds. */
  function FrameInterval(fps: int): real
    requires fps > 0
  {
    1000.0 / fps as real
  }

  /** `totalFrames / fps` is 30 seconds and `fps` frame intervals make one second. */
  lemma LoopTiming(fps: int)
    requires fps > 0
    ensures TotalFrames(fps) as real / fps as real == 30.0
    ensures TotalFrames(fps) > 0
    ensures FrameInterval(fps) * fps as real == 1000.0
  {
  }

  /** The progress bar's fraction `timeInSeconds / totalSeconds` (with `totalSeconds`
      30, as LoopTiming shows) is `frame / totalFrames`, in [0, 1) inside the loop. */
  lemma ProgressBarFraction(frame: int, fps: int)
    requires fps > 0 && 0 <= frame < TotalFrames(fps)
    ensures TimeAt(frame, fps) / 30.0 == frame as real / TotalFrames(fps) as real
    ensures 0.0 <= frame as real / TotalFrames(fps) as real < 1.0
  {
    var f := fps as real;
    var n := TotalFrames(fps) as real;
    assert n == f * 30.0;
    assert TimeAt(frame, fps) == frame as real / f;
    DivideTwice(frame as real, f, 30.0);
    DivideStrict(frame as real, n, n);
    assert n / n == 1.0;
    DivideMonotone(0.0, frame as real, n);
  }

  lemma DivideTwice(x: real, a: real, b: real)
    requires a > 0.0 && b > 0.0
    ensures x / a / b == x / (a * b)
  {
    var q := x / a / b;
    assert q * b == x / a;
    assert q * b * a == x;
    assert q * (a * b) == x;
  }

  /** The branch `renderScene` takes for the active scene s at progress p. */
  function SceneView(s: Scene, p: real, v: Variant): View
  {
    if s.kind == "brand" then Brand
    else if s.kind == "copy" then
      CopyText(Some(CopyStyle("headline", OrString(s.animation, "slideUp"), v == V2 && s.gradient)))
    else if s.kind == "montage" then
      Montage(ClampedSlate(s.slates, SlateIndex(p, s.slates)),
              Some(CopyStyle("headline", if v == V2 then "explode" else "slideUp", v == V2)))
    else if s.kind == "spin" then Spin(Some(SpinFrame(p, s.frames)))
    else if s.kind == "grid" then
      Grid(OrInt(s.columns, 2), OrInt(s.rows, 3), Some(OrString(s.animationType, "stagger")))
    else if s.kind == "cta" then
      Cta(Some(CopyStyle("headline", OrString(s.animation, "pulse"), v == V2 && s.gradientText)))
    else Unknown("Unknown scene: " + s.kind)
  }

  /** What the player shows at a frame. */
  function Render(frame: int, tl: Timeline, v: Variant): View
    requires tl.canvas.fps > 0
  {
    var (scene, progress) := Lookup(frame, tl.scenes, tl.canvas.fps);
    if scene.None? then Placeholder("Loading...") else SceneView(scene.value, progress, v)
  }

  /** The montage slate is always a declared slate when the scene has any: the clamp
      keeps the index inside the list. */
  lemma MontageSlateIsDeclared(frame: int, tl: Timeline, v: Variant)
    requires tl.canvas.fps > 0
    requires var cur := CurrentScene(frame, tl.scenes, tl.canvas.fps);
      cur.Some? && cur.value.kind == "montage" && cur.value.slates.Some? && |cur.value.slates.value| > 0
    ensures var s := CurrentScene(frame, tl.scenes, tl.canvas.fps).value;
      var i := SlateIndex(SceneProgress(frame, s, tl.canvas.fps), s.slates);
      && 0 <= i < |s.slates.value|
      && Render(frame, tl, v) == Montage(Some(s.slates.value[i]), Some(CopyStyle("headline", if v == V2 then "explode" else "slideUp", v == V2)))
  {
    var s := CurrentScene(frame, tl.scenes, tl.canvas.fps).value;
    ProgressOfContainingScene(frame, s, tl.canvas.fps);
    SlateIndexInRange(SceneProgress(frame, s, tl.canvas.fps), s.slates);
  }

  /** The player's state: React's `currentFrame` and `isPlaying`, `lastTimeRef` and
      whether an animation-frame callback is scheduled (`animationFrameRef` not cancelled). */
  class Player {
    const timeline: Timeline
    const variant: Variant
    var currentFrame: int
    var isPlaying: bool
    var lastTime: real
    var scheduled: bool

    /** The frame stays inside the loop, and a callback is pending exactly while playing. */
    ghost predicate Valid()
      reads this
    {
      timeline.canvas.fps > 0
      && 0 <= currentFrame < TotalFrames(timeline.canvas.fps)
      && scheduled == isPlaying
    }

    /** The first render: frame 0, playing, clock unseeded; the effect schedules a callback. */
    constructor(tl: Timeline, v: Variant)
      requires tl.canvas.fps > 0
      ensures Valid()
      ensures timeline == tl && variant == v
      ensures currentFrame == 0 && isPlaying && lastTime == 0.0
    {
      timeline := tl;
      variant := v;
      currentFrame := 0;
      isPlaying := true;
      lastTime := 0.0;
      scheduled := true;
    }

    function Clock(): FrameClock.Clock
      reads this
    {
      FrameClock.Clock(currentFrame, lastTime)
    }

    /** `updateFrame(timestamp)`: seed the clock, advance one frame per elapsed interval
        (wrapping at the loop length) and schedule the next callback while playing. */
    method OnAnimationFrame(timestamp: real)
      requires Valid() && scheduled
      modifies this
      ensures Valid()
      ensures Clock() == FrameClock.Step(old(Clock()), timestamp, FrameInterval(timeline.canvas.fps), TotalFrames(timeline.canvas.fps))
      ensures isPlaying == old(isPlaying)
    {
      var fps := timeline.canvas.fps;
      if lastTime == 0.0 {
        lastTime := timestamp;
      }
      var deltaTime := timestamp - lastTime;
      if deltaTime >= FrameInterval(fps) {
        currentFrame := JsRem(currentFrame + 1, TotalFrames(fps));
        lastTime := timestamp;
      }
      scheduled := isPlaying;
    }

    /** `handlePlayPause`: toggle playing; the effect schedules or cancels the callback. */
    method PlayPause()
      requires Valid()
      modifies this
      ensures Valid()
      ensures isPlaying == !old(isPlaying)
      ensures currentFrame == old(currentFrame) && lastTime == old(lastTime)
    {
      isPlaying := !isPlaying;
      scheduled := isPlaying;
    }

    /** `handleRestart`: back to frame 0 with the clock unseeded, playing. */
    method Restart()
      requires Valid()
      modifies this
      ensures Valid()
      ensures currentFrame == 0 && lastTime == 0.0 && isPlaying
    {
      currentFrame := 0;
      lastTime := 0.0;
      isPlaying := true;
      scheduled := true;
    }

    /** What the player shows now. */
    function View(): View
      reads this
      requires timeline.canvas.fps > 0
    {
      Render(currentFrame, timeline, variant)
    }
  }

  /** From a valid state, any run of callbacks shows the frame after as many advances
      as intervals elapsed, modulo the loop: the player cycles through every frame in order. */
  lemma PlayerRunCycles(frame: int, lastTime: real, stamps: seq<real>, fps: int)
    requires fps > 0 && 0 <= frame < TotalFrames(fps)
    ensures var c := FrameClock.Clock(frame, lastTime);
      var r := FrameClock.Run(c, stamps, FrameInterval(fps), TotalFrames(fps));
      && 0 <= r.frame < TotalFrames(fps)
      && r.frame == (frame + FrameClock.AdvanceCount(c, stamps, FrameInterval(fps), TotalFrames(fps))) % TotalFrames(fps)
  {
    FrameClock.RunCountsAdvances(FrameClock.Clock(frame, lastTime), stamps, FrameInterval(fps), TotalFrames(fps));
  }
}
