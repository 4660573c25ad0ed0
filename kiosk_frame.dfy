/** The deterministic render target of the exporter (app/kiosk/preview/KioskFrame.tsx):
    given a frame index, a variant and a timeline it shows the active scene at that
    frame's time, or a "no scene" message. */
module KioskFrame {
  import opened Common
  import opened Text
  import opened TimelineModel
  import opened Scheduler

  /** The branch `renderScene` takes for the active scene s at progress p. */
  function SceneView(s: Scene, p: real, v: Variant): View
  {
    if s.kind == "brand" then Brand
    else if s.kind == "copy" then
      CopyText(Some(CopyStyle("headline", OrString(s.animation, "slideUp"), v == V2 && s.gradient)))
    else if s.kind == "montage" then
      Montage(FallbackSlate(s.slates, SlateIndex(p, s.slates)),
              Some(CopyStyle("headline", if v == V2 then "explode" else "slideUp", v == V2)))
    else if s.kind == "spin" then Spin(Some(SpinFrame(p, s.frames)))
    else if s.kind == "grid" then
      Grid(OrInt(s.columns, 2), OrInt(s.rows, 3), Some(OrString(s.animationType, "stagger")))
    else if s.kind == "cta" then
      Cta(Some(CopyStyle("headline", OrString(s.animation, "pulse"), v == V2 && s.gradientText)))
    else Unknown("Unknown scene type: " + s.kind)
  }

  /** The frame the exporter screenshots. */
  function Render(frame: int, tl: Timeline, v: Variant): View
    requires tl.canvas.fps > 0
  {
    var (scene, progress) := Lookup(frame, tl.scenes, tl.canvas.fps);
    if scene.None? then Placeholder("Frame " + IntToString(frame) + " - No Scene")
    else SceneView(scene.value, progress, v)
  }

  /** The message shows exactly when no scene is active, and names the frame; the
      unknown-type fallback shows exactly when the active scene has a type no branch
      handles; every other frame is drawn by the branch of its scene's type. */
  lemma RenderBranches(frame: int, tl: Timeline, v: Variant)
    requires tl.canvas.fps > 0
    ensures var r := Render(frame, tl, v);
      var cur := CurrentScene(frame, tl.scenes, tl.canvas.fps);
      && (r.Placeholder? <==> cur.None?)
      && (r.Placeholder? ==> r.message == "Frame " + IntToString(frame) + " - No Scene")
      && (r.Unknown? <==> cur.Some? && !KnownKind(cur.value.kind))
      && (IsSceneBranch(r) <==> cur.Some? && KnownKind(cur.value.kind))
  {
  }

  /** A montage with at least one slate always shows one of its slates: the one whose
      equal share of the scene holds the frame, or the first one when that entry is empty. */
  lemma MontageShowsDeclaredSlate(frame: int, tl: Timeline, v: Variant)
    requires tl.canvas.fps > 0
    requires var cur := CurrentScene(frame, tl.scenes, tl.canvas.fps);
      cur.Some? && cur.value.kind == "montage" && cur.value.slates.Some? && |cur.value.slates.value| > 0
    ensures var s := CurrentScene(frame, tl.scenes, tl.canvas.fps).value;
      var xs := s.slates.value;
      var i := SlateIndex(SceneProgress(frame, s, tl.canvas.fps), s.slates);
      && 0 <= i < |xs|
      && Render(frame, tl, v).Montage?
      && Render(frame, tl, v).slate == Some(if xs[i] != "" then xs[i] else xs[0])
      && Render(frame, tl, v).slate.value in xs
  {
    var s := CurrentScene(frame, tl.scenes, tl.canvas.fps).value;
    ProgressOfContainingScene(frame, s, tl.canvas.fps);
    SlateIndexInRange(SceneProgress(frame, s, tl.canvas.fps), s.slates);
  }

  /** A spin scene with a positive frame count shows a frame number in `[1, count]`. */
  lemma SpinShowsFrameInSequence(frame: int, tl: Timeline, v: Variant)
    requires tl.canvas.fps > 0
    requires var cur := CurrentScene(frame, tl.scenes, tl.canvas.fps);
      cur.Some? && cur.value.kind == "spin" && SpinFrameCount(cur.value.frames) >= 1
    ensures var s := CurrentScene(frame, tl.scenes, tl.canvas.fps).value;
      && Render(frame, tl, v).Spin?
      && Render(frame, tl, v).shoeFrame.Some?
      && 1 <= Render(frame, tl, v).shoeFrame.value <= SpinFrameCount(s.frames)
  {
    var s := CurrentScene(frame, tl.scenes, tl.canvas.fps).value;
    ProgressOfContainingScene(frame, s, tl.canvas.fps);
    SpinFrameInRange(SceneProgress(frame, s, tl.canvas.fps), s.frames);
  }
}
