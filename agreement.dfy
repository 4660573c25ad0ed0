/** The four drivers of the timeline side by side: the export render target
    (KioskFrame), the live player (KioskPlayer), the two-variant play page and the
    fallback working page. Given the same timeline and frame they find the same scene
    with the same progress; they differ only in their placeholder texts, in how much of
    each scene they draw, and in the slate rule for an empty slate entry. */
module Agreement {
  import opened Common
  import opened TimelineModel
  import opened Scheduler
  import KioskFrame
  import KioskPlayer
  import PlayPage
  import WorkingPage

  /** The working page's view of a loaded timeline: its frame rate and scenes are present. */
  function AsLoaded(tl: Timeline): WorkingPage.Loaded
  {
    WorkingPage.Loaded(Some(tl.canvas.fps), Some(tl.scenes))
  }

  /** All four drivers look up the same scene for a frame, and the working page's
      defensive frame rate is the timeline's own. */
  lemma SameScene(frame: int, tl: Timeline)
    requires tl.canvas.fps > 0
    ensures var cur := CurrentScene(frame, tl.scenes, tl.canvas.fps);
      && Lookup(frame, tl.scenes, tl.canvas.fps).0 == cur
      && PlayPage.PageScene(Some(tl), frame) == cur
      && WorkingPage.EffectiveFps(AsLoaded(tl)) == tl.canvas.fps
      && WorkingPage.PageScene(Some(AsLoaded(tl)), frame) == cur
  {
  }

  /** The export target and the live player take the same branch at every frame, and draw
      every scene other than a montage identically; for a montage they show the same
      slate unless the selected entry is the empty string. */
  lemma FrameAndPlayerAgree(frame: int, tl: Timeline, v: Variant)
    requires tl.canvas.fps > 0
    ensures var cur := CurrentScene(frame, tl.scenes, tl.canvas.fps);
      var a := KioskFrame.Render(frame, tl, v);
      var b := KioskPlayer.Render(frame, tl, v);
      && (a.Placeholder? <==> b.Placeholder?)
      && (a.Unknown? <==> b.Unknown?)
      && (cur.Some? && KnownKind(cur.value.kind) && cur.value.kind != "montage" ==> a == b)
  {
  }

  /** For a montage with slates the player, the play page and the working page show the
      same slate: the play page's unclamped progress and the working page's raw-rate
      time are the scheduler's progress inside the scene. The export target shows it
      too whenever that entry is not empty. */
  lemma MontageSlatesAgree(frame: int, tl: Timeline, v: Variant)
    requires tl.canvas.fps > 0
    requires var cur := CurrentScene(frame, tl.scenes, tl.canvas.fps);
      cur.Some? && cur.value.kind == "montage" && cur.value.slates.Some? && |cur.value.slates.value| > 0
    ensures var s := CurrentScene(frame, tl.scenes, tl.canvas.fps).value;
      var i := SlateIndex(SceneProgress(frame, s, tl.canvas.fps), s.slates);
      var slate := KioskPlayer.Render(frame, tl, v).slate;
      && slate == Some(s.slates.value[i])
      && PlayPage.Screen(false, Some(tl), frame).slate == slate
      && WorkingPage.Screen(false, None, Some(AsLoaded(tl)), frame).slate == slate
      && (s.slates.value[i] != "" ==> KioskFrame.Render(frame, tl, v).slate == slate)
  {
    var fps := tl.canvas.fps;
    var s := CurrentScene(frame, tl.scenes, fps).value;
    KioskPlayer.MontageSlateIsDeclared(frame, tl, v);
    PlayPage.MontageProgressIsSceneProgress(frame, s, fps);
    ProgressOfContainingScene(frame, s, fps);
    var i := SlateIndex(SceneProgress(frame, s, fps), s.slates);
    SlateIndexInRange(SceneProgress(frame, s, fps), s.slates);
    SlateRulesAgree(s.slates, i);
    WorkingPage.MontageSlateAgreesWithRawFps(frame, fps, s);
  }
}
