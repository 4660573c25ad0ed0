/** The scene scheduler shared by the export render target and the live player:
    frame index to timeline time, time to the first scene whose window contains
    it, and the scene's progress; plus the per-scene indices derived from the
    progress (montage slate, spin frame) and the two slate-selection rules. */
module Scheduler {
  import opened Common
  import opened TimelineModel

  /** `frame / fps`, in exact arithmetic. */
  function TimeAt(frame: int, fps: int): real
    requires fps > 0
  {
    frame as real / fps as real
  }

  /** The window `[start, start + dur)` of s contains t. */
  predicate Contains(s: Scene, t: real)
  {
    s.start <= t < s.start + s.dur
  }

  /** The first index at or after `from` whose scene contains t. */
  function ActiveIndexFrom(scenes: seq<Scene>, t: real, from: nat): (r: Option<nat>)
    requires from <= |scenes|
    ensures r.Some? ==> from <= r.value < |scenes| && Contains(scenes[r.value], t)
    ensures r.Some? ==> forall j :: from <= j < r.value ==> !Contains(scenes[j], t)
    ensures r.None? ==> forall j :: from <= j < |scenes| ==> !Contains(scenes[j], t)
    decreases |scenes| - from
  {
    if from == |scenes| then None
    else if Contains(scenes[from], t) then Some(from)
    else ActiveIndexFrom(scenes, t, from + 1)
  }

  /** `getCurrentScene(frame, scenes, fps)`: `scenes.find(...) || null` at time frame / fps.
      The result is the earliest-declared scene containing that time, or none when no
      window contains it. */
  function CurrentScene(frame: int, scenes: seq<Scene>, fps: int): (r: Option<Scene>)
    requires fps > 0
    ensures r.None? <==> forall j :: 0 <= j < |scenes| ==> !Contains(scenes[j], TimeAt(frame, fps))
    ensures r.Some? ==> Contains(r.value, TimeAt(frame, fps)) && r.value.dur > 0.0
    ensures r.Some? ==> exists i :: 0 <= i < |scenes| && scenes[i] == r.value &&
                          forall j :: 0 <= j < i ==> !Contains(scenes[j], TimeAt(frame, fps))
  {
    match ActiveIndexFrom(scenes, TimeAt(frame, fps), 0)
    case None => None
    case Some(i) => Some(scenes[i])
  }

  /** `getSceneProgress(frame, scene, fps)`: `Math.min(Math.max((t - start) / dur, 0), 1)`. */
  function SceneProgress(frame: int, scene: Scene, fps: int): (r: real)
    requires fps > 0 && scene.dur != 0.0
    ensures 0.0 <= r <= 1.0
  {
    Min(Max((TimeAt(frame, fps) - scene.start) / scene.dur, 0.0), 1.0)
  }

  /** The pair `(currentScene, progress)` every driver derives for a frame; progress is 0 with no scene. */
  function Lookup(frame: int, scenes: seq<Scene>, fps: int): (r: (Option<Scene>, real))
    requires fps > 0
    ensures r.0 == CurrentScene(frame, scenes, fps)
    ensures r.0.None? ==> r.1 == 0.0
    ensures 0.0 <= r.1 < 1.0
  {
    match CurrentScene(frame, scenes, fps)
    case None => (None, 0.0)
    case Some(s) =>
      ProgressOfContainingScene(frame, s, fps);
      (Some(s), SceneProgress(frame, s, fps))
  }

  /** The scene returned is the unique first match: any index whose scene contains the time
      and that no earlier scene does is the one found. */
  lemma FirstMatchIsFound(frame: int, scenes: seq<Scene>, fps: int, i: nat)
    requires fps > 0 && i < |scenes| && Contains(scenes[i], TimeAt(frame, fps))
    requires forall j :: 0 <= j < i ==> !Contains(scenes[j], TimeAt(frame, fps))
    ensures CurrentScene(frame, scenes, fps) == Some(scenes[i])
  {
    var r := ActiveIndexFrom(scenes, TimeAt(frame, fps), 0);
    assert r.Some?;
  }

  /** Overlapping windows resolve to the earlier-declared scene. */
  lemma OverlapPrefersEarlier(frame: int, scenes: seq<Scene>, fps: int, i: nat, k: nat)
    requires fps > 0 && i < k < |scenes|
    requires Contains(scenes[i], TimeAt(frame, fps)) && Contains(scenes[k], TimeAt(frame, fps))
    requires scenes[k] !in scenes[..k]
    ensures CurrentScene(frame, scenes, fps) != Some(scenes[k])
  {
    var r := ActiveIndexFrom(scenes, TimeAt(frame, fps), 0);
    assert r.Some? && r.value <= i;
    assert scenes[..k][r.value] == scenes[r.value];
  }

  /** An empty scene list has no active scene at any frame. */
  lemma EmptyTimelineHasNoScene(frame: int, fps: int)
    requires fps > 0
    ensures Lookup(frame, [], fps) == (None, 0.0)
  {
  }

  /** For a scene whose window contains the frame's time, progress is exactly
      (t - start) / dur, in [0, 1). */
  lemma ProgressOfContainingScene(frame: int, s: Scene, fps: int)
    requires fps > 0 && Contains(s, TimeAt(frame, fps))
    ensures s.dur > 0.0
    ensures SceneProgress(frame, s, fps) == (TimeAt(frame, fps) - s.start) / s.dur
    ensures 0.0 <= SceneProgress(frame, s, fps) < 1.0
  {
    var x := TimeAt(frame, fps) - s.start;
    assert 0.0 <= x < s.dur;
    assert x / s.dur < 1.0 by {
      assert x / s.dur * s.dur == x;
    }
  }

  /** Progress is 0 exactly at the scene's start. */
  lemma ProgressZeroAtStart(frame: int, s: Scene, fps: int)
    requires fps > 0 && s.dur > 0.0 && TimeAt(frame, fps) == s.start
    ensures SceneProgress(frame, s, fps) == 0.0
  {
  }

  /** Before the window progress clamps to 0, from its end on it clamps to 1. */
  lemma ProgressClampsOutsideWindow(frame: int, s: Scene, fps: int)
    requires fps > 0 && s.dur > 0.0
    ensures TimeAt(frame, fps) < s.start ==> SceneProgress(frame, s, fps) == 0.0
    ensures TimeAt(frame, fps) >= s.start + s.dur ==> SceneProgress(frame, s, fps) == 1.0
  {
    var x := TimeAt(frame, fps) - s.start;
    if x >= s.dur {
      DivideMonotone(s.dur, x, s.dur);
      assert s.dur / s.dur == 1.0;
    }
    if x < 0.0 {
      DivideStrict(x, 0.0, s.dur);
    }
  }

  lemma DivideMonotone(a: real, b: real, d: real)
    requires a <= b && d > 0.0
    ensures a / d <= b / d
  {
    assert b / d - a / d == (b - a) / d;
  }

  /** For a fixed scene, progress never decreases as the frame index grows. */
  lemma ProgressMonotone(f1: int, f2: int, s: Scene, fps: int)
    requires fps > 0 && s.dur > 0.0 && f1 <= f2
    ensures SceneProgress(f1, s, fps) <= SceneProgress(f2, s, fps)
  {
    DivideMonotone(f1 as real, f2 as real, fps as real);
    DivideMonotone(TimeAt(f1, fps) - s.start, TimeAt(f2, fps) - s.start, s.dur);
  }

  /** `slates?.length || 1`. */
  function SlateCount(slates: Option<seq<string>>): nat
  {
    if slates.Some? && |slates.value| > 0 then |slates.value| else 1
  }

  /** `Math.floor(progress * (slates?.length || 1))`. */
  function SlateIndex(progress: real, slates: Option<seq<string>>): int
  {
    (progress * SlateCount(slates) as real).Floor
  }

  lemma FloorOfFraction(p: real, n: nat)
    requires 0.0 <= p < 1.0 && n >= 1
    ensures 0 <= (p * n as real).Floor < n
  {
    assert p * n as real < n as real by {
      assert n as real - p * n as real == (1.0 - p) * n as real;
    }
  }

  /** For a progress in [0, 1), the slate index is a valid position. */
  lemma SlateIndexInRange(progress: real, slates: Option<seq<string>>)
    requires 0.0 <= progress < 1.0
    ensures 0 <= SlateIndex(progress, slates) < SlateCount(slates)
  {
    FloorOfFraction(progress, SlateCount(slates));
  }

  /** The slate index never decreases as progress grows. */
  lemma SlateIndexMonotone(p1: real, p2: real, slates: Option<seq<string>>)
    requires p1 <= p2
    ensures SlateIndex(p1, slates) <= SlateIndex(p2, slates)
  {
    var n := SlateCount(slates) as real;
    assert p2 * n - p1 * n == (p2 - p1) * n;
  }

  /** Each of n slates gets an equal share of the scene: progress in `[k/n, (k+1)/n)`
      selects slate k, and only there. */
  lemma SlateShare(progress: real, xs: seq<string>, k: nat)
    requires |xs| > 0 && k < |xs|
    ensures SlateIndex(progress, Some(xs)) == k <==>
      k as real / |xs| as real <= progress < (k + 1) as real / |xs| as real
  {
    var n := |xs| as real;
    var x := progress * n;
    assert progress == x / n;
    if SlateIndex(progress, Some(xs)) == k {
      DivideMonotone(k as real, x, n);
      DivideStrict(x, (k + 1) as real, n);
    }
    if k as real / n <= progress {
      assert k as real <= x by {
        assert k as real / n * n == k as real;
        MultiplyMonotone(k as real / n, progress, n);
      }
    }
    if progress < (k + 1) as real / n {
      assert x < (k + 1) as real by {
        assert (k + 1) as real / n * n == (k + 1) as real;
        assert ((k + 1) as real / n - progress) * n > 0.0;
      }
    }
  }

  lemma DivideStrict(a: real, b: real, d: real)
    requires a < b && d > 0.0
    ensures a / d < b / d
  {
    assert b / d - a / d == (b - a) / d;
  }

  lemma MultiplyMonotone(a: real, b: real, n: real)
    requires a <= b && n > 0.0
    ensures a * n <= b * n
  {
    assert b * n - a * n == (b - a) * n;
  }

  /** The export target's rule, `slates?.[slateIndex] || slates?.[0]`: the first slate is a
      fallback for a missing or empty entry. */
  function FallbackSlate(slates: Option<seq<string>>, index: int): Option<string>
  {
    if slates.None? then None
    else if 0 <= index < |slates.value| && slates.value[index] != "" then Some(slates.value[index])
    else if |slates.value| > 0 then Some(slates.value[0])
    else None
  }

  /** The players' rule, `slates?.[Math.min(slateIndex, (slates?.length || 1) - 1)]`. */
  function ClampedSlate(slates: Option<seq<string>>, index: int): Option<string>
  {
    var k := MinInt(index, SlateCount(slates) - 1);
    if slates.Some? && 0 <= k < |slates.value| then Some(slates.value[k]) else None
  }

  /** The two rules pick the same slate for an in-range index unless that entry is the
      empty string, where the export target falls back to the first slate and the
      players show the empty entry. */
  lemma SlateRulesAgree(slates: Option<seq<string>>, index: int)
    requires 0 <= index < SlateCount(slates)
    ensures (slates.None? || |slates.value| == 0 || slates.value[index] != "") ==>
      FallbackSlate(slates, index) == ClampedSlate(slates, index)
    ensures slates.Some? && |slates.value| > 0 && slates.value[index] == "" ==>
      FallbackSlate(slates, index) == Some(slates.value[0]) && ClampedSlate(slates, index) == Some("")
  {
  }

  /** `frames || 36`. */
  function SpinFrameCount(frames: Option<int>): int
  {
    OrInt(frames, 36)
  }

  /** `Math.floor(progress * (frames || 36)) + 1`. */
  function SpinFrame(progress: real, frames: Option<int>): int
  {
    (progress * SpinFrameCount(frames) as real).Floor + 1
  }

  /** For a progress in [0, 1) and a positive frame count the spin frame is in [1, count]. */
  lemma SpinFrameInRange(progress: real, frames: Option<int>)
    requires 0.0 <= progress < 1.0 && SpinFrameCount(frames) >= 1
    ensures 1 <= SpinFrame(progress, frames) <= SpinFrameCount(frames)
  {
    FloorOfFraction(progress, SpinFrameCount(frames));
  }
}
