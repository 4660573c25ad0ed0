/** The flipbook component (components/kiosk/ImageSequence.tsx): frames are numbered
    from 1 to `totalFrames`, an interval of `1000 / frameRate` ms advances them, and
    each frame's image URL is the sequence pattern with its `#` replaced by the number. */
module ImageSequence {
  import opened Common
  import opened Text

  /** The updater passed to `setCurrentFrame`: past the last frame it restarts at 1
      when looping and holds the last frame otherwise. */
  function NextFrame(prev: int, total: int, loop: bool): int
  {
    if prev >= total then (if loop then 1 else total) else prev + 1
  }

  /** Once the frame is at least 1, the next frame is in `[1, total]` for any positive total
      (also when the total shrank below the current frame). */
  lemma NextFrameInRange(prev: int, total: int, loop: bool)
    requires total >= 1 && prev >= 1
    ensures 1 <= NextFrame(prev, total, loop) <= total
  {
  }

  /** The frame after k ticks. */
  function Iterate(f: int, total: int, loop: bool, k: nat): int
  {
    if k == 0 then f else NextFrame(Iterate(f, total, loop, k - 1), total, loop)
  }

  /** Looping: k ticks from f show frame `((f - 1 + k) mod total) + 1`, so the sequence
      cycles through every frame in order with period `total`. */
  lemma {:induction false} LoopingCycles(f: int, total: int, k: nat)
    requires 1 <= f <= total
    ensures Iterate(f, total, true, k) == (f - 1 + k) % total + 1
  {
    if k == 0 {
      ModUnique(f - 1, 0, f - 1, total);
    } else {
      LoopingCycles(f, total, k - 1);
      ModSucc(f - 1 + k - 1, total);
    }
  }

  /** After `total` ticks a looping sequence is back where it started. */
  lemma LoopingPeriod(f: int, total: int)
    requires 1 <= f <= total
    ensures Iterate(f, total, true, total as nat) == f
  {
    LoopingCycles(f, total, total as nat);
    ModUnique(f - 1 + total, 1, f - 1, total);
  }

  /** Not looping: k ticks from f show `min(f + k, total)`; the last frame is held. */
  lemma {:induction false} NonLoopingHolds(f: int, total: int, k: nat)
    requires 1 <= f <= total
    ensures Iterate(f, total, false, k) == MinInt(f + k, total)
  {
    if k > 0 {
      NonLoopingHolds(f, total, k - 1);
    }
  }

  /** `getImageSrc(frame)`: the first `#` of the pattern replaced by the frame number. */
  function ImageSrc(pattern: string, frame: int): string
  {
    ReplaceFirst(pattern, '#', IntToString(frame))
  }

  /** With the pattern split at its first `#`, the source is the prefix, the number, the rest. */
  lemma ImageSrcAt(p: string, q: string, frame: int)
    requires '#' !in p
    ensures ImageSrc(p + "#" + q, frame) == p + IntToString(frame) + q
  {
    ReplaceFirstAt(p, '#', q, IntToString(frame));
  }

  /** A pattern with a `#` gives every frame number its own image source. */
  lemma ImageSrcInjective(pattern: string, f1: nat, f2: nat)
    requires '#' in pattern && f1 != f2
    ensures ImageSrc(pattern, f1) != ImageSrc(pattern, f2)
  {
    var i := IndexOf(pattern, '#');
    var p, q := pattern[..i], pattern[i + 1..];
    assert pattern == p + "#" + q;
    ImageSrcAt(p, q, f1);
    ImageSrcAt(p, q, f2);
    NatToStringInjective(f1, f2);
    CancelAround(p, NatToString(f1), NatToString(f2), q);
  }

  /** A pattern without `#` is used unchanged for every frame. */
  lemma ImageSrcWithoutPlaceholder(pattern: string, frame: int)
    requires '#' !in pattern
    ensures ImageSrc(pattern, frame) == pattern
  {
  }

  /** The component's state; `ticking` is whether the interval is installed. */
  class Sequence {
    const pattern: string
    const totalFrames: int
    const frameRate: real
    const loop: bool
    var currentFrame: int
    var isPlaying: bool
    var ticking: bool

    /** The interval runs exactly while playing, and with at least one frame the frame
        shown is one of them. */
    ghost predicate Valid()
      reads this
    {
      ticking == isPlaying && (totalFrames >= 1 ==> 1 <= currentFrame <= totalFrames)
    }

    /** Mount, with the defaults `frameRate = 12`, `autoPlay = true`, `loop = true` for
        props left undefined: frame 1, playing when `autoPlay`. */
    constructor(sequencePattern: string, total: int, rate: Option<real>, autoPlay: Option<bool>, looping: Option<bool>)
      ensures Valid()
      ensures pattern == sequencePattern && totalFrames == total
      ensures frameRate == Or(rate, 12.0) && loop == Or(looping, true)
      ensures currentFrame == 1 && isPlaying == Or(autoPlay, true)
    {
      pattern := sequencePattern;
      totalFrames := total;
      frameRate := Or(rate, 12.0);
      loop := Or(looping, true);
      currentFrame := 1;
      isPlaying := Or(autoPlay, true);
      ticking := isPlaying;
    }

    /** One interval tick; returns the value reported to `onFrameChange`, which is the
        new frame. */
    method Tick() returns (reported: int)
      requires Valid() && ticking
      modifies this
      ensures Valid()
      ensures reported == currentFrame
      ensures currentFrame == NextFrame(old(currentFrame), totalFrames, loop)
      ensures totalFrames >= 1 ==> 1 <= currentFrame <= totalFrames
      ensures isPlaying == old(isPlaying)
    {
      var nextFrame := if currentFrame >= totalFrames then (if loop then 1 else totalFrames) else currentFrame + 1;
      reported := nextFrame;
      currentFrame := nextFrame;
    }

    /** The play button. */
    method Toggle()
      requires Valid()
      modifies this
      ensures Valid()
      ensures isPlaying == !old(isPlaying) && currentFrame == old(currentFrame)
    {
      isPlaying := !isPlaying;
      ticking := isPlaying;
    }

    /** The image shown now. */
    function Src(): string
      reads this
    {
      ImageSrc(pattern, currentFrame)
    }
  }
}
