/** The wall-clock frame counter of the live players: one `requestAnimationFrame`
    callback (`updateFrame`) that seeds the last timestamp, advances the frame when
    at least one frame interval has passed and wraps at the loop length. Both
    app/kiosk/play/KioskPlayer.tsx and app/kiosk/play/page.tsx run this rule; the
    classes that hold its state are in those modules. */
module FrameClock {
  import opened Common

  /** The frame shown and `lastTimeRef.current`. */
  datatype Clock = Clock(frame: int, lastTime: real)

  /** `if (!lastTimeRef.current) lastTimeRef.current = timestamp`: 0 means "not seeded yet". */
  function Seeded(lastTime: real, timestamp: real): real
  {
    if lastTime == 0.0 then timestamp else lastTime
  }

  /** `deltaTime >= frameInterval`, after seeding. */
  predicate Advances(c: Clock, timestamp: real, interval: real)
  {
    timestamp - Seeded(c.lastTime, timestamp) >= interval
  }

  /** One callback: seed, then `setCurrentFrame(prev => (prev + 1) % totalFrames)` and
      `lastTime := timestamp` when a frame interval has elapsed. */
  function Step(c: Clock, timestamp: real, interval: real, total: int): Clock
    requires total > 0
  {
    var last := Seeded(c.lastTime, timestamp);
    if timestamp - last >= interval then Clock(JsRem(c.frame + 1, total), timestamp)
    else Clock(c.frame, last)
  }

  predicate InLoop(c: Clock, total: int)
  {
    0 <= c.frame < total
  }

  /** A step keeps the frame in `[0, total)`, moves it forward by one (wrapping
      `total - 1` to 0) exactly when the interval has elapsed, and otherwise leaves the
      frame alone and only seeds the last timestamp. */
  lemma StepEffect(c: Clock, timestamp: real, interval: real, total: int)
    requires total > 0 && InLoop(c, total)
    ensures InLoop(Step(c, timestamp, interval, total), total)
    ensures Advances(c, timestamp, interval) ==>
      Step(c, timestamp, interval, total) == Clock(if c.frame == total - 1 then 0 else c.frame + 1, timestamp)
    ensures !Advances(c, timestamp, interval) ==>
      Step(c, timestamp, interval, total) == Clock(c.frame, Seeded(c.lastTime, timestamp))
  {
  }

  /** The first callback after a start or a restart (last timestamp 0) only seeds the clock. */
  lemma FirstStepOnlySeeds(c: Clock, timestamp: real, interval: real, total: int)
    requires total > 0 && c.lastTime == 0.0 && interval > 0.0
    ensures Step(c, timestamp, interval, total) == Clock(c.frame, timestamp)
  {
  }

  /** A sequence of callbacks, one per timestamp. */
  function Run(c: Clock, stamps: seq<real>, interval: real, total: int): Clock
    requires total > 0
    decreases |stamps|
  {
    if |stamps| == 0 then c else Run(Step(c, stamps[0], interval, total), stamps[1..], interval, total)
  }

  /** How many of those callbacks advanced the frame. */
  function AdvanceCount(c: Clock, stamps: seq<real>, interval: real, total: int): nat
    requires total > 0
    decreases |stamps|
  {
    if |stamps| == 0 then 0
    else (if Advances(c, stamps[0], interval) then 1 else 0)
         + AdvanceCount(Step(c, stamps[0], interval, total), stamps[1..], interval, total)
  }

  lemma ModShift(y: nat, n: nat)
    requires n > 0
    ensures (n + y) % n == y % n
  {
    assert y == (y / n) * n + y % n;
    ModUnique(n + y, y / n + 1, y % n, n);
  }

  /** Wrapping the frame inside the loop does not change where later advances lead. */
  lemma WrapThenAdvance(f: int, a: nat, rest: nat, total: int)
    requires total > 0 && 0 <= f < total && a <= 1
    ensures ((if f + a == total then 0 else f + a) + rest) % total == (f + a + rest) % total
  {
    if f + a == total {
      ModShift(rest, total);
    }
  }

  /** After any run of callbacks the frame is the start frame plus the number of
      advancing callbacks, modulo the loop length: the clock never skips or repeats a frame. */
  lemma {:induction false} RunCountsAdvances(c: Clock, stamps: seq<real>, interval: real, total: int)
    requires total > 0 && InLoop(c, total)
    ensures InLoop(Run(c, stamps, interval, total), total)
    ensures Run(c, stamps, interval, total).frame == (c.frame + AdvanceCount(c, stamps, interval, total)) % total
    decreases |stamps|
  {
    if |stamps| == 0 {
      ModUnique(c.frame, 0, c.frame, total);
    } else {
      var c' := Step(c, stamps[0], interval, total);
      var tail := stamps[1..];
      var a: nat := if Advances(c, stamps[0], interval) then 1 else 0;
      StepEffect(c, stamps[0], interval, total);
      assert c'.frame == (if c.frame + a == total then 0 else c.frame + a);
      RunCountsAdvances(c', tail, interval, total);
      var rest := AdvanceCount(c', tail, interval, total);
      assert Run(c, stamps, interval, total) == Run(c', tail, interval, total);
      assert AdvanceCount(c, stamps, interval, total) == a + rest;
      WrapThenAdvance(c.frame, a, rest, total);
    }
  }
}
