/** The exporter (scripts/build.kiosk-lite.mjs, class KioskExporter): it makes the
    output directories, starts the dev server and polls it until it answers, opens a
    headless browser, captures every frame of each variant as a screenshot, encodes each
    variant with ffmpeg, lists the videos and finally cleans up.

    Everything outside the script is an oracle in `World`: whether each mkdir, probe,
    browser step, capture, encode and listing succeeds, and whether SIGTERM stopped the
    server. The exporter's observable behaviour is the `log` of actions it takes; each
    method is specified by a pure function giving that log. */
module Exporter {
  import opened Common
  import opened ExportNames

  datatype World = World(
    mkdirOk: string -> bool,           // fs.mkdir(dir, { recursive: true })
    probe: nat -> bool,                // the k-th `curl` readiness probe answers
    launchOk: bool,                    // puppeteer.launch
    pageOk: bool,                      // newPage, setViewport and addStyleTag
    capture: (string, nat) -> bool,    // goto, the settle wait and the screenshot of a frame
    encodeOk: string -> bool,          // the ffmpeg command exits with status 0
    outputExists: string -> bool,      // fs.access and fs.stat of the variant's video
    listingOk: bool,                   // fs.readdir of the videos and the stat of each
    closeOk: bool,                     // browser.close() resolves
    termDelivered: bool)               // `serverProcess.killed` after SIGTERM

  datatype Event =
    | MakeDir(path: string)
    | SpawnServer
    | Wait(ms: nat)
    | Probe(attempt: nat)
    | Launch
    | OpenPage
    | Capture(url: string, path: string)
    | Encode(command: string)
    | ListVideos
    | CloseBrowser
    | Kill(signal: string)
    | Exit(code: int)

  lemma AppendAssoc(a: seq<Event>, b: seq<Event>, c: seq<Event>)
    ensures a + (b + c) == (a + b) + c
  {
  }

  // ---------------------------------------------------------------- directories

  /** `createDirectories`: one mkdir per directory, in order, stopping at the first failure. */
  function DirsLog(w: World, dirs: seq<string>): seq<Event>
  {
    if |dirs| == 0 then []
    else [MakeDir(dirs[0])] + (if w.mkdirOk(dirs[0]) then DirsLog(w, dirs[1..]) else [])
  }

  function DirsOk(w: World, dirs: seq<string>): bool
  {
    |dirs| == 0 || (w.mkdirOk(dirs[0]) && DirsOk(w, dirs[1..]))
  }

  /** The directory step succeeds exactly when every mkdir does; it then makes every
      directory once, in order. */
  lemma {:induction false} DirsOkIff(w: World, dirs: seq<string>)
    ensures DirsOk(w, dirs) <==> forall i :: 0 <= i < |dirs| ==> w.mkdirOk(dirs[i])
    ensures DirsOk(w, dirs) ==> |DirsLog(w, dirs)| == |dirs| && forall i :: 0 <= i < |dirs| ==> DirsLog(w, dirs)[i] == MakeDir(dirs[i])
  {
    if |dirs| > 0 {
      DirsOkIff(w, dirs[1..]);
      assert forall i :: 1 <= i < |dirs| ==> dirs[i] == dirs[1..][i - 1];
      if DirsOk(w, dirs) {
        var rest := DirsLog(w, dirs[1..]);
        assert DirsLog(w, dirs) == [MakeDir(dirs[0])] + rest;
        assert forall i :: 1 <= i < |dirs| ==> DirsLog(w, dirs)[i] == rest[i - 1];
      }
    }
  }

  /** The directory step only makes directories. */
  lemma {:induction false} DirsEvents(w: World, dirs: seq<string>)
    ensures forall e :: e in DirsLog(w, dirs) ==> e.MakeDir?
  {
    if |dirs| > 0 {
      DirsEvents(w, dirs[1..]);
    }
  }

  /** One mkdir, appended to the actions logged before it. */
  lemma DirsStep(w: World, dirs: seq<string>, before: seq<Event>)
    requires |dirs| > 0
    ensures w.mkdirOk(dirs[0]) ==>
      before + DirsLog(w, dirs) == (before + [MakeDir(dirs[0])]) + DirsLog(w, dirs[1..])
      && DirsOk(w, dirs) == DirsOk(w, dirs[1..])
    ensures !w.mkdirOk(dirs[0]) ==> DirsLog(w, dirs) == [MakeDir(dirs[0])] && !DirsOk(w, dirs)
  {
    AppendAssoc(before, [MakeDir(dirs[0])], DirsLog(w, dirs[1..]));
  }

  // ---------------------------------------------------------------- server start

  /** The numbers of the checks that probe: 1 to `maxAttempts`. */
  function Attempts(): (r: seq<nat>)
    ensures |r| == MaxAttempts && forall i :: 0 <= i < |r| ==> r[i] == i + 1
  {
    seq(MaxAttempts, (i: int) requires 0 <= i < MaxAttempts => (i + 1) as nat)
  }

  /** `checkServer` for the checks still to come: with none left (the call after the
      last allowed one) it rejects without a probe; otherwise it probes, resolves on an
      answer, and else waits a second and checks again. */
  function StartupLog(w: World, pending: seq<nat>): seq<Event>
  {
    if |pending| == 0 then []
    else [Probe(pending[0])] + (if w.probe(pending[0]) then [] else [Wait(RetryDelay)] + StartupLog(w, pending[1..]))
  }

  /** Whether the start promise resolves (rather than rejects). */
  function StartupOk(w: World, pending: seq<nat>): bool
  {
    |pending| > 0 && (w.probe(pending[0]) || StartupOk(w, pending[1..]))
  }

  /** One check, appended to the actions logged before it. */
  lemma StartupStep(w: World, pending: seq<nat>, before: seq<Event>)
    requires |pending| > 0
    ensures w.probe(pending[0]) ==> StartupLog(w, pending) == [Probe(pending[0])] && StartupOk(w, pending)
    ensures !w.probe(pending[0]) ==>
      before + StartupLog(w, pending) == (before + [Probe(pending[0]), Wait(RetryDelay)]) + StartupLog(w, pending[1..])
      && StartupOk(w, pending) == StartupOk(w, pending[1..])
  {
    if !w.probe(pending[0]) {
      assert StartupLog(w, pending) == [Probe(pending[0]), Wait(RetryDelay)] + StartupLog(w, pending[1..]);
      AppendAssoc(before, [Probe(pending[0]), Wait(RetryDelay)], StartupLog(w, pending[1..]));
    }
  }

  function ProbeCount(log: seq<Event>): nat
  {
    if |log| == 0 then 0 else (if log[0].Probe? then 1 else 0) + ProbeCount(log[1..])
  }

  function WaitTotal(log: seq<Event>): nat
  {
    if |log| == 0 then 0 else (if log[0].Wait? then log[0].ms else 0) + WaitTotal(log[1..])
  }

  lemma {:induction false} CountsConcat(a: seq<Event>, b: seq<Event>)
    ensures ProbeCount(a + b) == ProbeCount(a) + ProbeCount(b)
    ensures WaitTotal(a + b) == WaitTotal(a) + WaitTotal(b)
  {
    if |a| == 0 {
      assert a + b == b;
    } else {
      assert (a + b)[0] == a[0];
      assert (a + b)[1..] == a[1..] + b;
      CountsConcat(a[1..], b);
    }
  }

  /** The start resolves exactly when one of the pending checks gets an answer. */
  lemma {:induction false} StartupOkIff(w: World, pending: seq<nat>)
    ensures StartupOk(w, pending) <==> exists i :: 0 <= i < |pending| && w.probe(pending[i])
  {
    if |pending| > 0 {
      StartupOkIff(w, pending[1..]);
      if StartupOk(w, pending[1..]) {
        var i :| 0 <= i < |pending[1..]| && w.probe(pending[1..][i]);
        assert w.probe(pending[i + 1]);
      }
      if exists i :: 0 <= i < |pending| && w.probe(pending[i]) {
        var i :| 0 <= i < |pending| && w.probe(pending[i]);
        if i > 0 {
          assert w.probe(pending[1..][i - 1]);
        }
      }
    }
  }

  /** At most one probe per pending check; when none answers, every check probes once
      and waits a second. */
  lemma {:induction false} StartupBounded(w: World, pending: seq<nat>)
    ensures ProbeCount(StartupLog(w, pending)) <= |pending|
    ensures !StartupOk(w, pending) ==>
      ProbeCount(StartupLog(w, pending)) == |pending|
      && WaitTotal(StartupLog(w, pending)) == |pending| * RetryDelay
  {
    if |pending| > 0 {
      var rest := StartupLog(w, pending[1..]);
      StartupBounded(w, pending[1..]);
      if w.probe(pending[0]) {
        assert StartupLog(w, pending) == [Probe(pending[0])];
        CountsConcat([Probe(pending[0])], []);
      } else {
        assert StartupLog(w, pending) == [Probe(pending[0]), Wait(RetryDelay)] + rest;
        CountsConcat([Probe(pending[0]), Wait(RetryDelay)], rest);
        FailedCheckCounts(pending[0]);
      }
    }
  }

  /** The start only probes and waits. */
  lemma {:induction false} StartupEvents(w: World, pending: seq<nat>)
    ensures forall e :: e in StartupLog(w, pending) ==> e.Probe? || e.Wait?
  {
    if |pending| > 0 {
      StartupEvents(w, pending[1..]);
    }
  }

  /** The server counts as started exactly when one of the probes 1 to 60 answers. */
  lemma StartupOkSomeProbe(w: World)
    ensures StartupOk(w, Attempts()) <==> exists k :: 1 <= k <= MaxAttempts && w.probe(k)
  {
    var all := Attempts();
    StartupOkIff(w, all);
    if exists k :: 1 <= k <= MaxAttempts && w.probe(k) {
      var k :| 1 <= k <= MaxAttempts && w.probe(k);
      assert w.probe(all[k - 1]);
    }
  }

  /** A server that never answers is given up after exactly 60 probes, 63 seconds after
      the spawn. */
  lemma StartupTimeout(w: World)
    requires !StartupOk(w, Attempts())
    ensures ProbeCount(StartupLog(w, Attempts())) == MaxAttempts
    ensures FirstCheckDelay + WaitTotal(StartupLog(w, Attempts())) == 63000
  {
    StartupBounded(w, Attempts());
  }

  /** When the first pending check to get an answer is check j, the start resolves after
      exactly j + 1 probes, the last of them that check. */
  lemma {:induction false} StartupFirstAnswer(w: World, pending: seq<nat>, j: nat)
    requires j < |pending| && w.probe(pending[j])
    requires forall i :: 0 <= i < j ==> !w.probe(pending[i])
    ensures StartupOk(w, pending)
    ensures ProbeCount(StartupLog(w, pending)) == j + 1
    ensures StartupLog(w, pending)[|StartupLog(w, pending)| - 1] == Probe(pending[j])
  {
    if j == 0 {
      assert StartupLog(w, pending) == [Probe(pending[0])];
      CountsConcat([Probe(pending[0])], []);
    } else {
      var tail := pending[1..];
      assert !w.probe(pending[0]);
      forall i | 0 <= i < j - 1 ensures !w.probe(tail[i]) {
        assert tail[i] == pending[i + 1];
      }
      assert w.probe(tail[j - 1]);
      StartupFirstAnswer(w, tail, j - 1);
      var head, rest := [Probe(pending[0]), Wait(RetryDelay)], StartupLog(w, tail);
      FailedCheckLog(w, pending);
      FailedCheckCounts(pending[0]);
      CountsConcat(head, rest);
      LastOfConcat(head, rest);
    }
  }

  /** A check without an answer probes, waits a second and leaves the rest pending. */
  lemma FailedCheckLog(w: World, pending: seq<nat>)
    requires |pending| > 0 && !w.probe(pending[0])
    ensures StartupLog(w, pending) == [Probe(pending[0]), Wait(RetryDelay)] + StartupLog(w, pending[1..])
    ensures StartupOk(w, pending) == StartupOk(w, pending[1..])
  {
  }

  lemma LastOfConcat(a: seq<Event>, b: seq<Event>)
    requires |b| > 0
    ensures (a + b)[|a + b| - 1] == b[|b| - 1]
  {
  }

  /** A check without an answer logs one probe and one second of waiting. */
  lemma FailedCheckCounts(n: nat)
    ensures ProbeCount([Probe(n), Wait(RetryDelay)]) == 1
    ensures WaitTotal([Probe(n), Wait(RetryDelay)]) == RetryDelay
  {
    CountsConcat([Probe(n)], [Wait(RetryDelay)]);
    CountsConcat([Wait(RetryDelay)], []);
    CountsConcat([Probe(n)], []);
  }

  /** Probe k of 60 being the first to answer, the start resolves with probe k as its
      last action after exactly k probes. */
  lemma StartupResolvesAtFirstAnswer(w: World, k: nat)
    requires 1 <= k <= MaxAttempts && w.probe(k)
    requires forall j :: 1 <= j < k ==> !w.probe(j)
    ensures StartupOk(w, Attempts())
    ensures ProbeCount(StartupLog(w, Attempts())) == k
    ensures var log := StartupLog(w, Attempts()); log[|log| - 1] == Probe(k)
  {
    var all := Attempts();
    forall i | 0 <= i < k - 1 ensures !w.probe(all[i]) {
      assert all[i] == i + 1;
    }
    StartupFirstAnswer(w, all, k - 1);
  }

  // ---------------------------------------------------------------- browser

  /** `launchBrowser`: the launch, then (when it worked) the page with its viewport and
      the style tag that disables animations. */
  function BrowserLog(w: World): seq<Event>
  {
    [Launch] + (if w.launchOk then [OpenPage] else [])
  }

  // ---------------------------------------------------------------- frames

  /** The frame numbers of one variant: 0 to 899. */
  function Frames(): (r: seq<nat>)
    ensures |r| == TotalFrames() && forall i :: 0 <= i < |r| ==> r[i] == i
  {
    seq(TotalFrames(), (i: int) requires 0 <= i < TotalFrames() => i as nat)
  }

  function CaptureEvent(variant: string, frame: nat): Event
  {
    Capture(FrameUrl(frame, variant), ScreenshotPath(variant, frame))
  }

  /** `captureFrames` over the frames still to come: each frame is loaded and shot, and
      the first failure is rethrown, ending the loop. */
  function CaptureLog(w: World, variant: string, frames: seq<nat>): seq<Event>
  {
    if |frames| == 0 then []
    else [CaptureEvent(variant, frames[0])] + (if w.capture(variant, frames[0]) then CaptureLog(w, variant, frames[1..]) else [])
  }

  function CaptureOk(w: World, variant: string, frames: seq<nat>): bool
  {
    |frames| == 0 || (w.capture(variant, frames[0]) && CaptureOk(w, variant, frames[1..]))
  }

  /** One frame, appended to the actions logged before it. */
  lemma CaptureStep(w: World, variant: string, frames: seq<nat>, before: seq<Event>)
    requires |frames| > 0
    ensures w.capture(variant, frames[0]) ==>
      before + CaptureLog(w, variant, frames) == (before + [CaptureEvent(variant, frames[0])]) + CaptureLog(w, variant, frames[1..])
      && CaptureOk(w, variant, frames) == CaptureOk(w, variant, frames[1..])
    ensures !w.capture(variant, frames[0]) ==>
      CaptureLog(w, variant, frames) == [CaptureEvent(variant, frames[0])] && !CaptureOk(w, variant, frames)
  {
    AppendAssoc(before, [CaptureEvent(variant, frames[0])], CaptureLog(w, variant, frames[1..]));
  }

  /** The frames are requested one at a time in the given order, event i being frame i
      at its own URL and file. */
  lemma {:induction false} CaptureLogOrder(w: World, variant: string, frames: seq<nat>)
    ensures var log := CaptureLog(w, variant, frames);
      && |log| <= |frames|
      && forall i :: 0 <= i < |log| ==> log[i] == CaptureEvent(variant, frames[i])
  {
    if |frames| > 0 && w.capture(variant, frames[0]) {
      var log := CaptureLog(w, variant, frames);
      var tail := frames[1..];
      var rest := CaptureLog(w, variant, tail);
      CaptureLogOrder(w, variant, tail);
      assert log == [CaptureEvent(variant, frames[0])] + rest;
      forall i | 0 <= i < |log| ensures log[i] == CaptureEvent(variant, frames[i]) {
        if i > 0 {
          assert log[i] == rest[i - 1] && frames[i] == tail[i - 1];
        }
      }
    }
  }

  /** The frame loop only captures. */
  lemma {:induction false} CaptureEvents(w: World, variant: string, frames: seq<nat>)
    ensures forall e :: e in CaptureLog(w, variant, frames) ==> e.Capture?
  {
    if |frames| > 0 {
      CaptureEvents(w, variant, frames[1..]);
    }
  }

  /** The loop succeeds exactly when every frame is captured, and then requests all of
      them. */
  lemma {:induction false} CaptureOkIff(w: World, variant: string, frames: seq<nat>)
    ensures CaptureOk(w, variant, frames) <==> forall i :: 0 <= i < |frames| ==> w.capture(variant, frames[i])
    ensures CaptureOk(w, variant, frames) ==> |CaptureLog(w, variant, frames)| == |frames|
  {
    if |frames| > 0 {
      CaptureOkIff(w, variant, frames[1..]);
      assert forall i :: 1 <= i < |frames| ==> frames[i] == frames[1..][i - 1];
    }
  }

  /** A failing loop stops right after its first failing frame: the last frame requested
      failed and every one before it was captured. */
  lemma {:induction false} CaptureStopsAtFirstFailure(w: World, variant: string, frames: seq<nat>)
    requires !CaptureOk(w, variant, frames)
    ensures var n := |CaptureLog(w, variant, frames)|;
      1 <= n <= |frames| && !w.capture(variant, frames[n - 1])
      && forall i :: 0 <= i < n - 1 ==> w.capture(variant, frames[i])
  {
    var tail := frames[1..];
    if w.capture(variant, frames[0]) {
      CaptureStopsAtFirstFailure(w, variant, tail);
      assert forall i :: 1 <= i < |frames| ==> frames[i] == tail[i - 1];
    }
  }

  /** Every frame of a variant succeeding, the loop captures frames 0 to 899 in order. */
  lemma AllFramesCaptured(w: World, variant: string)
    requires forall f :: 0 <= f < TotalFrames() ==> w.capture(variant, f)
    ensures CaptureOk(w, variant, Frames())
    ensures var log := CaptureLog(w, variant, Frames());
      |log| == TotalFrames() && forall f :: 0 <= f < TotalFrames() ==> log[f] == CaptureEvent(variant, f)
  {
    var all := Frames();
    assert forall i :: 0 <= i < |all| ==> w.capture(variant, all[i]);
    CaptureOkIff(w, variant, all);
    CaptureLogOrder(w, variant, all);
  }

  /** A failing frame f of a variant ends its loop: no frame after the first failure is
      requested. */
  lemma CaptureStopsAtFailure(w: World, variant: string, f: nat)
    requires f < TotalFrames() && !w.capture(variant, f)
    ensures !CaptureOk(w, variant, Frames())
    ensures |CaptureLog(w, variant, Frames())| <= f + 1
  {
    var all := Frames();
    CaptureOkIff(w, variant, all);
    assert !w.capture(variant, all[f]);
    CaptureStopsAtFirstFailure(w, variant, all);
  }

  // ---------------------------------------------------------------- variants

  /** One variant: its frames, then (when all were captured) the ffmpeg run. */
  function VariantLog(w: World, variant: string): seq<Event>
  {
    CaptureLog(w, variant, Frames()) + (if CaptureOk(w, variant, Frames()) then [Encode(FfmpegCommand(variant))] else [])
  }

  /** `createVideo` returns only when ffmpeg succeeded and the video is there. */
  function VariantOk(w: World, variant: string): bool
  {
    CaptureOk(w, variant, Frames()) && w.encodeOk(variant) && w.outputExists(variant)
  }

  /** A variant is encoded only after all 900 of its frames were captured, and then
      exactly its own pattern into its own video. */
  lemma VariantEncodedAfterAllFrames(w: World, variant: string)
    ensures Encode(FfmpegCommand(variant)) in VariantLog(w, variant) <==> CaptureOk(w, variant, Frames())
    ensures CaptureOk(w, variant, Frames()) ==> |VariantLog(w, variant)| == TotalFrames() + 1
    ensures forall e :: e in VariantLog(w, variant) ==> e.Capture? || e == Encode(FfmpegCommand(variant))
  {
    CaptureEvents(w, variant, Frames());
    CaptureOkIff(w, variant, Frames());
  }

  /** `for (const variant of variants)`: each variant in turn, stopping at the first failure. */
  function VariantsLog(w: World, variants: seq<string>): seq<Event>
  {
    if |variants| == 0 then []
    else VariantLog(w, variants[0]) + (if VariantOk(w, variants[0]) then VariantsLog(w, variants[1..]) else [])
  }

  function VariantsOk(w: World, variants: seq<string>): bool
  {
    |variants| == 0 || (VariantOk(w, variants[0]) && VariantsOk(w, variants[1..]))
  }

  lemma {:induction false} VariantsOkIff(w: World, variants: seq<string>)
    ensures VariantsOk(w, variants) <==> forall i :: 0 <= i < |variants| ==> VariantOk(w, variants[i])
    ensures forall e :: e in VariantsLog(w, variants) ==> e.Capture? || e.Encode?
  {
    if |variants| > 0 {
      VariantsOkIff(w, variants[1..]);
      VariantEncodedAfterAllFrames(w, variants[0]);
      assert forall i :: 1 <= i < |variants| ==> variants[i] == variants[1..][i - 1];
    }
  }

  /** When variant i is the first to fail, the variants before it ran completely, it ran up
      to its failure, and no later variant is touched. */
  lemma {:induction false} VariantsStopAtFailure(w: World, variants: seq<string>, i: nat)
    requires i < |variants| && !VariantOk(w, variants[i])
    requires forall j :: 0 <= j < i ==> VariantOk(w, variants[j])
    ensures VariantsLog(w, variants) == VariantsLog(w, variants[..i]) + VariantLog(w, variants[i])
    ensures !VariantsOk(w, variants)
  {
    if i == 0 {
      assert variants[..0] == [];
      assert VariantsLog(w, variants) == VariantLog(w, variants[0]);
    } else {
      var tail := variants[1..];
      assert tail[i - 1] == variants[i];
      forall j | 0 <= j < i - 1 ensures VariantOk(w, tail[j]) {
        assert tail[j] == variants[j + 1];
      }
      VariantsStopAtFailure(w, tail, i - 1);
      var pre := variants[..i];
      PrefixTail(variants, i);
      var head := VariantLog(w, variants[0]);
      PassedVariantLog(w, variants);
      PassedVariantLog(w, pre);
      AppendAssoc(head, VariantsLog(w, tail[..i - 1]), VariantLog(w, variants[i]));
    }
  }

  lemma PrefixTail(s: seq<string>, i: nat)
    requires 0 < i <= |s|
    ensures s[..i][0] == s[0] && s[..i][1..] == s[1..][..i - 1]
  {
  }

  /** A variant that succeeded is followed by the rest of the run. */
  lemma PassedVariantLog(w: World, variants: seq<string>)
    requires |variants| > 0 && VariantOk(w, variants[0])
    ensures VariantsLog(w, variants) == VariantLog(w, variants[0]) + VariantsLog(w, variants[1..])
    ensures VariantsOk(w, variants) == VariantsOk(w, variants[1..])
  {
  }

  /** The CLI default: with no arguments the run exports V1 and then, only when V1
      succeeded, V2; any arguments are exported as given. */
  lemma DefaultVariantsRun(w: World, args: seq<string>)
    ensures |args| == 0 ==>
      VariantsLog(w, Variants(args)) == VariantLog(w, "V1") + (if VariantOk(w, "V1") then VariantLog(w, "V2") else [])
    ensures |args| == 0 ==> (VariantsOk(w, Variants(args)) <==> VariantOk(w, "V1") && VariantOk(w, "V2"))
    ensures |args| > 0 ==> VariantsLog(w, Variants(args)) == VariantsLog(w, args)
  {
    if |args| == 0 {
      var vs: seq<string> := ["V1", "V2"];
      assert Variants(args) == vs;
      var tail: seq<string> := ["V2"];
      assert vs[0] == "V1" && vs[1..] == tail;
      assert tail[0] == "V2" && tail[1..] == [];
      var last := VariantLog(w, "V2");
      assert VariantsLog(w, tail) == last + (if VariantOk(w, "V2") then VariantsLog(w, []) else []);
      assert VariantsLog(w, tail) == last;
      assert VariantsOk(w, []);
      assert VariantsOk(w, tail) == VariantOk(w, "V2");
      assert VariantsOk(w, vs) == (VariantOk(w, "V1") && VariantsOk(w, tail));
      assert VariantsLog(w, vs) == VariantLog(w, "V1") + (if VariantOk(w, "V1") then VariantsLog(w, tail) else []);
    }
  }

  /** One variant, appended to the actions logged before it. */
  lemma VariantsStep(w: World, variants: seq<string>, before: seq<Event>)
    requires |variants| > 0
    ensures VariantOk(w, variants[0]) ==>
      before + VariantsLog(w, variants) == (before + VariantLog(w, variants[0])) + VariantsLog(w, variants[1..])
      && VariantsOk(w, variants) == VariantsOk(w, variants[1..])
    ensures !VariantOk(w, variants[0]) ==>
      VariantsLog(w, variants) == VariantLog(w, variants[0]) && !VariantsOk(w, variants)
  {
    AppendAssoc(before, VariantLog(w, variants[0]), VariantsLog(w, variants[1..]));
  }

  // ---------------------------------------------------------------- the whole run

  /** `startServer`: the spawn, the three-second wait, then the checks. */
  function ServerLog(w: World): seq<Event>
  {
    [SpawnServer, Wait(FirstCheckDelay)] + StartupLog(w, Attempts())
  }

  /** `init`: directories, server, browser, each only after the previous one succeeded. */
  function InitLog(w: World): seq<Event>
  {
    DirsLog(w, Directories())
    + if !DirsOk(w, Directories()) then []
      else ServerLog(w) + (if StartupOk(w, Attempts()) then BrowserLog(w) else [])
  }

  function InitOk(w: World): bool
  {
    DirsOk(w, Directories()) && StartupOk(w, Attempts()) && w.launchOk && w.pageOk
  }

  /** The variants, then (when all of them succeeded) the listing of the videos. */
  function BatchLog(w: World, variants: seq<string>): seq<Event>
  {
    VariantsLog(w, variants) + (if VariantsOk(w, variants) then [ListVideos] else [])
  }

  /** The `try` block of `export`: init, the variants, then the listing of the videos. */
  function RunLog(w: World, variants: seq<string>): seq<Event>
  {
    InitLog(w) + (if InitOk(w) then BatchLog(w, variants) else [])
  }

  function RunOk(w: World, variants: seq<string>): bool
  {
    InitOk(w) && VariantsOk(w, variants) && w.listingOk
  }

  /** `this.serverProcess` is set once the spawn happened. */
  function ServerSpawned(w: World): bool
  {
    DirsOk(w, Directories())
  }

  /** `this.browser` is set once the launch resolved. */
  function BrowserLaunched(w: World): bool
  {
    DirsOk(w, Directories()) && StartupOk(w, Attempts()) && w.launchOk
  }

  /** `cleanup`: close a launched browser; SIGTERM the server, wait two seconds, and
      SIGKILL it when the signal was not delivered. A rejecting `browser.close()` rejects
      `cleanup` itself before the server is signalled. */
  function CleanupLog(w: World, browser: bool, server: bool): seq<Event>
  {
    (if browser then [CloseBrowser] else [])
    + if (browser && !w.closeOk) || !server then []
      else [Kill("SIGTERM"), Wait(ShutdownGrace)] + (if w.termDelivered then [] else [Kill("SIGKILL")])
  }

  /** Whether `cleanup` resolves (rather than rejects). */
  function CleanupOk(w: World, browser: bool): bool
  {
    !browser || w.closeOk
  }

  /** `export` as written: on failure `process.exit(1)` in the `catch` ends the process
      before the `finally` block, so cleanup runs only after a success. */
  function ExportLogAsWritten(w: World, variants: seq<string>): seq<Event>
  {
    RunLog(w, variants)
    + if RunOk(w, variants) then CleanupLog(w, BrowserLaunched(w), ServerSpawned(w))
      else [Exit(1)]
  }

  /** `export` with the cleanup the `finally` block intends on every path: the `catch`
      only records exit status 1, which ends the process after the cleanup. */
  function ExportLog(w: World, variants: seq<string>): seq<Event>
  {
    RunLog(w, variants)
    + CleanupLog(w, BrowserLaunched(w), ServerSpawned(w))
    + if RunOk(w, variants) then [] else [Exit(1)]
  }

  /** `cleanup` only closes, signals and waits. */
  lemma CleanupEvents(w: World, browser: bool, server: bool)
    ensures forall e :: e in CleanupLog(w, browser, server) ==> e.CloseBrowser? || e.Kill? || e.Wait?
  {
  }

  /** `init` stops at the first step that fails. */
  lemma InitShape(w: World)
    ensures !DirsOk(w, Directories()) ==> InitLog(w) == DirsLog(w, Directories())
    ensures DirsOk(w, Directories()) && !StartupOk(w, Attempts()) ==>
      InitLog(w) == DirsLog(w, Directories()) + ServerLog(w)
    ensures DirsOk(w, Directories()) && StartupOk(w, Attempts()) ==>
      InitLog(w) == DirsLog(w, Directories()) + (ServerLog(w) + BrowserLog(w))
  {
    var d := DirsLog(w, Directories());
    if !DirsOk(w, Directories()) {
      assert InitLog(w) == d + [];
    } else if !StartupOk(w, Attempts()) {
      assert InitLog(w) == d + (ServerLog(w) + []);
    }
  }

  /** `init` only makes directories, spawns, waits, probes, launches and opens the page. */
  lemma InitEvents(w: World)
    ensures forall e :: e in InitLog(w) ==>
      e.MakeDir? || e.SpawnServer? || e.Wait? || e.Probe? || e.Launch? || e.OpenPage?
  {
    DirsEvents(w, Directories());
    StartupEvents(w, Attempts());
    InitShape(w);
  }

  /** `init` spawns the server exactly when the directories were made, launches the
      browser exactly when the server also answered, and opens the page only after a
      launch. */
  lemma InitControl(w: World)
    ensures SpawnServer in InitLog(w) <==> ServerSpawned(w)
    ensures Launch in InitLog(w) <==> ServerSpawned(w) && StartupOk(w, Attempts())
    ensures OpenPage in InitLog(w) ==> BrowserLaunched(w)
  {
    var d := DirsLog(w, Directories());
    var p := StartupLog(w, Attempts());
    DirsEvents(w, Directories());
    StartupEvents(w, Attempts());
    assert SpawnServer !in d && Launch !in d && OpenPage !in d;
    assert Launch !in p && OpenPage !in p;
    assert ServerLog(w) == [SpawnServer, Wait(FirstCheckDelay)] + p;
    InitShape(w);
  }

  /** Nothing is captured, encoded or listed before `init` succeeded, only the
      variants' captures and encodes and the listing follow it, and the run itself never
      stops anything or exits. */
  lemma RunControl(w: World, variants: seq<string>)
    ensures SpawnServer in RunLog(w, variants) <==> ServerSpawned(w)
    ensures Launch in RunLog(w, variants) <==> ServerSpawned(w) && StartupOk(w, Attempts())
    ensures OpenPage in RunLog(w, variants) ==> BrowserLaunched(w)
    ensures forall e :: e in RunLog(w, variants) && (e.Capture? || e.Encode? || e.ListVideos?) ==> InitOk(w)
    ensures forall e :: e in RunLog(w, variants) ==> !e.CloseBrowser? && !e.Kill? && !e.Exit?
  {
    var init := InitLog(w);
    InitControl(w);
    BatchEvents(w, variants);
    var batch := if InitOk(w) then BatchLog(w, variants) else [];
    assert RunLog(w, variants) == init + batch;
    assert SpawnServer !in batch && Launch !in batch && OpenPage !in batch;
    RunEvents(w, variants);
  }

  /** Only `init` and then, after it succeeded, the batch: no stop and no exit. */
  lemma RunEvents(w: World, variants: seq<string>)
    ensures forall e :: e in RunLog(w, variants) && (e.Capture? || e.Encode? || e.ListVideos?) ==> InitOk(w)
    ensures forall e :: e in RunLog(w, variants) ==> !e.CloseBrowser? && !e.Kill? && !e.Exit?
  {
    var init := InitLog(w);
    InitEvents(w);
    BatchEvents(w, variants);
    var batch := if InitOk(w) then BatchLog(w, variants) else [];
    assert RunLog(w, variants) == init + batch;
    forall e | e in RunLog(w, variants)
      ensures (e.Capture? || e.Encode? || e.ListVideos? ==> InitOk(w)) && !e.CloseBrowser? && !e.Kill? && !e.Exit?
    {
      if e !in init {
        assert e in batch;
      }
    }
  }

  /** The variants and the listing only capture, encode and list. */
  lemma BatchEvents(w: World, variants: seq<string>)
    ensures forall e :: e in BatchLog(w, variants) ==> e.Capture? || e.Encode? || e.ListVideos?
  {
    VariantsOkIff(w, variants);
  }

  /** The run succeeds exactly when every step does: every mkdir, one of the probes 1 to
      60, the browser and the page, every frame and encode of every variant, and the
      listing. */
  lemma RunOkIff(w: World, variants: seq<string>)
    ensures RunOk(w, variants) <==>
      && (forall i :: 0 <= i < |Directories()| ==> w.mkdirOk(Directories()[i]))
      && (exists k :: 1 <= k <= MaxAttempts && w.probe(k))
      && w.launchOk && w.pageOk
      && (forall i :: 0 <= i < |variants| ==> VariantOk(w, variants[i]))
      && w.listingOk
  {
    DirsOkIff(w, Directories());
    StartupOkSomeProbe(w);
    VariantsOkIff(w, variants);
  }

  /** The export exits with status 1 exactly when the run failed, and then as its last
      action. */
  lemma ExportFailsIff(w: World, variants: seq<string>)
    ensures Exit(1) in ExportLog(w, variants) <==> !RunOk(w, variants)
    ensures !RunOk(w, variants) ==> ExportLog(w, variants)[|ExportLog(w, variants)| - 1] == Exit(1)
  {
    RunControl(w, variants);
    CleanupEvents(w, BrowserLaunched(w), ServerSpawned(w));
  }

  /** With the cleanup on every path, a launched browser is always closed, and a spawned
      server gets SIGTERM (and SIGKILL when that was not delivered) unless closing the
      browser rejected. */
  lemma CleanupOnEveryPath(w: World, variants: seq<string>)
    ensures SpawnServer in ExportLog(w, variants) && CleanupOk(w, BrowserLaunched(w)) ==>
      Kill("SIGTERM") in ExportLog(w, variants)
    ensures SpawnServer in ExportLog(w, variants) && CleanupOk(w, BrowserLaunched(w)) && !w.termDelivered ==>
      Kill("SIGKILL") in ExportLog(w, variants)
    ensures Launch in ExportLog(w, variants) && w.launchOk ==> CloseBrowser in ExportLog(w, variants)
  {
    RunControl(w, variants);
    var run := RunLog(w, variants);
    var clean := CleanupLog(w, BrowserLaunched(w), ServerSpawned(w));
    var tail := if RunOk(w, variants) then [] else [Exit(1)];
    assert ExportLog(w, variants) == run + clean + tail;
    CleanupEvents(w, BrowserLaunched(w), ServerSpawned(w));
    assert SpawnServer !in clean + tail && Launch !in clean + tail;
    if ServerSpawned(w) && CleanupOk(w, BrowserLaunched(w)) {
      assert Kill("SIGTERM") in clean;
      assert !w.termDelivered ==> Kill("SIGKILL") in clean;
    }
    if BrowserLaunched(w) {
      assert CloseBrowser in clean;
    }
  }

  /** A launched browser whose `close()` rejects ends the cleanup: the browser close is
      the cleanup's only action and the server is never signalled, on either export. */
  lemma CloseFailureSkipsSignals(w: World, variants: seq<string>)
    requires BrowserLaunched(w) && !w.closeOk
    ensures CloseBrowser in ExportLog(w, variants)
    ensures Kill("SIGTERM") !in ExportLog(w, variants) && Kill("SIGKILL") !in ExportLog(w, variants)
    ensures Kill("SIGTERM") !in ExportLogAsWritten(w, variants)
  {
    RunControl(w, variants);
    var run := RunLog(w, variants);
    var clean := CleanupLog(w, BrowserLaunched(w), ServerSpawned(w));
    assert clean == [CloseBrowser];
    var tail := if RunOk(w, variants) then [] else [Exit(1)];
    assert ExportLog(w, variants) == run + clean + tail;
    assert ExportLogAsWritten(w, variants) == run + (if RunOk(w, variants) then clean else [Exit(1)]);
  }

  /** As written, a failed export leaves the server and the browser to themselves: no
      signal is sent and the browser is not closed; the exit is the last action. */
  lemma AsWrittenSkipsCleanupOnFailure(w: World, variants: seq<string>)
    requires !RunOk(w, variants)
    ensures var log := ExportLogAsWritten(w, variants);
      && log[|log| - 1] == Exit(1)
      && Kill("SIGTERM") !in log && CloseBrowser !in log
  {
    RunControl(w, variants);
  }

  /** A dev server that never answers. */
  function SilentServer(): World
  {
    World((d: string) => true, (k: nat) => false, true, true, (v: string, f: nat) => true,
          (v: string) => true, (v: string) => true, true, true, true)
  }

  /** The discrepancy on a concrete world: the server is spawned, the start times out,
      and the script as written exits without ever signalling the server, while the
      corrected run sends it SIGTERM. */
  lemma SilentServerKeepsRunning()
    ensures SpawnServer in ExportLogAsWritten(SilentServer(), ["V1", "V2"])
    ensures Kill("SIGTERM") !in ExportLogAsWritten(SilentServer(), ["V1", "V2"])
    ensures Kill("SIGTERM") in ExportLog(SilentServer(), ["V1", "V2"])
  {
    var w := SilentServer();
    var vs := ["V1", "V2"];
    DirsOkIff(w, Directories());
    StartupOkSomeProbe(w);
    assert DirsOk(w, Directories()) && !StartupOk(w, Attempts());
    assert !RunOk(w, vs);
    RunControl(w, vs);
    assert SpawnServer in RunLog(w, vs);
    assert ExportLogAsWritten(w, vs) == RunLog(w, vs) + [Exit(1)];
    AsWrittenSkipsCleanupOnFailure(w, vs);
    CleanupOnEveryPath(w, vs);
  }

  /** Without an answering server neither the browser nor any capture, encode or listing
      happens. */
  lemma NoBrowserWithoutServer(w: World, variants: seq<string>)
    requires !StartupOk(w, Attempts())
    ensures forall e :: e in ExportLog(w, variants) ==>
      !e.Launch? && !e.OpenPage? && !e.Capture? && !e.Encode? && !e.ListVideos?
  {
    RunControl(w, variants);
    CleanupEvents(w, BrowserLaunched(w), ServerSpawned(w));
  }

  // ---------------------------------------------------------------- the exporter object

  class KioskExporter {
    /** Whether `this.browser`, `this.page` and `this.serverProcess` are set. */
    var browser: bool
    var page: bool
    var server: bool
    /** The actions taken so far. */
    var log: seq<Event>

    constructor()
      ensures !browser && !page && !server && log == []
    {
      browser, page, server, log := false, false, false, [];
    }

    method CreateDirectories(w: World) returns (ok: bool)
      modifies this
      ensures log == old(log) + DirsLog(w, Directories())
      ensures ok == DirsOk(w, Directories())
      ensures browser == old(browser) && page == old(page) && server == old(server)
    {
      var dirs := Directories();
      var events := [];
      var i := 0;
      ok := true;
      while i < |dirs| && ok
        invariant 0 <= i <= |dirs|
        invariant ok ==> DirsLog(w, dirs) == events + DirsLog(w, dirs[i..])
        invariant ok ==> DirsOk(w, dirs) == DirsOk(w, dirs[i..])
        invariant !ok ==> events == DirsLog(w, dirs) && !DirsOk(w, dirs)
        invariant unchanged(this)
        decreases |dirs| - i, ok
      {
        DirsStep(w, dirs[i..], events);
        assert dirs[i..][0] == dirs[i] && dirs[i..][1..] == dirs[i + 1..];
        events := events + [MakeDir(dirs[i])];
        if w.mkdirOk(dirs[i]) {
          i := i + 1;
        } else {
          ok := false;
        }
      }
      if ok {
        assert dirs[i..] == [];
      }
      log := log + events;
    }

    /** `startServer`: spawn `npm run dev`, wait three seconds, then `checkServer` until
        it resolves or rejects. */
    method StartServer(w: World) returns (ok: bool)
      modifies this
      ensures log == old(log) + ServerLog(w)
      ensures ok == StartupOk(w, Attempts())
      ensures server && browser == old(browser) && page == old(page)
    {
      var all := Attempts();
      var events := [];
      var attempts: nat := 0;
      ok := false;
      // Each round is one `checkServer`; once `attempts` reaches `maxAttempts` the next
      // check rejects without touching the server.
      while attempts < |all| && !ok
        invariant attempts <= |all|
        invariant !ok ==> StartupLog(w, all) == events + StartupLog(w, all[attempts..])
        invariant !ok ==> StartupOk(w, all) == StartupOk(w, all[attempts..])
        invariant ok ==> events == StartupLog(w, all) && StartupOk(w, all)
        invariant unchanged(this)
        decreases |all| - attempts, !ok
      {
        var pending := all[attempts..];
        assert pending[0] == attempts + 1;
        assert pending[1..] == all[attempts + 1..];
        StartupStep(w, pending, events);
        attempts := attempts + 1;
        if w.probe(attempts) {
          events := events + [Probe(attempts)];
          ok := true;
        } else {
          events := events + [Probe(attempts), Wait(RetryDelay)];
        }
      }
      if !ok {
        assert all[attempts..] == [];
        assert events + [] == events;
      }
      AppendAssoc(log, [SpawnServer, Wait(FirstCheckDelay)], events);
      log := log + ([SpawnServer, Wait(FirstCheckDelay)] + events);
      server := true;
    }

    method LaunchBrowser(w: World) returns (ok: bool)
      modifies this
      ensures log == old(log) + BrowserLog(w)
      ensures ok == (w.launchOk && w.pageOk)
      ensures browser == (old(browser) || w.launchOk)
      ensures page == (old(page) || (w.launchOk && w.pageOk))
      ensures server == old(server)
    {
      log := log + [Launch];
      if !w.launchOk {
        return false;
      }
      browser := true;
      log := log + [OpenPage];
      if !w.pageOk {
        return false;
      }
      page := true;
      ok := true;
    }

    method Init(w: World) returns (ok: bool)
      requires !browser && !page && !server
      modifies this
      ensures log == old(log) + InitLog(w)
      ensures ok == InitOk(w)
      ensures server == ServerSpawned(w) && browser == BrowserLaunched(w) && page == InitOk(w)
    {
      ghost var d := DirsLog(w, Directories());
      ok := CreateDirectories(w);
      if !ok {
        assert InitLog(w) == d + [];
        return;
      }
      ghost var afterDirs := log;
      ok := StartServer(w);
      if !ok {
        assert InitLog(w) == d + (ServerLog(w) + []);
        AppendAssoc(old(log), d, ServerLog(w));
        return;
      }
      ghost var afterServer := log;
      ok := LaunchBrowser(w);
      assert InitLog(w) == d + (ServerLog(w) + BrowserLog(w));
      AppendAssoc(old(log), d, ServerLog(w) + BrowserLog(w));
      AppendAssoc(afterDirs, ServerLog(w), BrowserLog(w));
    }

    method CaptureFrames(variant: string, w: World) returns (ok: bool)
      requires page
      modifies this
      ensures log == old(log) + CaptureLog(w, variant, Frames())
      ensures ok == CaptureOk(w, variant, Frames())
      ensures browser == old(browser) && page == old(page) && server == old(server)
    {
      var all := Frames();
      var events := [];
      var frame: nat := 0;
      ok := true;
      while frame < TotalFrames() && ok
        invariant frame <= TotalFrames()
        invariant ok ==> CaptureLog(w, variant, all) == events + CaptureLog(w, variant, all[frame..])
        invariant ok ==> CaptureOk(w, variant, all) == CaptureOk(w, variant, all[frame..])
        invariant !ok ==> events == CaptureLog(w, variant, all) && !CaptureOk(w, variant, all)
        invariant unchanged(this)
        decreases TotalFrames() - frame, ok
      {
        CaptureStep(w, variant, all[frame..], events);
        assert all[frame..][0] == frame && all[frame..][1..] == all[frame + 1..];
        events := events + [CaptureEvent(variant, frame)];
        if w.capture(variant, frame) {
          frame := frame + 1;
        } else {
          ok := false;
        }
      }
      if ok {
        assert all[frame..] == [];
      }
      log := log + events;
    }

    method CreateVideo(variant: string, w: World) returns (ok: bool)
      modifies this
      ensures log == old(log) + [Encode(FfmpegCommand(variant))]
      ensures ok == (w.encodeOk(variant) && w.outputExists(variant))
      ensures browser == old(browser) && page == old(page) && server == old(server)
    {
      log := log + [Encode(FfmpegCommand(variant))];
      ok := w.encodeOk(variant) && w.outputExists(variant);
    }

    /** `cleanup()`; `ok` is whether it resolved. */
    method Cleanup(w: World) returns (ok: bool)
      modifies this
      ensures log == old(log) + CleanupLog(w, old(browser), old(server))
      ensures ok == CleanupOk(w, old(browser))
      ensures browser == old(browser) && page == old(page) && server == old(server)
    {
      var events := [];
      ok := true;
      if browser {
        events := events + [CloseBrowser];
        ok := w.closeOk;
      }
      if ok && server {
        events := events + [Kill("SIGTERM"), Wait(ShutdownGrace)];
        if !w.termDelivered {
          events := events + [Kill("SIGKILL")];
        }
      }
      log := log + events;
    }

    /** One pass of the `for` loop of `export`: the variant's frames, then its video. */
    method RunVariant(variant: string, w: World) returns (ok: bool)
      requires page
      modifies this
      ensures log == old(log) + VariantLog(w, variant)
      ensures ok == VariantOk(w, variant)
      ensures browser == old(browser) && page == old(page) && server == old(server)
    {
      ok := CaptureFrames(variant, w);
      if ok {
        ok := CreateVideo(variant, w);
        AppendAssoc(old(log), CaptureLog(w, variant, Frames()), [Encode(FfmpegCommand(variant))]);
      } else {
        assert VariantLog(w, variant) == CaptureLog(w, variant, Frames()) + [];
      }
    }

    /** The `for` loop of `export`: each variant in turn, stopping at the first failure. */
    method RunVariants(variants: seq<string>, w: World) returns (ok: bool)
      requires page
      modifies this
      ensures log == old(log) + VariantsLog(w, variants)
      ensures ok == VariantsOk(w, variants)
      ensures browser == old(browser) && page == old(page) && server == old(server)
    {
      var i := 0;
      ok := true;
      while i < |variants| && ok
        invariant 0 <= i <= |variants|
        invariant ok ==> old(log) + VariantsLog(w, variants) == log + VariantsLog(w, variants[i..])
        invariant ok ==> VariantsOk(w, variants) == VariantsOk(w, variants[i..])
        invariant !ok ==> log == old(log) + VariantsLog(w, variants) && !VariantsOk(w, variants)
        invariant browser == old(browser) && page == old(page) && server == old(server)
        decreases |variants| - i, ok
      {
        VariantsStep(w, variants[i..], log);
        assert variants[i..][0] == variants[i] && variants[i..][1..] == variants[i + 1..];
        ok := RunVariant(variants[i], w);
        if ok {
          i := i + 1;
        }
      }
      if ok {
        assert variants[i..] == [];
        assert log + [] == log;
      }
    }

    /** The `try` block of `export` on a fresh exporter: init, the variants, the listing. */
    method Run(variants: seq<string>, w: World) returns (ok: bool)
      requires !browser && !page && !server
      modifies this
      ensures log == old(log) + RunLog(w, variants)
      ensures ok == RunOk(w, variants)
      ensures server == ServerSpawned(w) && browser == BrowserLaunched(w)
    {
      ok := Init(w);
      ghost var afterInit := log;
      if ok {
        ok := RunVariants(variants, w);
        if ok {
          log := log + [ListVideos];
          ok := w.listingOk;
        }
        assert log == afterInit + BatchLog(w, variants);
        AppendAssoc(old(log), InitLog(w), BatchLog(w, variants));
      } else {
        assert log == old(log) + InitLog(w) + [];
      }
    }

    /** `export(variants)` on a fresh exporter, with cleanup on every path. */
    method Export(variants: seq<string>, w: World) returns (ok: bool)
      requires !browser && !page && !server
      modifies this
      ensures log == old(log) + ExportLog(w, variants)
      ensures ok == RunOk(w, variants)
    {
      ok := Run(variants, w);
      ghost var c := CleanupLog(w, browser, server);
      var cleaned := Cleanup(w);
      AppendAssoc(old(log), RunLog(w, variants), c);
      if !ok {
        AppendAssoc(old(log), RunLog(w, variants) + c, [Exit(1)]);
        log := log + [Exit(1)];
      } else {
        assert RunLog(w, variants) + c + [] == RunLog(w, variants) + c;
      }
    }

    /** `export(variants)` as written: `process.exit(1)` in the `catch` ends the process
        before the `finally` block, so only a successful run is cleaned up. */
    method ExportAsWritten(variants: seq<string>, w: World) returns (ok: bool)
      requires !browser && !page && !server
      modifies this
      ensures log == old(log) + ExportLogAsWritten(w, variants)
      ensures ok == RunOk(w, variants)
    {
      ok := Run(variants, w);
      if ok {
        ghost var c := CleanupLog(w, browser, server);
        var cleaned := Cleanup(w);
        AppendAssoc(old(log), RunLog(w, variants), c);
      } else {
        log := log + [Exit(1)];
        AppendAssoc(old(log), RunLog(w, variants), [Exit(1)]);
      }
    }

    /** The SIGINT and SIGTERM handlers: cleanup, then exit with status 0; a rejected
        cleanup never reaches `process.exit(0)`. */
    method OnSignal(w: World)
      modifies this
      ensures log == old(log) + CleanupLog(w, old(browser), old(server))
        + (if CleanupOk(w, old(browser)) then [Exit(0)] else [])
      ensures browser == old(browser) && page == old(page) && server == old(server)
    {
      var cleaned := Cleanup(w);
      if cleaned {
        log := log + [Exit(0)];
      } else {
        assert log == log + [];
      }
    }
  }
}
