# Foot Locker kiosk-lite: timeline scheduler, frame clocks and exporter

This project models the core of the kiosk-lite app in Dafny. The app plays a
30-second vertical video that is driven by a JSON timeline of scenes. Each scene has
a start, a duration, a type (brand, copy, montage, spin, grid, cta) and some
scene-specific data. The project proves properties of the model.

The model has these parts:

- **The scene scheduler** (`Scheduler`, on the data model in `TimelineModel`). It
  maps a frame index to its time `frame / fps`. It then finds the first scene whose
  window `[start, start + dur)` holds that time, and the scene's clamped progress.
  It also derives two indices from the progress: the montage slate and the spin
  frame.
- **The four drivers of a timeline:**
  - the export render target (`KioskFrame`);
  - the live player (`KioskPlayer`);
  - the two-variant play page (`PlayPage`);
  - the single-variant fallback page (`WorkingPage`).

  Each is modelled as the tag of what it renders: the scene branch, a placeholder
  or the unknown-type fallback. `Agreement` proves that all four drivers find the
  same scene with the same progress, and states where they differ.
- **The frame clocks:**
  - the animation-frame tick shared by the player and the play page (`FrameClock`,
    with the `Player` and `Page` classes holding its state);
  - the fixed-interval tick of the working page;
  - the 1-based flipbook of `ImageSequence`.
- **The exporter** (`ExportNames` for its configuration and string builders,
  `Exporter` for the `KioskExporter` class). Everything outside the script is an
  oracle in a `World` value: the file system, the dev server, the `curl` probe,
  puppeteer and ffmpeg. The exporter's observable behaviour is the log of actions
  it takes. Each method is specified by a pure function that gives that log.
- **The product grid and text components** (`ProductGrid` and `Copy`). These
  cover:
  - product slicing;
  - the animation delays;
  - the prop defaults;
  - the grid templates;
  - the CSS-module class list.

Time is exact `real` arithmetic. A frame rate is a positive integer wherever a
scene is looked up. Dafny's `%` is Euclidean, so JavaScript's truncating `%` is
written out as `Common.JsRem`.

## Model

| member | source | states |
|---|---|---|
| Scheduler.ActiveIndexFrom | app/kiosk/preview/KioskFrame.tsx:39-41 | The index found is the first one at or after the start whose window holds the time. None means no such window exists. |
| Scheduler.CurrentScene | app/kiosk/preview/KioskFrame.tsx:37-42 | No scene exactly when no window holds `frame / fps`. Otherwise the result holds the time, has a positive duration, and is the earliest-declared such scene. |
| Scheduler.SceneProgress | app/kiosk/preview/KioskFrame.tsx:44-48 | The progress always lies in [0, 1]. |
| Scheduler.Lookup | app/kiosk/preview/KioskFrame.tsx:51-52 | The pair a driver derives: the scene is `CurrentScene`. With no scene the progress is 0. The progress always lies in [0, 1). |
| Scheduler.FirstMatchIsFound | app/kiosk/preview/KioskFrame.tsx:37-42 | Any index whose window holds the time, with no earlier window holding it, is the scene returned. |
| Scheduler.OverlapPrefersEarlier | app/kiosk/preview/KioskFrame.tsx:39-41 | With two overlapping windows, the later-declared scene is never chosen. |
| Scheduler.EmptyTimelineHasNoScene | app/kiosk/preview/KioskFrame.tsx:41-42 | An empty scene list gives (no scene, progress 0) at every frame. |
| Scheduler.ProgressOfContainingScene | app/kiosk/preview/KioskFrame.tsx:44-48 | For a scene holding the time, the progress is exactly `(t - start) / dur`, which lies in [0, 1). |
| Scheduler.ProgressZeroAtStart | app/kiosk/preview/KioskFrame.tsx:44-48 | The progress is 0 at `t = start`. |
| Scheduler.ProgressClampsOutsideWindow | app/kiosk/preview/KioskFrame.tsx:47 | Before the window the progress is 0. From the window's end on it is 1. |
| Scheduler.ProgressMonotone | app/kiosk/preview/KioskFrame.tsx:45-47 | For a fixed scene, the progress never decreases as the frame grows. |
| Scheduler.SlateIndexInRange | app/kiosk/preview/KioskFrame.tsx:100 | For a progress in [0, 1), `floor(progress * (len or 1))` is a valid slate position. |
| Scheduler.SlateIndexMonotone | app/kiosk/preview/KioskFrame.tsx:100 | The slate index never decreases as the progress grows. |
| Scheduler.SlateShare | app/kiosk/preview/KioskFrame.tsx:100 | Each of n slates owns the progress interval `[k/n, (k+1)/n)`, in both directions. |
| Scheduler.SlateRulesAgree | app/kiosk/preview/KioskFrame.tsx:101 | The export target's fallback rule (`slates[i] \|\| slates[0]`) and the players' clamped rule agree on every in-range index, except on an empty entry. There the export target shows the first slate and the players show the empty entry. |
| Scheduler.SpinFrameInRange | app/kiosk/preview/KioskFrame.tsx:131 | For a progress in [0, 1) and a positive count (`frames \|\| 36`), the spin frame lies in [1, count]. |
| KioskFrame.RenderBranches | app/kiosk/preview/KioskFrame.tsx:50-222 | The "Frame n - No Scene" message shows exactly when no scene is active, and it names the frame. The "Unknown scene type" fallback shows exactly when the active type is not one of the six. Every other frame shows a scene branch. |
| KioskFrame.MontageShowsDeclaredSlate | app/kiosk/preview/KioskFrame.tsx:99-101 | A montage with slates shows the slate at the frame's share of the scene, or the first slate when that entry is empty. Either way the slate is a declared one. |
| KioskFrame.SpinShowsFrameInSequence | app/kiosk/preview/KioskFrame.tsx:130-131 | A spin scene shows a frame number in [1, `frames \|\| 36`]. |
| KioskPlayer.LoopTiming | app/kiosk/play/KioskPlayer.tsx:58-59 | `totalFrames = fps * 30` is positive and lasts 30 seconds, and fps frame intervals of `1000 / fps` ms make one second. |
| KioskPlayer.ProgressBarFraction | app/kiosk/play/KioskPlayer.tsx:309-310 | The displayed fraction `timeInSeconds / totalSeconds` is `frame / totalFrames`, which lies in [0, 1) inside the loop. |
| KioskPlayer.MontageSlateIsDeclared | app/kiosk/play/KioskPlayer.tsx:152-154 | With the clamp, a montage with slates renders exactly the slate at the scene's progress index, in the variant's style. |
| KioskPlayer.Player.constructor | app/kiosk/play/KioskPlayer.tsx:52-56 | The first render is frame 0, playing, with the clock unseeded and a callback scheduled. |
| KioskPlayer.Player.OnAnimationFrame | app/kiosk/play/KioskPlayer.tsx:61-76 | `updateFrame` moves the state to `FrameClock.Step` of the old clock, keeps the frame in `[0, totalFrames)`, and reschedules while playing. |
| KioskPlayer.Player.PlayPause | app/kiosk/play/KioskPlayer.tsx:112-114 | Flips only `isPlaying`. The callback is scheduled exactly while playing. |
| KioskPlayer.Player.Restart | app/kiosk/play/KioskPlayer.tsx:116-120 | Sets frame 0, last time 0 and playing. |
| KioskPlayer.PlayerRunCycles | app/kiosk/play/KioskPlayer.tsx:61-76 | After any run of callbacks the frame is the start frame plus the number of advancing callbacks, modulo `totalFrames`. |
| FrameClock.StepEffect | app/kiosk/play/KioskPlayer.tsx:66-71 | One tick keeps the frame in the loop. Once an interval has elapsed since the seeded time, it advances the frame by one (wrapping `total - 1` to 0) and records the timestamp. Otherwise it changes only the seed. |
| FrameClock.FirstStepOnlySeeds | app/kiosk/play/KioskPlayer.tsx:62-64 | With last time 0 and a positive interval, the tick only seeds the last time and never advances. |
| FrameClock.RunCountsAdvances | app/kiosk/play/page.tsx:69-84 | Over any sequence of ticks, the frame stays in the loop and equals (start + advances) mod total: no frame is skipped or repeated. |
| PlayPage.LoopIsNonEmpty | app/kiosk/play/page.tsx:66-67 | The loop has at least 30 frames. Before a timeline loads it has 900 frames at a 33 ms interval. |
| PlayPage.PageScene | app/kiosk/play/page.tsx:102-109 | No scene without a timeline. With one, the scene is the scheduler's `CurrentScene`. |
| PlayPage.MontageProgressIsSceneProgress | app/kiosk/play/page.tsx:202-204 | Inside the active window, the montage's unclamped progress equals the clamped progress. |
| PlayPage.ScreenBranches | app/kiosk/play/page.tsx:125-131 | The page shows a scene branch exactly when it has loaded, a timeline is selected and a known-type scene is active. It shows the "Unknown scene" fallback exactly for an unknown type, and the loading message while loading. |
| PlayPage.Page.constructor | app/kiosk/play/page.tsx:31-38 | Nothing loaded, variant V1, loading, frame 0, playing, clock unseeded, nothing scheduled. |
| PlayPage.Page.Load | app/kiosk/play/page.tsx:41-60 | Both timelines arrive together or, on any failure, neither does. Loading ends either way. |
| PlayPage.Page.SelectVariant | app/kiosk/play/page.tsx:503-518 | Switches the selected variant and keeps the frame. The frame stays inside the loop whenever the new loop is no shorter. |
| PlayPage.Page.OnAnimationFrame | app/kiosk/play/page.tsx:69-93 | The tick is `FrameClock.Step` over the selected loop. It keeps the loop range and brings an out-of-range frame back into it on an advance. The callback is scheduled only while playing with a timeline. |
| PlayPage.Page.PlayPause | app/kiosk/play/page.tsx:114-116 | Flips only `isPlaying`. |
| PlayPage.Page.Restart | app/kiosk/play/page.tsx:118-122 | Sets frame 0, last time 0 and playing. |
| WorkingPage.EffectiveFps | app/kiosk/working/page.tsx:34 | `canvas?.fps \|\| 30` is never 0, and it is the timeline's own rate when that rate is present and non-zero. |
| WorkingPage.TotalFrames | app/kiosk/working/page.tsx:35 | `fps * 30` is never 0. |
| WorkingPage.PageScene | app/kiosk/working/page.tsx:44-51 | No scene without a timeline or its scene list. Otherwise the scene is the scheduler's `CurrentScene` at the defensive rate. |
| WorkingPage.MontageSlate | app/kiosk/working/page.tsx:136-139 | With the rate the scene was found at, a montage with slates shows one of its slates. |
| WorkingPage.MontageSlateAgreesWithRawFps | app/kiosk/working/page.tsx:54 | With the rate present and non-zero, the page's raw-rate slate matches the corrected one. |
| WorkingPage.MontageSlateWithoutFps | app/kiosk/working/page.tsx:54 | A concrete timeline without `canvas.fps` on which the raw-rate slate differs from the intended one. |
| WorkingPage.ScreenBranches | app/kiosk/working/page.tsx:54-95 | The loading message and a non-empty error message take precedence. An empty message is falsy and does not block the scene. A scene branch shows exactly for an active, known-type scene. The montage slate follows the page's raw-rate time: with a positive `canvas.fps` a montage with slates shows a declared slate, and without `canvas.fps` it shows none. |
| WorkingPage.Page.constructor | app/kiosk/working/page.tsx:6-10 | Frame 0, playing, no timeline, loading, no error, no interval. |
| WorkingPage.Page.Load | app/kiosk/working/page.tsx:14-25 | A response sets the timeline and a failure sets the error message. Loading ends either way. |
| WorkingPage.Page.Tick | app/kiosk/working/page.tsx:37-39 | `(prev + 1) % totalFrames` with JavaScript's remainder, which keeps the frame in `[0, \|totalFrames\|)`. The interval runs only while playing with a timeline. |
| WorkingPage.Page.PlayPause | app/kiosk/working/page.tsx:344 | Flips only `isPlaying`. The interval runs exactly while playing with a timeline. |
| WorkingPage.Page.Restart | app/kiosk/working/page.tsx:358 | Sets frame 0 and leaves play/pause as it was. |
| Agreement.SameScene | app/kiosk/play/KioskPlayer.tsx:39-50 | The export target, the player, the play page and the working page (with a present rate) look up the same scene for every frame. |
| Agreement.FrameAndPlayerAgree | app/kiosk/play/KioskPlayer.tsx:122-305 | The export target and the player take the same branch at every frame. They render every known type other than the montage identically. |
| Agreement.MontageSlatesAgree | app/kiosk/play/KioskPlayer.tsx:152-154 | The player, the play page and the working page show the same montage slate. The export target shows it too whenever that entry is non-empty. |
| ImageSequence.NextFrameInRange | components/kiosk/ImageSequence.tsx:36 | From any frame of at least 1, the next frame lies in [1, total]. |
| ImageSequence.LoopingCycles | components/kiosk/ImageSequence.tsx:36 | When looping, k ticks from frame f show `((f - 1 + k) mod total) + 1`. |
| ImageSequence.LoopingPeriod | components/kiosk/ImageSequence.tsx:36 | When looping, `total` ticks return to the starting frame. |
| ImageSequence.NonLoopingHolds | components/kiosk/ImageSequence.tsx:36 | When not looping, k ticks show `min(f + k, total)`, and the last frame is held. |
| ImageSequence.ImageSrcAt | components/kiosk/ImageSequence.tsx:45-47 | Only the first `#` is replaced by the decimal frame number. |
| ImageSequence.ImageSrcInjective | components/kiosk/ImageSequence.tsx:45-47 | A pattern with `#` gives distinct frames distinct sources. |
| ImageSequence.ImageSrcWithoutPlaceholder | components/kiosk/ImageSequence.tsx:45-47 | A pattern without `#` is used unchanged. |
| ImageSequence.Sequence.constructor | components/kiosk/ImageSequence.tsx:18-29 | Applies the defaults rate 12, autoplay and loop. Starts at frame 1, playing when autoplay is on. The invariant holds: the interval runs exactly while playing, and with at least one frame the frame is in [1, total]. |
| ImageSequence.Sequence.Tick | components/kiosk/ImageSequence.tsx:34-39 | The frame becomes `NextFrame` of the old one, the value reported to `onFrameChange` is that new frame, and the invariant (frame in [1, total] for a positive total) is kept. Ticks happen only while playing. |
| ImageSequence.Sequence.Toggle | components/kiosk/ImageSequence.tsx:65 | Flips `isPlaying`, keeps the frame and the invariant. The interval runs exactly while playing. |
| ProductGrid.ApplyDefaults | components/kiosk/ProductGrid.tsx:25-29 | columns 2, rows 3, `stagger`, `New Arrivals` for props left undefined, and the given values otherwise. |
| ProductGrid.SliceTo | components/kiosk/ProductGrid.tsx:40 | `slice(0, end)` is a prefix of the data. |
| ProductGrid.ShownIsPrefix | components/kiosk/ProductGrid.tsx:40 | The grid shows exactly the first `min(len, columns * rows)` products, in order. |
| ProductGrid.CardDelays | components/kiosk/ProductGrid.tsx:76-81 | One delay per shown card, in order. The wave division happens only with a non-zero column count. |
| ProductGrid.StaggerIncreasing | components/kiosk/ProductGrid.tsx:52-53 | Stagger delays grow strictly with the index. |
| ProductGrid.WavePosition | components/kiosk/ProductGrid.tsx:54-57 | The wave delay is `(row + col) * 0.15` with `index = row * columns + col` and `0 <= col < columns`. |
| ProductGrid.WaveDiagonal | components/kiosk/ProductGrid.tsx:54-57 | Cards on one anti-diagonal start together. |
| ProductGrid.OtherTypesConstant | components/kiosk/ProductGrid.tsx:58-59 | Every other type, including `fade`, delays each card by 0.1 s. |
| ProductGrid.Title | components/kiosk/ProductGrid.tsx:65 | The title shows exactly when its text is non-empty, and it shows that text. |
| ProductGrid.DefaultTitle | components/kiosk/ProductGrid.tsx:29 | With no title prop, "New Arrivals" shows. An empty title hides the heading. |
| ProductGrid.TemplateReadsBack | components/kiosk/ProductGrid.tsx:72-73 | `repeat(n, 1fr)` carries n: the text between the brackets parses back to n. |
| ProductGrid.TemplateInjective | components/kiosk/ProductGrid.tsx:72-73 | Distinct counts give distinct templates. |
| Copy.ApplyDefaults | components/kiosk/Copy.tsx:16-21 | V1, headline, fade, no gradient and an empty class name for props left undefined, and the given values otherwise. Its partner is `Copy.DefaultPropsClasses`. |
| Copy.Capitalize | components/kiosk/Copy.tsx:25 | The first character is upper-cased and the rest is unchanged, at the same length. |
| Copy.CapitalizeExamples | components/kiosk/Copy.tsx:25-27 | `subheadline` gives the key `sizeSubheadline` and `slideUp` gives `animSlideUp`. |
| Copy.Entries | components/kiosk/Copy.tsx:23-29 | The six class slots, in their fixed order. |
| Copy.Kept | components/kiosk/Copy.tsx:30 | `filter(Boolean)` keeps only non-empty class names and never adds any. |
| Copy.KeptFromEntries | components/kiosk/Copy.tsx:30 | Every kept class name comes from an entry. |
| Copy.KeptSkipsFalsy | components/kiosk/Copy.tsx:30 | A falsy entry anywhere leaves no trace in the list. |
| Copy.KeptKeeps | components/kiosk/Copy.tsx:30 | Every truthy entry is kept. |
| Copy.ClassesSplit | components/kiosk/Copy.tsx:23-30 | The class string splits at single spaces back into exactly the kept entries, in order. |
| Copy.GradientOnlyWhenRequested | components/kiosk/Copy.tsx:28 | Without `gradient` the gradient slot is dropped. With it, a defined gradient class is present. |
| Copy.DefaultClasses | components/kiosk/Copy.tsx:23-30 | With the defaults, the list is exactly the four module classes: copy, size, variant and anim. |
| Copy.DefaultPropsClasses | components/kiosk/Copy.tsx:16-30 | A `<Copy>` with no props renders exactly the classes `copy`, `sizeHeadline`, `variantV1` and `animFade`, in that order. |
| ExportNames.TotalFrames | scripts/build.kiosk-lite.mjs:154 | `fps * duration` is 900 frames. |
| ExportNames.ServerUrlValue | scripts/build.kiosk-lite.mjs:85 | The server address is `http://localhost:3000`. |
| ExportNames.QueryRoundTrip | scripts/build.kiosk-lite.mjs:158 | The frame and variant read back from a query built from them. |
| ExportNames.FrameUrlRoundTrip | scripts/build.kiosk-lite.mjs:158 | Each frame URL carries `frame=<n>&variant=<v>`, which parse back to n and v. |
| ExportNames.FrameUrlInjective | scripts/build.kiosk-lite.mjs:158 | Distinct frames or variants are requested at distinct URLs, in both directions. |
| ExportNames.FrameNameFixedWidth | scripts/build.kiosk-lite.mjs:166 | Below 100000 the file name is `frame_` + exactly five digits + `.png`, 15 characters in all. |
| ExportNames.FrameNameInjective | scripts/build.kiosk-lite.mjs:166 | Below 100000, distinct frames get distinct names, in both directions. |
| ExportNames.FrameNameOrder | scripts/build.kiosk-lite.mjs:166 | Below 100000, the names sort lexicographically as the frame numbers do. |
| ExportNames.PatternMatchesScreenshots | scripts/build.kiosk-lite.mjs:194 | The ffmpeg `%05d` pattern and the screenshot paths share a prefix and a suffix, with the five digits of the frame in between. |
| ExportNames.FfmpegArgs | scripts/build.kiosk-lite.mjs:197-208 | The command has 17 arguments. |
| ExportNames.FfmpegInput | scripts/build.kiosk-lite.mjs:197-207 | The command is `ffmpeg -y` with `-framerate 30` and `-i <framesDir>/<v>/frame_%05d.png`, and the last argument is `<videosDir>/kiosk_lite_<v>.mp4`. |
| ExportNames.FfmpegQuality | scripts/build.kiosk-lite.mjs:203 | `-crf 23`. |
| ExportNames.FfmpegScale | scripts/build.kiosk-lite.mjs:206 | `-vf scale=1080:1920:flags=lanczos`. |
| ExportNames.FfmpegCodec | scripts/build.kiosk-lite.mjs:202-205 | `-c:v libx264`, `-pix_fmt yuv420p` and `-movflags +faststart`. |
| ExportNames.FfmpegCommandSplits | scripts/build.kiosk-lite.mjs:208 | For a variant without spaces, the joined command splits back into exactly the argument list. |
| ExportNames.Variants | scripts/build.kiosk-lite.mjs:295-296 | The CLI arguments when there are any, and `[V1, V2]` otherwise. Its partners are `ExportNames.DefaultVariantsHaveDirectories` and `Exporter.DefaultVariantsRun`. |
| ExportNames.Directories | scripts/build.kiosk-lite.mjs:52-57 | Four directories, the V1 and V2 frame directories among them. |
| ExportNames.DefaultVariantsHaveDirectories | scripts/build.kiosk-lite.mjs:52-57 | Each default variant's frame directory is one that `createDirectories` makes. |
| Exporter.DirsOkIff | scripts/build.kiosk-lite.mjs:59-61 | The directory step succeeds exactly when every mkdir does, and it then makes each directory once, in order. |
| Exporter.DirsEvents | scripts/build.kiosk-lite.mjs:59-61 | The directory step only makes directories. |
| Exporter.Attempts | scripts/build.kiosk-lite.mjs:75-83 | The checks that probe are numbered 1 to 60. |
| Exporter.StartupOkIff | scripts/build.kiosk-lite.mjs:78-94 | The start resolves exactly when one of the pending checks gets an answer. |
| Exporter.StartupBounded | scripts/build.kiosk-lite.mjs:79-83 | There is at most one probe per allowed check. When none answers, every check probes once and waits 1000 ms. |
| Exporter.StartupEvents | scripts/build.kiosk-lite.mjs:78-94 | The polling only probes and waits. |
| Exporter.StartupOkSomeProbe | scripts/build.kiosk-lite.mjs:74-97 | The server counts as started exactly when one of the probes 1 to 60 answers. |
| Exporter.StartupTimeout | scripts/build.kiosk-lite.mjs:76-97 | A silent server is given up after exactly 60 probes, 63 seconds after the spawn. |
| Exporter.StartupFirstAnswer | scripts/build.kiosk-lite.mjs:86-91 | The first answer resolves the start, with that probe as the last action and none after it. |
| Exporter.StartupResolvesAtFirstAnswer | scripts/build.kiosk-lite.mjs:86-89 | When probe k of 60 is the first to answer, the start resolves after exactly k probes, the last of them probe k. |
| Exporter.Frames | scripts/build.kiosk-lite.mjs:157 | The frames of a variant are 0 to 899. |
| Exporter.CaptureLogOrder | scripts/build.kiosk-lite.mjs:157-166 | The frames are requested one at a time in order, each at its own URL and file. |
| Exporter.CaptureEvents | scripts/build.kiosk-lite.mjs:157-186 | The frame loop only captures. |
| Exporter.CaptureOkIff | scripts/build.kiosk-lite.mjs:157-186 | The loop succeeds exactly when every frame is captured, and it then requests all of them. |
| Exporter.CaptureStopsAtFirstFailure | scripts/build.kiosk-lite.mjs:182-185 | A failing loop ends right after its first failing frame, and every frame before that one was captured. |
| Exporter.AllFramesCaptured | scripts/build.kiosk-lite.mjs:154-186 | When every frame succeeds, frames 0 to 899 are captured in strictly increasing order. |
| Exporter.CaptureStopsAtFailure | scripts/build.kiosk-lite.mjs:182-185 | No frame after a failing frame is requested. |
| Exporter.VariantEncodedAfterAllFrames | scripts/build.kiosk-lite.mjs:264-265 | A variant is encoded exactly when all of its frames were captured, and exactly once, with its own command. |
| Exporter.VariantsOkIff | scripts/build.kiosk-lite.mjs:262-266 | The batch succeeds exactly when every variant does. It only captures and encodes. |
| Exporter.DefaultVariantsRun | scripts/build.kiosk-lite.mjs:262-266 | With no CLI arguments the run exports V1, then V2 only when V1 succeeded, and succeeds exactly when both do. Given arguments are exported as given. |
| Exporter.VariantsStopAtFailure | scripts/build.kiosk-lite.mjs:262-266 | With variant i the first to fail, the earlier variants ran in full and in order, variant i ran up to its failure, and no later variant is touched. |
| Exporter.CleanupEvents | scripts/build.kiosk-lite.mjs:235-254 | Cleanup only closes the browser, signals the server and waits. |
| Exporter.InitShape | scripts/build.kiosk-lite.mjs:38-49 | `init` stops at the first of its three steps that fails. |
| Exporter.InitEvents | scripts/build.kiosk-lite.mjs:38-49 | `init` only makes directories, spawns, waits, probes, launches and opens the page. |
| Exporter.InitControl | scripts/build.kiosk-lite.mjs:38-49 | The server is spawned exactly when the directories were made. The browser is launched exactly when the server also answered, and the page is opened only after a launch. |
| Exporter.RunControl | scripts/build.kiosk-lite.mjs:259-283 | Nothing is captured, encoded or listed unless `init` succeeded. The `try` block never closes, kills or exits. |
| Exporter.RunOkIff | scripts/build.kiosk-lite.mjs:259-283 | The run succeeds exactly when every mkdir, one of the 60 probes, the browser and page, every frame and encode of every variant, and the listing succeed. |
| Exporter.ExportFailsIff | scripts/build.kiosk-lite.mjs:285-287 | The export exits with status 1 exactly when the run failed, and then as its last action. |
| Exporter.CleanupOnEveryPath | scripts/build.kiosk-lite.mjs:238-250 | With cleanup on every path, a launched browser is always closed. A spawned server gets SIGTERM, and SIGKILL when `killed` stayed false, whenever the browser close did not reject. |
| Exporter.CloseFailureSkipsSignals | scripts/build.kiosk-lite.mjs:238-243 | When `browser.close()` rejects, cleanup stops there: the server is never signalled, on the corrected export and on the export as written. |
| Exporter.AsWrittenSkipsCleanupOnFailure | scripts/build.kiosk-lite.mjs:285-290 | As written, a failed export exits with status 1 as its last action, without signalling the server or closing the browser. |
| Exporter.SilentServerKeepsRunning | scripts/build.kiosk-lite.mjs:285-290 | A concrete world (a server that never answers) on which the script as written spawns the server and never signals it. |
| Exporter.NoBrowserWithoutServer | scripts/build.kiosk-lite.mjs:45-48 | Without an answering server there is no launch, no page, and no capture, encode or listing. |
| Exporter.KioskExporter.constructor | scripts/build.kiosk-lite.mjs:32-36 | The browser, page and server are unset, and nothing has been done yet. |
| Exporter.KioskExporter.CreateDirectories | scripts/build.kiosk-lite.mjs:51-63 | The loop logs `DirsLog` and succeeds exactly when `DirsOk` holds. |
| Exporter.KioskExporter.StartServer | scripts/build.kiosk-lite.mjs:65-110 | The spawn, the 3000 ms wait and the polling loop log `ServerLog`, and the result is `StartupOk`. The server process is then set. |
| Exporter.KioskExporter.LaunchBrowser | scripts/build.kiosk-lite.mjs:112-149 | Logs the launch, and opens the page only after a launch. `browser` is set by a launch, and `page` only when the page steps succeed. |
| Exporter.KioskExporter.Init | scripts/build.kiosk-lite.mjs:38-49 | Logs `InitLog` and succeeds exactly when `InitOk` holds. The server and browser fields record the steps that happened. |
| Exporter.KioskExporter.CaptureFrames | scripts/build.kiosk-lite.mjs:151-189 | The frame loop logs `CaptureLog` over frames 0 to 899 and succeeds exactly when `CaptureOk` holds. |
| Exporter.KioskExporter.CreateVideo | scripts/build.kiosk-lite.mjs:191-233 | Runs the variant's ffmpeg command. It succeeds exactly when ffmpeg succeeds and the output is accessible. |
| Exporter.KioskExporter.Cleanup | scripts/build.kiosk-lite.mjs:235-254 | Closes a set browser. When that close resolves (or there is no browser) and the server is set, it sends SIGTERM, waits 2000 ms, and sends SIGKILL when `killed` is false. It reports whether it resolved. |
| Exporter.KioskExporter.RunVariant | scripts/build.kiosk-lite.mjs:264-265 | One variant: capture, then encode when all frames were captured. |
| Exporter.KioskExporter.RunVariants | scripts/build.kiosk-lite.mjs:262-266 | The variant loop logs `VariantsLog` and succeeds exactly when `VariantsOk` holds. |
| Exporter.KioskExporter.Run | scripts/build.kiosk-lite.mjs:259-283 | The `try` block logs `RunLog` and succeeds exactly when `RunOk` holds. It leaves the server and browser fields set exactly when the spawn and the launch happened. |
| Exporter.KioskExporter.Export | scripts/build.kiosk-lite.mjs:256-291 | The corrected export of the second finding: it logs `ExportLog` (cleanup on every path, then exit 1 after a failure) and succeeds exactly when `RunOk` holds. |
| Exporter.KioskExporter.ExportAsWritten | scripts/build.kiosk-lite.mjs:256-291 | The export as written: it logs `ExportLogAsWritten`, where a failure exits with status 1 before any cleanup, and succeeds exactly when `RunOk` holds. |
| Exporter.KioskExporter.OnSignal | scripts/build.kiosk-lite.mjs:308-318 | On SIGINT or SIGTERM it cleans up, then exits with status 0. A rejected cleanup never reaches the exit. |
| Text.ParseNatToString | scripts/build.kiosk-lite.mjs:158 | The decimal text of a number parses back to it. |
| Text.PadStartIsFixedDigits | scripts/build.kiosk-lite.mjs:166 | `padStart(k, '0')` of the decimal text of `n < 10^k` is the k-digit form of n. |
| Text.FixedDigitsOrder | scripts/build.kiosk-lite.mjs:166 | k-digit forms sort lexicographically as the numbers do. |
| Text.SplitJoin | scripts/build.kiosk-lite.mjs:208 | Joining parts without the separator, then splitting at it, gives the parts back. |
| Text.ReplaceFirstAt | components/kiosk/ImageSequence.tsx:46 | `replace('#', r)` replaces only the first `#`. |

## Left out

- Rendering: only the branch and its data are modelled, as a `View` tag. This leaves out the JSX, inline styles, CSS-module files, `LogoStamp`, the pages `simple/page.tsx` and `preview/page.tsx`, and the text of each branch.
- The CSS module behind `Copy` is an abstract map from key to class name.
- React state batching, `useEffect` and `useCallback`, `requestAnimationFrame`, `setInterval` and `setTimeout` are not modelled. Each callback is an explicit method call that carries its timestamp. The `scheduled` and `ticking` fields stand for a pending callback or an installed interval.
- Floating point is not modelled. Time and progress are exact reals, and the model has no IEEE rounding of `frame / fps` or `1000 / fps`.
- JavaScript's NaN and Infinity appear only in `WorkingPage.MontageSlateAsWritten`, for the missing or zero rate.
- `toFixed`, percentages and console output are left out.
- The fetches are left out: the timeline API, the products JSON and `response.json()`. A load is an input that succeeded (with its parsed value) or failed.
- The product-grid `isLoaded` flag and its 100 ms timer are left out.
- The play page and the working page read `scenes?`. The play page's model always has a scene list.
- The working page's `Loaded` record does not tell a missing `fps` from a missing canvas. With no canvas at all, line 54 would throw a TypeError during rendering. The model treats it as a missing `fps` and shows no slate.
- Copy.Capitalize: only the ASCII letters a to z are upper-cased. JavaScript's `toUpperCase` covers all of Unicode and can change the length ('ß' becomes "SS"), so the same-length ensures holds only for this ASCII model.
- Timing is not modelled. The delays of 3000 ms before the first check, 1000 ms between checks, 100 ms settle per frame and 2000 ms shutdown grace are logged as constants, and no clock runs. The settle wait is part of each capture.
- The oracles:
  - `World` stands for `spawn`, the `curl` probe, puppeteer, ffmpeg, `fs.mkdir`, `fs.access`/`fs.stat` and `fs.readdir`.
  - Each mkdir, probe, capture, encode and output check is one boolean answer.
  - The stdout and stderr listeners of the server only log, and they are left out.
- Exporter.KioskExporter.CreateVideo: success requires only that the output file is accessible. The script does no size check, and neither does the model.
- `serverProcess.killed` after SIGTERM is an oracle (`termDelivered`), and so is whether `browser.close()` resolves (`closeOk`). Signal delivery and node's process semantics are not modelled.
- A spawn that fails (line 69) emits an `error` event that has no listener, which crashes the process. In the model the spawn always succeeds; only the readiness probes can fail.
- A rejected cleanup makes `export` (or a signal handler) reject in turn. The process's exit status after that unhandled rejection is not modelled: the log ends at the failed close, and the corrected export still records exit status 1 after a failed run.
- Exporter.CleanupOnEveryPath: the SIGTERM and SIGKILL guarantees are stated only when the browser close resolved, because the script itself stops `cleanup` at a rejecting close.
- The `serverReady` guard is not modelled separately. Each check is scheduled only from the previous check's callback, so no probe answers after the promise settled.
- Exporter.KioskExporter.LaunchBrowser: `this.page` is set as soon as `newPage` resolves. The model sets `page` only when the viewport and style steps also succeed. A failure there ends `init`, and the page is never used afterwards.
- createDirectories makes only the V1 and V2 frame directories. A CLI variant with another name writes into a directory nobody made. The model leaves that to the capture oracle and proves nothing about it.
- `path.join` normalisation is written out only for the leading `./` of the frames directory. Variant names holding `..` or `/` are not normalised.
- The SIGINT and SIGTERM handlers are modelled as a method that can be called in any state. When they interleave with a running export is not modelled.

## Findings

| source | as written | input that shows it | evidently intended | confidence | as-written member | corrected member |
|---|---|---|---|---|---|---|
| app/kiosk/working/page.tsx:54 | The montage time is `frame / timeline.canvas.fps`, with the raw rate, while the scene itself is looked up at `canvas?.fps \|\| 30` (line 47). | A timeline whose canvas has no `fps`, with one montage `[0, 5)` and slates `["A", "B"]`, at frame 0. The scene is found, but the time is NaN and no slate shows. With `fps = 0` at frame 1, the time is +Infinity and the last slate shows. | The montage time uses the same fallback rate as the scene lookup, so frame 0 shows slate "A". | not executed | WorkingPage.MontageSlateWithoutFps | WorkingPage.MontageSlate |
| scripts/build.kiosk-lite.mjs:285-290 | On an error, the `catch` calls `process.exit(1)`, which ends the process before the `finally` runs `cleanup`. | A dev server that never answers any of the 60 probes. The server is spawned, the start rejects, and the process exits without sending SIGTERM to `npm run dev`. | `cleanup` runs on every path, then the process exits with status 1 after a failure. | not executed | Exporter.SilentServerKeepsRunning | Exporter.KioskExporter.Export |
