/** The exporter's configuration and its pure string builders
    (scripts/build.kiosk-lite.mjs): the preview URL of a frame, the zero-padded frame
    file name and its path, the ffmpeg input pattern, output path and command line,
    and the CLI's variant list. */
module ExportNames {
  import opened Common
  import opened Text

  const Port: nat := 3000
  const Host: string := "localhost"
  const Width: nat := 1080
  const Height: nat := 1920
  const Fps: nat := 30
  const Duration: nat := 30
  const FramesDir: string := "./build/frames"
  const VideosDir: string := "./build/videos"
  const Quality: nat := 23
  const Format: string := "mp4"
  /** Readiness checks before the server start is given up. */
  const MaxAttempts: nat := 60
  /** Delays in milliseconds: before the first check, between checks, after each page
      load, and between SIGTERM and the `killed` test. */
  const FirstCheckDelay: nat := 3000
  const RetryDelay: nat := 1000
  const SettleDelay: nat := 100
  const ShutdownGrace: nat := 2000

  /** `CONFIG.canvas.fps * CONFIG.canvas.duration`. */
  function TotalFrames(): (n: nat)
    ensures n == 900
  {
    Fps * Duration
  }

  /** `http://localhost:3000`. */
  function ServerUrl(): string
  {
    "http://" + Host + ":" + NatToString(Port)
  }

  const PreviewPrefix: string := "/kiosk/preview?frame="
  const VariantParam: string := "&variant="

  /** `http://${host}:${port}/kiosk/preview?frame=${frame}&variant=${variant}`. */
  function FrameUrl(frame: nat, variant: string): string
  {
    ServerUrl() + PreviewPrefix + NatToString(frame) + VariantParam + variant
  }

  lemma ServerUrlValue()
    ensures ServerUrl() == "http://localhost:3000"
  {
    assert NatToString(3000) == "3000" by {
      assert NatToString(3) == "3";
      assert NatToString(30) == NatToString(3) + ['0'];
      assert NatToString(300) == NatToString(30) + ['0'];
    }
  }

  /** Reads the frame number and the variant back out of a URL that starts with the
      given prefix: the digits up to the first `&`, then whatever follows `&variant=`. */
  function ParseQuery(url: string, prefix: string): Option<(nat, string)>
  {
    if |url| < |prefix| || url[..|prefix|] != prefix then None
    else
      var rest := url[|prefix|..];
      if '&' !in rest then None
      else
        var i := IndexOf(rest, '&');
        var tail := rest[i..];
        if !AllDigits(rest[..i]) || |tail| < |VariantParam| || tail[..|VariantParam|] != VariantParam then None
        else Some((ParseNat(rest[..i]), tail[|VariantParam|..]))
  }

  /** The preview URL's reader. */
  function ParseFrameUrl(url: string): Option<(nat, string)>
  {
    ParseQuery(url, ServerUrl() + PreviewPrefix)
  }

  lemma QueryRoundTrip(prefix: string, frame: nat, variant: string)
    ensures ParseQuery(prefix + NatToString(frame) + VariantParam + variant, prefix) == Some((frame, variant))
  {
    var d, vp := NatToString(frame), VariantParam;
    var tail := vp + variant;
    var rest := d + tail;
    var url := prefix + rest;
    assert url == prefix + NatToString(frame) + VariantParam + variant;
    SplitAfterPrefix(prefix, rest);
    assert tail == ['&'] + "variant=" + variant;
    assert rest == d + ['&'] + ("variant=" + variant);
    NumeralHasNoAmpersand(frame);
    IndexOfAfterPrefix(d, '&', "variant=" + variant);
    assert rest[|d|] == '&';
    SplitAfterPrefix(d, tail);
    SplitAfterPrefix(vp, variant);
    ParseNatToString(frame);
  }

  lemma SplitAfterPrefix(p: string, rest: string)
    ensures (p + rest)[..|p|] == p && (p + rest)[|p|..] == rest
  {
  }

  lemma NumeralHasNoAmpersand(n: nat)
    ensures '&' !in NatToString(n)
  {
    var d := NatToString(n);
    forall j | 0 <= j < |d| ensures d[j] != '&' { assert IsDigit(d[j]); }
  }

  /** The frame URL carries its frame and variant: parsing gives both back, so distinct
      frames are requested at distinct URLs. */
  lemma FrameUrlRoundTrip(frame: nat, variant: string)
    ensures ParseFrameUrl(FrameUrl(frame, variant)) == Some((frame, variant))
  {
    QueryRoundTrip(ServerUrl() + PreviewPrefix, frame, variant);
  }

  lemma FrameUrlInjective(f1: nat, v1: string, f2: nat, v2: string)
    ensures FrameUrl(f1, v1) == FrameUrl(f2, v2) <==> f1 == f2 && v1 == v2
  {
    FrameUrlRoundTrip(f1, v1);
    FrameUrlRoundTrip(f2, v2);
  }

  /** `frame_${String(frame).padStart(5, '0')}.png`. */
  function FrameName(frame: nat): string
  {
    "frame_" + PadStart(NatToString(frame), 5, '0') + ".png"
  }

  lemma Pow10Five()
    ensures Pow10(5) == 100000
  {
  }

  /** Below 100000 the name holds exactly five digits: the frame's last five. */
  lemma FrameNameFixedWidth(frame: nat)
    requires frame < 100000
    ensures FrameName(frame) == "frame_" + FixedDigits(frame, 5) + ".png"
    ensures |FrameName(frame)| == 15
  {
    Pow10Five();
    PadStartIsFixedDigits(frame, 5);
  }

  /** Distinct frames below 100000 get distinct names. */
  lemma FrameNameInjective(n: nat, m: nat)
    requires n < 100000 && m < 100000
    ensures FrameName(n) == FrameName(m) <==> n == m
  {
    FrameNameFixedWidth(n);
    FrameNameFixedWidth(m);
    Pow10Five();
    if FrameName(n) == FrameName(m) {
      CancelAround("frame_", FixedDigits(n, 5), FixedDigits(m, 5), ".png");
      FixedDigitsInjective(n, m, 5);
    }
  }

  /** Below 100000 the names sort as the frame numbers do, so ffmpeg's pattern and any
      directory listing see the frames in capture order. */
  lemma FrameNameOrder(n: nat, m: nat)
    requires n < 100000 && m < 100000
    ensures LexLess(FrameName(n), FrameName(m)) <==> n < m
  {
    FrameNameFixedWidth(n);
    FrameNameFixedWidth(m);
    Pow10Five();
    var a, b := FixedDigits(n, 5), FixedDigits(m, 5);
    assert "frame_" + a + ".png" == "frame_" + (a + ".png");
    assert "frame_" + b + ".png" == "frame_" + (b + ".png");
    LexCommonPrefix("frame_", a + ".png", b + ".png");
    LexCommonSuffix(a, b, ".png");
    FixedDigitsOrder(n, m, 5);
  }

  /** `./build/frames/<variant>`. */
  function VariantDir(variant: string): string
  {
    FramesDir + "/" + variant
  }

  /** `path.join(variantDir, name)`: the join drops the leading `./`. */
  function ScreenshotPath(variant: string, frame: nat): string
  {
    "build/frames/" + variant + "/" + FrameName(frame)
  }

  /** `${framesDir}/${variant}/frame_%05d.png`. */
  function InputPattern(variant: string): string
  {
    VariantDir(variant) + "/frame_%05d.png"
  }

  /** `${videosDir}/kiosk_lite_${variant}.mp4`. */
  function OutputPath(variant: string): string
  {
    VideosDir + "/kiosk_lite_" + variant + "." + Format
  }

  /** The pattern ffmpeg reads and the files the capture loop writes agree: the pattern is
      `./` + prefix + `%05d` + suffix and the screenshot of frame n is prefix + its five
      digits + suffix, for every frame below 100000. */
  lemma PatternMatchesScreenshots(variant: string, frame: nat)
    requires frame < 100000
    ensures var pre, suf := "build/frames/" + variant + "/frame_", ".png";
      && InputPattern(variant) == "./" + pre + "%05d" + suf
      && ScreenshotPath(variant, frame) == pre + FixedDigits(frame, 5) + suf
  {
    InputPatternShape(variant);
    ScreenshotPathShape(variant, frame);
  }

  lemma InputPatternShape(variant: string)
    ensures InputPattern(variant) == "./" + ("build/frames/" + variant + "/frame_") + "%05d" + ".png"
  {
    var dir, mid, name := "build/frames/", "/frame_", "%05d";
    assert FramesDir + "/" == "./" + dir;
    assert "/frame_%05d.png" == mid + name + ".png";
    assert InputPattern(variant) == ("./" + dir) + variant + (mid + name + ".png");
  }

  lemma ScreenshotPathShape(variant: string, frame: nat)
    requires frame < 100000
    ensures ScreenshotPath(variant, frame) == ("build/frames/" + variant + "/frame_") + FixedDigits(frame, 5) + ".png"
  {
    FrameNameFixedWidth(frame);
    var dir, digits := "build/frames/", FixedDigits(frame, 5);
    assert "/" + FrameName(frame) == "/frame_" + digits + ".png";
    assert ScreenshotPath(variant, frame) == dir + variant + ("/" + FrameName(frame));
  }

  /** `['ffmpeg', '-y', '-framerate', …, outputPath]`. */
  function FfmpegArgs(variant: string): (args: seq<string>)
    ensures |args| == 17
  {
    ["ffmpeg", "-y",
     "-framerate", NatToString(Fps),
     "-i", InputPattern(variant),
     "-c:v", "libx264",
     "-crf", NatToString(Quality),
     "-pix_fmt", "yuv420p",
     "-movflags", "+faststart",
     "-vf", "scale=" + NatToString(Width) + ":" + NatToString(Height) + ":flags=lanczos",
     OutputPath(variant)]
  }

  /** `.join(' ')`: the command line handed to the shell. */
  function FfmpegCommand(variant: string): string
  {
    Join(FfmpegArgs(variant), ' ')
  }

  /** The argument after the first occurrence of a flag, if any. */
  function FlagValue(args: seq<string>, flag: string): Option<string>
  {
    if |args| < 2 then None
    else if args[0] == flag then Some(args[1])
    else FlagValue(args[1..], flag)
  }

  /** A flag found at index i with no earlier occurrence takes the argument after it. */
  lemma {:induction false} FlagValueAt(args: seq<string>, flag: string, i: nat)
    requires i + 1 < |args| && args[i] == flag
    requires forall j :: 0 <= j < i ==> args[j] != flag
    ensures FlagValue(args, flag) == Some(args[i + 1])
  {
    if i > 0 {
      FlagValueAt(args[1..], flag, i - 1);
    }
  }

  lemma Numerals()
    ensures NatToString(Fps) == "30" && NatToString(Quality) == "23"
    ensures NatToString(Width) == "1080" && NatToString(Height) == "1920"
  {
    assert NatToString(3) == "3";
    assert NatToString(2) == "2";
    assert NatToString(10) == "10";
    assert NatToString(108) == NatToString(10) + ['8'];
    assert NatToString(19) == "19";
    assert NatToString(192) == NatToString(19) + ['2'];
  }

  /** The input side: ffmpeg overwriting its output, 30 frames per second read from the
      variant's frame pattern, and the variant's video as the last argument. */
  lemma FfmpegInput(variant: string)
    ensures var args := FfmpegArgs(variant);
      && args[0] == "ffmpeg" && args[1] == "-y"
      && FlagValue(args, "-framerate") == Some("30")
      && FlagValue(args, "-i") == Some(InputPattern(variant))
      && args[16] == OutputPath(variant)
  {
    FfmpegFrameRate(variant);
    FfmpegInputPattern(variant);
  }

  lemma FfmpegInputPattern(variant: string)
    ensures FlagValue(FfmpegArgs(variant), "-i") == Some(InputPattern(variant))
  {
    FlagValueAt(FfmpegArgs(variant), "-i", 4);
  }

  lemma FfmpegFrameRate(variant: string)
    ensures FlagValue(FfmpegArgs(variant), "-framerate") == Some("30")
  {
    Numerals();
    FlagValueAt(FfmpegArgs(variant), "-framerate", 2);
  }

  /** The quality: CRF 23. */
  lemma FfmpegQuality(variant: string)
    ensures FlagValue(FfmpegArgs(variant), "-crf") == Some("23")
  {
    Numerals();
    FlagValueAt(FfmpegArgs(variant), "-crf", 8);
  }

  /** The output size: a lanczos scale to 1080x1920. */
  lemma FfmpegScale(variant: string)
    ensures FlagValue(FfmpegArgs(variant), "-vf") == Some("scale=1080:1920:flags=lanczos")
  {
    ScaleValue();
    FlagValueAt(FfmpegArgs(variant), "-vf", 14);
  }

  lemma ScaleValue()
    ensures "scale=" + NatToString(Width) + ":" + NatToString(Height) + ":flags=lanczos"
      == "scale=1080:1920:flags=lanczos"
  {
    Numerals();
  }

  /** The codec flags: H.264, yuv420p pixels and the fast-start layout. */
  lemma FfmpegCodec(variant: string)
    ensures var args := FfmpegArgs(variant);
      && FlagValue(args, "-c:v") == Some("libx264")
      && FlagValue(args, "-pix_fmt") == Some("yuv420p")
      && FlagValue(args, "-movflags") == Some("+faststart")
  {
    FlagValueAt(FfmpegArgs(variant), "-c:v", 6);
    FfmpegPixelFormat(variant);
    FfmpegFastStart(variant);
  }

  lemma FfmpegPixelFormat(variant: string)
    ensures FlagValue(FfmpegArgs(variant), "-pix_fmt") == Some("yuv420p")
  {
    FlagValueAt(FfmpegArgs(variant), "-pix_fmt", 10);
  }

  lemma FfmpegFastStart(variant: string)
    ensures FlagValue(FfmpegArgs(variant), "-movflags") == Some("+faststart")
  {
    FlagValueAt(FfmpegArgs(variant), "-movflags", 12);
  }

  /** For a variant name without spaces the shell splits the command back into exactly
      the argument list. */
  lemma FfmpegCommandSplits(variant: string)
    requires ' ' !in variant
    ensures Split(FfmpegCommand(variant), ' ') == FfmpegArgs(variant)
  {
    ArgsHaveNoSpaces(variant);
    SplitJoin(FfmpegArgs(variant), ' ');
  }

  lemma ArgsHaveNoSpaces(variant: string)
    requires ' ' !in variant
    ensures forall i :: 0 <= i < |FfmpegArgs(variant)| ==> ' ' !in FfmpegArgs(variant)[i]
  {
    FlagsHaveNoSpaces();
    ValuesHaveNoSpaces();
    PathPiecesHaveNoSpaces();
    NumeralHasNoSpace(Fps);
    NumeralHasNoSpace(Quality);
    NumeralHasNoSpace(Width);
    NumeralHasNoSpace(Height);
    var scale := "scale=" + NatToString(Width) + ":" + NatToString(Height) + ":flags=lanczos";
    assert ' ' !in scale by {
      NoSpaceInConcat("scale=", NatToString(Width));
      NoSpaceInConcat("scale=" + NatToString(Width), ":");
      NoSpaceInConcat("scale=" + NatToString(Width) + ":", NatToString(Height));
      NoSpaceInConcat("scale=" + NatToString(Width) + ":" + NatToString(Height), ":flags=lanczos");
    }
    assert ' ' !in InputPattern(variant) by {
      NoSpaceInConcat(FramesDir + "/", variant);
      NoSpaceInConcat(VariantDir(variant), "/frame_%05d.png");
    }
    assert ' ' !in OutputPath(variant) by {
      NoSpaceInConcat(VideosDir + "/kiosk_lite_", variant);
      NoSpaceInConcat(VideosDir + "/kiosk_lite_" + variant, "." + Format);
    }
  }

  /** The constant pieces of the command line hold no space. */
  lemma FlagsHaveNoSpaces()
    ensures ' ' !in "-y" && ' ' !in "-framerate" && ' ' !in "-i" && ' ' !in "-c:v"
    ensures ' ' !in "-crf" && ' ' !in "-pix_fmt" && ' ' !in "-movflags" && ' ' !in "-vf"
  {
  }

  lemma ValuesHaveNoSpaces()
    ensures ' ' !in "ffmpeg" && ' ' !in "libx264" && ' ' !in "yuv420p" && ' ' !in "+faststart"
    ensures ' ' !in "scale=" && ' ' !in ":" && ' ' !in ":flags=lanczos"
  {
  }

  lemma PathPiecesHaveNoSpaces()
    ensures ' ' !in FramesDir + "/" && ' ' !in "/frame_%05d.png"
    ensures ' ' !in VideosDir + "/kiosk_lite_" && ' ' !in "." + Format
  {
  }

  lemma NumeralHasNoSpace(n: nat)
    ensures ' ' !in NatToString(n)
  {
    var d := NatToString(n);
    forall j | 0 <= j < |d| ensures d[j] != ' ' { assert IsDigit(d[j]); }
  }

  lemma NoSpaceInConcat(a: string, b: string)
    requires ' ' !in a && ' ' !in b
    ensures ' ' !in a + b
  {
  }

  /** `args.length > 0 ? args : ['V1', 'V2']`. */
  function Variants(args: seq<string>): (vs: seq<string>)
    ensures |args| > 0 ==> vs == args
    ensures |args| == 0 ==> vs == ["V1", "V2"]
  {
    if |args| > 0 then args else ["V1", "V2"]
  }

  /** The directories `createDirectories` makes, in order. */
  function Directories(): (dirs: seq<string>)
    ensures |dirs| == 4 && dirs[2] == VariantDir("V1") && dirs[3] == VariantDir("V2")
  {
    [FramesDir, VideosDir, FramesDir + "/V1", FramesDir + "/V2"]
  }

  /** Each default variant writes its frames into a directory `createDirectories` made. */
  lemma DefaultVariantsHaveDirectories()
    ensures forall v :: v in Variants([]) ==> VariantDir(v) in Directories()
  {
    var dirs := Directories();
    forall v | v in Variants([]) ensures VariantDir(v) in dirs {
      if v == "V1" { assert dirs[2] == VariantDir(v); } else { assert dirs[3] == VariantDir(v); }
    }
  }
}
