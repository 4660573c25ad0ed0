/** The timeline data that every renderer reads: a canvas and an ordered list of
    scenes, each a typed window `[start, start + dur)` of timeline seconds.
    Numbers are exact reals; only the fields the scheduler and the scene
    branches read are kept. */
module TimelineModel {
  import opened Common

  datatype Variant = V1 | V2

  datatype Canvas = Canvas(width: int, height: int, fps: int, bg: string)

  /** A scene. `kind` is the JSON field `type`; the optional payload fields are
      `slates` (montage), `frames` (spin), `config.columns`, `config.rows`,
      `config.animationType` (grid), `config.animation` (copy and cta) and the
      truthiness of `config.gradient` (copy) and `config.gradientText` (cta). */
  datatype Scene = Scene(
    id: string,
    start: real,
    dur: real,
    kind: string,
    slates: Option<seq<string>>,
    frames: Option<int>,
    columns: Option<int>,
    rows: Option<int>,
    animationType: Option<string>,
    animation: Option<string>,
    gradient: bool,
    gradientText: bool)

  datatype Timeline = Timeline(canvas: Canvas, scenes: seq<Scene>)

  /** The scene types every renderer has a branch for; any other `type` takes the fallback branch. */
  predicate KnownKind(kind: string)
  {
    kind == "brand" || kind == "copy" || kind == "montage" || kind == "spin" || kind == "grid" || kind == "cta"
  }

  /** The props a renderer passes to the `Copy` component. */
  datatype CopyStyle = CopyStyle(size: string, animation: string, gradient: bool)

  /** What a renderer shows, as a tag: the branch taken and the values it derives.
      `Placeholder` is the no-active-scene message, `Unknown` the unknown-type fallback.
      A `None` style is text drawn without the `Copy` component; a `None` spin frame
      is a spin scene that shows no frame number; a `None` animation type is a grid
      drawn without `ProductGrid`. */
  datatype View =
    | Placeholder(message: string)
    | Brand
    | CopyText(style: Option<CopyStyle>)
    | Montage(slate: Option<string>, style: Option<CopyStyle>)
    | Spin(shoeFrame: Option<int>)
    | Grid(columns: int, rows: int, animationType: Option<string>)
    | Cta(style: Option<CopyStyle>)
    | Unknown(message: string)

  predicate IsSceneBranch(v: View)
  {
    !v.Placeholder? && !v.Unknown?
  }
}
