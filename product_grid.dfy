/** The product grid (components/kiosk/ProductGrid.tsx): it shows the first
    `columns * rows` products of its data file, each card with an entrance-animation
    delay chosen by the animation type, under an optional title. */
module ProductGrid {
  import opened Common
  import opened Text

  datatype Product = Product(image: string, name: string, price: string)

  /** The props after JavaScript's default parameters (`undefined` only) are applied. */
  datatype Props = Props(columns: int, rows: int, animationType: string, titleText: string)

  /** `columns = 2, rows = 3, animationType = 'stagger', titleText = 'New Arrivals'`. */
  function ApplyDefaults(columns: Option<int>, rows: Option<int>, animationType: Option<string>, titleText: Option<string>): (p: Props)
    ensures columns.None? ==> p.columns == 2
    ensures rows.None? ==> p.rows == 3
    ensures animationType.None? ==> p.animationType == "stagger"
    ensures titleText.None? ==> p.titleText == "New Arrivals"
    ensures columns.Some? ==> p.columns == columns.value
    ensures rows.Some? ==> p.rows == rows.value
    ensures animationType.Some? ==> p.animationType == animationType.value
    ensures titleText.Some? ==> p.titleText == titleText.value
  {
    Props(Or(columns, 2), Or(rows, 3), Or(animationType, "stagger"), Or(titleText, "New Arrivals"))
  }

  /** `data.slice(0, end)`: a negative end counts from the back, and the end is clamped
      to the length. */
  function SliceTo<T>(data: seq<T>, end: int): (r: seq<T>)
    ensures |r| <= |data| && r == data[..|r|]
  {
    var e := if end < 0 then (if |data| + end < 0 then 0 else |data| + end)
             else if end > |data| then |data| else end;
    data[..e]
  }

  /** The products shown: `data.slice(0, columns * rows)`. */
  function Shown(data: seq<Product>, columns: int, rows: int): seq<Product>
  {
    SliceTo(data, columns * rows)
  }

  /** For a non-negative cell count the grid shows the first `min(len, columns * rows)`
      products, in their order in the data. */
  lemma ShownIsPrefix(data: seq<Product>, columns: int, rows: int)
    requires columns * rows >= 0
    ensures var n := MinInt(|data|, columns * rows);
      |Shown(data, columns, rows)| == n && Shown(data, columns, rows) == data[..n]
  {
  }

  /** `getAnimationDelay(index)` in seconds. The wave type places the card at
      `row = Math.floor(index / columns)`, `col = index % columns`. */
  function Delay(animationType: string, index: nat, columns: int): real
    requires columns != 0
  {
    if animationType == "stagger" then index as real * 0.2
    else if animationType == "wave" then
      var row := (index as real / columns as real).Floor;
      var col := JsRem(index, columns);
      (row + col) as real * 0.15
    else 0.1
  }

  /** The card delays in display order. No card exists when `columns * rows` is 0, so the
      wave division is only ever taken with a non-zero column count. */
  function CardDelays(data: seq<Product>, columns: int, rows: int, animationType: string): (d: seq<real>)
    ensures |d| == |Shown(data, columns, rows)|
    ensures forall i :: 0 <= i < |d| ==> columns != 0 && d[i] == Delay(animationType, i, columns)
  {
    var n := |Shown(data, columns, rows)|;
    if n == 0 then []
    else
      assert columns != 0;
      seq(n, (i: int) requires 0 <= i < n => Delay(animationType, i, columns))
  }

  /** Stagger delays grow strictly with the card index. */
  lemma StaggerIncreasing(i: nat, j: nat, columns: int)
    requires columns != 0 && i < j
    ensures Delay("stagger", i, columns) < Delay("stagger", j, columns)
  {
  }

  /** For a positive column count the wave position is the card's row-major cell:
      `index == row * columns + col` with `0 <= col < columns`, and the delay is
      `(row + col) * 0.15`. */
  lemma WavePosition(index: nat, columns: int)
    requires columns > 0
    ensures var row := (index as real / columns as real).Floor;
      var col := JsRem(index, columns);
      && 0 <= col < columns
      && index == row * columns + col
      && Delay("wave", index, columns) == (row + col) as real * 0.15
  {
    var q, r := index / columns, index % columns;
    assert index == q * columns + r;
    FloorOfQuotient(index, columns);
  }

  /** `Math.floor(a / n)` on exact reals is Euclidean division for a positive divisor. */
  lemma FloorOfQuotient(a: nat, n: int)
    requires n > 0
    ensures (a as real / n as real).Floor == a / n
  {
    var q, r := a / n, a % n;
    assert a == q * n + r && 0 <= r < n;
    var x := a as real / n as real;
    assert x == q as real + r as real / n as real by {
      assert a as real == q as real * n as real + r as real;
    }
    assert 0.0 <= r as real / n as real < 1.0 by {
      DivideBelowOne(r, n);
    }
  }

  lemma DivideBelowOne(r: nat, n: int)
    requires 0 <= r < n
    ensures 0.0 <= r as real / n as real < 1.0
  {
    assert r as real / n as real * n as real == r as real;
  }

  /** Cards on the same anti-diagonal start together in the wave animation. */
  lemma WaveDiagonal(i: nat, j: nat, columns: int)
    requires columns > 0 && i / columns + i % columns == j / columns + j % columns
    ensures Delay("wave", i, columns) == Delay("wave", j, columns)
  {
    FloorOfQuotient(i, columns);
    FloorOfQuotient(j, columns);
  }

  /** Every other animation type, `'fade'` included, delays each card by 0.1 s. */
  lemma OtherTypesConstant(animationType: string, index: nat, columns: int)
    requires columns != 0 && animationType != "stagger" && animationType != "wave"
    ensures Delay(animationType, index, columns) == 0.1
  {
  }

  /** `{titleText && <h2>…}`: the title shows only for a non-empty text. */
  function Title(p: Props): (t: Option<string>)
    ensures t.Some? <==> p.titleText != ""
    ensures t.Some? ==> t.value == p.titleText
  {
    if p.titleText != "" then Some(p.titleText) else None
  }

  /** With no title prop the default title shows; an empty title hides the heading. */
  lemma DefaultTitle(columns: Option<int>, rows: Option<int>, animationType: Option<string>)
    ensures Title(ApplyDefaults(columns, rows, animationType, None)) == Some("New Arrivals")
    ensures Title(ApplyDefaults(columns, rows, animationType, Some(""))).None?
  {
  }

  /** `repeat(${n}, 1fr)`, the grid's column and row templates. */
  function Template(n: int): string
  {
    "repeat(" + IntToString(n) + ", 1fr)"
  }

  /** The template records its count: the number between `repeat(` and `, 1fr)` reads back as n,
      so distinct counts give distinct templates. */
  lemma TemplateReadsBack(n: int)
    ensures var t := Template(n);
      |t| >= 13 && t[..7] == "repeat(" && t[|t| - 6..] == ", 1fr)"
      && ParseInt(t[7..|t| - 6]) == n
  {
    var t := Template(n);
    assert t[7..|t| - 6] == IntToString(n);
    ParseIntToString(n);
  }

  lemma TemplateInjective(n: int, m: int)
    ensures Template(n) == Template(m) <==> n == m
  {
    TemplateReadsBack(n);
    TemplateReadsBack(m);
  }
}
