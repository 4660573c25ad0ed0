/** The text component (components/kiosk/Copy.tsx): its whole behaviour is the class
    list it puts on its `div`, built from CSS-module lookups keyed by the size, the
    variant and the animation, an optional gradient class and the caller's class name.
    The CSS module is an abstract map from key to class name. */
module Copy {
  import opened Common
  import opened Text

  /** The props after the defaults `variant = 'V1'`, `size = 'headline'`,
      `animation = 'fade'`, `gradient = false`, `className = ''`. */
  datatype Props = Props(variant: string, size: string, animation: string, gradient: bool, className: string)

  function ApplyDefaults(variant: Option<string>, size: Option<string>, animation: Option<string>,
                         gradient: Option<bool>, className: Option<string>): (p: Props)
    ensures variant.None? ==> p.variant == "V1"
    ensures size.None? ==> p.size == "headline"
    ensures animation.None? ==> p.animation == "fade"
    ensures gradient.None? ==> !p.gradient
    ensures className.None? ==> p.className == ""
    ensures variant.Some? ==> p.variant == variant.value
    ensures size.Some? ==> p.size == size.value
    ensures animation.Some? ==> p.animation == animation.value
    ensures gradient.Some? ==> p.gradient == gradient.value
    ensures className.Some? ==> p.className == className.value
  {
    Props(Or(variant, "V1"), Or(size, "headline"), Or(animation, "fade"), Or(gradient, false), Or(className, ""))
  }

  predicate IsLower(c: char) { 'a' <= c <= 'z' }

  /** `c.toUpperCase()` on ASCII letters. */
  function Upper(c: char): char
  {
    if IsLower(c) then (c as int - 32) as char else c
  }

  /** `s.charAt(0).toUpperCase() + s.slice(1)`. */
  function Capitalize(s: string): (r: string)
    ensures |r| == |s|
    ensures |s| > 0 ==> r[0] == Upper(s[0]) && r[1..] == s[1..]
  {
    if |s| == 0 then "" else [Upper(s[0])] + s[1..]
  }

  /** `'subheadline'` gives the key `sizeSubheadline`, `'slideUp'` the key `animSlideUp`. */
  lemma CapitalizeExamples()
    ensures "size" + Capitalize("subheadline") == "sizeSubheadline"
    ensures "anim" + Capitalize("slideUp") == "animSlideUp"
    ensures Capitalize("") == ""
  {
  }

  /** `styles[key]`: undefined for a key the module does not define. */
  function Lookup(styles: map<string, string>, key: string): Option<string>
  {
    if key in styles then Some(styles[key]) else None
  }

  /** The module defines a non-empty class name for the key. */
  predicate Defines(styles: map<string, string>, key: string)
  {
    key in styles && styles[key] != ""
  }

  /** The array literal, in order: copy, size, variant, anim, gradient, className. */
  function Entries(p: Props, styles: map<string, string>): (e: seq<Option<string>>)
    ensures |e| == 6
  {
    [Lookup(styles, "copy"),
     Lookup(styles, "size" + Capitalize(p.size)),
     Lookup(styles, "variant" + p.variant),
     Lookup(styles, "anim" + Capitalize(p.animation)),
     if p.gradient then Lookup(styles, "gradient") else None,
     Some(p.className)]
  }

  predicate Truthy(x: Option<string>)
  {
    x.Some? && x.value != ""
  }

  /** `.filter(Boolean)`: the present, non-empty entries, in order. */
  function Kept(e: seq<Option<string>>): (r: seq<string>)
    ensures |r| <= |e|
    ensures forall i :: 0 <= i < |r| ==> r[i] != ""
  {
    if |e| == 0 then []
    else
      var rest := Kept(e[1..]);
      if Truthy(e[0]) then [e[0].value] + rest else rest
  }

  /** Every kept class name comes from an entry. */
  lemma {:induction false} KeptFromEntries(e: seq<Option<string>>, x: string)
    requires x in Kept(e)
    ensures Some(x) in e
  {
    if Truthy(e[0]) && x == e[0].value {
    } else {
      KeptFromEntries(e[1..], x);
    }
  }

  /** The `className` the component renders. */
  function Classes(p: Props, styles: map<string, string>): string
  {
    Join(Kept(Entries(p, styles)), ' ')
  }

  /** Falsy entries leave no trace: dropping them from the list does not change it. */
  lemma {:induction false} KeptSkipsFalsy(a: seq<Option<string>>, x: Option<string>, b: seq<Option<string>>)
    requires !Truthy(x)
    ensures Kept(a + [x] + b) == Kept(a + b)
    decreases |a|
  {
    if |a| == 0 {
      assert a + [x] + b == [x] + b;
      assert ([x] + b)[1..] == b;
      assert a + b == b;
    } else {
      assert (a + [x] + b)[1..] == a[1..] + [x] + b;
      assert (a + b)[1..] == a[1..] + b;
      KeptSkipsFalsy(a[1..], x, b);
    }
  }

  /** The class list splits at single spaces back into exactly the kept entries, in the
      order copy, size, variant, anim, gradient, className, when no class name
      holds a space. */
  lemma ClassesSplit(p: Props, styles: map<string, string>)
    requires forall k :: k in styles ==> ' ' !in styles[k]
    requires ' ' !in p.className
    requires |Kept(Entries(p, styles))| >= 1
    ensures Split(Classes(p, styles), ' ') == Kept(Entries(p, styles))
  {
    var r := Kept(Entries(p, styles));
    forall i | 0 <= i < |r|
      ensures ' ' !in r[i]
    {
      KeptFromEntries(Entries(p, styles), r[i]);
    }
    SplitJoin(r, ' ');
  }

  /** The gradient class comes only from `gradient = true`: with it false the gradient
      slot is dropped and the list is the one built without it. */
  lemma GradientOnlyWhenRequested(p: Props, styles: map<string, string>)
    ensures !p.gradient ==> Entries(p, styles)[4].None?
    ensures !p.gradient ==>
      Kept(Entries(p, styles)) == Kept(Entries(p, styles)[..4] + Entries(p, styles)[5..])
    ensures p.gradient && Truthy(Lookup(styles, "gradient")) ==> styles["gradient"] in Kept(Entries(p, styles))
  {
    var e := Entries(p, styles);
    if !p.gradient {
      assert e == e[..4] + [e[4]] + e[5..];
      KeptSkipsFalsy(e[..4], e[4], e[5..]);
    }
    if p.gradient && Truthy(Lookup(styles, "gradient")) {
      KeptKeeps(e, 4);
    }
  }

  lemma KeptCons(x: Option<string>, r: seq<Option<string>>)
    ensures Kept([x] + r) == (if Truthy(x) then [x.value] else []) + Kept(r)
  {
    assert ([x] + r)[1..] == r;
  }

  /** Every truthy entry is kept. */
  lemma {:induction false} KeptKeeps(e: seq<Option<string>>, i: nat)
    requires i < |e| && Truthy(e[i])
    ensures e[i].value in Kept(e)
  {
    if i > 0 {
      KeptKeeps(e[1..], i - 1);
    }
  }

  /** With every looked-up key defined by non-empty class names, no gradient and the
      default empty class name, the list is exactly the four module classes. */
  lemma DefaultClasses(p: Props, styles: map<string, string>)
    requires !p.gradient && p.className == ""
    requires Defines(styles, "copy") && Defines(styles, "size" + Capitalize(p.size))
    requires Defines(styles, "variant" + p.variant) && Defines(styles, "anim" + Capitalize(p.animation))
    ensures Kept(Entries(p, styles)) ==
      [styles["copy"], styles["size" + Capitalize(p.size)], styles["variant" + p.variant], styles["anim" + Capitalize(p.animation)]]
  {
    var e := Entries(p, styles);
    var k1, k2, k3 := "size" + Capitalize(p.size), "variant" + p.variant, "anim" + Capitalize(p.animation);
    assert e == [Some(styles["copy"]), Some(styles[k1]), Some(styles[k2]), Some(styles[k3]), None, Some("")];
    KeptFourDefaults(styles["copy"], styles[k1], styles[k2], styles[k3]);
  }

  /** `<Copy>` with no props: the defaults pick the keys `copy`, `sizeHeadline`,
      `variantV1` and `animFade`, no gradient and no extra class, so a module defining
      those four gets exactly their classes, in that order. */
  lemma DefaultPropsClasses(styles: map<string, string>)
    requires Defines(styles, "copy") && Defines(styles, "sizeHeadline")
    requires Defines(styles, "variantV1") && Defines(styles, "animFade")
    ensures var p := ApplyDefaults(None, None, None, None, None);
      Kept(Entries(p, styles)) == [styles["copy"], styles["sizeHeadline"], styles["variantV1"], styles["animFade"]]
  {
    var p := ApplyDefaults(None, None, None, None, None);
    assert "size" + Capitalize(p.size) == "sizeHeadline";
    assert "variant" + p.variant == "variantV1";
    assert "anim" + Capitalize(p.animation) == "animFade";
    DefaultClasses(p, styles);
  }

  /** Four non-empty classes followed by the absent gradient and the empty class name. */
  lemma KeptFourDefaults(c0: string, c1: string, c2: string, c3: string)
    requires c0 != "" && c1 != "" && c2 != "" && c3 != ""
    ensures Kept([Some(c0), Some(c1), Some(c2), Some(c3), None, Some("")]) == [c0, c1, c2, c3]
  {
    var t: seq<Option<string>> := [None, Some("")];
    KeptCons(Some(""), []);
    KeptCons(None, [Some("")]);
    assert Kept(t) == [];
    var t3 := [Some(c3)] + t;
    KeptCons(Some(c3), t);
    var t2 := [Some(c2)] + t3;
    KeptCons(Some(c2), t3);
    var t1 := [Some(c1)] + t2;
    KeptCons(Some(c1), t2);
    KeptCons(Some(c0), t1);
    assert [Some(c0), Some(c1), Some(c2), Some(c3), None, Some("")] == [Some(c0)] + t1;
  }
}
