/** The string operations of JavaScript that the kiosk code relies on:
    decimal formatting of integers (`String(n)`, template literals), `padStart`,
    `replace` with a one-character pattern, `join` and `split`, and the
    code-unit order of strings (`<` on strings). */
module Text {

  predicate IsDigit(c: char) { '0' <= c <= '9' }

  predicate AllDigits(s: string) { forall i :: 0 <= i < |s| ==> IsDigit(s[i]) }

  function DigitChar(d: nat): char
    requires d < 10
  {
    ('0' as int + d) as char
  }

  function DigitValue(c: char): nat
    requires IsDigit(c)
  {
    c as int - '0' as int
  }

  function Pow10(k: nat): (p: nat)
    ensures p >= 1
  {
    if k == 0 then 1 else 10 * Pow10(k - 1)
  }

  /** `String(n)` for a non-negative integer: its shortest decimal numeral. */
  function NatToString(n: nat): (s: string)
    ensures |s| >= 1 && AllDigits(s)
    ensures |s| > 1 ==> s[0] != '0'
  {
    if n < 10 then [DigitChar(n)] else NatToString(n / 10) + [DigitChar(n % 10)]
  }

  /** `String(i)` for any integer: a minus sign before the numeral of a negative value. */
  function IntToString(i: int): string
  {
    if i < 0 then "-" + NatToString(-i) else NatToString(i)
  }

  /** The value of a numeral (the inverse of NatToString). */
  function ParseNat(s: string): nat
    requires AllDigits(s)
  {
    if |s| == 0 then 0 else 10 * ParseNat(s[..|s| - 1]) + DigitValue(s[|s| - 1])
  }

  /** The value of an integer numeral with an optional leading minus sign. */
  function ParseInt(s: string): int
    requires (|s| > 0 && s[0] == '-' && AllDigits(s[1..])) || AllDigits(s)
  {
    if |s| > 0 && s[0] == '-' then -(ParseNat(s[1..]) as int) else ParseNat(s)
  }

  lemma {:induction false} ParseNatToString(n: nat)
    ensures ParseNat(NatToString(n)) == n
  {
    var s := NatToString(n);
    if n >= 10 {
      var a := NatToString(n / 10);
      assert s == a + [DigitChar(n % 10)];
      assert s[..|s| - 1] == a;
      ParseNatToString(n / 10);
    }
  }

  lemma ParseIntToString(i: int)
    ensures ParseInt(IntToString(i)) == i
  {
    var s := IntToString(i);
    if i < 0 {
      var d := NatToString(-i);
      assert s == "-" + d;
      assert s[0] == '-' && s[1..] == d;
      ParseNatToString(-i);
      assert ParseInt(s) == -(ParseNat(d) as int);
    } else {
      var d := NatToString(i);
      assert s == d && IsDigit(d[0]);
      ParseNatToString(i);
      assert ParseInt(s) == ParseNat(d);
    }
  }

  /** Distinct numbers have distinct numerals. */
  lemma NatToStringInjective(n: nat, m: nat)
    ensures NatToString(n) == NatToString(m) <==> n == m
  {
    if NatToString(n) == NatToString(m) {
      ParseNatToString(n);
      ParseNatToString(m);
    }
  }

  lemma {:induction false} NatToStringLength(n: nat, k: nat)
    requires 1 <= k && n < Pow10(k)
    ensures |NatToString(n)| <= k
  {
    if n >= 10 {
      NatToStringLength(n / 10, k - 1);
    }
  }

  function Repeat(c: char, n: nat): (s: string)
    ensures |s| == n && forall i :: 0 <= i < n ==> s[i] == c
  {
    if n == 0 then "" else Repeat(c, n - 1) + [c]
  }

  /** `s.padStart(width, fill)` with a one-character fill. */
  function PadStart(s: string, width: nat, fill: char): string
  {
    if |s| >= width then s else Repeat(fill, width - |s|) + s
  }

  /** The last k decimal digits of n, most significant first. */
  function FixedDigits(n: nat, k: nat): (s: string)
    ensures |s| == k
  {
    if k == 0 then "" else FixedDigits(n / 10, k - 1) + [DigitChar(n % 10)]
  }

  lemma {:induction false} FixedDigitsOfZero(k: nat)
    ensures FixedDigits(0, k) == Repeat('0', k)
  {
    if k > 0 {
      FixedDigitsOfZero(k - 1);
    }
  }

  /** Padding a numeral of at most k digits with zeros to width k gives its k fixed digits. */
  lemma {:induction false} PadStartIsFixedDigits(n: nat, k: nat)
    requires 1 <= k && n < Pow10(k)
    ensures PadStart(NatToString(n), k, '0') == FixedDigits(n, k)
  {
    if n < 10 {
      FixedDigitsOfZero(k - 1);
      assert FixedDigits(n, k) == Repeat('0', k - 1) + [DigitChar(n)];
    } else {
      var a := NatToString(n / 10);
      var c := DigitChar(n % 10);
      assert k >= 2;
      NatToStringLength(n / 10, k - 1);
      PadStartIsFixedDigits(n / 10, k - 1);
      assert NatToString(n) == a + [c];
      assert PadStart(a + [c], k, '0') == PadStart(a, k - 1, '0') + [c];
    }
  }

  lemma {:induction false} FixedDigitsInjective(n: nat, m: nat, k: nat)
    requires n < Pow10(k) && m < Pow10(k)
    requires FixedDigits(n, k) == FixedDigits(m, k)
    ensures n == m
  {
    if k > 0 {
      var a, b := FixedDigits(n, k), FixedDigits(m, k);
      assert a[k - 1] == b[k - 1];
      assert a[..k - 1] == FixedDigits(n / 10, k - 1);
      assert b[..k - 1] == FixedDigits(m / 10, k - 1);
      FixedDigitsInjective(n / 10, m / 10, k - 1);
    }
  }

  /** JavaScript's `a < b` on strings: code-unit lexicographic order. */
  predicate LexLess(a: string, b: string)
    decreases |a|
  {
    |b| > 0 && (|a| == 0 || a[0] < b[0] || (a[0] == b[0] && LexLess(a[1..], b[1..])))
  }

  lemma {:induction false} LexIrreflexive(a: string)
    ensures !LexLess(a, a)
    decreases |a|
  {
    if |a| > 0 {
      LexIrreflexive(a[1..]);
    }
  }

  /** Comparing two strings of equal length with one character appended. */
  lemma {:induction false} LexAppend(a: string, b: string, x: char, y: char)
    requires |a| == |b|
    ensures LexLess(a + [x], b + [y]) <==> LexLess(a, b) || (a == b && x < y)
    decreases |a|
  {
    if |a| > 0 {
      assert (a + [x])[1..] == a[1..] + [x];
      assert (b + [y])[1..] == b[1..] + [y];
      LexAppend(a[1..], b[1..], x, y);
      if a[0] == b[0] && a[1..] == b[1..] {
        assert a == b;
      }
    }
  }

  /** A common prefix does not change the order. */
  lemma {:induction false} LexCommonPrefix(p: string, a: string, b: string)
    ensures LexLess(p + a, p + b) <==> LexLess(a, b)
    decreases |p|
  {
    if |p| > 0 {
      assert (p + a)[0] == (p + b)[0];
      assert (p + a)[1..] == p[1..] + a;
      assert (p + b)[1..] == p[1..] + b;
      LexCommonPrefix(p[1..], a, b);
    } else {
      assert p + a == a && p + b == b;
    }
  }

  /** A common suffix does not change the order of strings of equal length. */
  lemma {:induction false} LexCommonSuffix(a: string, b: string, q: string)
    requires |a| == |b|
    ensures LexLess(a + q, b + q) <==> LexLess(a, b)
    decreases |a|
  {
    if |a| == 0 {
      assert a + q == q && b + q == q;
      LexIrreflexive(q);
    } else {
      assert (a + q)[1..] == a[1..] + q;
      assert (b + q)[1..] == b[1..] + q;
      LexCommonSuffix(a[1..], b[1..], q);
    }
  }

  /** Fixed-width numerals sort as their numbers do. */
  lemma {:induction false} FixedDigitsOrder(n: nat, m: nat, k: nat)
    requires n < Pow10(k) && m < Pow10(k)
    ensures LexLess(FixedDigits(n, k), FixedDigits(m, k)) <==> n < m
  {
    if k == 0 {
      LexIrreflexive("");
    } else {
      var a, b := FixedDigits(n / 10, k - 1), FixedDigits(m / 10, k - 1);
      LexAppend(a, b, DigitChar(n % 10), DigitChar(m % 10));
      FixedDigitsOrder(n / 10, m / 10, k - 1);
      if a == b {
        FixedDigitsInjective(n / 10, m / 10, k - 1);
      }
    }
  }

  /** The index of the first occurrence of c in s (`s.indexOf(c)`). */
  function IndexOf(s: string, c: char): (i: nat)
    requires c in s
    ensures i < |s| && s[i] == c && c !in s[..i]
  {
    if s[0] == c then 0 else
      assert s == [s[0]] + s[1..];
      1 + IndexOf(s[1..], c)
  }

  /** The first occurrence of c is the one right after a prefix that does not contain it. */
  lemma IndexOfAfterPrefix(p: string, c: char, rest: string)
    requires c !in p
    ensures IndexOf(p + [c] + rest, c) == |p|
  {
    var s := p + [c] + rest;
    assert s[|p|] == c;
    assert forall j :: 0 <= j < |p| ==> s[j] == p[j];
  }

  /** A common prefix and suffix can be cancelled. */
  lemma CancelAround(p: string, a: string, b: string, q: string)
    ensures p + a + q == p + b + q ==> a == b
  {
    if p + a + q == p + b + q {
      assert |a| == |b|;
      assert (p + a + q)[|p|..|p| + |a|] == a;
      assert (p + b + q)[|p|..|p| + |b|] == b;
    }
  }

  /** `s.replace(c, rep)` with a one-character pattern: only the first occurrence is replaced. */
  function ReplaceFirst(s: string, c: char, rep: string): string
  {
    if c in s then
      var i := IndexOf(s, c);
      s[..i] + rep + s[i + 1..]
    else s
  }

  lemma ReplaceFirstAt(p: string, c: char, q: string, rep: string)
    requires c !in p
    ensures ReplaceFirst(p + [c] + q, c, rep) == p + rep + q
  {
    IndexOfAfterPrefix(p, c, q);
    var s := p + [c] + q;
    assert s[..|p|] == p && s[|p| + 1..] == q;
  }

  /** `parts.join(sep)` with a one-character separator. */
  function Join(parts: seq<string>, sep: char): string
  {
    if |parts| == 0 then ""
    else if |parts| == 1 then parts[0]
    else parts[0] + [sep] + Join(parts[1..], sep)
  }

  /** `s.split(sep)` with a one-character separator. */
  function Split(s: string, sep: char): (parts: seq<string>)
    ensures |parts| >= 1
    decreases |s|
  {
    if sep in s then
      var i := IndexOf(s, sep);
      [s[..i]] + Split(s[i + 1..], sep)
    else [s]
  }

  /** Splitting a joined list gives the list back when no part holds the separator. */
  lemma {:induction false} SplitJoin(parts: seq<string>, sep: char)
    requires |parts| >= 1
    requires forall i :: 0 <= i < |parts| ==> sep !in parts[i]
    ensures Split(Join(parts, sep), sep) == parts
    decreases |parts|
  {
    var p := parts[0];
    assert sep !in p;
    if |parts| == 1 {
      assert Join(parts, sep) == p;
    } else {
      var tail := parts[1..];
      var rest := Join(tail, sep);
      var s := p + [sep] + rest;
      assert Join(parts, sep) == s;
      IndexOfAfterPrefix(p, sep, rest);
      assert s[..|p|] == p && s[|p| + 1..] == rest;
      assert Split(s, sep) == [p] + Split(rest, sep);
      assert forall i :: 0 <= i < |tail| ==> sep !in tail[i] by {
        forall i | 0 <= i < |tail| ensures sep !in tail[i] {
          assert tail[i] == parts[i + 1];
        }
      }
      SplitJoin(tail, sep);
      assert parts == [p] + tail;
    }
  }
}
