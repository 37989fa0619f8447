/** Strings as Python compares and prints them: code-point order and zero-padded decimals. */
module Text {
  // ---------- order

  /** Python's `<` on strings. */
  predicate LexLess(s: string, t: string) {
    t != [] && (s == [] || s[0] < t[0] || (s[0] == t[0] && LexLess(s[1..], t[1..])))
  }

  /** Equal-length prefixes decide first, then what follows them. */
  lemma {:induction false} LexAfterPrefix(a: string, b: string, x: string, y: string)
    requires |a| == |b|
    ensures LexLess(a + x, b + y) <==> LexLess(a, b) || (a == b && LexLess(x, y))
  {
    if a == [] {
      assert a + x == x && b + y == y;
    } else {
      LexAfterPrefix(a[1..], b[1..], x, y);
      assert (a + x)[1..] == a[1..] + x && (b + y)[1..] == b[1..] + y;
      assert a == b <==> a[0] == b[0] && a[1..] == b[1..];
    }
  }

  lemma {:induction false} LexIrreflexive(s: string)
    ensures !LexLess(s, s)
  {
    if s != [] {
      LexIrreflexive(s[1..]);
    }
  }

  lemma {:induction false} LexBelow(a: string, b: string, c: string)
    requires !LexLess(b, a) && LexLess(b, c)
    ensures LexLess(a, c) && !LexLess(c, a)
  {
    if a != [] && b != [] && c != [] && a[0] == b[0] == c[0] {
      LexBelow(a[1..], b[1..], c[1..]);
    }
  }

  // ---------- decimals

  function Digit(d: nat): (c: char)
    requires d < 10
    ensures '0' <= c <= '9' && c as int - '0' as int == d
  {
    d as char + '0'
  }

  predicate AllDigits(s: string) {
    forall i | 0 <= i < |s| :: '0' <= s[i] <= '9'
  }

  /** `f"{n:0{width}d}"`: never shorter than `width`, as long as it must be otherwise. */
  function Printed(n: nat, width: nat): (s: string)
    ensures AllDigits(s) && |s| >= 1 && |s| >= width
    decreases n + width
  {
    if n < 10 && width <= 1 then [Digit(n)]
    else Printed(n / 10, if width == 0 then 0 else width - 1) + [Digit(n % 10)]
  }

  /** `int(s)` of decimal digits. */
  function Value(s: string): nat
    requires AllDigits(s)
  {
    if s == [] then 0
    else Value(s[..|s| - 1]) * 10 + (s[|s| - 1] as int - '0' as int)
  }

  function Pow10(width: nat): (p: nat)
    ensures p >= 1
  {
    if width == 0 then 1 else 10 * Pow10(width - 1)
  }

  /** Printing loses nothing, however long the number. */
  lemma {:induction false} PrintedReadsBack(n: nat, width: nat)
    ensures Value(Printed(n, width)) == n
    decreases n + width
  {
    if n < 10 && width <= 1 {
      assert Printed(n, width)[..0] == [];
    } else {
      var rest := if width == 0 then 0 else width - 1;
      PrintedReadsBack(n / 10, rest);
      assert Printed(n, width)[..|Printed(n, width)| - 1] == Printed(n / 10, rest);
    }
  }

  /** A number that fits the width is printed in exactly that many digits, and only then. */
  lemma {:induction false} PrintedWidth(n: nat, width: nat)
    requires width >= 1
    ensures |Printed(n, width)| == width <==> n < Pow10(width)
    decreases n + width
  {
    if n < 10 && width <= 1 {
      assert Pow10(1) == 10 * Pow10(0);
    } else if width == 1 {
      assert Pow10(1) == 10 * Pow10(0);
    } else {
      PrintedWidth(n / 10, width - 1);
    }
  }

  lemma PrintedIsInjective(m: nat, n: nat, width: nat)
    requires Printed(m, width) == Printed(n, width)
    ensures m == n
  {
    PrintedReadsBack(m, width);
    PrintedReadsBack(n, width);
  }

  /** Between digit strings of one length, text order is numeric order. */
  lemma {:induction false} DigitsOrder(s: string, t: string)
    requires |s| == |t| && AllDigits(s) && AllDigits(t)
    ensures LexLess(s, t) <==> Value(s) < Value(t)
    ensures s == t <==> Value(s) == Value(t)
  {
    if s != [] {
      var n := |s| - 1;
      var a, b := s[..n], t[..n];
      DigitsOrder(a, b);
      assert s == a + [s[n]] && t == b + [t[n]];
      LexAfterPrefix(a, b, [s[n]], [t[n]]);
      assert LexLess([s[n]], [t[n]]) <==> s[n] < t[n];
    }
  }

  lemma PrintedOrder(m: nat, n: nat, width: nat)
    requires width >= 1 && m < Pow10(width) && n < Pow10(width)
    ensures |Printed(m, width)| == width == |Printed(n, width)|
    ensures LexLess(Printed(m, width), Printed(n, width)) <==> m < n
  {
    PrintedWidth(m, width);
    PrintedWidth(n, width);
    PrintedReadsBack(m, width);
    PrintedReadsBack(n, width);
    DigitsOrder(Printed(m, width), Printed(n, width));
  }
}
