/** Natural numbers in decimal, and how strings compare. */
module Digits {

  function Pow(n: nat): (r: nat)
    ensures r >= 1
  {
    if n == 0 then 1 else 10 * Pow(n - 1)
  }

  /** `width` digits are enough for n. */
  predicate Holds(width: nat, n: int) {
    0 <= n < Pow(width)
  }

  function Digit(d: nat): char
    requires d < 10
  {
    '0' + d as char
  }

  /** A number in decimal, zero-padded to at least `width` digits. */
  function Pad(n: nat, width: nat): string
    decreases n + width
  {
    if n == 0 && width == 0 then ""
    else Pad(n / 10, if width == 0 then 0 else width - 1) + [Digit(n % 10)]
  }

  /** How strings compare. */
  predicate Before(s: string, t: string) {
    && t != []
    && (s == [] || s[0] < t[0] || (s[0] == t[0] && Before(s[1..], t[1..])))
  }

  lemma HeadDecides(c: char, s: string, d: char, t: string)
    ensures Before([c] + s, [d] + t) <==> c < d || (c == d && Before(s, t))
  {
    assert ([c] + s)[1..] == s && ([d] + t)[1..] == t;
  }

  /** Numbers padded to one width compare as text as they do as numbers, whatever follows. */
  lemma {:induction false} PaddedOrder(a: nat, b: nat, width: nat, s: string, t: string)
    requires Holds(width, a) && Holds(width, b)
    ensures Before(Pad(a, width) + s, Pad(b, width) + t) <==> a < b || (a == b && Before(s, t))
    decreases width
  {
    if width == 0 {
      assert Pad(a, 0) + s == s && Pad(b, 0) + t == t;
    } else {
      var c, d := Digit(a % 10), Digit(b % 10);
      PaddedOrder(a / 10, b / 10, width - 1, [c] + s, [d] + t);
      HeadDecides(c, s, d, t);
      assert Pad(a, width) + s == Pad(a / 10, width - 1) + ([c] + s);
      assert Pad(b, width) + t == Pad(b / 10, width - 1) + ([d] + t);
    }
  }

  /** A number too long for the width is not padded. */
  lemma {:induction false} NotPadded(n: nat, width: nat)
    requires n >= Pow(width)
    ensures Pad(n, width) == Pad(n, width + 1)
  {
    if width > 0 {
      NotPadded(n / 10, width - 1);
    }
  }

  lemma {:induction false} NotBeforeItself(s: string)
    ensures !Before(s, s)
  {
    if s != [] {
      NotBeforeItself(s[1..]);
    }
  }

  lemma {:induction false} PadIsDigits(n: nat, width: nat)
    requires width > 0
    ensures Pad(n, width) != [] && '0' <= Pad(n, width)[0] <= '9'
    decreases n + width
  {
    var w := width - 1;
    if n / 10 != 0 || w != 0 {
      if w > 0 {
        PadIsDigits(n / 10, w);
      } else {
        NotPadded(n / 10, 0);
        PadIsDigits(n / 10, 1);
      }
    }
  }

  predicate IsDigit(c: char) {
    '0' <= c <= '9'
  }

  predicate AllDigits(s: string) {
    forall i :: 0 <= i < |s| ==> IsDigit(s[i])
  }

  /** `str(n)`. */
  function Str(n: nat): string {
    Pad(n, 1)
  }

  /** `int(s)` of a string of digits. */
  function Value(s: string): nat
    requires AllDigits(s)
  {
    if s == "" then 0 else 10 * Value(s[..|s| - 1]) + (s[|s| - 1] - '0') as nat
  }

  /** Reading undoes writing, padding included. */
  lemma {:induction false} ValueOfPad(n: nat, width: nat)
    ensures AllDigits(Pad(n, width)) && Value(Pad(n, width)) == n
    ensures |Pad(n, width)| >= width
    decreases n + width
  {
    if n != 0 || width != 0 {
      var w, q, d := if width == 0 then 0 else width - 1, n / 10, n % 10;
      ValueOfPad(q, w);
      assert Pad(n, width) == Pad(q, w) + [Digit(d)];
    }
  }
}
