/** Wei as gwei, exactly, on decimal strings of any length. */
module Gwei {
  import opened Texts

  predicate IsDigit(c: char) { '0' <= c <= '9' }

  // A whole number, written in decimal.
  predicate IsWhole(s: string) { s != "" && forall i | 0 <= i < |s| :: IsDigit(s[i]) }

  predicate AllDigits(s: string) { forall i | 0 <= i < |s| :: IsDigit(s[i]) }

  function Digit(c: char): nat
    requires IsDigit(c)
  {
    (c - '0') as int
  }

  // The number a string of digits denotes.
  function Value(s: string): nat
    requires AllDigits(s)
  {
    if s == "" then 0 else 10 * Value(s[..|s| - 1]) + Digit(s[|s| - 1])
  }

  function Pow10(n: nat): (p: nat)
    ensures p >= 1
  {
    if n == 0 then 1 else 10 * Pow10(n - 1)
  }

  function StripLeft(s: string): (t: string)
    ensures |t| <= |s| && t == s[|s| - |t|..] && (t == "" || t[0] != '0')
    ensures forall i | 0 <= i < |s| - |t| :: s[i] == '0'
  {
    if s == "" || s[0] != '0' then s else StripLeft(s[1..])
  }

  function StripRight(s: string): (t: string)
    ensures t <= s && (t == "" || t[|t| - 1] != '0')
    ensures forall i | |t| <= i < |s| :: s[i] == '0'
  {
    if s == "" || s[|s| - 1] != '0' then s else StripRight(s[..|s| - 1])
  }

  function Zeros(n: nat): (z: string)
    ensures |z| == n && forall i | 0 <= i < n :: z[i] == '0'
  {
    seq(n, _ => '0')
  }

  // At least ten digits.
  function Padded(s: string): (p: string)
    ensures |p| == if |s| < 10 then 10 else |s|
  {
    if |s| < 10 then Zeros(10 - |s|) + s else s
  }

  // The gwei of a padded number.
  function Printed(p: string): string
    requires |p| >= 10
  {
    var frac := StripRight(p[|p| - 9..]);
    p[..|p| - 9] + if frac != "" then "." + frac else ""
  }

  // "" for anything that is not wei.
  function InGwei(wei: string): string {
    var s := Trimmed(wei);
    if !IsWhole(s) then "" else Printed(Padded(StripLeft(s)))
  }

  method FormatGwei(wei: string) returns (text: string)
    ensures text == InGwei(wei)
  {
    var s := Trimmed(wei);
    if !IsWhole(s) {
      return "";
    }
    s := Pad(StripLeft(s));
    hide Padded, StripLeft, StripRight, Zeros;
    var frac := StripRight(s[|s| - 9..]);
    text := s[..|s| - 9] + if |frac| > 0 then "." + frac else "";
  }

  // Zeros in front, up to ten digits.
  method Pad(digits: string) returns (s: string)
    ensures s == Padded(digits)
  {
    hide Zeros;
    s := digits;
    ghost var n := 0;
    NoZeros(s);
    while |s| < 10
      invariant |s| == n + |digits| && s == Zeros(n) + digits && (n > 0 ==> |s| <= 10)
    {
      ZerosCons(n, digits);
      s := "0" + s;
      n := n + 1;
    }
  }

  lemma NoZeros(t: string)
    ensures Zeros(0) + t == t
  {}

  lemma ZerosCons(n: nat, t: string)
    ensures "0" + (Zeros(n) + t) == Zeros(n + 1) + t
  {
    assert Zeros(n + 1) == "0" + Zeros(n);
  }

  // ---------- Reading it back ----------

  // Where the decimal point is, or the length.
  function Point(t: string): (k: nat)
    ensures k <= |t| && (k < |t| ==> t[k] == '.') && forall i | 0 <= i < k :: t[i] != '.'
  {
    if t == "" || t[0] == '.' then 0 else 1 + Point(t[1..])
  }

  // A decimal with at most nine digits after the point.
  predicate IsDecimal(t: string) {
    var k := Point(t);
    AllDigits(t[..k]) && (k < |t| ==> AllDigits(t[k + 1..]) && |t| - k - 1 <= 9)
  }

  // The wei that a decimal number of gwei denotes.
  function WeiOf(t: string): nat
    requires IsDecimal(t)
  {
    var k := Point(t);
    Value(t[..k]) * Pow10(9) + if k < |t| then Value(t[k + 1..]) * Pow10(9 - (|t| - k - 1)) else 0
  }

  lemma {:induction false} ValueConcat(a: string, b: string)
    requires AllDigits(a) && AllDigits(b)
    ensures AllDigits(a + b) && Value(a + b) == Value(a) * Pow10(|b|) + Value(b)
  {
    if b == "" {
      assert a + b == a;
    } else {
      var c, d := b[..|b| - 1], b[|b| - 1];
      assert a + b == (a + c) + [d];
      assert (a + b)[..|a + b| - 1] == a + c;
      ValueConcat(a, c);
      Distribute(Value(a), Pow10(|c|), Value(c), Digit(d));
    }
  }

  lemma Distribute(x: nat, p: nat, v: nat, d: nat)
    ensures 10 * (x * p + v) + d == x * (10 * p) + (10 * v + d)
  {}

  lemma {:induction false} ValueZeros(n: nat)
    ensures AllDigits(Zeros(n)) && Value(Zeros(n)) == 0
  {
    if n > 0 {
      ValueZeros(n - 1);
      assert Zeros(n)[..n - 1] == Zeros(n - 1);
    }
  }

  lemma {:induction false} StripLeftValue(s: string)
    requires AllDigits(s)
    ensures AllDigits(StripLeft(s)) && Value(StripLeft(s)) == Value(s)
  {
    hide Value, Pow10;
    if s != "" && s[0] == '0' {
      var t := s[1..];
      assert s == Zeros(1) + t;
      ValueZeros(1);
      ValueConcat(Zeros(1), t);
      StripLeftValue(t);
    }
  }

  lemma PaddedValue(s: string)
    requires AllDigits(s)
    ensures AllDigits(Padded(s)) && Value(Padded(s)) == Value(s)
  {
    if |s| < 10 {
      ValueZeros(10 - |s|);
      ValueConcat(Zeros(10 - |s|), s);
    }
  }

  lemma {:induction false} PointAfterDigits(a: string, b: string)
    requires AllDigits(a) && (b == "" || b[0] == '.')
    ensures Point(a + b) == |a|
  {
    if a == "" {
      assert a + b == b;
    } else {
      assert (a + b)[1..] == a[1..] + b;
      PointAfterDigits(a[1..], b);
    }
  }

  // A decimal in two parts.
  lemma PartsOfDecimal(whole: string, frac: string)
    requires AllDigits(whole) && AllDigits(frac) && |frac| <= 9
    ensures var t := whole + if frac != "" then "." + frac else "";
      && Point(t) == |whole| && IsDecimal(t)
      && WeiOf(t) == Value(whole) * Pow10(9) + Value(frac) * Pow10(9 - |frac|)
  {
    hide Value, Pow10, Point;
    var rest := if frac != "" then "." + frac else "";
    var t := whole + rest;
    PointAfterDigits(whole, rest);
    assert t[..|whole|] == whole;
    if frac != "" {
      assert t[|whole| + 1..] == frac;
    } else {
      ValueOfNothing();
    }
  }

  lemma ValueOfNothing()
    ensures Value("") == 0
  {}

  // Trailing zeros only scale.
  lemma FractionValue(nine: string)
    requires |nine| == 9 && AllDigits(nine)
    ensures var frac := StripRight(nine);
      AllDigits(frac) && |frac| <= 9 && Value(nine) == Value(frac) * Pow10(9 - |frac|)
  {
    hide Value, Pow10, StripRight, Zeros;
    var frac := StripRight(nine);
    var z := Zeros(9 - |frac|);
    assert nine == frac + z;
    assert AllDigits(frac);
    ValueZeros(9 - |frac|);
    ValueConcat(frac, z);
  }

  // The printed number reads as the number it was printed from.
  lemma PrintedIsExact(p: string)
    requires |p| >= 10 && AllDigits(p)
    ensures IsDecimal(Printed(p)) && WeiOf(Printed(p)) == Value(p)
    ensures Point(Printed(p)) == |p| - 9
  {
    hide Value, Pow10, Point, IsDecimal, WeiOf, StripRight;
    var whole, frac := p[..|p| - 9], StripRight(p[|p| - 9..]);
    SplitValue(p);
    PartsOfDecimal(whole, frac);
    assert Printed(p) == whole + if frac != "" then "." + frac else "";
  }

  lemma SplitValue(p: string)
    requires |p| >= 10 && AllDigits(p)
    ensures var whole, frac := p[..|p| - 9], StripRight(p[|p| - 9..]);
      && AllDigits(whole) && AllDigits(frac) && |frac| <= 9
      && Value(p) == Value(whole) * Pow10(9) + Value(frac) * Pow10(9 - |frac|)
  {
    hide Value, Pow10, StripRight;
    var whole, nine := p[..|p| - 9], p[|p| - 9..];
    assert p == whole + nine;
    ValueConcat(whole, nine);
    FractionValue(nine);
  }

  // ---------- What the printer promises ----------

  // The printed decimal denotes the wei exactly, without trailing zeros after the point, an empty
  // fraction, or superfluous zeros before it.
  lemma GweiIsExact(wei: string)
    requires IsWhole(Trimmed(wei))
    ensures var t := InGwei(wei); var k := Point(t);
      && IsDecimal(t) && WeiOf(t) == Value(Trimmed(wei))
      && k >= 1 && (t[0] == '0' ==> k == 1)
      && (k < |t| ==> k + 1 < |t| && t[|t| - 1] != '0')
  {
    hide Value, WeiOf, IsDecimal, StripLeft, StripRight, Trimmed;
    var s := Trimmed(wei);
    var p := Padded(StripLeft(s));
    StripLeftValue(s);
    PaddedValue(StripLeft(s));
    PrintedIsExact(p);
  }

  // Digits without leading zeros are determined by their number.
  lemma {:induction false} CanonicalDigits(a: string, b: string)
    requires AllDigits(a) && AllDigits(b) && Value(a) == Value(b)
    requires (a == "" || a[0] != '0') && (b == "" || b[0] != '0')
    ensures a == b
  {
    if a == "" {
      Positive(b);
    } else if b == "" {
      Positive(a);
    } else {
      var a', b' := a[..|a| - 1], b[..|b| - 1];
      assert Value(a') == Value(a) / 10 && Value(b') == Value(b) / 10;
      assert Digit(a[|a| - 1]) == Value(a) % 10 && Digit(b[|b| - 1]) == Value(b) % 10;
      CanonicalDigits(a', b');
      assert a == a' + [a[|a| - 1]] && b == b' + [b[|b| - 1]];
    }
  }

  lemma {:induction false} Positive(s: string)
    requires AllDigits(s)
    ensures s != "" && s[0] != '0' ==> Value(s) > 0
  {
    if |s| > 1 {
      Positive(s[..|s| - 1]);
    }
  }

  // Two amounts print alike exactly when they are the same number.
  lemma PrintAlike(a: string, b: string)
    requires IsWhole(Trimmed(a)) && IsWhole(Trimmed(b))
    ensures InGwei(a) == InGwei(b) <==> Value(Trimmed(a)) == Value(Trimmed(b))
  {
    GweiIsExact(a);
    GweiIsExact(b);
    if Value(Trimmed(a)) == Value(Trimmed(b)) {
      StripLeftValue(Trimmed(a));
      StripLeftValue(Trimmed(b));
      CanonicalDigits(StripLeft(Trimmed(a)), StripLeft(Trimmed(b)));
    }
  }

  // Nothing is printed exactly for what is not, trimmed, a digit or more and nothing else.
  lemma NothingIsNotWei(wei: string)
    ensures InGwei(wei) == "" <==>
      Trimmed(wei) == "" || exists i :: 0 <= i < |Trimmed(wei)| && !('0' <= Trimmed(wei)[i] <= '9')
  {
    hide Trimmed, StripLeft, StripRight;
  }
}
