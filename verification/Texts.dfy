/** Comparing and trimming text as the views do. */
module Texts {
  // Upper-case letters are taken for lower-case ones.
  function Fold(c: char): char { if 'A' <= c <= 'Z' then c - 'A' + 'a' else c }

  function Folded(s: string): (f: string)
    ensures |f| == |s|
  {
    seq(|s|, i requires 0 <= i < |s| => Fold(s[i]))
  }

  predicate SameText(a: string, b: string) { Folded(a) == Folded(b) }

  predicate IsSpace(c: char) { c == ' ' || '\t' <= c <= '\r' }

  function TrimLeft(s: string): (t: string)
    ensures |t| <= |s| && (t == "" || !IsSpace(t[0]))
    ensures t == s[|s| - |t|..]
  {
    if s == "" then ""
    else if IsSpace(s[0]) then TrimLeft(s[1..])
    else s
  }

  function TrimRight(s: string): (t: string)
    ensures t <= s && (t == "" || !IsSpace(t[|t| - 1]))
  {
    if s == "" then ""
    else if IsSpace(s[|s| - 1]) then TrimRight(s[..|s| - 1])
    else s
  }

  function Trimmed(s: string): (t: string)
    ensures |t| <= |s|
  {
    TrimRight(TrimLeft(s))
  }

  // No white space at either end.
  predicate IsTrimmed(s: string) { s == "" || (!IsSpace(s[0]) && !IsSpace(s[|s| - 1])) }

  lemma TrimmedIsTrimmed(s: string)
    ensures IsTrimmed(Trimmed(s))
  {}

  lemma TrimmedIsFixed(s: string)
    requires IsTrimmed(s)
    ensures Trimmed(s) == s
  {}

  // ---------- What they mean ----------

  predicate SameLetter(a: char, b: char) {
    || a == b
    || ('A' <= a <= 'Z' && b as int == a as int + 32)
    || ('A' <= b <= 'Z' && a as int == b as int + 32)
  }

  // Texts are the same when they differ in the case of letters at most.
  lemma SameTextMeaning(a: string, b: string)
    ensures SameText(a, b) <==> |a| == |b| && forall i | 0 <= i < |a| :: SameLetter(a[i], b[i])
  {
    if |a| == |b| {
      forall i | 0 <= i < |a|
        ensures Folded(a)[i] == Folded(b)[i] <==> SameLetter(a[i], b[i])
      {
        FoldMeaning(a[i], b[i]);
      }
    }
  }

  lemma FoldMeaning(a: char, b: char)
    ensures Fold(a) == Fold(b) <==> SameLetter(a, b)
  {}

  // Trimming takes away the white space before and after, and no more.
  lemma TrimmedMeaning(s: string) returns (i: nat, j: nat)
    ensures i <= j <= |s| && Trimmed(s) == s[i..j] && IsTrimmed(Trimmed(s))
    ensures forall k | 0 <= k < i || j <= k < |s| :: IsSpace(s[k])
  {
    i := LeftMeaning(s);
    var t := TrimLeft(s);
    var r := TrimRight(t);
    j := i + |r|;
    RightMeaning(t);
    TrimmedIsTrimmed(s);
    TrimmedIs(s);
    hide *;
    Slices(s, i, j);
    forall k | j <= k < |s|
      ensures IsSpace(s[k])
    {
      assert s[k] == t[k - i];
    }
  }

  // Tab, line feed, vertical tab, form feed, carriage return and space.
  predicate IsWhite(c: char) { 9 <= c as int <= 13 || c as int == 32 }

  // What is left is the part between that starts and ends with other characters, and there is only one.
  lemma TrimmedExactly(s: string, i: nat, j: nat)
    requires i <= j <= |s| && forall k | 0 <= k < i || j <= k < |s| :: IsWhite(s[k])
    requires i < j ==> !IsWhite(s[i]) && !IsWhite(s[j - 1])
    ensures Trimmed(s) == s[i..j]
  {
    var a, b := TrimmedMeaning(s);
    hide Trimmed;
    assert a < b ==> s[a..b][0] == s[a] && s[a..b][b - a - 1] == s[b - 1];
    if i < j && a < b {
      assert i == a && j == b;
    }
  }

  lemma TrimmedIs(s: string)
    ensures var t := TrimLeft(s); Trimmed(s) == TrimRight(t) == t[..|TrimRight(t)|]
  {
    hide TrimLeft, TrimRight;
  }

  lemma Slices<T>(s: seq<T>, i: nat, j: nat)
    requires i <= j <= |s|
    ensures s[i..][..j - i] == s[i..j]
  {}

  lemma {:induction false} LeftMeaning(s: string) returns (i: nat)
    ensures i <= |s| && TrimLeft(s) == s[i..] && forall k | 0 <= k < i :: IsSpace(s[k])
  {
    i := 0;
    if s != "" && IsSpace(s[0]) {
      var rest := LeftMeaning(s[1..]);
      i := rest + 1;
      assert forall k | 1 <= k < i :: s[k] == s[1..][k - 1];
    }
  }

  lemma {:induction false} RightMeaning(s: string)
    ensures forall k | |TrimRight(s)| <= k < |s| :: IsSpace(s[k])
  {
    if s != "" && IsSpace(s[|s| - 1]) {
      RightMeaning(s[..|s| - 1]);
    }
  }

  predicate IsBlank(s: string) { forall k | 0 <= k < |s| :: IsSpace(s[k]) }

  lemma TrimmedBlank(s: string)
    ensures Trimmed(s) == "" <==> IsBlank(s)
  {
    var i, j := TrimmedMeaning(s);
    hide Trimmed;
    if IsBlank(s) && i < j {
      assert s[i..j][0] == s[i];
    }
  }
}
