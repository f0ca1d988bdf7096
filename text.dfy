/** The string operations the components rely on: decimal formatting of
    integers (C# int.ToString() in the invariant culture), the "WxH" size
    strings, suffix tests, ASCII lower-casing and substring search. */
module Text {
  import opened Wrappers

  predicate IsDigit(c: char) {
    '0' <= c <= '9'
  }

  predicate AllDigits(s: string) {
    forall i :: 0 <= i < |s| ==> IsDigit(s[i])
  }

  function DigitValue(c: char): nat
    requires IsDigit(c)
  {
    c as int - '0' as int
  }

  function DigitChar(d: nat): (c: char)
    requires d < 10
    ensures IsDigit(c) && DigitValue(c) == d
  {
    ('0' as int + d) as char
  }

  /** The decimal digits of n, most significant first, with no leading zero. */
  function NatToString(n: nat): (s: string)
    ensures |s| > 0 && AllDigits(s)
    ensures n == 0 ==> s == "0"
    ensures n > 0 ==> s[0] != '0'
    decreases n
  {
    if n < 10 then [DigitChar(n)] else NatToString(n / 10) + [DigitChar(n % 10)]
  }

  /** Decimal formatting of an integer: a minus sign before the digits of a
      negative one. */
  function IntToString(n: int): (s: string)
    ensures |s| > 0 && (n >= 0 ==> AllDigits(s)) && (n < 0 ==> s[0] == '-' && AllDigits(s[1..]))
  {
    if n < 0 then "-" + NatToString(-n) else NatToString(n)
  }

  /** The value of a string of decimal digits. */
  function ParseNat(s: string): nat
    requires AllDigits(s)
    decreases |s|
  {
    if |s| == 0 then 0 else ParseNat(s[..|s| - 1]) * 10 + DigitValue(s[|s| - 1])
  }

  /** The value of an optionally signed decimal string; None when the string
      is not one. */
  function ParseInt(s: string): Option<int> {
    if |s| > 1 && s[0] == '-' && AllDigits(s[1..]) then Some(-(ParseNat(s[1..]) as int))
    else if |s| > 0 && AllDigits(s) then Some(ParseNat(s))
    else None
  }

  lemma {:induction false} ParseNatToString(n: nat)
    ensures ParseNat(NatToString(n)) == n
    decreases n
  {
    var s := NatToString(n);
    if n >= 10 {
      ParseNatToString(n / 10);
      assert s[..|s| - 1] == NatToString(n / 10);
    }
  }

  /** Decimal formatting loses nothing: the text reads back as the number. */
  lemma ParseIntToString(n: int)
    ensures ParseInt(IntToString(n)) == Some(n)
  {
    if n < 0 {
      ParseNatToString(-n);
      assert IntToString(n)[1..] == NatToString(-n);
    } else {
      ParseNatToString(n);
    }
  }

  /** The first position of c in s, if any. */
  function IndexOf(s: string, c: char): (r: Option<nat>)
    ensures r.Some? ==> r.value < |s| && s[r.value] == c && forall j :: 0 <= j < r.value ==> s[j] != c
    ensures r.None? ==> forall j :: 0 <= j < |s| ==> s[j] != c
    decreases |s|
  {
    if |s| == 0 then None
    else if s[0] == c then Some(0)
    else match IndexOf(s[1..], c)
      case None => None
      case Some(k) => Some(k + 1)
  }

  /** The size text `width`x`height` used by the resize agent and the
      feedback record. */
  function SizeString(width: int, height: int): string {
    IntToString(width) + "x" + IntToString(height)
  }

  /** Reads a size text back: the integers before and after the first 'x'. */
  function ParseSize(s: string): Option<(int, int)> {
    match IndexOf(s, 'x')
    case None => None
    case Some(k) =>
      match (ParseInt(s[..k]), ParseInt(s[k + 1..]))
      case (Some(w), Some(h)) => Some((w, h))
      case _ => None
  }

  /** A size text determines the width and height it was made from. */
  lemma SizeRoundTrip(width: int, height: int)
    ensures ParseSize(SizeString(width, height)) == Some((width, height))
  {
    var a, b := IntToString(width), IntToString(height);
    var s := SizeString(width, height);
    assert s[|a|] == 'x';
    assert forall j :: 0 <= j < |a| ==> s[j] == a[j] && s[j] != 'x';
    assert IndexOf(s, 'x') == Some(|a|);
    assert s[..|a|] == a;
    assert s[|a| + 1..] == b;
    ParseIntToString(width);
    ParseIntToString(height);
  }

  predicate EndsWith(s: string, suffix: string) {
    |suffix| <= |s| && s[|s| - |suffix|..] == suffix
  }

  /** A string cannot end with two different suffixes of the same length. */
  lemma SuffixesExclusive(s: string, a: string, b: string)
    requires |a| == |b| && a != b
    ensures !(EndsWith(s, a) && EndsWith(s, b))
  {
  }

  /** Lower-casing of the ASCII letters; every other character is kept. */
  function LowerChar(c: char): char {
    if 'A' <= c <= 'Z' then (c as int + 32) as char else c
  }

  function ToLower(s: string): (r: string)
    ensures |r| == |s| && forall i :: 0 <= i < |s| ==> r[i] == LowerChar(s[i])
  {
    seq(|s|, (i: int) requires 0 <= i < |s| => LowerChar(s[i]))
  }

  /** `sub` occurs in `s` starting at position i. */
  predicate OccursAt(s: string, sub: string, i: nat) {
    i + |sub| <= |s| && s[i..i + |sub|] == sub
  }

  /** `sub` occurs somewhere in `s` (the empty string occurs everywhere). */
  predicate Contains(s: string, sub: string) {
    exists i: nat :: i <= |s| && OccursAt(s, sub, i)
  }
}
