/** The String.prototype operations the JavaScript code relies on:
    `toLowerCase`, `includes`, `trim`, `join` and number-to-text conversion. */
module Text {

  /** The characters matched by `\s` in an ECMAScript regular expression, which
      are also the characters `String.prototype.trim` strips. */
  predicate IsSpace(c: char)
  {
    || c == ' ' || c == '\t' || c == '\n' || c == '\r' || c == '\U{B}' || c == '\U{C}'
    || c == '\U{A0}' || c == '\U{1680}' || ('\U{2000}' <= c <= '\U{200A}')
    || c == '\U{2028}' || c == '\U{2029}' || c == '\U{202F}' || c == '\U{205F}'
    || c == '\U{3000}' || c == '\U{FEFF}'
  }

  predicate IsDigit(c: char)
  {
    '0' <= c <= '9'
  }

  /** Lower-cases the ASCII letters; every other character is kept. */
  function LowerChar(c: char): char
  {
    if 'A' <= c <= 'Z' then (c as int + 32) as char else c
  }

  function Lower(s: string): (r: string)
    ensures |r| == |s|
    ensures forall i :: 0 <= i < |s| ==> r[i] == LowerChar(s[i])
  {
    if s == [] then [] else [LowerChar(s[0])] + Lower(s[1..])
  }

  /** `hay.includes(needle)`. */
  predicate Contains(hay: string, needle: string)
    decreases |hay|
  {
    needle <= hay || (hay != [] && Contains(hay[1..], needle))
  }

  /** `needle` occurs in `hay` starting at offset `i`. */
  predicate OccursAt(hay: string, needle: string, i: int)
  {
    0 <= i && i + |needle| <= |hay| && hay[i..i + |needle|] == needle
  }

  lemma OccursShift(hay: string, needle: string, i: int)
    requires hay != [] && i >= 1
    ensures OccursAt(hay, needle, i) <==> OccursAt(hay[1..], needle, i - 1)
  {
    if i + |needle| <= |hay| {
      assert hay[1..][i - 1..i - 1 + |needle|] == hay[i..i + |needle|];
    }
  }

  /** `includes` holds exactly when `needle` occurs at some offset of `hay`. */
  lemma {:induction false} ContainsAt(hay: string, needle: string)
    ensures Contains(hay, needle) <==> exists i :: OccursAt(hay, needle, i)
    decreases |hay|
  {
    assert OccursAt(hay, needle, 0) <==> needle <= hay;
    if hay == [] {
      assert forall i :: OccursAt(hay, needle, i) ==> i == 0;
    } else {
      ContainsAt(hay[1..], needle);
      if Contains(hay[1..], needle) {
        var i :| OccursAt(hay[1..], needle, i);
        OccursShift(hay, needle, i + 1);
      }
      if i :| OccursAt(hay, needle, i) && i != 0 {
        OccursShift(hay, needle, i);
      }
    }
  }

  /** The number of whitespace characters at the start of `s`. */
  function LeadingSpaces(s: string): (n: nat)
    ensures n <= |s|
    ensures forall i :: 0 <= i < n ==> IsSpace(s[i])
    ensures n < |s| ==> !IsSpace(s[n])
  {
    if s != [] && IsSpace(s[0]) then 1 + LeadingSpaces(s[1..]) else 0
  }

  /** The number of whitespace characters at the end of `s`. */
  function TrailingSpaces(s: string): (n: nat)
    ensures n <= |s|
    ensures forall i :: |s| - n <= i < |s| ==> IsSpace(s[i])
    ensures n < |s| ==> !IsSpace(s[|s| - 1 - n])
  {
    if s != [] && IsSpace(s[|s| - 1]) then 1 + TrailingSpaces(s[..|s| - 1]) else 0
  }

  /** `s.trim()`. */
  function Trim(s: string): string
  {
    var t := s[LeadingSpaces(s)..];
    t[..|t| - TrailingSpaces(t)]
  }

  /** Trimming keeps a middle slice of `s`, drops only whitespace around it,
      and leaves no whitespace at either end. */
  lemma TrimSpec(s: string)
    ensures exists i, j :: 0 <= i <= j <= |s| && Trim(s) == s[i..j]
              && (forall k :: 0 <= k < i ==> IsSpace(s[k]))
              && (forall k :: j <= k < |s| ==> IsSpace(s[k]))
    ensures Trim(s) != [] ==> !IsSpace(Trim(s)[0]) && !IsSpace(Trim(s)[|Trim(s)| - 1])
  {
    var i := LeadingSpaces(s);
    var t := s[i..];
    var j := i + |t| - TrailingSpaces(t);
    assert Trim(s) == s[i..j];
    forall k | j <= k < |s| ensures IsSpace(s[k]) {
      assert s[k] == t[k - i];
    }
  }

  /** Trimming twice changes nothing more. */
  lemma TrimIdempotent(s: string)
    ensures Trim(Trim(s)) == Trim(s)
  {
    TrimSpec(s);
    var r := Trim(s);
    if r == [] {
    } else {
      assert LeadingSpaces(r) == 0;
      assert TrailingSpaces(r) == 0;
      assert r[0..] == r && r[..|r|] == r;
    }
  }

  /** `parts.join(sep)`. */
  function Join(parts: seq<string>, sep: string): string
  {
    if parts == [] then ""
    else if |parts| == 1 then parts[0]
    else Join(parts[..|parts| - 1], sep) + sep + parts[|parts| - 1]
  }

  function DigitChar(d: nat): (c: char)
    requires d < 10
    ensures IsDigit(c) && c as int - '0' as int == d
  {
    ('0' as int + d) as char
  }

  /** The decimal text JavaScript gives a non-negative integer (`${n}`)
      that a double holds exactly and that is below 1e21, from which on
      JavaScript switches to exponent form. */
  function NatToString(n: nat): (s: string)
    ensures s != []
    ensures forall i :: 0 <= i < |s| ==> IsDigit(s[i])
    ensures |s| > 1 ==> s[0] != '0'
  {
    if n < 10 then [DigitChar(n)] else NatToString(n / 10) + [DigitChar(n % 10)]
  }

  /** The decimal text JavaScript gives an integer within the same range:
      a `-` before negatives. */
  function IntToString(n: int): string
  {
    if n < 0 then "-" + NatToString(-n) else NatToString(n)
  }

  /** The value of a string of decimal digits. */
  function DigitsValue(s: string): nat
    requires forall i :: 0 <= i < |s| ==> IsDigit(s[i])
  {
    if s == [] then 0
    else
      assert IsDigit(s[|s| - 1]);
      DigitsValue(s[..|s| - 1]) * 10 + (s[|s| - 1] as int - '0' as int)
  }

  /** Reading the decimal text back gives the number. */
  lemma {:induction false} NatToStringRoundTrip(n: nat)
    ensures DigitsValue(NatToString(n)) == n
  {
    if n >= 10 {
      NatToStringRoundTrip(n / 10);
      var s := NatToString(n);
      assert s[..|s| - 1] == NatToString(n / 10);
    }
  }

  /** Distinct numbers have distinct decimal texts. */
  lemma IntToStringInjective(a: int, b: int)
    requires IntToString(a) == IntToString(b)
    ensures a == b
  {
    if a < 0 && b < 0 {
      assert IntToString(a)[1..] == NatToString(-a);
      assert IntToString(b)[1..] == NatToString(-b);
      NatToStringRoundTrip(-a);
      NatToStringRoundTrip(-b);
    } else if a >= 0 && b >= 0 {
      NatToStringRoundTrip(a);
      NatToStringRoundTrip(b);
    }
  }
}
