/** The pure helpers of backend/helpers.js: the shipping fee, the pagination
    record, the e-mail and phone patterns, price text and input sanitizing. */
module Helpers {
  import opened Wrappers
  import opened Text
  import opened Sequences

  /** Orders of 500 or more ship free; anything less pays 50. */
  function CalculateShipping(subtotal: int): (fee: int)
    ensures fee == 0 || fee == 50
    ensures fee == 0 <==> subtotal >= 500
  {
    if subtotal >= 500 then 0 else 50
  }

  /** The fee never rises as the subtotal grows, and 500 is the first free subtotal. */
  lemma ShippingThreshold(a: int, b: int)
    requires a <= b
    ensures CalculateShipping(a) >= CalculateShipping(b)
    ensures CalculateShipping(500) == 0 && CalculateShipping(499) == 50
  {
  }

  datatype Pagination = Pagination(
    total: int, page: int, limit: int, totalPages: int, hasNextPage: bool, hasPrevPage: bool)

  /** `Math.ceil(total / limit)` for a positive limit (Dafny's division by a
      positive divisor rounds down). */
  function CeilDiv(total: int, limit: int): (q: int)
    requires limit > 0
    ensures (q - 1) * limit < total <= q * limit
  {
    -((-total) / limit)
  }

  /** `createPagination(total, page, limit)`. A `limit` of 0 would make
      `totalPages` Infinity or NaN in JavaScript; callers pass a positive one. */
  function CreatePagination(total: int, page: int, limit: int): (r: Pagination)
    requires limit > 0
    ensures r.total == total && r.page == page && r.limit == limit
    ensures (r.totalPages - 1) * limit < total <= r.totalPages * limit
    ensures r.hasNextPage <==> page < r.totalPages
    ensures r.hasPrevPage <==> page > 1
  {
    var totalPages := CeilDiv(total, limit);
    Pagination(total, page, limit, totalPages, page < totalPages, page > 1)
  }

  /** There is a next page exactly when the items up to the end of this page
      do not yet reach the total. */
  lemma HasNextPageIff(total: int, page: int, limit: int)
    requires limit > 0
    ensures CreatePagination(total, page, limit).hasNextPage <==> page * limit < total
  {
    var t := CreatePagination(total, page, limit).totalPages;
    if page < t {
      MultiplyMonotone(page, t - 1, limit);
    } else {
      MultiplyMonotone(t, page, limit);
    }
  }

  lemma MultiplyMonotone(a: int, b: int, c: int)
    requires a <= b && c > 0
    ensures a * c <= b * c
  {
    assert b * c - a * c == (b - a) * c;
  }

  /** The class `[^\s@]`. */
  predicate EmailChar(c: char)
  {
    c != '@' && !IsSpace(c)
  }

  predicate AllEmailChars(s: string)
  {
    forall m :: 0 <= m < |s| ==> EmailChar(s[m])
  }

  /** `/^[^\s@]+@[^\s@]+\.[^\s@]+$/` matches `s` with its `@` at `i` and the
      escaped `.` at `j`. */
  predicate EmailShape(s: string, i: int, j: int)
  {
    && 0 < i && i + 1 < j && j + 1 < |s|
    && s[i] == '@' && s[j] == '.'
    && AllEmailChars(s[..i]) && AllEmailChars(s[i + 1..j]) && AllEmailChars(s[j + 1..])
  }

  /** The position of the first `@`, or -1. */
  function FirstAt(s: string): (k: int)
    ensures -1 <= k < |s|
    ensures k == -1 ==> forall m :: 0 <= m < |s| ==> s[m] != '@'
    ensures k >= 0 ==> s[k] == '@' && forall m :: 0 <= m < k ==> s[m] != '@'
  {
    if s == [] then -1
    else if s[0] == '@' then 0
    else
      var k := FirstAt(s[1..]);
      if k == -1 then -1 else k + 1
  }

  /** `validateEmail`, deciding the pattern in one pass: a non-empty local part
      before the first `@`, then a domain of at least three characters, none of
      them whitespace or `@`, with a `.` strictly inside it. */
  predicate ValidateEmail(s: string)
  {
    var k := FirstAt(s);
    && k > 0 && AllEmailChars(s[..k])
    && var domain := s[k + 1..];
       && |domain| >= 3 && AllEmailChars(domain)
       && '.' in domain[1..|domain| - 1]
  }

  /** `validateEmail` accepts exactly the strings the regular expression matches. */
  lemma ValidateEmailIff(s: string)
    ensures ValidateEmail(s) <==> exists i, j :: EmailShape(s, i, j)
  {
    var k := FirstAt(s);
    if ValidateEmail(s) {
      var domain := s[k + 1..];
      var inner := domain[1..|domain| - 1];
      var d :| 0 <= d < |inner| && inner[d] == '.';
      var j := k + 2 + d;
      assert s[j] == domain[d + 1] == '.';
      var middle, tail := s[k + 1..j], s[j + 1..];
      forall m | 0 <= m < |middle| ensures EmailChar(middle[m]) {
        assert middle[m] == domain[m];
      }
      forall m | 0 <= m < |tail| ensures EmailChar(tail[m]) {
        assert tail[m] == domain[d + 2 + m];
      }
      assert EmailShape(s, k, j);
    }
    if i, j :| EmailShape(s, i, j) {
      assert forall m :: 0 <= m < i ==> s[m] == s[..i][m];
      assert k == i;
      var domain := s[k + 1..];
      forall m | 0 <= m < |domain| ensures EmailChar(domain[m]) {
        if k + 1 + m < j {
          assert domain[m] == s[k + 1..j][m];
        } else if k + 1 + m > j {
          assert domain[m] == s[j + 1..][k + m - j];
        }
      }
      assert domain[1..|domain| - 1][j - k - 2] == '.';
    }
  }

  /** The class `[\d\s-()]`: in a JavaScript character class a `-` next to a
      class escape is literal, so this is digits, whitespace, `-`, `(` and `)`. */
  predicate PhoneChar(c: char)
  {
    IsDigit(c) || IsSpace(c) || c == '-' || c == '(' || c == ')'
  }

  /** `[1-9][\d\s-()]{8,15}$` matches all of `t`. */
  predicate PhoneBody(t: string)
  {
    && 9 <= |t| <= 16
    && '1' <= t[0] <= '9'
    && forall m :: 1 <= m < |t| ==> PhoneChar(t[m])
  }

  /** `/^[+]?[1-9][\d\s-()]{8,15}$/`, both ways the optional `+` may match. */
  predicate PhonePattern(s: string)
  {
    PhoneBody(s) || (|s| > 0 && s[0] == '+' && PhoneBody(s[1..]))
  }

  /** `validatePhone`, deciding the pattern without backtracking: a leading
      `+` is always taken by `[+]?`, since `[1-9]` cannot match it. */
  predicate ValidatePhone(s: string)
  {
    var t := if |s| > 0 && s[0] == '+' then s[1..] else s;
    PhoneBody(t)
  }

  /** The one-pass check accepts exactly what the pattern matches. */
  lemma ValidatePhoneIff(s: string)
    ensures ValidatePhone(s) <==> PhonePattern(s)
  {
    if |s| > 0 && s[0] == '+' {
      assert !PhoneBody(s);
    }
  }

  /** A ten-digit Indian mobile number with its country code passes; one
      starting with 0 does not. */
  lemma ValidatePhoneExamples()
    ensures ValidatePhone("+919876543210")
    ensures !ValidatePhone("0123456789")
  {
    assert "+919876543210"[1..] == "919876543210";
  }

  /** `formatPrice`: the rupee sign before the price's decimal text. */
  function FormatPrice(price: int): (s: string)
    ensures |s| >= 2 && s[0] == '₹'
    ensures s[1..] == IntToString(price)
  {
    "₹" + IntToString(price)
  }

  /** Different prices never print alike. */
  lemma FormatPriceInjective(a: int, b: int)
    requires FormatPrice(a) == FormatPrice(b)
    ensures a == b
  {
    assert FormatPrice(a)[1..] == FormatPrice(b)[1..];
    IntToStringInjective(a, b);
  }

  /** `s` starts with `<script`, letters compared without case as the `i`
      flag of a pattern without `u` compares them (ASCII letters only). */
  predicate OpensScript(s: string)
  {
    && |s| >= 7 && s[0] == '<' && LowerChar(s[1]) == 's' && LowerChar(s[2]) == 'c'
    && LowerChar(s[3]) == 'r' && LowerChar(s[4]) == 'i' && LowerChar(s[5]) == 'p'
    && LowerChar(s[6]) == 't'
  }

  /** A `</script>`, in any case, starts at offset `m` of `s`. */
  predicate ClosesScript(s: string, m: nat)
  {
    && m + 9 <= |s| && s[m] == '<' && s[m + 1] == '/' && LowerChar(s[m + 2]) == 's'
    && LowerChar(s[m + 3]) == 'c' && LowerChar(s[m + 4]) == 'r' && LowerChar(s[m + 5]) == 'i'
    && LowerChar(s[m + 6]) == 'p' && LowerChar(s[m + 7]) == 't' && s[m + 8] == '>'
  }

  /** The characters `\b` counts as word characters. */
  predicate WordChar(c: char)
  {
    ('a' <= c <= 'z') || ('A' <= c <= 'Z') || ('0' <= c <= '9') || c == '_'
  }

  /** Where the first `</script>`, in any case, at or after `j` starts. */
  function FirstClose(s: string, j: nat): (k: Option<nat>)
    decreases |s| - j
    ensures k.Some? ==> j <= k.value && ClosesScript(s, k.value)
    ensures k.Some? ==> forall m: nat :: j <= m < k.value ==> !ClosesScript(s, m)
    ensures k.None? ==> forall m: nat :: j <= m ==> !ClosesScript(s, m)
  {
    if j + 9 > |s| then None
    else if ClosesScript(s, j) then Some(j)
    else FirstClose(s, j + 1)
  }

  /** The end of the match of `/<script\b[^<]*(?:(?!<\/script>)<[^<]*)*<\/script>/i`
      at the start of `s`, if it matches there. Every `<` the middle part
      consumes is not the start of a `</script>`, so a match runs from a
      `<script` not followed by a word character to the first `</script>`
      after it, and there is none without such a closing tag. */
  function ScriptBlock(s: string): (e: Option<nat>)
    ensures e.Some? ==> 16 <= e.value <= |s| && OpensScript(s) && ClosesScript(s, e.value - 9)
    ensures e.None? && OpensScript(s) && |s| > 7 && !WordChar(s[7]) ==>
              forall m: nat :: 7 <= m ==> !ClosesScript(s, m)
  {
    if OpensScript(s) && |s| > 7 && !WordChar(s[7]) then
      match FirstClose(s, 7)
      case Some(k) => Some(k + 9)
      case None => None
    else None
  }

  /** A match needs a non-word character right after `<script`, and it ends
      at the first `</script>` after the opening tag. */
  lemma ScriptBlockFirst(s: string)
    ensures ScriptBlock(s).Some? ==>
              && |s| > 7 && !WordChar(s[7])
              && forall m: nat :: 7 <= m < ScriptBlock(s).value - 9 ==> !ClosesScript(s, m)
  {
  }

  /** `.replace(pattern, '')` with the `g` flag: scanning from the left, each
      match is removed and the scan resumes after it. */
  function StripScripts(s: string): string
    decreases |s|
  {
    if s == [] then []
    else match ScriptBlock(s)
      case Some(e) => StripScripts(s[e..])
      case None => [s[0]] + StripScripts(s[1..])
  }

  /** One pass never lengthens the text, keeps its characters in order, and
      leaves it unchanged exactly when the pattern matches nowhere in it. */
  lemma StripScriptsSpec(s: string)
    ensures |StripScripts(s)| <= |s|
    ensures IsSubsequence(StripScripts(s), s)
    ensures |StripScripts(s)| == |s| ==> StripScripts(s) == s
    ensures StripScripts(s) == s <==> forall i :: 0 <= i < |s| ==> ScriptBlock(s[i..]).None?
  {
    StripScriptsLength(s);
    StripScriptsSubsequence(s);
    StripScriptsUnchanged(s);
  }

  lemma {:induction false} StripScriptsLength(s: string)
    decreases |s|
    ensures |StripScripts(s)| <= |s|
    ensures |StripScripts(s)| == |s| ==> StripScripts(s) == s
  {
    if s != [] {
      match ScriptBlock(s)
      case Some(e) =>
        StripScriptsLength(s[e..]);
      case None =>
        StripScriptsLength(s[1..]);
        assert s == [s[0]] + s[1..];
    }
  }

  lemma {:induction false} StripScriptsSubsequence(s: string)
    decreases |s|
    ensures IsSubsequence(StripScripts(s), s)
  {
    if s != [] {
      match ScriptBlock(s)
      case Some(e) =>
        StripScriptsSubsequence(s[e..]);
        SubsequenceOfDrop(StripScripts(s[e..]), s, e);
        assert s[0..] == s;
      case None =>
        StripScriptsSubsequence(s[1..]);
        assert StripScripts(s)[0] == s[0];
        assert StripScripts(s)[1..] == StripScripts(s[1..]);
    }
  }

  lemma {:induction false} StripScriptsUnchanged(s: string)
    decreases |s|
    ensures StripScripts(s) == s <==> forall i :: 0 <= i < |s| ==> ScriptBlock(s[i..]).None?
  {
    if s != [] {
      match ScriptBlock(s)
      case Some(e) =>
        StripScriptsLength(s[e..]);
        assert s[0..] == s;
      case None =>
        StripScriptsUnchanged(s[1..]);
        assert s == [s[0]] + s[1..];
        forall i | 0 < i < |s| ensures s[i..] == s[1..][i - 1..] {
        }
        if forall i :: 0 <= i < |s| - 1 ==> ScriptBlock(s[1..][i..]).None? {
          forall i | 0 <= i < |s| ensures ScriptBlock(s[i..]).None? {
            if i > 0 {
              assert ScriptBlock(s[1..][i - 1..]).None?;
            }
          }
        }
    }
  }

  /** The pass repeated until nothing more matches: the evident intent of
      "remove scripts", since a single pass can join the text around a
      removed block into a new one. */
  function StripAllScripts(s: string): (r: string)
    decreases |s|
    ensures forall i :: 0 <= i < |r| ==> ScriptBlock(r[i..]).None?
    ensures |r| <= |s|
    ensures (forall i :: 0 <= i < |s| ==> ScriptBlock(s[i..]).None?) ==> r == s
  {
    StripScriptsSpec(s);
    var t := StripScripts(s);
    if t == s then s else StripAllScripts(t)
  }

  /** Text with no whitespace at either end is its own trim. */
  lemma TrimUnpadded(s: string)
    requires s != [] && !IsSpace(s[0]) && !IsSpace(s[|s| - 1])
    ensures Trim(s) == s
  {
    assert LeadingSpaces(s) == 0;
    assert s[0..] == s;
    assert TrailingSpaces(s) == 0;
  }

  /** A prefix at none of whose positions a block starts passes unchanged. */
  lemma {:induction false} PrefixKept(a: string, rest: string)
    requires forall i :: 0 <= i < |a| ==> ScriptBlock((a + rest)[i..]).None?
    ensures StripScripts(a + rest) == a + StripScripts(rest)
  {
    if a != [] {
      var s := a + rest;
      assert s[0..] == s;
      assert s[1..] == a[1..] + rest;
      PrefixTailClean(a, rest);
      PrefixKept(a[1..], rest);
      assert ScriptBlock(s).None?;
      assert StripScripts(s) == [s[0]] + StripScripts(s[1..]);
      calc {
        StripScripts(s);
        [s[0]] + StripScripts(a[1..] + rest);
        [a[0]] + (a[1..] + StripScripts(rest));
        { assert a == [a[0]] + a[1..]; }
        a + StripScripts(rest);
      }
    } else {
      assert a + rest == rest;
    }
  }

  lemma PrefixTailClean(a: string, rest: string)
    requires a != [] && forall i :: 0 <= i < |a| ==> ScriptBlock((a + rest)[i..]).None?
    ensures forall i :: 0 <= i < |a| - 1 ==> ScriptBlock((a[1..] + rest)[i..]).None?
  {
    forall i | 0 <= i < |a| - 1 ensures ScriptBlock((a[1..] + rest)[i..]).None? {
      assert (a[1..] + rest)[i..] == (a + rest)[i + 1..];
    }
  }

  /** Text in which no `<` starts a script block passes one pass unchanged. */
  lemma StripScriptsClean(s: string)
    requires forall i :: 0 <= i < |s| ==> !OpensScript(s[i..])
    ensures StripScripts(s) == s
  {
    forall i | 0 <= i < |s| ensures ScriptBlock(s[i..]).None? {
    }
    StripScriptsSpec(s);
  }

  /** A value handed to `sanitizeInput`: a string, or anything else. */
  datatype Input<T> = StringInput(text: string) | OtherInput(value: T)

  /** `sanitizeInput`: non-strings come back as they were; strings are
      trimmed, then every script block is removed in one pass. */
  function SanitizeInput<T>(input: Input<T>): (r: Input<T>)
    ensures input.OtherInput? ==> r == input
    ensures input.StringInput? ==>
              && r.StringInput?
              && |r.text| <= |Trim(input.text)|
              && IsSubsequence(r.text, Trim(input.text))
              && (r.text == Trim(input.text) <==>
                    forall i :: 0 <= i < |Trim(input.text)| ==> ScriptBlock(Trim(input.text)[i..]).None?)
  {
    match input
    case StringInput(text) =>
      StripScriptsSpec(Trim(text));
      StringInput(StripScripts(Trim(text)))
    case OtherInput(_) => input
  }

  /** `sanitizeInput` as evidently intended: the removal repeated until no
      script block is left. It agrees with `SanitizeInput` on every input in
      which the pattern matches nowhere after trimming. */
  function SafeSanitizeInput<T>(input: Input<T>): (r: Input<T>)
    ensures input.OtherInput? ==> r == input
    ensures input.StringInput? ==>
              && r.StringInput?
              && |r.text| <= |Trim(input.text)|
              && forall i :: 0 <= i < |r.text| ==> ScriptBlock(r.text[i..]).None?
    ensures input.StringInput? &&
            (forall i :: 0 <= i < |Trim(input.text)| ==> ScriptBlock(Trim(input.text)[i..]).None?) ==>
              r == SanitizeInput(input)
  {
    match input
    case StringInput(text) => StringInput(StripAllScripts(Trim(text)))
    case OtherInput(_) => input
  }

  // The steps of the two examples below, one literal each: together in one
  // proof, the literals make the solver unfold far more than it needs.

  lemma TrimmedBlockThenWord(s: string)
    requires s == "<script></script>" + " x"
    ensures Trim(s) == s
    ensures StripScripts(s) == " x"
  {
    TrimUnpadded(s);
    EmptyBlockFirst(s, " x");
    SlashAfterEveryAngle(" x");
  }

  lemma SpaceThenWord()
    ensures Trim(" x") == "x"
    ensures StripScripts("x") == "x"
  {
    assert LeadingSpaces(" x") == 1;
    assert " x"[1..] == "x";
    assert TrailingSpaces("x") == 0;
    StripScriptsClean("x");
  }

  /** Trimming comes first, so a removed block can leave whitespace at an
      end, and sanitizing again changes the text once more. */
  lemma SanitizeInputNotIdempotent<T>()
    ensures SanitizeInput<T>(StringInput("<script></script> x")) == StringInput(" x")
    ensures SanitizeInput<T>(StringInput(" x")) == StringInput("x")
  {
    TrimmedBlockThenWord("<script></script> x");
    SpaceThenWord();
  }

  /** The first `</script>` from `j` on is the one at `k` when none starts in between. */
  lemma {:induction false} FirstCloseAt(s: string, j: nat, k: nat)
    requires j <= k && ClosesScript(s, k)
    requires forall m: nat :: j <= m < k ==> !ClosesScript(s, m)
    decreases k - j
    ensures FirstClose(s, j) == Some(k)
  {
    if j < k {
      FirstCloseAt(s, j + 1, k);
    }
  }

  /** Text in which every `<` is followed by `/` opens no script block. */
  lemma SlashAfterEveryAngle(s: string)
    requires forall i :: 0 <= i < |s| && s[i] == '<' ==> i + 1 < |s| && s[i + 1] == '/'
    ensures StripScripts(s) == s
  {
    StripScriptsClean(s);
  }

  // The parts of the example that follows, each over named strings: with
  // the literals together in one proof the solver unfolds far more than it
  // needs.

  lemma SpliceTail(p: string, c: string)
    requires forall i :: 0 <= i < |p| ==> p[i] != '<'
    requires c == "t>" + p + "</script>"
    ensures StripScripts(c) == c
  {
    forall i | 0 <= i < |c| && c[i] == '<' ensures i + 1 < |c| && c[i + 1] == '/' {
      if 2 + |p| <= i {
        assert c[2 + |p|..] == "</script>";
        assert c[i] == "</script>"[i - 2 - |p|];
      }
    }
    SlashAfterEveryAngle(c);
  }

  lemma EmptyBlockFirst(x: string, c: string)
    requires x == "<script></script>" + c
    ensures StripScripts(x) == StripScripts(c)
  {
    assert ClosesScript(x, 8);
    assert ScriptBlock(x) == Some(17);
    assert x[17..] == c;
  }

  lemma BrokenOpening(y: string, rest: string)
    requires rest != [] && rest[0] == '<'
    requires y == "<scrip" + rest
    ensures StripScripts(y) == "<scrip" + StripScripts(rest)
  {
    var a := "<scrip";
    forall i | 0 <= i < |a| ensures ScriptBlock((a + rest)[i..]).None? {
      assert (a + rest)[i..][0] == a[i];
      assert i == 0 ==> (a + rest)[i..][6] == '<';
    }
    PrefixKept(a, rest);
  }

  lemma ReassembledBlock(p: string, r: string)
    requires forall i :: 0 <= i < |p| ==> p[i] != '<'
    requires r == "<script>" + p + "</script>"
    ensures ScriptBlock(r) == Some(|p| + 17)
  {
    forall m: nat | 7 <= m < |p| + 8 ensures !ClosesScript(r, m) {
      if m > 7 {
        assert r[m] == p[m - 8];
      }
    }
    assert ClosesScript(r, |p| + 8) by {
      assert r[|p| + 8..] == "</script>";
    }
    FirstCloseAt(r, 7, |p| + 8);
  }

  lemma SpliceTrimmed(p: string, s: string)
    requires s == "<scrip<script></script>t>" + p + "</script>"
    ensures Trim(s) == s
    ensures s == "<scrip" + ("<script></script>" + ("t>" + p + "</script>"))
  {
    assert s[|s| - 1] == '>';
    TrimUnpadded(s);
  }

  lemma SpliceJoined(p: string, r: string)
    requires r == "<script>" + p + "</script>"
    ensures "<scrip" + ("t>" + p + "</script>") == r
  {
  }

  lemma SplicedScript<T>(p: string, s: string, r: string)
    requires forall i :: 0 <= i < |p| ==> p[i] != '<'
    requires s == "<scrip<script></script>t>" + p + "</script>"
    requires r == "<script>" + p + "</script>"
    ensures SanitizeInput<T>(StringInput(s)) == StringInput(r)
    ensures ScriptBlock(r) == Some(|p| + 17)
  {
    var c := "t>" + p + "</script>";
    var rest := "<script></script>" + c;
    SpliceTrimmed(p, s);
    SpliceJoined(p, r);
    SpliceTail(p, c);
    EmptyBlockFirst(rest, c);
    BrokenOpening(s, rest);
    ReassembledBlock(p, r);
  }

  /** As written, one pass can assemble a new script block out of the text
      around the one it removes: whatever payload follows survives
      sanitizing inside a complete `<script>` element. */
  lemma SanitizeInputLeavesScript<T>(p: string)
    requires forall i :: 0 <= i < |p| ==> p[i] != '<'
    ensures SanitizeInput<T>(StringInput("<scrip<script></script>t>" + p + "</script>")) ==
            StringInput("<script>" + p + "</script>")
    ensures ScriptBlock("<script>" + p + "</script>") == Some(|p| + 17)
  {
    SplicedScript<T>(p, "<scrip<script></script>t>" + p + "</script>", "<script>" + p + "</script>");
  }
}
