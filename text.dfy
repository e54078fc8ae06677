/**
 * String handling shared by the orchestrator and the ingest scripts:
 * whitespace splitting (Rust's `split_whitespace`, Python's `str.split()`),
 * prefix and substring tests, decimal rendering of naturals, and the strict
 * unsigned-integer parse of Rust's `str::parse::<u32>()` / `parse::<usize>()`.
 */
module Text {
  import opened Wrappers

  /** The two whitespace classes in play: Rust's `char::is_whitespace` and Python's `str.isspace`. */
  datatype Whitespace = RustSpace | PythonSpace

  /** Python additionally treats the four information separators U+001C..U+001F as whitespace. */
  predicate IsSpace(c: char, ws: Whitespace) {
    ('\t' <= c <= '\r') || c == ' ' || c == '\U{85}' || c == '\U{A0}' || c == '\U{1680}'
    || ('\U{2000}' <= c <= '\U{200A}') || c == '\U{2028}' || c == '\U{2029}'
    || c == '\U{202F}' || c == '\U{205F}' || c == '\U{3000}'
    || (ws == PythonSpace && '\U{1C}' <= c <= '\U{1F}')
  }

  /** Length of the run of non-whitespace characters at the front of `s`. */
  function WordLen(s: string, ws: Whitespace): (n: nat)
    ensures n <= |s|
    ensures forall k :: 0 <= k < n ==> !IsSpace(s[k], ws)
    ensures n < |s| ==> IsSpace(s[n], ws)
  {
    if |s| == 0 || IsSpace(s[0], ws) then 0 else 1 + WordLen(s[1..], ws)
  }

  /** The maximal runs of non-whitespace characters of `s`, in order: `split_whitespace` / `split()`. */
  function Words(s: string, ws: Whitespace): (r: seq<string>)
    ensures forall k :: 0 <= k < |r| ==> |r[k]| > 0
    ensures forall k, j :: 0 <= k < |r| && 0 <= j < |r[k]| ==> !IsSpace(r[k][j], ws)
    decreases |s|
  {
    if |s| == 0 then []
    else if IsSpace(s[0], ws) then Words(s[1..], ws)
    else
      var n := WordLen(s, ws);
      [s[..n]] + Words(s[n..], ws)
  }

  /** A string holding a non-whitespace character splits into at least one word. */
  lemma {:induction false} NonSpaceGivesWord(s: string, ws: Whitespace, i: nat)
    requires i < |s| && !IsSpace(s[i], ws)
    ensures |Words(s, ws)| > 0
    decreases |s|
  {
    if IsSpace(s[0], ws) {
      assert s[1..][i - 1] == s[i];
      NonSpaceGivesWord(s[1..], ws, i - 1);
    }
  }

  predicate StartsWith(s: string, prefix: string) {
    |prefix| <= |s| && s[..|prefix|] == prefix
  }

  /** Substring test, as Rust's `str::contains` and Python's `in`. */
  predicate Contains(s: string, sub: string)
    decreases |s|
  {
    |sub| <= |s| && (s[..|sub|] == sub || (|s| > 0 && Contains(s[1..], sub)))
  }

  /** If `s` contains `sub` and `sub` starts with a non-whitespace character, `s` has a word. */
  lemma {:induction false} ContainsGivesWord(s: string, sub: string, ws: Whitespace)
    requires Contains(s, sub) && |sub| > 0 && !IsSpace(sub[0], ws)
    ensures |Words(s, ws)| > 0
    decreases |s|
  {
    if s[..|sub|] == sub {
      assert s[0] == sub[0];
      NonSpaceGivesWord(s, ws, 0);
    } else {
      ContainsGivesWord(s[1..], sub, ws);
      var i :| 0 <= i < |s[1..]| && !IsSpace(s[1..][i], ws) by {
        WordsHaveNonSpace(s[1..], ws);
      }
      NonSpaceGivesWord(s, ws, i + 1);
    }
  }

  /** Conversely, a string with a word holds a non-whitespace character. */
  lemma {:induction false} WordsHaveNonSpace(s: string, ws: Whitespace)
    requires |Words(s, ws)| > 0
    ensures exists i :: 0 <= i < |s| && !IsSpace(s[i], ws)
    decreases |s|
  {
    if IsSpace(s[0], ws) {
      WordsHaveNonSpace(s[1..], ws);
      var i :| 0 <= i < |s[1..]| && !IsSpace(s[1..][i], ws);
      assert !IsSpace(s[i + 1], ws);
    } else {
      assert !IsSpace(s[0], ws);
    }
  }

  /** Every character is whitespace (this includes the empty string). */
  predicate Blank(s: string, ws: Whitespace) {
    forall k :: 0 <= k < |s| ==> IsSpace(s[k], ws)
  }

  /** A string splits into no words exactly when it is blank. */
  lemma WordsEmptyIff(s: string, ws: Whitespace)
    ensures |Words(s, ws)| == 0 <==> Blank(s, ws)
  {
    if |Words(s, ws)| > 0 {
      WordsHaveNonSpace(s, ws);
    } else if !Blank(s, ws) {
      var k :| 0 <= k < |s| && !IsSpace(s[k], ws);
      NonSpaceGivesWord(s, ws, k);
    }
  }

  /** Rust's `str::trim_end`. */
  function TrimEnd(s: string): (r: string)
    ensures |r| <= |s| && r == s[..|r|]
    ensures |r| == 0 || !IsSpace(r[|r| - 1], RustSpace)
    ensures forall k :: |r| <= k < |s| ==> IsSpace(s[k], RustSpace)
  {
    if |s| > 0 && IsSpace(s[|s| - 1], RustSpace) then TrimEnd(s[..|s| - 1]) else s
  }

  /** Rust's `str::trim_start`. */
  function TrimStart(s: string): (r: string)
    ensures |r| <= |s| && r == s[|s| - |r|..]
    ensures |r| == 0 || !IsSpace(r[0], RustSpace)
    ensures forall k :: 0 <= k < |s| - |r| ==> IsSpace(s[k], RustSpace)
  {
    if |s| > 0 && IsSpace(s[0], RustSpace) then TrimStart(s[1..]) else s
  }

  /** Rust's `str::trim`. */
  function Trim(s: string): string {
    TrimEnd(TrimStart(s))
  }

  /** A trailing whitespace character adds no word. */
  lemma {:induction false} WordsIgnoreTrailingSpace(s: string, c: char, ws: Whitespace)
    requires IsSpace(c, ws)
    ensures Words(s + [c], ws) == Words(s, ws)
    decreases |s|
  {
    if |s| == 0 {
      assert s + [c] == [c];
      assert [c][1..] == [];
    } else if IsSpace(s[0], ws) {
      assert (s + [c])[1..] == s[1..] + [c];
      WordsIgnoreTrailingSpace(s[1..], c, ws);
    } else {
      var n := WordLen(s, ws);
      WordLenIgnoresTrailingSpace(s, c, ws);
      assert (s + [c])[..n] == s[..n];
      assert (s + [c])[n..] == s[n..] + [c];
      WordsIgnoreTrailingSpace(s[n..], c, ws);
    }
  }

  lemma {:induction false} WordLenIgnoresTrailingSpace(s: string, c: char, ws: Whitespace)
    requires IsSpace(c, ws)
    ensures WordLen(s + [c], ws) == WordLen(s, ws)
    decreases |s|
  {
    if |s| == 0 {
      assert (s + [c])[0] == c;
    } else if !IsSpace(s[0], ws) {
      assert (s + [c])[1..] == s[1..] + [c];
      WordLenIgnoresTrailingSpace(s[1..], c, ws);
    }
  }

  /** Trimming before splitting changes nothing: `line.trim().split_whitespace()` splits `line`. */
  lemma {:induction false} WordsOfTrim(s: string)
    ensures Words(Trim(s), RustSpace) == Words(s, RustSpace)
  {
    WordsOfTrimStart(s);
    WordsOfTrimEnd(TrimStart(s));
  }

  lemma {:induction false} WordsOfTrimStart(s: string)
    ensures Words(TrimStart(s), RustSpace) == Words(s, RustSpace)
    decreases |s|
  {
    if |s| > 0 && IsSpace(s[0], RustSpace) {
      WordsOfTrimStart(s[1..]);
    }
  }

  lemma {:induction false} WordsOfTrimEnd(s: string)
    ensures Words(TrimEnd(s), RustSpace) == Words(s, RustSpace)
    decreases |s|
  {
    if |s| > 0 && IsSpace(s[|s| - 1], RustSpace) {
      var p := s[..|s| - 1];
      assert s == p + [s[|s| - 1]];
      WordsIgnoreTrailingSpace(p, s[|s| - 1], RustSpace);
      WordsOfTrimEnd(p);
    }
  }

  /** A run of non-whitespace characters. */
  predicate IsWord(w: string, ws: Whitespace) {
    |w| > 0 && forall k :: 0 <= k < |w| ==> !IsSpace(w[k], ws)
  }

  lemma {:induction false} WordLenOfWord(w: string, rest: string, ws: Whitespace)
    requires IsWord(w, ws) && (|rest| == 0 || IsSpace(rest[0], ws))
    ensures WordLen(w + rest, ws) == |w|
    decreases |w|
  {
    if |w| > 1 {
      assert (w + rest)[1..] == w[1..] + rest;
      WordLenOfWord(w[1..], rest, ws);
    } else {
      assert (w + rest)[1..] == rest;
    }
  }

  /** A word followed by whitespace and more text splits into that word and the words of the rest. */
  lemma WordsCons(w: string, c: char, rest: string, ws: Whitespace)
    requires IsWord(w, ws) && IsSpace(c, ws)
    ensures Words(w + [c] + rest, ws) == [w] + Words(rest, ws)
  {
    var s := w + [c] + rest;
    assert s == w + ([c] + rest);
    WordLenOfWord(w, [c] + rest, ws);
    assert s[..|w|] == w;
    assert s[|w|..] == [c] + rest;
    assert ([c] + rest)[1..] == rest;
  }

  /** A single word splits into itself. */
  lemma WordsOfWord(w: string, ws: Whitespace)
    requires IsWord(w, ws)
    ensures Words(w, ws) == [w]
  {
    WordLenOfWord(w, [], ws);
    assert w + [] == w;
  }

  /** `a + b + c` contains `b`. */
  lemma {:induction false} ContainsInside(a: string, b: string, c: string)
    ensures Contains(a + b + c, b)
    decreases |a|
  {
    var s := a + b + c;
    if |a| == 0 {
      assert s[..|b|] == b;
    } else {
      assert s[1..] == a[1..] + b + c;
      ContainsInside(a[1..], b, c);
    }
  }

  // ---------------------------------------------------------------- digits

  predicate IsDigit(c: char) {
    '0' <= c <= '9'
  }

  predicate AllDigits(s: string) {
    forall k :: 0 <= k < |s| ==> IsDigit(s[k])
  }

  function DigitValue(c: char): nat
    requires IsDigit(c)
  {
    (c as int - '0' as int) as nat
  }

  function DigitChar(d: nat): (c: char)
    requires d < 10
    ensures IsDigit(c) && DigitValue(c) == d
  {
    ('0' as int + d) as char
  }

  /** The value of a string of decimal digits, most significant first; leading zeros are allowed. */
  function DigitsValue(s: string): nat
    requires AllDigits(s)
  {
    if |s| == 0 then 0 else DigitsValue(s[..|s| - 1]) * 10 + DigitValue(s[|s| - 1])
  }

  /** Decimal rendering of a natural without leading zeros, as Rust's `{}` and Python's `str()`. */
  function NatToString(n: nat): (s: string)
    ensures |s| > 0 && AllDigits(s)
    ensures |s| > 1 ==> s[0] != '0'
  {
    if n < 10 then [DigitChar(n)] else NatToString(n / 10) + [DigitChar(n % 10)]
  }

  /** Reading back a rendered natural gives the natural. */
  lemma {:induction false} NatToStringRoundTrip(n: nat)
    ensures DigitsValue(NatToString(n)) == n
  {
    if n >= 10 {
      var s := NatToString(n);
      assert s[..|s| - 1] == NatToString(n / 10);
      NatToStringRoundTrip(n / 10);
    }
  }

  const U32Limit: nat := 0x1_0000_0000
  const U64Limit: nat := 0x1_0000_0000_0000_0000

  /**
   * Rust's `str::parse` for an unsigned integer type whose values lie below `limit`:
   * an optional `+`, then at least one ASCII digit, nothing else, and no overflow.
   */
  function ParseUnsigned(s: string, limit: nat): (r: Option<nat>)
    ensures r.Some? ==> r.value < limit
    ensures r.Some? <==> exists d :: (s == d || s == "+" + d) && |d| > 0 && AllDigits(d) && DigitsValue(d) < limit
  {
    var d := if |s| > 1 && s[0] == '+' then s[1..] else s;
    assert s == d || s == "+" + d;
    if |d| > 0 && AllDigits(d) && DigitsValue(d) < limit then Some(DigitsValue(d)) else None
  }

  /** A non-empty run of decimal digits is a word under either whitespace class. */
  lemma DigitsAreWord(s: string, ws: Whitespace)
    requires |s| > 0 && AllDigits(s)
    ensures IsWord(s, ws)
  {
    forall k | 0 <= k < |s|
      ensures !IsSpace(s[k], ws)
    {
      assert IsDigit(s[k]);
    }
  }

  /** Three words joined by a whitespace character split back into those three words. */
  lemma WordsOfThree(a: string, b: string, c: string, sep: char, ws: Whitespace)
    requires IsWord(a, ws) && IsWord(b, ws) && IsWord(c, ws) && IsSpace(sep, ws)
    ensures Words(a + [sep] + b + [sep] + c, ws) == [a, b, c]
  {
    assert a + [sep] + b + [sep] + c == a + [sep] + (b + [sep] + c);
    WordsCons(a, sep, b + [sep] + c, ws);
    WordsCons(b, sep, c, ws);
    WordsOfWord(c, ws);
  }

  /** A rendered natural below the limit parses back to itself. */
  lemma ParseRendered(n: nat, limit: nat)
    requires n < limit
    ensures ParseUnsigned(NatToString(n), limit) == Some(n)
  {
    NatToStringRoundTrip(n);
  }
}
