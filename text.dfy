/** String helpers standing for Python's `str.strip`, `str.lower`, `str.upper`,
    `str.isdigit`, `int`, `in` on strings, `str.join` and `re.findall(r'\w+', ...)`.
    Strings are sequences of code points, so `|s|` is Python's `len(s)`. */
module Text {

  /** Python's `str.isspace` for one character: the code points `str.strip()` removes. */
  predicate IsSpace(c: char) {
    c == ' ' || ('\t' <= c <= '\r') || ('\U{001c}' <= c <= '\U{001f}')
    || c == '\U{0085}' || c == '\U{00a0}' || c == '\U{1680}'
    || ('\U{2000}' <= c <= '\U{200a}') || c == '\U{2028}' || c == '\U{2029}'
    || c == '\U{202f}' || c == '\U{205f}' || c == '\U{3000}'
  }

  /** Every character of `s` at a position in `lo..hi` is whitespace. */
  predicate BlankBetween(s: string, lo: int, hi: int) {
    forall k :: lo <= k < hi && 0 <= k < |s| ==> IsSpace(s[k])
  }

  /** True when `s` holds nothing but whitespace (the empty string included). */
  predicate IsBlank(s: string) {
    BlankBetween(s, 0, |s|)
  }

  function StripStart(s: string): (r: string)
    ensures |r| <= |s| && r == s[|s| - |r|..]
    ensures BlankBetween(s, 0, |s| - |r|)
    ensures r == [] || !IsSpace(r[0])
  {
    if s != [] && IsSpace(s[0]) then StripStart(s[1..]) else s
  }

  function StripEnd(s: string): (r: string)
    ensures |r| <= |s| && r == s[..|r|]
    ensures BlankBetween(s, |r|, |s|)
    ensures r == [] || !IsSpace(r[|r| - 1])
  {
    if s != [] && IsSpace(s[|s| - 1]) then StripEnd(s[..|s| - 1]) else s
  }

  /** `r` is `s[i..i + |r|]` and everything around it is whitespace. */
  predicate TrimmedAt(s: string, i: int, r: string) {
    0 <= i <= |s| - |r| && r == s[i..i + |r|]
    && BlankBetween(s, 0, i) && BlankBetween(s, i + |r|, |s|)
  }

  /** Python's `s.strip()`: `s` with leading and trailing whitespace removed; what remains
      neither starts nor ends with whitespace. */
  function Strip(s: string): (r: string)
    ensures |r| <= |s|
    ensures r == [] || (!IsSpace(r[0]) && !IsSpace(r[|r| - 1]))
  {
    StripEnd(StripStart(s))
  }

  /** The result of `strip` is a slice of `s` with only whitespace cut away around it, and it
      is empty exactly when `s` is blank. */
  lemma StripSpec(s: string)
    ensures var r := Strip(s);
            (r == [] <==> IsBlank(s)) && exists i :: TrimmedAt(s, i, r)
  {
    var t := StripStart(s);
    var r := StripEnd(t);
    var i := |s| - |t|;
    BlankShift(s, i, |r|, |t|);
    assert TrimmedAt(s, i, r);
    if r != [] {
      assert s[i] == r[0];
    }
  }

  /** Whitespace in a suffix `s[i..]` is whitespace in `s`, shifted by `i`. */
  lemma BlankShift(s: string, i: int, lo: int, hi: int)
    requires 0 <= i <= |s| && 0 <= lo <= hi <= |s| - i
    requires BlankBetween(s[i..], lo, hi)
    ensures BlankBetween(s, lo + i, hi + i)
  {
    forall k | lo + i <= k < hi + i
      ensures IsSpace(s[k])
    {
      assert s[k] == s[i..][k - i];
    }
  }

  /** Stripping is idempotent. */
  lemma StripIdempotent(s: string)
    ensures Strip(Strip(s)) == Strip(s)
  {
    var r := Strip(s);
    if r != [] {
      assert StripStart(r) == r;
      assert StripEnd(r) == r;
    }
  }

  /** Lower-casing of one character, exact for ASCII and for the Cyrillic block U+0400..U+04FF:
      U+0400..U+040F map to U+0450..U+045F and U+0410..U+042F to U+0430..U+044F; in the
      historic and extended letters U+0460..U+0481, U+048A..U+04BF and U+04D0..U+04FF each
      even code point is a capital followed by its small letter, in U+04C1..U+04CE each odd
      one is, and PALOCHKA U+04C0 maps to U+04CF. Other characters are left as they are. */
  function LowerChar(c: char): (d: char)
    ensures d == c || ('A' <= c <= 'Z') || ('\U{0400}' <= c <= '\U{04ff}')
    ensures '\U{0400}' <= c <= '\U{04ff}' ==> '\U{0400}' <= d <= '\U{04ff}'
  {
    if 'A' <= c <= 'Z' then (c as int + 32) as char
    else if '\U{0400}' <= c <= '\U{040f}' then (c as int + 0x50) as char
    else if '\U{0410}' <= c <= '\U{042f}' then (c as int + 0x20) as char
    else if c == '\U{04c0}' then '\U{04cf}'
    else if (('\U{0460}' <= c <= '\U{0481}' || '\U{048a}' <= c <= '\U{04bf}' || '\U{04d0}' <= c <= '\U{04ff}')
             && c as int % 2 == 0)
            || ('\U{04c1}' <= c <= '\U{04ce}' && c as int % 2 == 1)
    then (c as int + 1) as char
    else c
  }

  /** `s.lower()`, character by character. */
  function Lower(s: string): (r: string)
    ensures |r| == |s|
    ensures forall k :: 0 <= k < |s| ==> r[k] == LowerChar(s[k])
  {
    seq(|s|, k requires 0 <= k < |s| => LowerChar(s[k]))
  }

  /** Upper-casing of one character, as far as it matters for comparing with ASCII names:
      ASCII letters, and DOTLESS I, whose upper case is the ASCII `I`. */
  function UpperChar(c: char): (d: char)
    ensures ('a' <= c <= 'z' || c == '\U{0131}') <==> d != c
  {
    if 'a' <= c <= 'z' then (c as int - 32) as char
    else if c == '\U{0131}' then 'I'
    else c
  }

  /** `s.upper()`, character by character. */
  function Upper(s: string): (r: string)
    ensures |r| == |s|
    ensures forall k :: 0 <= k < |s| ==> r[k] == UpperChar(s[k])
  {
    seq(|s|, k requires 0 <= k < |s| => UpperChar(s[k]))
  }

  /** Membership in the regular-expression class `\w`: ASCII letters, digits and `_`, and the
      letters of the Cyrillic block. */
  predicate IsWordChar(c: char) {
    ('a' <= c <= 'z') || ('A' <= c <= 'Z') || ('0' <= c <= '9') || c == '_'
    || ('\U{0400}' <= c <= '\U{0481}') || ('\U{048a}' <= c <= '\U{04ff}')
  }

  /** The length of the run of word characters at the start of `s`. */
  function WordRunLength(s: string): (n: nat)
    ensures n <= |s|
    ensures forall k :: 0 <= k < n ==> IsWordChar(s[k])
    ensures n < |s| ==> !IsWordChar(s[n])
  {
    if s != [] && IsWordChar(s[0]) then 1 + WordRunLength(s[1..]) else 0
  }

  /** `re.findall(r'\w+', s)`: the maximal runs of word characters, left to right. */
  function Words(s: string): (ws: seq<string>)
    ensures forall w :: w in ws ==> w != [] && forall k :: 0 <= k < |w| ==> IsWordChar(w[k])
    decreases |s|
  {
    if s == [] then []
    else if !IsWordChar(s[0]) then Words(s[1..])
    else
      var n := WordRunLength(s);
      [s[..n]] + Words(s[n..])
  }

  /** Every keyword found by `Words` occurs in the text it was taken from. */
  lemma {:induction false} WordsOccurIn(s: string, w: string)
    requires w in Words(s)
    ensures IsSubstring(w, s)
    decreases |s|
  {
    if IsWordChar(s[0]) {
      var n := WordRunLength(s);
      if w == s[..n] {
        assert StartsWith(s, w);
      } else {
        WordsOccurIn(s[n..], w);
        SubstringOfSuffix(w, s, n);
      }
    } else {
      WordsOccurIn(s[1..], w);
      SubstringOfSuffix(w, s, 1);
    }
  }

  /** A text without word characters yields no keywords. */
  lemma {:induction false} NoWordCharsNoWords(s: string)
    requires forall k :: 0 <= k < |s| ==> !IsWordChar(s[k])
    ensures Words(s) == []
    decreases |s|
  {
    if s != [] {
      NoWordCharsNoWords(s[1..]);
    }
  }

  predicate StartsWith(s: string, prefix: string) {
    |prefix| <= |s| && s[..|prefix|] == prefix
  }

  /** Python's `needle in hay` on strings. */
  predicate IsSubstring(needle: string, hay: string)
    decreases |hay|
  {
    StartsWith(hay, needle) || (hay != [] && IsSubstring(needle, hay[1..]))
  }

  /** `needle` occurs in `hay` at position `i`. */
  predicate OccursAt(needle: string, hay: string, i: int) {
    0 <= i <= |hay| - |needle| && hay[i..i + |needle|] == needle
  }

  /** `IsSubstring` holds exactly when the needle occurs at some position. */
  lemma {:induction false} IsSubstringAt(needle: string, hay: string)
    ensures IsSubstring(needle, hay) <==> exists i :: OccursAt(needle, hay, i)
    decreases |hay|
  {
    if StartsWith(hay, needle) {
      assert OccursAt(needle, hay, 0);
    } else if hay != [] {
      IsSubstringAt(needle, hay[1..]);
      if IsSubstring(needle, hay[1..]) {
        var i :| OccursAt(needle, hay[1..], i);
        assert OccursAt(needle, hay, i + 1);
      }
      if exists i :: OccursAt(needle, hay, i) {
        var i :| OccursAt(needle, hay, i);
        assert i != 0;
        assert OccursAt(needle, hay[1..], i - 1);
      }
    }
  }

  /** An occurrence in a suffix of `hay` is an occurrence in `hay`. */
  lemma {:induction false} SubstringOfSuffix(needle: string, hay: string, n: nat)
    requires n <= |hay|
    requires IsSubstring(needle, hay[n..])
    ensures IsSubstring(needle, hay)
    decreases n
  {
    if n > 0 {
      assert hay[1..][n - 1..] == hay[n..];
      SubstringOfSuffix(needle, hay[1..], n - 1);
    }
  }

  /** Every string contains each of its slices. */
  lemma SliceIsSubstring(hay: string, i: nat, j: nat)
    requires i <= j <= |hay|
    ensures IsSubstring(hay[i..j], hay)
  {
    IsSubstringAt(hay[i..j], hay);
    assert OccursAt(hay[i..j], hay, i);
  }

  /** `sep.join(parts)`. */
  function Join(sep: string, parts: seq<string>): (r: string)
    ensures |parts| == 1 ==> r == parts[0]
  {
    if parts == [] then ""
    else if |parts| == 1 then parts[0]
    else parts[0] + sep + Join(sep, parts[1..])
  }

  /** Each part of a joined string occurs in it. */
  lemma {:induction false} JoinContainsPart(sep: string, parts: seq<string>, i: nat)
    requires i < |parts|
    ensures IsSubstring(parts[i], Join(sep, parts))
    decreases |parts|
  {
    var r := Join(sep, parts);
    if |parts| == 1 {
      SliceIsSubstring(r, 0, |r|);
      assert r[0..|r|] == r;
    } else if i == 0 {
      assert r[..|parts[0]|] == parts[0];
    } else {
      JoinContainsPart(sep, parts[1..], i - 1);
      assert r[|parts[0] + sep|..] == Join(sep, parts[1..]);
      SubstringOfSuffix(parts[i], r, |parts[0] + sep|);
    }
  }

  /** A substring of a slice is a substring of the whole. */
  lemma SubstringOfSlice(needle: string, hay: string, i: nat, j: nat)
    requires i <= j <= |hay|
    requires IsSubstring(needle, hay[i..j])
    ensures IsSubstring(needle, hay)
  {
    IsSubstringAt(needle, hay[i..j]);
    var k :| OccursAt(needle, hay[i..j], k);
    forall m | 0 <= m < |needle|
      ensures hay[i + k..i + k + |needle|][m] == needle[m]
    {
      assert hay[i..j][k..k + |needle|][m] == needle[m];
    }
    assert OccursAt(needle, hay, i + k);
    IsSubstringAt(needle, hay);
  }

  predicate IsDigit(c: char) { '0' <= c <= '9' }

  /** `s.isdigit()`: non-empty and made of decimal digits. */
  predicate IsDigits(s: string) {
    s != [] && forall k :: 0 <= k < |s| ==> IsDigit(s[k])
  }

  /** `int(s)` for a string of decimal digits (leading zeros allowed). */
  function ParseDecimal(s: string): (n: nat)
    requires forall k :: 0 <= k < |s| ==> IsDigit(s[k])
  {
    if s == [] then 0
    else
      assert IsDigit(s[|s| - 1]);
      10 * ParseDecimal(s[..|s| - 1]) + (s[|s| - 1] as int - '0' as int)
  }

  /** `str(n)` for a natural number: its decimal digits, without leading zeros. */
  function NatToString(n: nat): (s: string)
    ensures IsDigits(s)
    ensures |s| > 1 ==> s[0] != '0'
  {
    if n < 10 then ['0' + n as char]
    else NatToString(n / 10) + ['0' + (n % 10) as char]
  }

  /** Reading back the decimal digits of `n` gives `n`. */
  lemma {:induction false} ParseNatToString(n: nat)
    ensures ParseDecimal(NatToString(n)) == n
  {
    var s := NatToString(n);
    if n >= 10 {
      ParseNatToString(n / 10);
      assert s[..|s| - 1] == NatToString(n / 10);
    }
  }
}
