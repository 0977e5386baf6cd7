/**
 * The JavaScript string built-ins the proxy relies on, over strings of
 * Unicode scalar values: the case folding of an ASCII `/pattern/i` regular
 * expression, `RegExp.prototype.test` as a substring search,
 * `String.prototype.trim`, and the decimal rendering of a status code.
 */
module Text {

  // ---------------------------------------------------------------------
  // Case folding
  // ---------------------------------------------------------------------

  predicate IsUpper(c: char) {
    'A' <= c <= 'Z'
  }

  /**
   * A regular expression with the `i` flag and without `u` folds a character
   * onto an ASCII letter only when it is itself an ASCII letter, so for the
   * ASCII patterns of the proxy, case-insensitive matching is matching after
   * lower-casing the ASCII capitals of both sides.
   */
  function LowerChar(c: char): char {
    if IsUpper(c) then (c as int + 32) as char else c
  }

  function Lower(s: string): (r: string)
    ensures |r| == |s|
    ensures forall i :: 0 <= i < |s| ==> r[i] == LowerChar(s[i])
  {
    seq(|s|, i requires 0 <= i < |s| => LowerChar(s[i]))
  }

  /**
   * What lower-casing means: no ASCII capital is left, every other character
   * stays where it was, each capital becomes its lower-case letter, and a
   * string without capitals is its own lower-case form.
   */
  lemma LowerMeaning(s: string)
    ensures IsLowered(Lower(s))
    ensures forall i :: 0 <= i < |s| && !IsUpper(s[i]) ==> Lower(s)[i] == s[i]
    ensures forall i :: 0 <= i < |s| && IsUpper(s[i]) ==>
      'a' <= Lower(s)[i] <= 'z' && Lower(s)[i] as int - s[i] as int == 'a' as int - 'A' as int
    ensures IsLowered(s) ==> Lower(s) == s
  {
  }

  /** A string with no ASCII capital, such as every pattern the proxy tests for. */
  predicate IsLowered(s: string) {
    forall i :: 0 <= i < |s| ==> !IsUpper(s[i])
  }

  // ---------------------------------------------------------------------
  // Substring search
  // ---------------------------------------------------------------------

  /** `needle` occurs in `hay` starting at index `i`. */
  ghost predicate OccursAt(hay: string, needle: string, i: int) {
    0 <= i && i + |needle| <= |hay| && hay[i..i + |needle|] == needle
  }

  predicate StartsWith(s: string, prefix: string) {
    |prefix| <= |s| && s[..|prefix|] == prefix
  }

  predicate EndsWith(s: string, suffix: string) {
    |suffix| <= |s| && s[|s| - |suffix|..] == suffix
  }

  /** The search `RegExp.prototype.test` performs for a pattern made only of literal characters. */
  function Contains(hay: string, needle: string): bool
  {
    StartsWith(hay, needle) || (hay != [] && Contains(hay[1..], needle))
  }

  /** The scan finds the needle exactly when it occurs somewhere. */
  lemma {:induction false} ContainsIffOccurs(hay: string, needle: string)
    ensures Contains(hay, needle) <==> exists i :: OccursAt(hay, needle, i)
  {
    if StartsWith(hay, needle) {
      assert OccursAt(hay, needle, 0);
    } else if hay == [] {
      assert |needle| > 0;
    } else {
      ContainsIffOccurs(hay[1..], needle);
      if Contains(hay[1..], needle) {
        var i :| OccursAt(hay[1..], needle, i);
        assert hay[i + 1..i + 1 + |needle|] == hay[1..][i..i + |needle|];
        assert OccursAt(hay, needle, i + 1);
      } else {
        forall i ensures !OccursAt(hay, needle, i) {
          if 0 < i && i + |needle| <= |hay| {
            assert !OccursAt(hay[1..], needle, i - 1);
            assert hay[1..][i - 1..i - 1 + |needle|] == hay[i..i + |needle|];
          } else if i == 0 && |needle| <= |hay| {
            assert hay[..|needle|] == hay[i..i + |needle|];
          }
        }
      }
    }
  }

  /** One occurrence is enough for the search to succeed. */
  lemma ContainsAt(hay: string, needle: string, i: int)
    requires OccursAt(hay, needle, i)
    ensures Contains(hay, needle)
  {
    ContainsIffOccurs(hay, needle);
  }

  /** A needle longer than the text never occurs in it. */
  lemma NotContainsLonger(hay: string, needle: string)
    requires |hay| < |needle|
    ensures !Contains(hay, needle)
  {
    ContainsIffOccurs(hay, needle);
  }

  /** A needle with a character absent from the text never occurs in it. */
  lemma NotContainsMissingChar(hay: string, needle: string, k: nat)
    requires k < |needle| && needle[k] !in hay
    ensures !Contains(hay, needle)
  {
    ContainsIffOccurs(hay, needle);
    forall i ensures !OccursAt(hay, needle, i) {
      if 0 <= i && i + |needle| <= |hay| {
        assert hay[i..i + |needle|][k] == hay[i + k];
      }
    }
  }

  /** Whatever occurs inside an occurring string occurs in the whole text. */
  lemma {:induction false} ContainsTransitive(hay: string, mid: string, needle: string)
    requires Contains(hay, mid) && Contains(mid, needle)
    ensures Contains(hay, needle)
  {
    ContainsIffOccurs(hay, mid);
    ContainsIffOccurs(mid, needle);
    var i :| OccursAt(hay, mid, i);
    var j :| OccursAt(mid, needle, j);
    forall k | 0 <= k < |needle| ensures hay[i + j + k] == needle[k] {
      assert hay[i + j + k] == hay[i..i + |mid|][j + k] == mid[j + k];
      assert mid[j + k] == mid[j..j + |needle|][k];
    }
    assert hay[i + j..i + j + |needle|] == needle;
    ContainsAt(hay, needle, i + j);
  }

  /** `/needle/i.test(hay)` for an ASCII, lower-case `needle`. */
  function ContainsIgnoringCase(hay: string, needle: string): bool {
    Contains(Lower(hay), needle)
  }

  /** `/^pattern$/i.test(s)` for an ASCII, lower-case `pattern`. */
  function EqualsIgnoringCase(s: string, pattern: string): bool {
    Lower(s) == pattern
  }

  // ---------------------------------------------------------------------
  // String.prototype.trim
  // ---------------------------------------------------------------------

  /** The characters JavaScript counts as white space or line terminators. */
  predicate IsSpace(c: char) {
    || c == '\t' || c == '\n' || c == '\U{B}' || c == '\U{C}' || c == '\r'
    || c == ' ' || c == '\U{A0}' || c == '\U{1680}'
    || ('\U{2000}' <= c <= '\U{200A}')
    || c == '\U{2028}' || c == '\U{2029}' || c == '\U{202F}' || c == '\U{205F}'
    || c == '\U{3000}' || c == '\U{FEFF}'
  }

  predicate AllSpace(s: string) {
    forall i :: 0 <= i < |s| ==> IsSpace(s[i])
  }

  /** The end of the run of white space that starts at index `i`. */
  function SpaceRunFrom(s: string, i: nat): (j: nat)
    requires i <= |s|
    ensures i <= j <= |s|
    ensures forall k :: i <= k < j ==> IsSpace(s[k])
    ensures j < |s| ==> !IsSpace(s[j])
    decreases |s| - i
  {
    if i == |s| || !IsSpace(s[i]) then i else SpaceRunFrom(s, i + 1)
  }

  /** The start of the run of white space that ends just before index `j`, looking no further back than `lo`. */
  function SpaceRunBefore(s: string, lo: nat, j: nat): (i: nat)
    requires lo <= j <= |s|
    ensures lo <= i <= j
    ensures forall k :: i <= k < j ==> IsSpace(s[k])
    ensures lo < i ==> !IsSpace(s[i - 1])
    decreases j
  {
    if j == lo || !IsSpace(s[j - 1]) then j else SpaceRunBefore(s, lo, j - 1)
  }

  /** `r` is `s` less white space of length `i` in front and the rest behind. */
  ghost predicate TrimmedAt(s: string, r: string, i: int) {
    0 <= i && i + |r| <= |s| && s[i..i + |r|] == r
    && (forall k :: 0 <= k < i ==> IsSpace(s[k]))
    && (forall k :: i + |r| <= k < |s| ==> IsSpace(s[k]))
  }

  /** `String.prototype.trim`: drops the leading and the trailing white space. */
  function Trim(s: string): (r: string)
    ensures exists i :: TrimmedAt(s, r, i)
    ensures r != [] ==> !IsSpace(r[0]) && !IsSpace(r[|r| - 1])
    ensures r == [] <==> AllSpace(s)
  {
    var i := SpaceRunFrom(s, 0);
    var j := SpaceRunBefore(s, i, |s|);
    assert i < j ==> !IsSpace(s[i]);
    assert TrimmedAt(s, s[i..j], i);
    s[i..j]
  }

  // ---------------------------------------------------------------------
  // Decimal rendering of a status code
  // ---------------------------------------------------------------------

  function DigitChar(d: nat): (c: char)
    requires d < 10
  {
    ('0' as int + d) as char
  }

  predicate IsDigit(c: char) {
    '0' <= c <= '9'
  }

  /** What a template literal prints for a non-negative integer. */
  function Decimal(n: nat): (s: string)
    ensures s != [] && forall i :: 0 <= i < |s| ==> IsDigit(s[i])
  {
    if n < 10 then [DigitChar(n)] else Decimal(n / 10) + [DigitChar(n % 10)]
  }

  /** The number a string of decimal digits denotes. */
  function DigitsValue(s: string): nat
    requires forall i :: 0 <= i < |s| ==> IsDigit(s[i])
  {
    if s == [] then 0
    else
      assert IsDigit(s[|s| - 1]);
      10 * DigitsValue(s[..|s| - 1]) + (s[|s| - 1] as int - '0' as int)
  }

  /** Reading the rendered digits back gives the number. */
  lemma {:induction false} DecimalRoundTrip(n: nat)
    ensures DigitsValue(Decimal(n)) == n
  {
    if n >= 10 {
      DecimalRoundTrip(n / 10);
      var s := Decimal(n);
      assert s[..|s| - 1] == Decimal(n / 10);
    }
  }
}
