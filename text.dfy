/** Character classes and string operations shared by the components: the
    JavaScript and Python notions of whitespace, ASCII digits, literal substring
    search, Python's `str.replace`, `str.strip` and `str.lower`, and decimal
    rendering of natural numbers. */
module Text {

  datatype Option<+T> = None | Some(value: T)

  /** JavaScript's `m || fallback` for an optional string: an absent or empty
      message gives way to the fallback. */
  function OrDefault(m: Option<string>, fallback: string): (r: string)
    ensures r == fallback || (m.Some? && r == m.value && r != "")
    ensures m.Some? && m.value != "" ==> r == m.value
  {
    if m.Some? && m.value != "" then m.value else fallback
  }

  /** The characters JavaScript's `\s` matches and `String.prototype.trim` strips
      (WhiteSpace and LineTerminator of ECMAScript). */
  predicate IsJsSpace(c: char) {
    ('\t' <= c <= '\r') || c == ' ' || c == '\U{00A0}' || c == '\U{1680}'
    || ('\U{2000}' <= c <= '\U{200A}') || c == '\U{2028}' || c == '\U{2029}'
    || c == '\U{202F}' || c == '\U{205F}' || c == '\U{3000}' || c == '\U{FEFF}'
  }

  /** The characters Python's `str.isspace` accepts, which `str.strip()` removes. */
  predicate IsPySpace(c: char) {
    ('\t' <= c <= '\r') || ('\U{001C}' <= c <= '\U{001F}') || c == ' '
    || c == '\U{0085}' || c == '\U{00A0}' || c == '\U{1680}'
    || ('\U{2000}' <= c <= '\U{200A}') || c == '\U{2028}' || c == '\U{2029}'
    || c == '\U{202F}' || c == '\U{205F}' || c == '\U{3000}'
  }

  /** An ASCII decimal digit: what JavaScript's `\d` matches. */
  predicate IsDigit(c: char) {
    '0' <= c <= '9'
  }

  predicate IsDigits(s: string) {
    forall i :: 0 <= i < |s| ==> IsDigit(s[i])
  }

  function DigitValue(c: char): nat
    requires IsDigit(c)
  {
    c as int - '0' as int
  }

  function DigitChar(d: nat): (c: char)
    requires d < 10
    ensures IsDigit(c) && DigitValue(c) == d
  {
    ('0' as int + d) as char
  }

  // ---------------------------------------------------------------------------
  // Decimal numbers

  /** The value of a non-empty run of decimal digits, most significant first. */
  function DecimalValue(s: string): nat
    requires IsDigits(s)
    decreases |s|
  {
    if s == [] then 0 else DecimalValue(s[..|s| - 1]) * 10 + DigitValue(s[|s| - 1])
  }

  /** Python's `str(n)` for a natural number: digits only, no leading zero. */
  function NatToString(n: nat): (r: string)
    ensures |r| > 0 && IsDigits(r)
    ensures r[0] == '0' ==> n == 0
    decreases n
  {
    if n < 10 then [DigitChar(n)] else NatToString(n / 10) + [DigitChar(n % 10)]
  }

  /** Reading back the decimal rendering of `n` gives `n`. */
  lemma {:induction false} DecimalRoundTrip(n: nat)
    ensures DecimalValue(NatToString(n)) == n
  {
    var s := NatToString(n);
    if n < 10 {
      assert s[..|s| - 1] == [];
    } else {
      assert s[..|s| - 1] == NatToString(n / 10);
      DecimalRoundTrip(n / 10);
    }
  }

  // ---------------------------------------------------------------------------
  // Literal substring search

  /** Position of the first `c` in `s`, or `|s|` when there is none. */
  function Find(s: string, c: char): (r: nat)
    ensures r <= |s| && (r < |s| ==> s[r] == c)
    ensures forall k :: 0 <= k < r ==> s[k] != c
    decreases |s|
  {
    if s == [] then 0 else if s[0] == c then 0 else 1 + Find(s[1..], c)
  }

  predicate StartsWith(s: string, p: string) {
    |p| <= |s| && s[..|p|] == p
  }

  /** Python's `p in s`; also what `re.search` decides for a pattern made only of
      literal characters. */
  function Contains(s: string, p: string): (b: bool)
    ensures b ==> |p| <= |s|
    ensures p == [] ==> b
    decreases |s|
  {
    StartsWith(s, p) || (|s| > 0 && Contains(s[1..], p))
  }

  predicate OccursAt(s: string, p: string, i: int) {
    0 <= i <= |s| - |p| && s[i..i + |p|] == p
  }

  /** `Contains` holds exactly when `p` occurs at some position of `s`. */
  lemma {:induction false} ContainsIff(s: string, p: string)
    ensures Contains(s, p) <==> exists i :: OccursAt(s, p, i)
    decreases |s|
  {
    if StartsWith(s, p) {
      assert OccursAt(s, p, 0);
    } else if |s| > 0 {
      ContainsIff(s[1..], p);
      if Contains(s[1..], p) {
        var i :| OccursAt(s[1..], p, i);
        assert s[i + 1..i + 1 + |p|] == s[1..][i..i + |p|];
        assert OccursAt(s, p, i + 1);
      }
      if j :| OccursAt(s, p, j) {
        assert j != 0;
        assert s[1..][j - 1..j - 1 + |p|] == s[j..j + |p|];
        assert OccursAt(s[1..], p, j - 1);
      }
    }
  }

  /** Position of the first occurrence of `p` in `s`; `s[..IndexOf(s, p)]` is
      the first element of Python's `s.split(p)`. */
  function IndexOf(s: string, p: string): (r: nat)
    requires Contains(s, p)
    ensures r + |p| <= |s| && s[r..r + |p|] == p
    ensures forall i :: 0 <= i < r ==> !StartsWith(s[i..], p)
    decreases |s|
  {
    if StartsWith(s, p) then 0
    else
      assert |s| > 0 && Contains(s[1..], p);
      var r := IndexOf(s[1..], p);
      assert forall i :: 1 <= i <= r ==> s[i..] == s[1..][i - 1..];
      1 + r
  }

  /** An occurrence in a suffix is an occurrence in the whole. */
  lemma {:induction false} ContainsSuffix(s: string, i: nat, p: string)
    requires i <= |s| && Contains(s[i..], p)
    ensures Contains(s, p)
    decreases i
  {
    if i == 0 {
      assert s[i..] == s;
    } else {
      assert s[1..][i - 1..] == s[i..];
      ContainsSuffix(s[1..], i - 1, p);
    }
  }

  /** Every character of a pattern that occurs in `s` is a character of `s`. */
  lemma OccurrenceChars(s: string, p: string)
    ensures Contains(s, p) ==> forall c :: c in p ==> c in s
  {
    if Contains(s, p) {
      var i := IndexOf(s, p);
      forall c | c in p
        ensures c in s
      {
        var k :| 0 <= k < |p| && p[k] == c;
        assert s[i + k] == s[i..i + |p|][k];
      }
    }
  }

  /** A pattern with a character that `s` lacks does not occur in `s`. */
  lemma AbsentChar(s: string, p: string, c: char)
    requires c in p && c !in s
    ensures !Contains(s, p)
  {
    OccurrenceChars(s, p);
  }

  // ---------------------------------------------------------------------------
  // Python's str.replace (all non-overlapping occurrences, left to right)

  /** Every character of the result comes from `s` or from `v`, and a
      replacement of the pattern's own length keeps the length. */
  function Replace(s: string, p: string, v: string): (r: string)
    requires |p| > 0
    ensures forall c :: c in r ==> c in s || c in v
    ensures |v| == |p| ==> |r| == |s|
    decreases |s|
  {
    if StartsWith(s, p) then v + Replace(s[|p|..], p, v)
    else if s == [] then []
    else [s[0]] + Replace(s[1..], p, v)
  }

  /** Replacing a pattern that does not occur changes nothing. */
  lemma {:induction false} ReplaceAbsent(s: string, p: string, v: string)
    requires |p| > 0 && !Contains(s, p)
    ensures Replace(s, p, v) == s
    decreases |s|
  {
    if s != [] {
      ReplaceAbsent(s[1..], p, v);
      assert [s[0]] + s[1..] == s;
    }
  }

  /** Replacing a pattern by itself changes nothing. */
  lemma {:induction false} ReplaceByItself(s: string, p: string)
    requires |p| > 0
    ensures Replace(s, p, p) == s
    decreases |s|
  {
    if StartsWith(s, p) {
      ReplaceByItself(s[|p|..], p);
      assert s[..|p|] + s[|p|..] == s;
    } else if s != [] {
      ReplaceByItself(s[1..], p);
      assert [s[0]] + s[1..] == s;
    }
  }

  /** A prefix in which the pattern's first character never appears is copied
      unchanged. */
  lemma {:induction false} ReplaceSkips(a: string, rest: string, p: string, v: string)
    requires |p| > 0
    requires forall i :: 0 <= i < |a| ==> a[i] != p[0]
    ensures Replace(a + rest, p, v) == a + Replace(rest, p, v)
    decreases |a|
  {
    if a == [] {
      assert a + rest == rest;
    } else {
      assert (a + rest)[0] == a[0];
      assert (a + rest)[1..] == a[1..] + rest;
      ReplaceSkips(a[1..], rest, p, v);
      assert [a[0]] + (a[1..] + Replace(rest, p, v)) == a + Replace(rest, p, v);
    }
  }

  /** An occurrence at the front is replaced and the scan resumes after it. */
  lemma ReplaceHit(p: string, rest: string, v: string)
    requires |p| > 0
    ensures Replace(p + rest, p, v) == v + Replace(rest, p, v)
  {
    assert (p + rest)[..|p|] == p;
    assert (p + rest)[|p|..] == rest;
  }

  // ---------------------------------------------------------------------------
  // Trimming

  /** `s` with its leading characters satisfying `isSpace` removed. */
  function TrimStart(s: string, isSpace: char -> bool): (r: string)
    ensures |r| <= |s| && r == s[|s| - |r|..]
    ensures r == [] || !isSpace(r[0])
    ensures forall i :: 0 <= i < |s| - |r| ==> isSpace(s[i])
    decreases |s|
  {
    if s != [] && isSpace(s[0]) then
      var r := TrimStart(s[1..], isSpace);
      assert forall i :: 1 <= i < |s| - |r| ==> s[i] == s[1..][i - 1];
      r
    else s
  }

  /** `s` with its trailing characters satisfying `isSpace` removed. */
  function TrimEnd(s: string, isSpace: char -> bool): (r: string)
    ensures |r| <= |s| && r == s[..|r|]
    ensures r == [] || !isSpace(r[|r| - 1])
    ensures forall i :: |r| <= i < |s| ==> isSpace(s[i])
    decreases |s|
  {
    if s != [] && isSpace(s[|s| - 1]) then TrimEnd(s[..|s| - 1], isSpace) else s
  }

  /** `r` is the piece of `s` from `i` on, and everything outside it is space. */
  predicate TrimmedAt(s: string, r: string, i: int, isSpace: char -> bool) {
    && 0 <= i <= |s| - |r| && s[i..i + |r|] == r
    && (forall k :: 0 <= k < i ==> isSpace(s[k]))
    && (forall k :: i + |r| <= k < |s| ==> isSpace(s[k]))
  }

  /** A piece of `s` that neither starts nor ends with a space, and outside of
      which `s` holds only spaces. */
  function Trim(s: string, isSpace: char -> bool): (r: string)
    ensures r == [] || (!isSpace(r[0]) && !isSpace(r[|r| - 1]))
    ensures exists i :: TrimmedAt(s, r, i, isSpace)
  {
    var t := TrimStart(s, isSpace);
    var r := TrimEnd(t, isSpace);
    TrimBothEnds(s, t, r, isSpace);
    r
  }

  lemma TrimBothEnds(s: string, t: string, r: string, isSpace: char -> bool)
    requires |t| <= |s| && t == s[|s| - |t|..] && (forall k :: 0 <= k < |s| - |t| ==> isSpace(s[k]))
    requires |r| <= |t| && r == t[..|r|] && (forall k :: |r| <= k < |t| ==> isSpace(t[k]))
    ensures TrimmedAt(s, r, |s| - |t|, isSpace)
  {
    var i := |s| - |t|;
    assert s[i..i + |r|] == t[..|r|];
    forall k | i + |r| <= k < |s|
      ensures isSpace(s[k])
    {
      assert s[k] == t[k - i];
    }
  }

  /** Python's `str.strip()` with no argument: the text with the surrounding
      Python whitespace removed. */
  function Strip(s: string): (r: string)
    ensures r == [] || (!IsPySpace(r[0]) && !IsPySpace(r[|r| - 1]))
    ensures exists i :: TrimmedAt(s, r, i, IsPySpace)
  {
    Trim(s, IsPySpace)
  }

  /** JavaScript's `String.prototype.trim`: the text with the surrounding
      JavaScript whitespace removed. */
  function JsTrim(s: string): (r: string)
    ensures r == [] || (!IsJsSpace(r[0]) && !IsJsSpace(r[|r| - 1]))
    ensures exists i :: TrimmedAt(s, r, i, IsJsSpace)
  {
    Trim(s, IsJsSpace)
  }

  /** `trim()` yields the empty string exactly when every character is
      JavaScript whitespace. */
  lemma TrimEmptyIff(s: string)
    ensures JsTrim(s) == [] <==> forall i :: 0 <= i < |s| ==> IsJsSpace(s[i])
  {
  }

  // ---------------------------------------------------------------------------
  // Lower case

  /** Python's `str.lower` on one character, for the ASCII and Latin-1 letters. */
  function LowerChar(c: char): char {
    if 'A' <= c <= 'Z' || ('\U{00C0}' <= c <= '\U{00DE}' && c != '\U{00D7}')
    then (c as int + 32) as char
    else c
  }

  /** Python's `str.lower`: same length, and every character of the result is
      already lower case. */
  function Lower(s: string): (r: string)
    ensures |r| == |s| && forall i :: 0 <= i < |r| ==> LowerChar(r[i]) == r[i]
  {
    seq(|s|, i requires 0 <= i < |s| => LowerChar(s[i]))
  }

  /** Lower-casing character by character gives the lower-cased string. */
  lemma LowerEach(s: string, t: string)
    requires |s| == |t| && forall i :: 0 <= i < |s| ==> LowerChar(s[i]) == t[i]
    ensures Lower(s) == t
  {
  }
}
