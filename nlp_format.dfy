/** Rendering of template arguments (nlp_service.py, `get_response_text`):
    Python's `str` of ints, floats and strings, the `,.2f` format of a
    balance, and placeholder substitution with `str.replace`. Floats are
    whole numbers of hundredths. */
module NlpFormat {
  import opened Text

  /** A keyword argument's value: a Python int, a float that is a whole number
      of hundredths (held as that number), or a str. */
  datatype Value = IntValue(n: int) | FloatValue(hundredths: int) | TextValue(text: string)

  datatype Arg = Arg(key: string, value: Value)

  /** `f"{{{k}}}"`: the placeholder for key `k`. */
  function Placeholder(k: string): (p: string)
    ensures |p| == |k| + 2 && p[0] == '{'
  {
    "{" + k + "}"
  }

  function Magnitude(n: int): nat {
    if n < 0 then -n else n
  }

  /** `r` reads as the integer `n`: a minus sign exactly when `n` is negative,
      then decimal digits whose value is the magnitude of `n`. */
  predicate ReadsAsInt(r: string, n: int) {
    && |r| > 0 && (r[0] == '-' <==> n < 0)
    && var d := if n < 0 then r[1..] else r;
       IsDigits(d) && DecimalValue(d) == Magnitude(n)
  }

  /** `r` reads as `h` hundredths the way Python prints a float with `k`
      decimals: a minus sign exactly when `h` is negative, the whole part in
      digits, a point, and `k` decimals that, padded to two, give the
      hundredths. */
  predicate ReadsAsFloat(r: string, h: int, k: nat) {
    && 1 <= k <= 2 && |r| >= k + 2 && (r[0] == '-' <==> h < 0)
    && var s := if h < 0 then 1 else 0;
       var p := |r| - k - 1;
       && s < p && r[p] == '.'
       && IsDigits(r[s..p]) && IsDigits(r[p + 1..])
       && DecimalValue(r[s..p]) == Magnitude(h) / 100
       && (if k == 1 then DecimalValue(r[p + 1..]) * 10 else DecimalValue(r[p + 1..])) == Magnitude(h) % 100
  }

  /** `r` reads as `h` hundredths in the `,.2f` layout: a minus sign exactly
      when `h` is negative, the whole part in digits and commas, a point and
      exactly two decimals giving the hundredths. */
  predicate ReadsAsFixed(r: string, h: int) {
    && |r| >= 4 && (r[0] == '-' <==> h < 0)
    && var s := if h < 0 then 1 else 0;
       var w := RemoveCommas(r[s..|r| - 3]);
       && r[|r| - 3] == '.'
       && IsDigits(w) && IsDigits(r[|r| - 2..])
       && DecimalValue(w) == Magnitude(h) / 100
       && DecimalValue(r[|r| - 2..]) == Magnitude(h) % 100
  }

  /** Python's `str` of an int. */
  function IntText(n: int): (r: string)
    ensures |r| > 0 && (r[0] == '-' <==> n < 0)
    ensures forall i :: 0 <= i < |r| ==> r[i] == '-' || IsDigit(r[i])
    ensures ReadsAsInt(r, n)
  {
    var d := NatToString(Magnitude(n));
    DecimalRoundTrip(Magnitude(n));
    if n < 0 then
      assert ("-" + d)[1..] == d;
      "-" + d
    else d
  }

  /** The two-digit rendering of a number of cents. */
  function CentsText(c: nat): (r: string)
    requires c < 100
    ensures |r| == 2 && IsDigits(r)
    ensures DecimalValue(r) == c
  {
    var t := [DigitChar(c / 10), DigitChar(c % 10)];
    assert DecimalValue(t[..1]) == c / 10 by {
      assert t[..1][..0] == [];
    }
    assert t[..|t| - 1] == t[..1];
    t
  }

  /** The last digit of a number is zero exactly when that of its magnitude
      is, and its hundredths keep that digit. */
  lemma LastDigitOfMagnitude(h: int)
    ensures Magnitude(h) % 100 % 10 == 0 <==> h % 10 == 0
  {
    var a := Magnitude(h);
    assert a % 100 % 10 == a % 10 by {
      assert a == a / 100 * 100 + a % 100;
      assert a % 100 == (a % 100) / 10 * 10 + a % 100 % 10;
      assert a == (a / 100 * 10 + (a % 100) / 10) * 10 + a % 100 % 10;
    }
    if h < 0 {
      assert h % 10 == 0 <==> a % 10 == 0 by {
        var m: int := a;
        assert m == -h;
        if m % 10 == 0 { assert h == -(m / 10) * 10; }
        if h % 10 == 0 { assert m == -(h / 10) * 10; }
      }
    }
  }

  /** The shortest decimals of a float that give its hundredths back: one
      digit when the hundredths are a multiple of ten, and two otherwise. */
  function ShortDecimals(c: nat): (d: string)
    requires c < 100
    ensures 1 <= |d| <= 2 && IsDigits(d)
    ensures |d| == 1 <==> c % 10 == 0
    ensures |d| == 2 ==> d[1] != '0'
    ensures (if |d| == 1 then DecimalValue(d) * 10 else DecimalValue(d)) == c
  {
    if c % 10 == 0 then
      var d := [DigitChar(c / 10)];
      assert d[..0] == [];
      d
    else CentsText(c)
  }

  /** Python's `str` of a float with at most two decimals: the shortest
      decimals that give the value back, and at least one. */
  function FloatText(h: int): (r: string)
    ensures |r| >= 3 && (r[0] == '-' <==> h < 0)
    ensures r[|r| - 2] == '.' <==> h % 10 == 0
    ensures r[|r| - 2] != '.' ==> r[|r| - 3] == '.' && r[|r| - 1] != '0'
    ensures ReadsAsFloat(r, h, if h % 10 == 0 then 1 else 2)
  {
    var a := Magnitude(h);
    var whole := NatToString(a / 100);
    var decimals := ShortDecimals(a % 100);
    DecimalRoundTrip(a / 100);
    LastDigitOfMagnitude(h);
    assert |decimals| == if h % 10 == 0 then 1 else 2;
    if h < 0 then
      NegativeFloatLayout(whole, decimals, h);
      "-" + whole + "." + decimals
    else
      FloatLayout(whole, decimals, h);
      whole + "." + decimals
  }

  /** Python's `str(v)`: a str as it is, an int without and a float with a
      decimal point. */
  function StrText(v: Value): (r: string)
    ensures v.IntValue? ==> '.' !in r && (|r| > 0 && (r[0] == '-' <==> v.n < 0))
    ensures v.FloatValue? ==> '.' in r && (r[0] == '-' <==> v.hundredths < 0)
    ensures v.IntValue? ==> ReadsAsInt(r, v.n)
    ensures v.FloatValue? ==> ReadsAsFloat(r, v.hundredths, if v.hundredths % 10 == 0 then 1 else 2)
    ensures v.TextValue? ==> r == v.text
  {
    match v
    case IntValue(n) => IntText(n)
    case FloatValue(h) => FloatText(h)
    case TextValue(t) => t
  }

  /** `d` with a comma before every group of three digits counted from the
      right: it starts and ends as `d` does and adds nothing but commas. */
  function Grouped(d: string): (r: string)
    ensures |d| > 0 ==> |r| > 0 && r[0] == d[0] && r[|r| - 1] == d[|d| - 1]
    ensures forall c :: c in r ==> c in d || c == ','
    decreases |d|
  {
    if |d| <= 3 then d else Grouped(d[..|d| - 3]) + "," + d[|d| - 3..]
  }

  function RemoveCommas(s: string): string
    decreases |s|
  {
    if s == [] then [] else RemoveCommas(s[..|s| - 1]) + (if s[|s| - 1] == ',' then [] else [s[|s| - 1]])
  }

  lemma {:induction false} RemoveCommasAppend(a: string, b: string)
    ensures RemoveCommas(a + b) == RemoveCommas(a) + RemoveCommas(b)
    decreases |b|
  {
    if b != [] {
      assert (a + b)[..|a + b| - 1] == a + b[..|b| - 1];
      RemoveCommasAppend(a, b[..|b| - 1]);
    } else {
      assert a + b == a;
    }
  }

  /** Dropping the separators gives the digits back. */
  lemma {:induction false} GroupedRoundTrip(d: string)
    requires IsDigits(d)
    ensures RemoveCommas(Grouped(d)) == d
    decreases |d|
  {
    if |d| <= 3 {
      NoCommas(d);
    } else {
      var h, t := d[..|d| - 3], d[|d| - 3..];
      calc {
        RemoveCommas(Grouped(d));
        RemoveCommas(Grouped(h) + "," + t);
        { RemoveCommasAppend(Grouped(h) + ",", t); }
        RemoveCommas(Grouped(h) + ",") + RemoveCommas(t);
        { RemoveCommasAppend(Grouped(h), ",");
          assert ","[..0] == []; }
        RemoveCommas(Grouped(h)) + RemoveCommas(t);
        { GroupedRoundTrip(h);
          NoCommas(t); }
        h + t;
        { assert h + t == d; }
        d;
      }
    }
  }

  /** A non-empty number gains one comma for every full group of three after
      its first digit. */
  lemma {:induction false} GroupedLength(d: string)
    ensures |d| > 0 ==> |Grouped(d)| == |d| + (|d| - 1) / 3
    decreases |d|
  {
    if |d| > 3 {
      GroupedLength(d[..|d| - 3]);
    }
  }

  lemma {:induction false} NoCommas(d: string)
    requires IsDigits(d)
    ensures RemoveCommas(d) == d
    decreases |d|
  {
    if d != [] {
      NoCommas(d[..|d| - 1]);
      assert d[..|d| - 1] + [d[|d| - 1]] == d;
    }
  }

  /** `f"{v:,.2f}"` for a number of hundredths: a sign exactly for a negative
      value, digits and commas, a point and exactly two decimals. */
  function FixedText(h: int): (r: string)
    ensures |r| >= 4 && (r[0] == '-' <==> h < 0)
    ensures r[|r| - 3] == '.' && IsDigit(r[|r| - 2]) && IsDigit(r[|r| - 1])
    ensures ReadsAsFixed(r, h)
  {
    var a := Magnitude(h);
    var whole := NatToString(a / 100);
    GroupedRoundTrip(whole);
    DecimalRoundTrip(a / 100);
    var cents := CentsText(a % 100);
    if h < 0 then
      NegativeFixedLayout(Grouped(whole), cents, h);
      "-" + Grouped(whole) + "." + cents
    else
      PositiveFixedLayout(Grouped(whole), cents, h);
      Grouped(whole) + "." + cents
  }

  lemma ReadsAsFixedIntro(t: string, h: int, s: nat)
    requires s == (if h < 0 then 1 else 0) && s <= |t| - 3
    requires |t| >= 4 && (t[0] == '-' <==> h < 0) && t[|t| - 3] == '.'
    requires IsDigits(RemoveCommas(t[s..|t| - 3])) && IsDigits(t[|t| - 2..])
    requires DecimalValue(RemoveCommas(t[s..|t| - 3])) == Magnitude(h) / 100
    requires DecimalValue(t[|t| - 2..]) == Magnitude(h) % 100
    ensures ReadsAsFixed(t, h)
  {
  }

  /** A whole part and one or two decimals that read the right numbers,
      joined by a point, read as the non-negative float. */
  lemma FloatLayout(w: string, d: string, h: int)
    requires h >= 0
    requires |w| > 0 && IsDigits(w) && DecimalValue(w) == Magnitude(h) / 100
    requires 1 <= |d| <= 2 && IsDigits(d)
    requires (if |d| == 1 then DecimalValue(d) * 10 else DecimalValue(d)) == Magnitude(h) % 100
    requires |d| == 2 ==> d[1] != '0'
    ensures var t := w + "." + d;
      && (t[|t| - 2] == '.' <==> |d| == 1)
      && (t[|t| - 2] != '.' ==> t[|t| - 3] == '.' && t[|t| - 1] != '0')
      && ReadsAsFloat(t, h, |d|)
  {
    var t := w + "." + d;
    assert t[0..|w|] == w && t[|w| + 1..] == d && t[|w|] == '.' && t[0] == w[0] && IsDigit(w[0]);
    assert t[|t| - 2] == '.' <==> |d| == 1 by {
      if |d| == 2 { assert t[|t| - 2] == d[0] && IsDigit(d[0]); }
    }
  }

  /** The same with a minus sign in front, for a negative float. */
  lemma NegativeFloatLayout(w: string, d: string, h: int)
    requires h < 0
    requires |w| > 0 && IsDigits(w) && DecimalValue(w) == Magnitude(h) / 100
    requires 1 <= |d| <= 2 && IsDigits(d)
    requires (if |d| == 1 then DecimalValue(d) * 10 else DecimalValue(d)) == Magnitude(h) % 100
    requires |d| == 2 ==> d[1] != '0'
    ensures var t := "-" + w + "." + d;
      && (t[|t| - 2] == '.' <==> |d| == 1)
      && (t[|t| - 2] != '.' ==> t[|t| - 3] == '.' && t[|t| - 1] != '0')
      && ReadsAsFloat(t, h, |d|)
  {
    var t := "-" + w + "." + d;
    assert t[1..1 + |w|] == w && t[|w| + 2..] == d && t[|w| + 1] == '.';
    assert t[|t| - 2] == '.' <==> |d| == 1 by {
      if |d| == 2 { assert t[|t| - 2] == d[0] && IsDigit(d[0]); }
    }
  }

  /** A grouped whole part and two decimals that read the right numbers put
      together read in the `,.2f` layout; with a minus sign in front they
      read the negative amount. */
  lemma PositiveFixedLayout(g: string, c: string, h: int)
    requires h >= 0
    requires |g| > 0 && IsDigit(g[0])
    requires IsDigits(RemoveCommas(g)) && DecimalValue(RemoveCommas(g)) == Magnitude(h) / 100
    requires |c| == 2 && IsDigits(c) && DecimalValue(c) == Magnitude(h) % 100
    ensures ReadsAsFixed(g + "." + c, h)
  {
    var t := g + "." + c;
    assert t[0..|t| - 3] == g;
    assert t[|t| - 2..] == c;
    assert t[|t| - 3] == '.' && t[0] == g[0];
    ReadsAsFixedIntro(t, h, 0);
  }
  lemma NegativeFixedLayout(g: string, c: string, h: int)
    requires h < 0
    requires IsDigits(RemoveCommas(g)) && DecimalValue(RemoveCommas(g)) == Magnitude(h) / 100
    requires |c| == 2 && IsDigits(c) && DecimalValue(c) == Magnitude(h) % 100
    ensures ReadsAsFixed("-" + g + "." + c, h)
  {
    var t := "-" + g + "." + c;
    assert t[1..|t| - 3] == g;
    assert t[|t| - 2..] == c;
    assert t[|t| - 3] == '.' && t[0] == '-';
    ReadsAsFixedIntro(t, h, 1);
  }

  /** `f"{v:,.2f}"`, or `None` where Python raises `ValueError` (a str value). */
  function BalanceText(v: Value): (r: Option<string>)
    ensures r.None? <==> v.TextValue?
    ensures r.Some? ==> |r.value| >= 4 && r.value[|r.value| - 3] == '.'
    ensures v.IntValue? ==> r.Some? && ReadsAsFixed(r.value, v.n * 100)
    ensures v.FloatValue? ==> r.Some? && ReadsAsFixed(r.value, v.hundredths)
  {
    match v
    case IntValue(n) => Some(FixedText(n * 100))
    case FloatValue(h) => Some(FixedText(h))
    case TextValue(_) => None
  }

  /** The text that replaces the placeholder of key `k`. */
  function Rendered(k: string, v: Value): Option<string> {
    if k == "balance" then BalanceText(v) else Some(StrText(v))
  }

  /** The template after substituting `args` in order; `None` exactly when
      rendering one of them raises. */
  function Substituted(t: string, args: seq<Arg>): (r: Option<string>)
    ensures r.None? <==> exists i :: 0 <= i < |args| && Rendered(args[i].key, args[i].value).None?
    decreases |args|
  {
    if args == [] then Some(t)
    else
      assert forall i :: 1 <= i < |args| ==> args[1..][i - 1] == args[i];
      var v := Rendered(args[0].key, args[0].value);
      if v.None? then None
      else Substituted(Replace(t, Placeholder(args[0].key), v.value), args[1..])
  }

  /** One argument that renders replaces its placeholder. */
  lemma OneArg(t: string, k: string, x: Value)
    requires Rendered(k, x).Some?
    ensures Substituted(t, [Arg(k, x)]) == Some(Replace(t, Placeholder(k), Rendered(k, x).value))
  {
    assert [Arg(k, x)][1..] == [];
  }

  /** A template without placeholders comes back unchanged, whatever the
      arguments, as long as none of them fails to render. */
  lemma {:induction false} NoPlaceholderUnchanged(t: string, args: seq<Arg>)
    requires '{' !in t
    requires forall i :: 0 <= i < |args| ==> Rendered(args[i].key, args[i].value).Some?
    ensures Substituted(t, args) == Some(t)
    decreases |args|
  {
    if args != [] {
      var p := Placeholder(args[0].key);
      AbsentChar(t, p, '{');
      ReplaceAbsent(t, p, Rendered(args[0].key, args[0].value).value);
      NoPlaceholderUnchanged(t, args[1..]);
    }
  }

  /** Substitution puts the value where the placeholder was: for a template
      `a + {k} + b` with no `{` in `a` and no placeholder for `k` in `b`. */
  lemma OnePlaceholder(a: string, k: string, b: string, v: string)
    requires '{' !in a && !Contains(b, Placeholder(k))
    ensures Replace(a + Placeholder(k) + b, Placeholder(k), v) == a + v + b
  {
    var p := Placeholder(k);
    calc {
      Replace(a + p + b, p, v);
      { assert a + p + b == a + (p + b); }
      Replace(a + (p + b), p, v);
      { assert forall i :: 0 <= i < |a| ==> a[i] != p[0];
        ReplaceSkips(a, p + b, p, v); }
      a + Replace(p + b, p, v);
      { ReplaceHit(p, b, v); }
      a + (v + Replace(b, p, v));
      { ReplaceAbsent(b, p, v); }
      a + (v + b);
      a + v + b;
    }
  }

  /** A float amount renders with no brace. */
  lemma FloatTextNoBrace(h: int)
    ensures '{' !in FloatText(h)
  {
    NoBraceInFloat(FloatText(h), h, if h % 10 == 0 then 1 else 2);
  }

  /** Text that reads as a float holds only a sign, digits and a point. */
  lemma NoBraceInFloat(r: string, h: int, k: nat)
    requires ReadsAsFloat(r, h, k)
    ensures '{' !in r
  {
    var s := if h < 0 then 1 else 0;
    var p := |r| - k - 1;
    forall i | 0 <= i < |r|
      ensures r[i] != '{'
    {
      if i < s {
        assert r[i] == '-';
      } else if i < p {
        assert r[i] == r[s..p][i - s];
      } else if p < i {
        assert r[i] == r[p + 1..][i - p - 1];
      }
    }
  }


  /** The whole part of the seeded balance, grouped. */
  lemma SeededWholePart()
    ensures Grouped(NatToString(5420)) == "5,420"
  {
    assert NatToString(5420) == "5420" by {
      assert NatToString(5) == "5";
      assert NatToString(54) == "54";
      assert NatToString(542) == "542";
    }
    assert Grouped("5420") == "5,420" by {
      assert "5420"[..1] == "5" && "5420"[1..] == "420";
    }
  }

  /** The seeded balance of 5420.50 reads "5,420.50". */
  lemma SeededBalanceText()
    ensures FixedText(542050) == "5,420.50"
  {
    SeededWholePart();
    assert CentsText(50) == "50";
    assert Magnitude(542050) / 100 == 5420 && Magnitude(542050) % 100 == 50;
  }

  /** Two arguments substituted in order into a template with one placeholder
      each land where their placeholders were. The text of the first does
      not hold a brace, so the second substitution leaves it alone; the
      second value is never scanned again. */
  lemma TwoPlaceholders(a: string, k1: string, b: string, k2: string, c: string, x1: Value, x2: Value)
    requires Rendered(k1, x1).Some? && Rendered(k2, x2).Some?
    requires '{' !in a && '{' !in b && '{' !in c && '{' !in Rendered(k1, x1).value
    requires !Contains(b + Placeholder(k2) + c, Placeholder(k1))
    ensures Substituted(a + Placeholder(k1) + b + Placeholder(k2) + c, [Arg(k1, x1), Arg(k2, x2)])
      == Some(a + Rendered(k1, x1).value + b + Rendered(k2, x2).value + c)
  {
    var v1, v2 := Rendered(k1, x1).value, Rendered(k2, x2).value;
    var t := a + Placeholder(k1) + b + Placeholder(k2) + c;
    var t1 := Replace(t, Placeholder(k1), v1);
    TwoReplacements(a, k1, b, k2, c, v1, v2);
    var args := [Arg(k1, x1), Arg(k2, x2)];
    assert args[1..] == [Arg(k2, x2)];
    assert [Arg(k2, x2)][1..] == [];
    assert Substituted(t, args) == Substituted(t1, args[1..]);
  }

  lemma TwoReplacements(a: string, k1: string, b: string, k2: string, c: string, v1: string, v2: string)
    requires '{' !in a && '{' !in b && '{' !in c && '{' !in v1
    requires !Contains(b + Placeholder(k2) + c, Placeholder(k1))
    ensures Replace(Replace(a + Placeholder(k1) + b + Placeholder(k2) + c, Placeholder(k1), v1), Placeholder(k2), v2)
      == a + v1 + b + v2 + c
  {
    var p1, p2 := Placeholder(k1), Placeholder(k2);
    assert a + p1 + b + p2 + c == a + p1 + (b + p2 + c);
    OnePlaceholder(a, k1, b + p2 + c, v1);
    assert a + v1 + (b + p2 + c) == (a + v1 + b) + p2 + c;
    AbsentChar(c, p2, '{');
    OnePlaceholder(a + v1 + b, k2, c, v2);
  }
}
