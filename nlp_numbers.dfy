/** Amounts in commands (nlp_service.py): `text_to_digits`, reading amounts
    written with multiplier words such as "ten thousand" or "5 lakh", and
    `extract_amount`, which prefers them to a digit amount. */
module NlpNumbers {
  import opened Text

  // ---------------------------------------------------------------------------
  // Amounts written with words (text_to_digits)

  datatype Multiplier = Multiplier(word: string, value: nat)

  /** `multipliers`, in the order the loop visits them. */
  const Multipliers: seq<Multiplier> := [
    Multiplier("thousand", 1000), Multiplier("million", 1000000),
    Multiplier("lakh", 100000), Multiplier("crore", 10000000)]

  const NumberWords: map<string, nat> := map[
    "one" := 1, "two" := 2, "three" := 3, "four" := 4, "five" := 5,
    "six" := 6, "seven" := 7, "eight" := 8, "nine" := 9, "ten" := 10,
    "twenty" := 20, "thirty" := 30, "forty" := 40, "fifty" := 50,
    "hundred" := 100, "five hundred" := 500]

  /** The end of the run of characters satisfying `inRun` that starts at `i`. */
  function RunEnd(s: string, i: nat, inRun: char -> bool): (j: nat)
    requires i <= |s|
    ensures i <= j <= |s|
    ensures forall k :: i <= k < j ==> inRun(s[k])
    ensures j == |s| || !inRun(s[j])
    decreases |s| - i
  {
    if i < |s| && inRun(s[i]) then RunEnd(s, i + 1, inRun) else i
  }

  /** The pattern `(\d+)\s+word` matches at `i`: a run of digits, at least one
      space, then `word`. Both runs are greedy and nothing after them can
      backtrack into a digit or a space, so the maximal runs decide. */
  predicate DigitsThenWordAt(s: string, word: string, i: nat) {
    && i < |s| && IsDigit(s[i])
    && var j := RunEnd(s, i, IsDigit);
       var k := RunEnd(s, j, IsPySpace);
       j < k && StartsWith(s[k..], word)
  }

  /** `re.search` for `(\d+)\s+word` from position `i`: the leftmost match, or -1. */
  function SearchDigitsThenWord(s: string, word: string, i: nat): (r: int)
    requires i <= |s|
    ensures r == -1 || i <= r < |s|
    ensures r >= 0 ==> DigitsThenWordAt(s, word, r)
    ensures forall k :: i <= k < (if r == -1 then |s| else r) ==> !DigitsThenWordAt(s, word, k)
    decreases |s| - i
  {
    if i == |s| then -1
    else if DigitsThenWordAt(s, word, i) then i
    else SearchDigitsThenWord(s, word, i + 1)
  }

  /** `match.group(1)` of a match at `i`: the whole digit run. */
  function DigitGroup(s: string, i: nat): (d: string)
    requires i <= |s|
    ensures IsDigits(d)
  {
    s[i..RunEnd(s, i, IsDigit)]
  }

  /** `text.split(word)[0].strip()`: what precedes the first occurrence of
      `word`, trimmed by `strip`. */
  function Head(s: string, word: string, strip: string -> string): string
    requires Contains(s, word)
  {
    strip(s[..IndexOf(s, word)])
  }

  /** The number `(\d+)\s+word` reads at its leftmost match, if there is one. */
  function DigitsBefore(s: string, word: string): (r: Option<nat>)
    ensures r.Some? <==> exists i :: 0 <= i < |s| && DigitsThenWordAt(s, word, i)
  {
    var at := SearchDigitsThenWord(s, word, 0);
    if at >= 0 then Some(DecimalValue(DigitGroup(s, at))) else None
  }

  /** A count of a multiplier's units. */
  function Times(n: nat, value: nat): nat {
    n * value
  }

  /** The amount one multiplier word yields, if any: the number word making up
      everything before its first occurrence, else the first digit run followed
      by spaces and the word. */
  function AmountFor(s: string, m: Multiplier, numbers: map<string, nat>, strip: string -> string): (r: Option<nat>)
    ensures r.Some? ==> Contains(s, m.word)
  {
    if !Contains(s, m.word) then None
    else if Head(s, m.word, strip) in numbers then Some(Times(numbers[Head(s, m.word, strip)], m.value))
    else if DigitsBefore(s, m.word).Some? then Some(Times(DigitsBefore(s, m.word).value, m.value))
    else None
  }

  /** The first amount in a list of what each multiplier yields. */
  function FirstSome(ys: seq<Option<nat>>): Option<nat>
    decreases |ys|
  {
    if ys == [] then None else if ys[0].Some? then ys[0] else FirstSome(ys[1..])
  }

  /** The search finds nothing exactly when nothing is found, and what it
      finds is one of the entries. */
  lemma {:induction false} FirstSomeFinds(ys: seq<Option<nat>>)
    ensures FirstSome(ys).None? <==> forall q :: 0 <= q < |ys| ==> ys[q].None?
    ensures FirstSome(ys).Some? ==> exists q :: 0 <= q < |ys| && FirstSome(ys) == ys[q]
    decreases |ys|
  {
    if ys != [] && ys[0].None? {
      FirstSomeFinds(ys[1..]);
      assert forall q :: 1 <= q < |ys| ==> ys[q] == ys[1..][q - 1];
      if FirstSome(ys[1..]).Some? {
        var q :| 0 <= q < |ys[1..]| && FirstSome(ys[1..]) == ys[1..][q];
        assert FirstSome(ys) == ys[q + 1];
      }
    }
  }

  /** Entries before the first amount are passed over. */
  lemma {:induction false} FirstSomeSkips(ys: seq<Option<nat>>, q: nat)
    requires q < |ys| && ys[q].Some?
    requires forall p :: 0 <= p < q ==> ys[p].None?
    ensures FirstSome(ys) == ys[q]
    decreases q
  {
    if q > 0 {
      assert forall p :: 0 <= p < q - 1 ==> ys[1..][p] == ys[p + 1];
      FirstSomeSkips(ys[1..], q - 1);
    }
  }

  /** What each multiplier of `ms` yields for the lower-cased text `s`. */
  function Yields(s: string, ms: seq<Multiplier>, numbers: map<string, nat>, strip: string -> string): (ys: seq<Option<nat>>)
    ensures |ys| == |ms|
    ensures forall q :: 0 <= q < |ms| ==> ys[q] == AmountFor(s, ms[q], numbers, strip)
  {
    seq(|ms|, q requires 0 <= q < |ms| => AmountFor(s, ms[q], numbers, strip))
  }

  /** What `text_to_digits` specifies for a text: a whole number of units of
      a multiplier word the lower-cased text contains, and nothing for a
      text without one. */
  function WordAmount(text: string): (r: Option<nat>)
    ensures r.Some? ==>
      exists q, n :: 0 <= q < |Multipliers| && Contains(Lower(text), Multipliers[q].word)
        && r.value == Times(n, Multipliers[q].value)
    ensures (forall q :: 0 <= q < |Multipliers| ==> !Contains(Lower(text), Multipliers[q].word)) ==> r.None?
  {
    var ys := Yields(Lower(text), Multipliers, NumberWords, Strip);
    ScanIsMultiple(Lower(text), Multipliers, NumberWords, Strip);
    FirstSomeFinds(ys);
    FirstSome(ys)
  }

  /** `text_to_digits`: visit the multipliers in order and return the first
      amount one of them yields. */
  method TextToDigits(text: string) returns (r: Option<nat>)
    ensures r == WordAmount(text)
  {
    var lower := Lower(text);
    var multipliers, numbers := Multipliers, NumberWords;
    ghost var ys := Yields(lower, multipliers, numbers, Strip);
    var m := 0;
    assert ys[0..] == ys;
    while m < |multipliers|
      invariant 0 <= m <= |multipliers|
      invariant FirstSome(ys) == FirstSome(ys[m..])
    {
      assert ys[m..][1..] == ys[m + 1..];
      var y := MultiplierAmount(lower, multipliers[m].word, multipliers[m].value, numbers);
      assert ys[m] == y;
      if y.Some? {
        return y;
      }
      m := m + 1;
    }
    return None;
  }

  /** The body of the loop of `text_to_digits` for one multiplier. */
  method MultiplierAmount(lower: string, word: string, value: nat, numbers: map<string, nat>)
    returns (r: Option<nat>)
    ensures r == AmountFor(lower, Multiplier(word, value), numbers, Strip)
  {
    if Contains(lower, word) {
      var head := Strip(lower[..IndexOf(lower, word)]);
      assert head == Head(lower, word, Strip);
      if head in numbers {
        return Some(Times(numbers[head], value));
      }
      var at := SearchDigitsThenWord(lower, word, 0);
      if at >= 0 {
        return Some(Times(DecimalValue(DigitGroup(lower, at)), value));
      }
    }
    return None;
  }

  /** Whatever the tables and the trimming, a result is a number of units of a multiplier
      word that the text contains. */
  lemma ScanIsMultiple(s: string, ms: seq<Multiplier>, numbers: map<string, nat>, strip: string -> string)
    ensures FirstSome(Yields(s, ms, numbers, strip)).Some? ==>
      exists q, n :: 0 <= q < |ms| && Contains(s, ms[q].word)
        && FirstSome(Yields(s, ms, numbers, strip)).value == Times(n, ms[q].value)
  {
    var ys := Yields(s, ms, numbers, strip);
    FirstSomeFinds(ys);
    if FirstSome(ys).Some? {
      var q :| 0 <= q < |ys| && FirstSome(ys) == ys[q];
      var m := ms[q];
      var n := if Head(s, m.word, strip) in numbers then numbers[Head(s, m.word, strip)] else DigitsBefore(s, m.word).value;
      assert FirstSome(ys).value == Times(n, m.value);
    }
  }

  /** Whatever the tables and the trimming, a text without any multiplier word has no amount. */
  lemma ScanNeedsMultiplier(s: string, ms: seq<Multiplier>, numbers: map<string, nat>, strip: string -> string)
    requires forall q :: 0 <= q < |ms| ==> !Contains(s, ms[q].word)
    ensures FirstSome(Yields(s, ms, numbers, strip)) == None
  {
    FirstSomeFinds(Yields(s, ms, numbers, strip));
  }

  /** Whatever the tables and the trimming, a number word before the `q`-th multiplier word,
      as in "ten thousand", is read as their product when no earlier
      multiplier yields an amount. */
  lemma NumberWordTimesMultiplier(s: string, ms: seq<Multiplier>, numbers: map<string, nat>, strip: string -> string, q: nat)
    requires q < |ms|
    requires forall p :: 0 <= p < q ==> AmountFor(s, ms[p], numbers, strip).None?
    requires Contains(s, ms[q].word) && Head(s, ms[q].word, strip) in numbers
    ensures FirstSome(Yields(s, ms, numbers, strip)) == Some(Times(numbers[Head(s, ms[q].word, strip)], ms[q].value))
  {
    var ys := Yields(s, ms, numbers, strip);
    AmountForNumberWord(s, ms[q], numbers, strip);
    FirstSomeSkips(ys, q);
  }

  lemma AmountForNumberWord(s: string, m: Multiplier, numbers: map<string, nat>, strip: string -> string)
    requires Contains(s, m.word) && Head(s, m.word, strip) in numbers
    ensures AmountFor(s, m, numbers, strip) == Some(Times(numbers[Head(s, m.word, strip)], m.value))
  {
  }

  /** Whatever the tables and the trimming, when no earlier multiplier yields an amount and the
      text before the `q`-th multiplier word is no number word, the leftmost
      digits followed by spaces and that word are read. */
  lemma DigitsTimesMultiplier(s: string, ms: seq<Multiplier>, numbers: map<string, nat>, strip: string -> string, q: nat)
    requires q < |ms|
    requires forall p :: 0 <= p < q ==> AmountFor(s, ms[p], numbers, strip).None?
    requires Contains(s, ms[q].word) && Head(s, ms[q].word, strip) !in numbers
    requires DigitsBefore(s, ms[q].word).Some?
    ensures FirstSome(Yields(s, ms, numbers, strip)) == Some(Times(DigitsBefore(s, ms[q].word).value, ms[q].value))
  {
    FirstSomeSkips(Yields(s, ms, numbers, strip), q);
  }

  /** "Ten Thousand" is ten thousand: case does not matter. */
  lemma TenThousand(text: string)
    requires text == "Ten Thousand"
    ensures WordAmount(text) == Some(10000)
  {
    LowerEach(text, "ten thousand");
    var s := Lower(text);
    TenBeforeThousand(s);
    assert "ten" in NumberWords && NumberWords["ten"] == 10;
    assert Multipliers[0] == Multiplier("thousand", 1000);
    NumberWordTimesMultiplier(s, Multipliers, NumberWords, Strip, 0);
  }

  lemma TenBeforeThousand(s: string)
    requires s == "ten thousand"
    ensures Contains(s, "thousand") && Head(s, "thousand", Strip) == "ten"
  {
    var w := "thousand";
    assert s[4..] == w;
    assert StartsWith(s[4..], w);
    ContainsSuffix(s, 4, w);
    var i := IndexOf(s, w);
    assert i == 4 by {
      assert !StartsWith(s[0..], w) by { assert s[0..][1] != w[1]; }
      assert !StartsWith(s[1..], w) by { assert s[1..][0] != w[0]; }
      assert !StartsWith(s[2..], w) by { assert s[2..][0] != w[0]; }
      assert !StartsWith(s[3..], w) by { assert s[3..][0] != w[0]; }
    }
    var x := s[..i];
    assert x == "ten ";
    assert !IsPySpace(x[0]);
    assert TrimStart(x, IsPySpace) == x;
    assert IsPySpace(x[3]) && !IsPySpace(x[2]);
    assert TrimEnd(x[..3], IsPySpace) == x[..3];
    assert TrimEnd(x, IsPySpace) == x[..3];
  }

  /** The amount `extract_amount` returns, as a function for specifications:
      the word amount when there is a non-zero one, and otherwise the amount
      the digit pattern reads. */
  function ExtractedAmount(text: string, regexAmount: Option<real>): (r: Option<real>)
    ensures WordAmount(text).Some? && WordAmount(text).value != 0 ==>
      r == Some(WordAmount(text).value as real)
    ensures WordAmount(text).None? || WordAmount(text).value == 0 ==> r == regexAmount
  {
    var w := WordAmount(text);
    if w.Some? && w.value != 0 then Some(w.value as real) else regexAmount
  }

  /** `extract_amount`. A non-zero word amount is returned, as a float.
      Otherwise the result is what the digit pattern
      `[₹$]?\s?(\d+(?:,\d{2,3})*(?:\.\d{2})?)` reads, passed in as
      `regexAmount`. */
  method ExtractAmount(text: string, regexAmount: Option<real>) returns (r: Option<real>)
    ensures r == ExtractedAmount(text, regexAmount)
    ensures WordAmount(text).Some? && WordAmount(text).value != 0 ==>
      r == Some(WordAmount(text).value as real)
    ensures WordAmount(text).None? || WordAmount(text).value == 0 ==> r == regexAmount
  {
    var word := TextToDigits(text);
    if word.Some? && word.value != 0 {
      return Some(word.value as real);
    }
    return regexAmount;
  }
}
