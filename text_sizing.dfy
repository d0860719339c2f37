/** Option and Result, the failure-carrying values used by the encoder and the renderer. */
module Wrappers {
  datatype Option<+T> = None | Some(value: T)

  datatype Result<+T, +E> = Ok(value: T) | Err(error: E)
}

/**
 * The scaled-text encoder of kitty's text-sizing protocol
 * (https://sw.kovidgoyal.net/kitty/text-sizing-protocol/), escape code OSC 66
 * with the `s=` (scale) key.
 *
 * `print_big` writes `ESC ] 66 ; s=<scale> ; <text> BEL` followed by `scale`
 * newlines (or nothing), after checking that the scale lies in 1..7.  Here the
 * write is the sink: `PrintBig` returns the exact characters it would print,
 * or the ValueError it would raise before printing anything.
 */
module TextSizing {
  import opened Wrappers

  const MinScale: int := 1
  const MaxScale: int := 7

  const Esc: char := '\U{1B}'
  const Bel: char := '\U{7}'

  /** `ESC ] 66 ; s=`: everything a scale directive carries before the scale. */
  const ScalePrefix: string := [Esc] + "]66;s="

  /** Python's ValueError, with its message. */
  datatype ValueError = ValueError(message: string)

  /** What a scale directive carries, as a reader of the output sees it. */
  datatype Scaled = Scaled(scale: nat, text: string, newlines: nat)

  predicate IsDigit(c: char) {
    '0' <= c <= '9'
  }

  predicate AllDigits(s: string) {
    forall k :: 0 <= k < |s| ==> IsDigit(s[k])
  }

  predicate AllNewlines(s: string) {
    forall k :: 0 <= k < |s| ==> s[k] == '\n'
  }

  function DigitChar(d: nat): (c: char)
    requires d < 10
    ensures IsDigit(c)
  {
    ('0' as int + d) as char
  }

  function DigitValue(c: char): (d: nat)
    requires IsDigit(c)
    ensures d < 10 && DigitChar(d) == c
  {
    c as int - '0' as int
  }

  /** The decimal numeral of `n`, as Python's `str` (and an f-string) writes it. */
  function Decimal(n: nat): (s: string)
    ensures |s| >= 1 && AllDigits(s)
    ensures s[0] == '0' ==> n == 0
  {
    if n < 10 then [DigitChar(n)] else Decimal(n / 10) + [DigitChar(n % 10)]
  }

  /** The value of a string of decimal digits. */
  function DigitsValue(s: string): nat
    requires AllDigits(s)
  {
    if s == [] then 0 else DigitsValue(s[..|s| - 1]) * 10 + DigitValue(s[|s| - 1])
  }

  lemma {:induction false} DecimalRoundTrip(n: nat)
    ensures DigitsValue(Decimal(n)) == n
  {
    if n >= 10 {
      var s := Decimal(n);
      assert s[..|s| - 1] == Decimal(n / 10);
      DecimalRoundTrip(n / 10);
    }
  }

  /** `c * n` in Python: `n` copies of `c`. */
  function Repeat(c: char, n: nat): (s: string)
    ensures |s| == n
    ensures forall k :: 0 <= k < n ==> s[k] == c
  {
    if n == 0 then [] else Repeat(c, n - 1) + [c]
  }

  /**
   * `print_big(text, scale, newline)`: the characters it prints, or the
   * ValueError it raises when the scale is outside MinScale..MaxScale.  The
   * check comes first, so a failing call prints nothing.
   */
  function PrintBig(text: string, scale: int, newline: bool): (r: Result<string, ValueError>)
    ensures r.Err? <==> scale < MinScale || scale > MaxScale
    ensures r.Ok? ==>
      MinScale <= scale <= MaxScale &&
      |r.value| == |ScalePrefix| + |Decimal(scale)| + 1 + |text| + 1 + (if newline then scale else 0)
  {
    if scale < MinScale || scale > MaxScale then
      Err(ValueError("Scale must be between " + Decimal(MinScale) + " and " + Decimal(MaxScale)))
    else
      var end := if newline then Repeat('\n', scale) else "";
      Ok(ScalePrefix + Decimal(scale) + ";" + text + [Bel] + end)
  }

  /** The index of the first `c` in `s`, or `|s|` when there is none. */
  function FirstIndex(s: string, c: char): (i: nat)
    ensures i <= |s|
    ensures i < |s| ==> s[i] == c
    ensures forall k :: 0 <= k < i ==> s[k] != c
  {
    if s == [] || s[0] == c then 0 else 1 + FirstIndex(s[1..], c)
  }

  lemma FirstIndexAfter(a: string, c: char, b: string)
    requires c !in a
    ensures FirstIndex(a + [c] + b, c) == |a|
  {
    var s := a + [c] + b;
    assert s[|a|] == c;
  }

  /**
   * Reads one scale directive back: the digits after `s=` up to the next `;`,
   * the text from there up to the first BEL, and the newlines that follow.
   */
  function ParseScaled(s: string): (r: Option<Scaled>)
    ensures r.Some? ==> Bel !in r.value.text
  {
    if |s| < |ScalePrefix| || s[..|ScalePrefix|] != ScalePrefix then None
    else ParseFields(s[|ScalePrefix|..])
  }

  /** What follows `s=`: the scale's digits, `;`, and the rest. */
  function ParseFields(rest: string): (r: Option<Scaled>)
    ensures r.Some? ==> Bel !in r.value.text
  {
    var i := FirstIndex(rest, ';');
    if i == |rest| || i == 0 || !AllDigits(rest[..i]) then None
    else ParseText(DigitsValue(rest[..i]), rest[i + 1..])
  }

  /** What follows the `;` after the scale: the text, BEL, and newlines only. */
  function ParseText(scale: nat, after: string): (r: Option<Scaled>)
    ensures r.Some? ==> Bel !in r.value.text
  {
    var j := FirstIndex(after, Bel);
    if j == |after| || !AllNewlines(after[j + 1..]) then None
    else Some(Scaled(scale, after[..j], |after| - j - 1))
  }

  lemma ParseTextOf(n: nat, text: string, k: nat)
    requires Bel !in text
    ensures ParseText(n, text + [Bel] + Repeat('\n', k)) == Some(Scaled(n, text, k))
  {
    var after := text + [Bel] + Repeat('\n', k);
    FirstIndexAfter(text, Bel, Repeat('\n', k));
    assert after[..|text|] == text;
    assert after[|text| + 1..] == Repeat('\n', k);
  }

  lemma ParseFieldsOf(n: nat, text: string, k: nat)
    requires Bel !in text
    ensures ParseFields(Decimal(n) + ";" + text + [Bel] + Repeat('\n', k)) == Some(Scaled(n, text, k))
  {
    var d := Decimal(n);
    var tail := text + [Bel] + Repeat('\n', k);
    var rest := d + ";" + text + [Bel] + Repeat('\n', k);
    assert rest == d + [';'] + tail;
    assert ';' !in d by {
      forall k | 0 <= k < |d| ensures d[k] != ';' { assert IsDigit(d[k]); }
    }
    FirstIndexAfter(d, ';', tail);
    assert rest[..|d|] == d;
    assert rest[|d| + 1..] == tail;
    DecimalRoundTrip(n);
    ParseTextOf(n, text, k);
  }

  /** A directive written with scale `n`, text `text` and `k` newlines reads back as exactly that. */
  lemma ParseDirective(n: nat, text: string, k: nat)
    requires Bel !in text
    ensures ParseScaled(ScalePrefix + Decimal(n) + ";" + text + [Bel] + Repeat('\n', k))
            == Some(Scaled(n, text, k))
  {
    var s := ScalePrefix + Decimal(n) + ";" + text + [Bel] + Repeat('\n', k);
    var rest := Decimal(n) + ";" + text + [Bel] + Repeat('\n', k);
    assert s == ScalePrefix + rest;
    assert s[..|ScalePrefix|] == ScalePrefix;
    assert s[|ScalePrefix|..] == rest;
    ParseFieldsOf(n, text, k);
  }

  /**
   * The round trip: a successful `print_big` reads back as the scale, the
   * text and the newlines it was given exactly when the text holds no BEL
   * (a BEL in the text ends the directive early).
   */
  lemma {:induction false} PrintBigRoundTrip(text: string, scale: int, newline: bool)
    requires MinScale <= scale <= MaxScale
    ensures PrintBig(text, scale, newline).Ok?
    ensures ParseScaled(PrintBig(text, scale, newline).value)
            == Some(Scaled(scale, text, if newline then scale else 0))
            <==> Bel !in text
  {
    if Bel !in text {
      var k := if newline then scale else 0;
      assert (if newline then Repeat('\n', scale) else "") == Repeat('\n', k);
      ParseDirective(scale, text, k);
    }
  }

  /** The number of newlines at the very end of `s`. */
  function TrailingNewlines(s: string): (n: nat)
    ensures n <= |s|
    ensures forall k :: |s| - n <= k < |s| ==> s[k] == '\n'
    ensures n < |s| ==> s[|s| - n - 1] != '\n'
  {
    if s != [] && s[|s| - 1] == '\n' then 1 + TrailingNewlines(s[..|s| - 1]) else 0
  }

  lemma {:induction false} TrailingNewlinesAfterBel(a: string, k: nat)
    ensures TrailingNewlines(a + [Bel] + Repeat('\n', k)) == k
  {
    if k > 0 {
      var s := a + [Bel] + Repeat('\n', k);
      assert s[..|s| - 1] == a + [Bel] + Repeat('\n', k - 1);
      TrailingNewlinesAfterBel(a, k - 1);
    }
  }

  /** Where each part of a directive with `k` trailing newlines sits. */
  lemma DirectiveLayout(front: string, text: string, k: nat)
    ensures var s := front + text + [Bel] + Repeat('\n', k);
      |s| == |front| + |text| + 1 + k &&
      s[..|front|] == front &&
      s[|front|..|front| + |text|] == text &&
      s[|front| + |text|] == Bel &&
      TrailingNewlines(s) == k
  {
    var s := front + text + [Bel] + Repeat('\n', k);
    assert s[..|front|] == front;
    assert s[|front|..|front| + |text|] == text;
    TrailingNewlinesAfterBel(front + text, k);
  }

  /**
   * The layout of every successful output, whatever the text holds: the
   * prefix, the scale's numeral and `;`, the text verbatim, the BEL, and then
   * exactly `scale` newlines with `newline` and nothing without.
   */
  lemma PrintBigLayout(text: string, scale: int, newline: bool)
    requires MinScale <= scale <= MaxScale
    ensures PrintBig(text, scale, newline).Ok?
    ensures var s := PrintBig(text, scale, newline).value;
      var k := if newline then scale else 0;
      var head := |ScalePrefix| + |Decimal(scale)| + 1;
      s[..head] == ScalePrefix + Decimal(scale) + ";" &&
      s[head..|s| - k - 1] == text &&
      s[|s| - k - 1] == Bel &&
      TrailingNewlines(s) == k
  {
    var k := if newline then scale else 0;
    assert (if newline then Repeat('\n', scale) else "") == Repeat('\n', k);
    var front := ScalePrefix + Decimal(scale) + ";";
    assert PrintBig(text, scale, newline).value == front + text + [Bel] + Repeat('\n', k);
    DirectiveLayout(front, text, k);
  }

  /** The encoder's output at a valid scale, spelled out with the scale's numeral. */
  lemma PrintBigAt(text: string, scale: int, numeral: string, newlines: string)
    requires MinScale <= scale <= MaxScale
    requires numeral == Decimal(scale) && newlines == Repeat('\n', scale)
    ensures PrintBig(text, scale, true) == Ok([Esc] + "]66;s=" + numeral + ";" + text + [Bel] + newlines)
  {
  }

  /** The first literal directive of `quickstart` is what the encoder writes at scale 2. */
  lemma QuickstartDoubleMatchesEncoder()
    ensures PrintBig("Double sized text", 2, true) == Ok("\U{1B}]66;s=2;Double sized text\U{7}\n\n")
  {
    SmallNumerals();
    TwoNewlines();
    PrintBigAt("Double sized text", 2, "2", "\n\n");
    assert [Esc] + "]66;s=" + "2" + ";" + "Double sized text" + [Bel] + "\n\n"
        == "\U{1B}]66;s=2;Double sized text\U{7}\n\n";
  }

  /** The second literal directive of `quickstart` is what the encoder writes at scale 3. */
  lemma QuickstartTripleMatchesEncoder()
    ensures PrintBig("Triple sized text", 3, true) == Ok("\U{1B}]66;s=3;Triple sized text\U{7}\n\n\n")
  {
    SmallNumerals();
    ThreeNewlines();
    PrintBigAt("Triple sized text", 3, "3", "\n\n\n");
    assert [Esc] + "]66;s=" + "3" + ";" + "Triple sized text" + [Bel] + "\n\n\n"
        == "\U{1B}]66;s=3;Triple sized text\U{7}\n\n\n";
  }

  lemma SmallNumerals()
    ensures Decimal(2) == "2" && Decimal(3) == "3" && Decimal(4) == "4"
  {
  }

  lemma TwoNewlines()
    ensures Repeat('\n', 2) == "\n\n"
  {
    assert Repeat('\n', 1) == "\n";
  }

  lemma ThreeNewlines()
    ensures Repeat('\n', 3) == "\n\n\n"
  {
    TwoNewlines();
  }

  lemma FourNewlines()
    ensures Repeat('\n', 4) == "\n\n\n\n"
  {
    ThreeNewlines();
  }

  /** Both loops of `main` call the encoder with every scale of MinScale..MaxScale; none raises. */
  lemma MainLoopsNeverRaise(newline: bool)
    ensures forall scale :: MinScale <= scale <= MaxScale ==>
      PrintBig("x" + Decimal(scale), scale, newline).Ok?
  {
  }
}
