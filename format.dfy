/** The script's fixed-width formatting: `_fitLength` (gulp/gulpfile.js
    lines 510-522) with its two uses, the log prefix (line 83) and the
    `HH:MM:SS` time stamp (lines 423-428). */
module Format {
  import opened JsStrings

  /** `Math.ceil(p / m)` for positive integers. */
  function CeilDiv(p: nat, m: nat): (c: nat)
    requires m > 0
    ensures c * m >= p
    ensures p > 0 ==> (c - 1) * m < p
  {
    var c := (p + m - 1) / m;
    assert p + m - 1 == m * c + (p + m - 1) % m;
    c
  }

  /** `_fitLength(text, targetLength, padChar, padRight)`: pad with copies
      of `padChar` (on the right when `padRight`, else on the left) up to
      `targetLength`, or cut down to the first `targetLength` characters.
      The result has exactly `targetLength` characters and keeps `text`
      whole at the chosen end when it is padded. */
  function FitLength(text: string, targetLength: int, padChar: string, padRight: bool): (r: string)
    requires padChar != [] || targetLength <= |text|
    ensures targetLength >= 0 ==> |r| == targetLength
    ensures targetLength < 0 ==> r == []
    ensures targetLength == |text| ==> r == text
    ensures 0 <= targetLength <= |text| ==> r == text[..targetLength]
    ensures |text| < targetLength && padRight ==> r[..|text|] == text
    ensures |text| < targetLength && !padRight ==> r[targetLength - |text|..] == text
  {
    var padLength := targetLength - |text|;
    if padLength > 0 then
      var padChars := Repeat(padChar, CeilDiv(padLength, |padChar|));
      var pad := Substr(padChars, if padRight then 0 else |padChars| - padLength, padLength);
      if padRight then text + pad else pad + text
    else if padLength < 0 then Substr(text, 0, targetLength)
    else text
  }

  /** A padded result is the text with a slice of the repeated pad string
      on the chosen side: its first `p` characters on the right, its last `p`
      on the left. */
  lemma FitLengthPadded(text: string, targetLength: int, padChar: string, padRight: bool)
    requires padChar != [] && |text| < targetLength
    ensures var p := targetLength - |text|;
      var padChars := Repeat(padChar, CeilDiv(p, |padChar|));
      && p <= |padChars|
      && FitLength(text, targetLength, padChar, padRight)
        == if padRight then text + padChars[..p] else padChars[|padChars| - p..] + text
  {
    var p := targetLength - |text|;
    var padChars := Repeat(padChar, CeilDiv(p, |padChar|));
    assert Substr(padChars, if padRight then 0 else |padChars| - p, p)
      == if padRight then padChars[..p] else padChars[|padChars| - p..];
  }

  /** Right padding repeats `padChar` from its first character on. */
  lemma FitLengthPadsRight(text: string, targetLength: int, padChar: string)
    requires padChar != [] && |text| < targetLength
    ensures forall i :: |text| <= i < targetLength ==>
      FitLength(text, targetLength, padChar, true)[i] == padChar[(i - |text|) % |padChar|]
  {
    var p, m := targetLength - |text|, |padChar|;
    var c := CeilDiv(p, m);
    var r := FitLength(text, targetLength, padChar, true);
    FitLengthPadded(text, targetLength, padChar, true);
    forall i | |text| <= i < targetLength
      ensures r[i] == padChar[(i - |text|) % m]
    {
      assert r[i] == Repeat(padChar, c)[i - |text|];
      RepeatAt(padChar, c, i - |text|);
    }
  }

  /** Left padding is cut from the end of the repetition, so the character
      next to the text is always the last character of `padChar`. */
  lemma FitLengthPadsLeft(text: string, targetLength: int, padChar: string)
    requires padChar != [] && |text| < targetLength
    ensures forall i :: 0 <= i < targetLength - |text| ==>
      FitLength(text, targetLength, padChar, false)[i]
        == padChar[(i - (targetLength - |text|)) % |padChar|]
  {
    var p, m := targetLength - |text|, |padChar|;
    var c := CeilDiv(p, m);
    var r := FitLength(text, targetLength, padChar, false);
    FitLengthPadded(text, targetLength, padChar, false);
    forall i | 0 <= i < p
      ensures r[i] == padChar[(i - p) % m]
    {
      assert r[i] == Repeat(padChar, c)[c * m - p + i];
      RepeatAt(padChar, c, c * m - p + i);
      LeftPadOffset(c, m, p, i);
    }
  }

  /** Position `i` of a left pad of length `p` cut from `c` copies of an
      `m`-character string falls on character `(i - p) % m` of it. */
  lemma LeftPadOffset(c: nat, m: nat, p: nat, i: nat)
    requires m > 0 && p <= c * m && i < p
    ensures (c * m - p + i) % m == (i - p) % m
  {
    var q, rr := (i - p) / m, (i - p) % m;
    assert i - p == m * q + rr;
    assert c * m - p + i == m * (c + q) + rr;
    ModUnique(c * m - p + i, m, c + q, rr);
  }

  /** The log prefix set by the `Log` constructor (line 83): an upper-cased
      label fitted to eight characters, blank-padded on the right. */
  function LogPrefix(prefix: string): (r: string)
    ensures prefix == [] ==> r == []
    ensures prefix != [] ==> |r| == 8
    ensures prefix != [] && |prefix| <= 8 ==>
      r[..|prefix|] == Upper(prefix) && forall i :: |prefix| <= i < 8 ==> r[i] == ' '
    ensures |prefix| >= 8 ==> r == Upper(prefix)[..8]
  {
    if prefix == [] then []
    else if |prefix| < 8 then
      FitLengthPadsRight(Upper(prefix), 8, " ");
      FitLength(Upper(prefix), 8, " ", true)
    else
      FitLength(Upper(prefix), 8, " ", true)
  }

  /** One field of `_getTime`: a number rendered in decimal and fitted to
      two characters, zero-padded on the left. */
  function TwoDigits(n: nat): (r: string)
    ensures |r| == 2
  {
    FitLength(DecimalString(n), 2, "0", false)
  }

  /** Every number below 100 is written as its tens digit and its units
      digit. */
  lemma TwoDigitsBelowHundred(n: nat)
    requires n < 100
    ensures TwoDigits(n) == [DigitChar(n / 10), DigitChar(n % 10)]
  {
    var d := DecimalString(n);
    if n < 10 {
      assert d == [DigitChar(n)];
      assert CeilDiv(1, 1) == 1;
      assert Repeat("0", 1) == "0";
      assert TwoDigits(n) == "0" + d;
    } else {
      assert d == [DigitChar(n / 10), DigitChar(n % 10)];
    }
  }

  /** Three two-character fields joined by colons. */
  function Clock(h: string, m: string, s: string): (r: string)
    requires |h| == 2 && |m| == 2 && |s| == 2
    ensures |r| == 8 && r[2] == ':' && r[5] == ':'
    ensures r[..2] == h && r[3..5] == m && r[6..] == s
  {
    var r := h + ":" + m + ":" + s;
    assert r[..2] == h && r[3..5] == m && r[6..] == s;
    r
  }

  /** `_getTime` for a given hour, minute and second: `HH:MM:SS`, eight
      characters with the colons at positions 2 and 5. */
  function FormatTime(hours: nat, minutes: nat, seconds: nat): (r: string)
    ensures |r| == 8 && r[2] == ':' && r[5] == ':'
    ensures r[..2] == TwoDigits(hours) && r[3..5] == TwoDigits(minutes) && r[6..] == TwoDigits(seconds)
  {
    Clock(TwoDigits(hours), TwoDigits(minutes), TwoDigits(seconds))
  }
}
