/**
 * Normalisation of the importer's "correct option" column. The accepted
 * encodings are a number (`3`), an option label (`Option 3`) and a letter
 * (`C`). A value that reads as NaN, or as a number outside 1..4, rejects the row.
 */
module CorrectOption {
  import opened Wrappers
  import opened Text

  /** The longest prefix of `s` made of decimal digits. */
  function DigitRun(s: string): (r: string)
    ensures |r| <= |s| && AllDigits(r)
    ensures forall k :: 0 <= k < |r| ==> r[k] == s[k]
    ensures |r| < |s| ==> !IsDigit(s[|r|])
  {
    if |s| > 0 && IsDigit(s[0]) then [s[0]] + DigitRun(s[1..]) else []
  }

  predicate IsHexDigit(c: char) {
    IsDigit(c) || ('a' <= c <= 'f') || ('A' <= c <= 'F')
  }

  function HexDigitValue(c: char): (d: nat)
    requires IsHexDigit(c)
    ensures d < 16
  {
    if IsDigit(c) then DigitValue(c)
    else if 'a' <= c <= 'f' then c as int - 'a' as int + 10
    else c as int - 'A' as int + 10
  }

  /** The longest prefix of `s` made of hexadecimal digits. */
  function HexRun(s: string): (r: string)
    ensures |r| <= |s|
    ensures forall k :: 0 <= k < |r| ==> r[k] == s[k] && IsHexDigit(r[k])
    ensures |r| < |s| ==> !IsHexDigit(s[|r|])
  {
    if |s| > 0 && IsHexDigit(s[0]) then [s[0]] + HexRun(s[1..]) else []
  }

  function HexValue(s: string): nat
    requires forall k :: 0 <= k < |s| ==> IsHexDigit(s[k])
  {
    if |s| == 0 then 0 else HexValue(s[..|s| - 1]) * 16 + HexDigitValue(s[|s| - 1])
  }

  /** Number of whitespace characters at the front of `s`. */
  function SpaceRun(s: string): (n: nat)
    ensures n <= |s|
    ensures forall k :: 0 <= k < n ==> IsSpace(s[k])
    ensures n < |s| ==> !IsSpace(s[n])
  {
    if |s| > 0 && IsSpace(s[0]) then 1 + SpaceRun(s[1..]) else 0
  }

  /** ECMAScript `parseInt(s)` with no radix; `None` stands for NaN. Leading
      whitespace is skipped, one sign is read, a `0x`/`0X` prefix switches to
      hexadecimal, and the longest run of digits that follows is the number.
      An empty run is NaN. Unbounded integers stand in for doubles: rounding
      a large value never brings it back into 1..4. */
  function JsParseInt(s: string): Option<int> {
    SignedInt(TrimStart(s))
  }

  /** `parseInt` after the leading whitespace: one optional sign, then the magnitude. */
  function SignedInt(t: string): Option<int> {
    var negative := |t| > 0 && t[0] == '-';
    var u := if |t| > 0 && (t[0] == '-' || t[0] == '+') then t[1..] else t;
    match Magnitude(u)
    case None => None
    case Some(v) => var w: int := v; Some(if negative then -w else w)
  }

  /** The unsigned part of `parseInt`: hexadecimal after `0x`/`0X`, decimal otherwise. */
  function Magnitude(u: string): Option<nat> {
    if |u| >= 2 && u[0] == '0' && (u[1] == 'x' || u[1] == 'X') then
      var d := HexRun(u[2..]);
      if |d| == 0 then None else Some(HexValue(d))
    else
      var d := DigitRun(u);
      if |d| == 0 then None else Some(DecimalValue(d))
  }

  /** The word `option` starts at position `k` of `t`. */
  predicate OptionAt(t: string, k: nat) {
    k + 6 <= |t| && t[k] == 'o' && t[k + 1] == 'p' && t[k + 2] == 't'
    && t[k + 3] == 'i' && t[k + 4] == 'o' && t[k + 5] == 'n'
  }

  /** `t.includes('option')`. */
  predicate ContainsOption(t: string) {
    exists k: nat | k <= |t| :: OptionAt(t, k)
  }

  /** The digits captured by `/option\s*(\d+)/` when a match starts at `k`. */
  function MatchAt(t: string, k: nat): (r: Option<string>)
    requires k <= |t|
    ensures r.Some? ==> OptionAt(t, k) && |r.value| > 0 && AllDigits(r.value)
  {
    if !OptionAt(t, k) then None
    else
      var m := k + 6 + SpaceRun(t[k + 6..]);
      var d := DigitRun(t[m..]);
      if |d| == 0 then None else Some(d)
  }

  /** The leftmost match of `/option\s*(\d+)/` at or after position `k`. */
  function FirstMatch(t: string, k: nat): (r: Option<string>)
    requires k <= |t|
    ensures r.Some? ==> ContainsOption(t) && |r.value| > 0 && AllDigits(r.value)
    decreases |t| - k
  {
    match MatchAt(t, k)
    case Some(d) => Some(d)
    case None => if k == |t| then None else FirstMatch(t, k + 1)
  }

  /** `s` without any `'` or `"`. */
  function RemoveQuotes(s: string): (r: string)
    ensures '\'' !in r && '"' !in r
    ensures forall c :: c in r ==> c in s
  {
    if |s| == 0 then []
    else if s[0] == '\'' || s[0] == '"' then RemoveQuotes(s[1..])
    else [s[0]] + RemoveQuotes(s[1..])
  }

  /** The column text as the importer compares it: lower-cased, trimmed, quotes removed. */
  function OptionText(field: string): string {
    RemoveQuotes(Trim(Lower(field)))
  }

  /** The number the importer reads from the column before the range check; `None` is NaN. */
  function OptionNumber(field: string): Option<int> {
    TextNumber(OptionText(field))
  }

  /** The three encodings, tried in the importer's order on the normalised text. */
  function TextNumber(t: string): Option<int> {
    if ContainsOption(t) then
      match FirstMatch(t, 0)
      case Some(d) => Some(DecimalValue(d))
      case None => None
    else if t == "a" then Some(1)
    else if t == "b" then Some(2)
    else if t == "c" then Some(3)
    else if t == "d" then Some(4)
    else JsParseInt(t)
  }

  /** The normalised correct option, or `None` when the row must be skipped. */
  function ParseCorrectOption(field: string): (r: Option<int>)
    ensures r.Some? ==> 1 <= r.value <= 4
    ensures r.Some? <==> OptionNumber(field).Some? && 1 <= OptionNumber(field).value <= 4
    ensures r.Some? ==> r == OptionNumber(field)
  {
    var n := OptionNumber(field);
    if n.Some? && 1 <= n.value <= 4 then n else None
  }

  lemma {:induction false} RemoveQuotesNoop(s: string)
    requires QuoteFree(s)
    ensures RemoveQuotes(s) == s
  {
    if |s| > 0 {
      assert QuoteFree(s[1..]);
      RemoveQuotesNoop(s[1..]);
      assert [s[0]] + s[1..] == s;
    }
  }

  lemma LowerConcat(a: string, b: string)
    ensures Lower(a + b) == Lower(a) + Lower(b)
  {
  }

  lemma LowerNoLetters(s: string)
    requires forall k :: 0 <= k < |s| ==> !('A' <= s[k] <= 'Z')
    ensures Lower(s) == s
  {
  }

  lemma DigitRunAll(d: string)
    requires AllDigits(d)
    ensures DigitRun(d) == d
  {
  }

  /** A digit string has no `option` in it. */
  lemma DigitsHaveNoOption(d: string)
    requires AllDigits(d)
    ensures !ContainsOption(d)
  {
    forall k: nat | k <= |d|
      ensures !OptionAt(d, k)
    {
      if k + 6 <= |d| {
        assert IsDigit(d[k]);
      }
    }
  }

  /** `parseInt` of a digit string is its decimal value. */
  lemma ParseIntDigits(d: string)
    requires |d| > 0 && AllDigits(d)
    ensures JsParseInt(d) == Some(DecimalValue(d) as int)
  {
    assert TrimStart(d) == d;
    MagnitudeDecimal(d, []);
    assert d + [] == d;
    UnsignedText(d);
  }

  /** Text that starts with neither sign is read as its magnitude. */
  lemma UnsignedText(t: string)
    requires |t| > 0 && t[0] != '-' && t[0] != '+' && Magnitude(t).Some?
    ensures SignedInt(t) == Some(Magnitude(t).value as int)
  {
  }

  /** A run of digits that is not `0x`/`0X`, followed by a non-digit or nothing,
      has its decimal value as magnitude. */
  lemma MagnitudeDecimal(d: string, rest: string)
    requires |d| > 0 && AllDigits(d)
    requires |rest| > 0 ==> !IsDigit(rest[0]) && rest[0] != 'x' && rest[0] != 'X'
    ensures Magnitude(d + rest) == Some(DecimalValue(d))
  {
    var t := d + rest;
    assert !(|t| >= 2 && t[0] == '0' && (t[1] == 'x' || t[1] == 'X')) by {
      if |t| >= 2 {
        assert t[1] == if |d| >= 2 then d[1] else rest[0];
      }
    }
    DigitRunPrefix(d, rest);
  }

  lemma TextNumberDigits(d: string)
    requires |d| > 0 && AllDigits(d)
    ensures TextNumber(d) == Some(DecimalValue(d) as int)
  {
    DigitsHaveNoOption(d);
    ParseIntDigits(d);
    assert IsDigit(d[0]);
  }

  lemma OptionTextDigits(d: string)
    requires AllDigits(d)
    ensures OptionText(d) == d
  {
    LowerNoLetters(d);
    if |d| > 0 {
      assert IsDigit(d[0]) && IsDigit(d[|d| - 1]);
    }
    TrimOfTrimmed(d);
    assert QuoteFree(d);
    RemoveQuotesNoop(d);
  }

  /** A plain number is read as that number: `3` gives 3, `03` gives 3, and
      `5` or `0` reject the row. */
  lemma NumberAnswer(d: string)
    requires |d| > 0 && AllDigits(d)
    ensures ParseCorrectOption(d)
            == if 1 <= DecimalValue(d) <= 4 then Some(DecimalValue(d) as int) else None
  {
    OptionTextDigits(d);
    TextNumberDigits(d);
  }

  /** Neither kind of quote mark occurs in `s`. */
  predicate QuoteFree(s: string) {
    forall k :: 0 <= k < |s| ==> s[k] != '\'' && s[k] != '"'
  }

  lemma SpacesQuoteFree(s: string)
    requires forall k :: 0 <= k < |s| ==> IsSpace(s[k])
    ensures QuoteFree(s)
  {
    forall k | 0 <= k < |s|
      ensures s[k] != '\'' && s[k] != '"'
    {
      var c := s[k];
      assert IsSpace(c);
    }
  }

  lemma DigitsQuoteFree(s: string)
    requires AllDigits(s)
    ensures QuoteFree(s)
  {
  }

  lemma QuoteFreeConcat(a: string, b: string)
    requires QuoteFree(a) && QuoteFree(b)
    ensures QuoteFree(a + b)
  {
    forall k | 0 <= k < |a + b|
      ensures (a + b)[k] != '\'' && (a + b)[k] != '"'
    {
      if k < |a| {
        assert (a + b)[k] == a[k];
      } else {
        assert (a + b)[k] == b[k - |a|];
      }
    }
  }

  lemma LabelText(w: string, gap: string, d: string)
    requires Lower(w) == "option"
    requires forall k :: 0 <= k < |gap| ==> IsSpace(gap[k])
    requires |d| > 0 && AllDigits(d)
    ensures OptionText(w + gap + d) == "option" + gap + d
  {
    var t := "option" + gap + d;
    LowerLabel(w, gap, d);
    LabelTrimmed(gap, d);
    TrimOfTrimmed(t);
    LabelQuoteFree(gap, d);
    RemoveQuotesNoop(t);
  }

  lemma LowerLabel(w: string, gap: string, d: string)
    requires Lower(w) == "option"
    requires forall k :: 0 <= k < |gap| ==> IsSpace(gap[k])
    requires AllDigits(d)
    ensures Lower(w + gap + d) == "option" + gap + d
  {
    LowerConcat(w + gap, d);
    LowerConcat(w, gap);
    LowerNoLetters(gap);
    LowerNoLetters(d);
  }

  lemma LabelTrimmed(gap: string, d: string)
    requires |d| > 0 && AllDigits(d)
    ensures IsTrimmed("option" + gap + d)
  {
    var t := "option" + gap + d;
    assert t[0] == 'o';
    assert t[|t| - 1] == d[|d| - 1];
  }

  lemma LabelQuoteFree(gap: string, d: string)
    requires forall k :: 0 <= k < |gap| ==> IsSpace(gap[k])
    requires AllDigits(d)
    ensures QuoteFree("option" + gap + d)
  {
    assert QuoteFree("option");
    SpacesQuoteFree(gap);
    DigitsQuoteFree(d);
    QuoteFreeConcat("option", gap);
    QuoteFreeConcat("option" + gap, d);
  }

  lemma LabelNumber(gap: string, d: string)
    requires forall k :: 0 <= k < |gap| ==> IsSpace(gap[k])
    requires |d| > 0 && AllDigits(d)
    ensures TextNumber("option" + gap + d) == Some(DecimalValue(d) as int)
  {
    var t := "option" + gap + d;
    LabelMatch(gap, d);
    assert ContainsOption(t);
    assert FirstMatch(t, 0) == Some(d);
  }

  lemma LabelMatch(gap: string, d: string)
    requires forall k :: 0 <= k < |gap| ==> IsSpace(gap[k])
    requires |d| > 0 && AllDigits(d)
    ensures OptionAt("option" + gap + d, 0)
    ensures MatchAt("option" + gap + d, 0) == Some(d)
  {
    var t := "option" + gap + d;
    assert t[6..] == gap + d;
    SpaceRunPrefix(gap, d);
    assert t[6 + |gap|..] == d;
    DigitRunAll(d);
  }

  lemma SpaceRunPrefix(gap: string, d: string)
    requires forall k :: 0 <= k < |gap| ==> IsSpace(gap[k])
    requires |d| > 0 && IsDigit(d[0])
    ensures SpaceRun(gap + d) == |gap|
  {
    var n := SpaceRun(gap + d);
    assert (gap + d)[|gap|] == d[0];
  }

  /** An option label, in any letter case and with any whitespace before the
      number, is read as that number: `Option 3` and `OPTION3` give 3. */
  lemma LabelAnswer(w: string, gap: string, d: string)
    requires Lower(w) == "option"
    requires forall k :: 0 <= k < |gap| ==> IsSpace(gap[k])
    requires |d| > 0 && AllDigits(d)
    ensures ParseCorrectOption(w + gap + d)
            == if 1 <= DecimalValue(d) <= 4 then Some(DecimalValue(d) as int) else None
  {
    LabelText(w, gap, d);
    LabelNumber(gap, d);
  }

  /** A single letter a-d, in either case, is the option at that position of the alphabet. */
  lemma LetterAnswer(c: char)
    requires c in "abcdABCD"
    ensures ParseCorrectOption([c]) == Some(LowerChar(c) as int - 'a' as int + 1)
  {
    var t := [LowerChar(c)];
    assert Lower([c]) == t;
    TrimOfTrimmed(t);
    RemoveQuotesNoop(t);
    assert OptionText([c]) == t;
    assert !ContainsOption(t);
  }

  /** No match anywhere from `k` on means no match. */
  lemma {:induction false} NoMatchFrom(t: string, k: nat)
    requires k <= |t|
    requires forall j :: k <= j <= |t| ==> MatchAt(t, j) == None
    ensures FirstMatch(t, k) == None
    decreases |t| - k
  {
    if k < |t| {
      NoMatchFrom(t, k + 1);
    }
  }

  /** A short lower-case word other than a single letter a-d is read as NaN. */
  lemma WordAnswer(t: string)
    requires |t| < 6 && t !in ["a", "b", "c", "d"]
    requires forall k :: 0 <= k < |t| ==> 'a' <= t[k] <= 'z'
    ensures ParseCorrectOption(t) == None
  {
    WordText(t);
    WordNumber(t);
  }

  lemma WordText(t: string)
    requires forall k :: 0 <= k < |t| ==> 'a' <= t[k] <= 'z'
    ensures OptionText(t) == t
  {
    LowerNoLetters(t);
    if |t| > 0 {
      assert !IsSpace(t[0]) && !IsSpace(t[|t| - 1]);
    }
    TrimOfTrimmed(t);
    assert QuoteFree(t);
    RemoveQuotesNoop(t);
  }

  lemma WordNumber(t: string)
    requires |t| < 6 && t !in ["a", "b", "c", "d"]
    requires forall k :: 0 <= k < |t| ==> 'a' <= t[k] <= 'z'
    ensures TextNumber(t) == None
  {
    assert !ContainsOption(t);
    assert TrimStart(t) == t;
    if |t| > 0 {
      assert !IsDigit(t[0]);
    }
  }

  /** An `option` with no number after it reads as NaN, even when a number precedes it. */
  lemma OptionWithoutNumber()
    ensures TextNumber("4 option") == None
  {
    var t := "4 option";
    assert OptionAt(t, 2);
    forall k | 0 <= k <= |t|
      ensures MatchAt(t, k) == None
    {
      if OptionAt(t, k) {
        assert k == 2;
        assert t[8..] == "";
      }
    }
    NoMatchFrom(t, 0);
  }

  lemma HexRunAll(h: string)
    requires forall k :: 0 <= k < |h| ==> IsHexDigit(h[k])
    ensures HexRun(h) == h
  {
  }

  /** `parseInt` honours a `0x` prefix and reads the rest as hexadecimal. */
  lemma ParseIntHex(h: string)
    requires |h| > 0 && forall k :: 0 <= k < |h| ==> IsHexDigit(h[k])
    ensures JsParseInt("0x" + h) == Some(HexValue(h) as int)
  {
    var t := "0x" + h;
    assert t[0] == '0' && t[1] == 'x' && t[2..] == h;
    assert TrimStart(t) == t;
    MagnitudeHex(t);
    UnsignedText(t);
  }

  /** After `0x`, the magnitude is the value of the hexadecimal digits. */
  lemma MagnitudeHex(t: string)
    requires |t| > 2 && t[0] == '0' && t[1] == 'x'
    requires forall k :: 2 <= k < |t| ==> IsHexDigit(t[k])
    ensures Magnitude(t) == Some(HexValue(t[2..]))
  {
    HexRunAll(t[2..]);
  }

  /** `parseInt` stops at the first character that is not a digit. */
  lemma ParseIntStopsAtNonDigit(d: string, rest: string)
    requires |d| > 0 && AllDigits(d)
    requires |rest| > 0 ==> !IsDigit(rest[0]) && rest[0] != 'x' && rest[0] != 'X'
    ensures JsParseInt(d + rest) == Some(DecimalValue(d) as int)
  {
    var t := d + rest;
    assert t[0] == d[0];
    assert TrimStart(t) == t;
    MagnitudeDecimal(d, rest);
    UnsignedText(t);
  }

  lemma DigitRunPrefix(d: string, rest: string)
    requires AllDigits(d)
    requires |rest| > 0 ==> !IsDigit(rest[0])
    ensures DigitRun(d + rest) == d
  {
    assert (d + rest)[..|d|] == d;
  }

  lemma {:induction false} RemoveQuotesTrailing(d: string)
    requires QuoteFree(d)
    ensures RemoveQuotes(d + ['\'']) == d
  {
    if |d| > 0 {
      assert (d + ['\''])[1..] == d[1..] + ['\''];
      assert QuoteFree(d[1..]);
      RemoveQuotesTrailing(d[1..]);
      assert [d[0]] + d[1..] == d;
    } else {
      assert d + ['\''] == ['\''];
    }
  }

  /** Single quotes around a number are removed before it is read: `'3'` gives 3. */
  lemma QuotedAnswer(d: string)
    requires |d| > 0 && AllDigits(d)
    ensures ParseCorrectOption("'" + d + "'") == ParseCorrectOption(d)
  {
    QuotedText(d);
    OptionTextDigits(d);
  }

  lemma QuotedText(d: string)
    requires AllDigits(d)
    ensures OptionText("'" + d + "'") == d
  {
    var q := "'" + d + "'";
    LowerNoLetters(q);
    assert q[0] == '\'' && q[|q| - 1] == '\'';
    TrimOfTrimmed(q);
    assert q[1..] == d + ['\''];
    DigitsQuoteFree(d);
    RemoveQuotesTrailing(d);
  }
}
