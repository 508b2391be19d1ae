/**
 * The line tokenizer of the question importer. A double quote only flips an
 * "inside quotes" flag and is dropped; a comma outside quotes ends a field;
 * every field is trimmed. There is no `""` unescaping.
 */
module CsvTokenizer {
  import opened Text

  /** The untrimmed fields of `s` when scanning starts with the given quote state. */
  function RawFields(s: string, inQuotes: bool): (r: seq<string>)
    ensures |r| >= 1
  {
    if |s| == 0 then [""]
    else if s[0] == '"' then RawFields(s[1..], !inQuotes)
    else if s[0] == ',' && !inQuotes then [""] + RawFields(s[1..], inQuotes)
    else
      var rest := RawFields(s[1..], inQuotes);
      [[s[0]] + rest[0]] + rest[1..]
  }

  function TrimAll(xs: seq<string>): (r: seq<string>)
    ensures |r| == |xs|
    ensures forall k :: 0 <= k < |xs| ==> r[k] == Trim(xs[k])
  {
    seq(|xs|, k requires 0 <= k < |xs| => Trim(xs[k]))
  }

  lemma TrimAllSnoc(xs: seq<string>, x: string)
    ensures TrimAll(xs + [x]) == TrimAll(xs) + [Trim(x)]
  {
  }

  /** The fields of one CSV line. */
  function Tokenize(line: string): seq<string> {
    TrimAll(RawFields(line, false))
  }

  /** `cur` glued to the front of the first field of `fs`. */
  function Prepend(cur: string, fs: seq<string>): seq<string>
    requires |fs| >= 1
  {
    [cur + fs[0]] + fs[1..]
  }

  lemma PrependEmpty(fs: seq<string>)
    requires |fs| >= 1
    ensures Prepend("", fs) == fs
  {
    assert "" + fs[0] == fs[0];
    assert [fs[0]] + fs[1..] == fs;
  }

  /** What is already closed (`done`), the field being built (`cur`) and the
      fields the rest of the line will yield make up the whole line's fields. */
  ghost predicate ScanState(line: string, j: nat, inQuotes: bool, done: seq<string>, cur: string)
    requires j <= |line|
  {
    done + Prepend(cur, RawFields(line[j..], inQuotes)) == RawFields(line, false)
  }

  /** One step of the character loop keeps `ScanState`. */
  lemma ScanStep(line: string, j: nat, inQuotes: bool, done: seq<string>, cur: string)
    requires j < |line| && ScanState(line, j, inQuotes, done, cur)
    ensures line[j] == '"' ==> ScanState(line, j + 1, !inQuotes, done, cur)
    ensures line[j] == ',' && !inQuotes ==> ScanState(line, j + 1, inQuotes, done + [cur], "")
    ensures line[j] != '"' && !(line[j] == ',' && !inQuotes) ==>
      ScanState(line, j + 1, inQuotes, done, cur + [line[j]])
  {
    var s := line[j..];
    assert s[1..] == line[j + 1..];
    var rest := RawFields(s[1..], inQuotes);
    if s[0] == ',' && !inQuotes {
      var all := [""] + rest;
      assert all[0] == "" && all[1..] == rest;
      assert cur + "" == cur;
      PrependEmpty(rest);
      assert done + Prepend(cur, RawFields(s, inQuotes)) == (done + [cur]) + Prepend("", rest);
    } else if s[0] != '"' {
      assert cur + ([s[0]] + rest[0]) == (cur + [s[0]]) + rest[0];
    }
  }

  /** The character loop of the importer, as written: `values`, `current`
      and `inQuotes` updated one character at a time. */
  method TokenizeLine(line: string) returns (values: seq<string>)
    ensures values == Tokenize(line)
  {
    values := [];
    var current := "";
    var inQuotes := false;
    ghost var raw: seq<string> := [];
    var j := 0;
    assert line[0..] == line;
    PrependEmpty(RawFields(line, false));
    while j < |line|
      invariant 0 <= j <= |line|
      invariant values == TrimAll(raw)
      invariant ScanState(line, j, inQuotes, raw, current)
    {
      var c := line[j];
      ScanStep(line, j, inQuotes, raw, current);
      if c == '"' {
        inQuotes := !inQuotes;
      } else if c == ',' && !inQuotes {
        TrimAllSnoc(raw, current);
        values := values + [Trim(current)];
        raw := raw + [current];
        current := "";
      } else {
        current := current + [c];
      }
      j := j + 1;
    }
    assert line[j..] == "";
    assert current + "" == current;
    TrimAllSnoc(raw, current);
    values := values + [Trim(current)];
    raw := raw + [current];
  }

  /** No field of the raw split contains a double quote. */
  lemma {:induction false} RawFieldsNoQuote(s: string, inQuotes: bool)
    ensures forall k :: 0 <= k < |RawFields(s, inQuotes)| ==> '"' !in RawFields(s, inQuotes)[k]
  {
    if |s| > 0 {
      if s[0] == '"' {
        RawFieldsNoQuote(s[1..], !inQuotes);
      } else {
        RawFieldsNoQuote(s[1..], inQuotes);
      }
    }
  }

  /** A double quote is never copied into a field, and every field is trimmed. */
  lemma TokenizeFieldsClean(line: string)
    ensures forall k :: 0 <= k < |Tokenize(line)| ==> '"' !in Tokenize(line)[k]
    ensures forall k :: 0 <= k < |Tokenize(line)| ==> IsTrimmed(Tokenize(line)[k])
  {
    RawFieldsNoQuote(line, false);
  }

  /** Without any double quote the tokenizer is a plain split at commas followed by trimming. */
  lemma {:induction false} RawFieldsUnquoted(s: string)
    requires '"' !in s
    ensures RawFields(s, false) == Split(s, ',')
  {
    if |s| > 0 {
      assert '"' !in s[1..];
      RawFieldsUnquoted(s[1..]);
    }
  }

  lemma TokenizeUnquoted(line: string)
    requires '"' !in line
    ensures Tokenize(line) == TrimAll(Split(line, ','))
  {
    RawFieldsUnquoted(line);
  }

  /** A cell that tokenizes to itself: no comma, no quote, no surrounding whitespace. */
  predicate PlainCell(s: string) {
    ',' !in s && '"' !in s && IsTrimmed(s)
  }

  /** A line made of plain cells joined by commas splits back into exactly those cells. */
  lemma TokenizeJoin(cells: seq<string>)
    requires |cells| >= 1
    requires forall k :: 0 <= k < |cells| ==> PlainCell(cells[k])
    ensures Tokenize(Join(cells, ",")) == cells
  {
    var line := Join(cells, ",");
    JoinAvoids(cells, ",", '"');
    TokenizeUnquoted(line);
    assert [','] == ",";
    SplitJoin(cells, ',');
    TrimAllTrimmed(cells);
  }

  /** Trimming cells that are already trimmed changes nothing. */
  lemma TrimAllTrimmed(xs: seq<string>)
    requires forall k :: 0 <= k < |xs| ==> IsTrimmed(xs[k])
    ensures TrimAll(xs) == xs
  {
    forall k | 0 <= k < |xs| ensures TrimAll(xs)[k] == xs[k] {
      TrimOfTrimmed(xs[k]);
    }
  }

  /** Number of double quotes in `s`. */
  function QuoteCount(s: string): nat {
    if |s| == 0 then 0
    else QuoteCount(s[..|s| - 1]) + (if s[|s| - 1] == '"' then 1 else 0)
  }

  /** Position `k` of `line` lies inside a quoted span: an odd number of quotes precede it. */
  predicate InsideQuotes(line: string, k: nat)
    requires k <= |line|
  {
    QuoteCount(line[..k]) % 2 == 1
  }

  /** Number of commas among the first `n` characters of `line` that lie outside quotes. */
  function UnquotedCommas(line: string, n: nat): nat
    requires n <= |line|
  {
    if n == 0 then 0
    else UnquotedCommas(line, n - 1) + (if line[n - 1] == ',' && !InsideQuotes(line, n - 1) then 1 else 0)
  }

  lemma {:induction false} RawFieldsCount(line: string, j: nat)
    requires j <= |line|
    ensures |RawFields(line[j..], InsideQuotes(line, j))|
            == 1 + UnquotedCommas(line, |line|) - UnquotedCommas(line, j)
    decreases |line| - j
  {
    if j < |line| {
      assert line[j..][1..] == line[j + 1..];
      assert line[..j + 1][..j] == line[..j];
      RawFieldsCount(line, j + 1);
    }
  }

  /** A line has exactly one more field than it has commas outside quotes. */
  lemma TokenizeFieldCount(line: string)
    ensures |Tokenize(line)| == UnquotedCommas(line, |line|) + 1
  {
    RawFieldsCount(line, 0);
    assert line[0..] == line;
  }

  /** Inside quotes, everything up to the closing quote joins the current field. */
  lemma {:induction false} RawFieldsInsideQuotes(x: string, rest: string)
    requires '"' !in x
    ensures RawFields(x + ['"'] + rest, true) == Prepend(x, RawFields(rest, false))
  {
    if |x| == 0 {
      assert x + ['"'] + rest == ['"'] + rest;
      assert (['"'] + rest)[1..] == rest;
      PrependEmpty(RawFields(rest, false));
    } else {
      assert (x + ['"'] + rest)[1..] == x[1..] + ['"'] + rest;
      assert '"' !in x[1..];
      RawFieldsInsideQuotes(x[1..], rest);
      var r := RawFields(rest, false);
      assert [x[0]] + (x[1..] + r[0]) == x + r[0];
    }
  }

  /** A quoted span is copied into the field verbatim, commas included, quotes dropped. */
  lemma QuotedSpan(x: string, rest: string)
    requires '"' !in x
    ensures RawFields(['"'] + x + ['"'] + rest, false) == Prepend(x, RawFields(rest, false))
  {
    assert (['"'] + x + ['"'] + rest)[1..] == x + ['"'] + rest;
    RawFieldsInsideQuotes(x, rest);
  }

  /** A quoted cell is one field holding its text as it is, commas included. */
  lemma QuotedCell(x: string)
    requires '"' !in x && IsTrimmed(x)
    ensures Tokenize(['"'] + x + ['"']) == [x]
  {
    QuotedSpan(x, "");
    assert ['"'] + x + ['"'] + "" == ['"'] + x + ['"'];
    assert RawFields("", false) == [""];
    assert x + "" == x;
    TrimOfTrimmed(x);
  }

  lemma ParisFrance()
    ensures '"' !in "Paris, France" && IsTrimmed("Paris, France")
  {
  }

  /** A comma inside a quoted span does not split: `"Paris, France"` is one field. */
  lemma QuotedCommaKept()
    ensures Tokenize("\"Paris, France\"") == ["Paris, France"]
  {
    ParisFrance();
    QuotedCell("Paris, France");
    assert "\"Paris, France\"" == ['"'] + "Paris, France" + ['"'];
  }
}
