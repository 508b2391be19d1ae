/**
 * The CSV question importer: blank lines are dropped, the first remaining
 * line is a header, and every later line that has at least eight fields and
 * a readable correct option becomes one question record.
 */
module QuestionImport {
  import opened Wrappers
  import opened Text
  import opened CsvTokenizer
  import opened CorrectOption

  /** One imported question, before the uploader adds `created_by`. */
  datatype QuestionData = QuestionData(
    questionId: Option<string>,
    question: string,
    option1: string,
    option2: string,
    option3: string,
    option4: string,
    correctOption: int,
    difficultyLevel: string)

  /** Why a whole file yields no records at all. */
  datatype ImportError =
    | NoHeaderLine  // every line is blank, so reading the header line fails

  predicate IsDifficulty(s: string) {
    s == "easy" || s == "medium" || s == "hard"
  }

  /** What every emitted record satisfies. */
  predicate WellFormed(q: QuestionData) {
    1 <= q.correctOption <= 4 && IsDifficulty(q.difficultyLevel)
  }

  /** The difficulty column, lower-cased; anything unrecognised becomes `medium`. */
  function NormalizeDifficulty(field: string): (r: string)
    ensures IsDifficulty(r)
    ensures IsDifficulty(Lower(field)) ==> r == Lower(field)
    ensures !IsDifficulty(Lower(field)) ==> r == "medium"
  {
    var d := Lower(field);
    if IsDifficulty(d) then d else "medium"
  }

  lemma LowerUpper(s: string)
    ensures Lower(Upper(s)) == Lower(s)
  {
  }

  /** The difficulty column is read without regard to letter case, and
      normalising twice changes nothing. */
  lemma DifficultyCaseInsensitive(field: string)
    ensures NormalizeDifficulty(Upper(field)) == NormalizeDifficulty(field)
    ensures NormalizeDifficulty(NormalizeDifficulty(field)) == NormalizeDifficulty(field)
  {
    LowerUpper(field);
    var r := NormalizeDifficulty(field);
    assert Lower(r) == r;
  }

  /** The record for one row's fields, or `None` when the row is skipped. */
  function RecordFromFields(values: seq<string>): (r: Option<QuestionData>)
    ensures r.Some? <==> |values| >= 8 && ParseCorrectOption(values[6]).Some?
    ensures r.Some? ==> WellFormed(r.value)
  {
    if |values| < 8 then None
    else
      match ParseCorrectOption(values[6])
      case None => None
      case Some(c) =>
        Some(QuestionData(
          if values[0] == "" then None else Some(values[0]),
          values[1], values[2], values[3], values[4], values[5],
          c, NormalizeDifficulty(values[7])))
  }

  /** Fields map by position: the first six are copied, an empty id is absent. */
  lemma RecordFieldsByPosition(values: seq<string>)
    requires RecordFromFields(values).Some?
    ensures var q := RecordFromFields(values).value;
      && (q.questionId.None? <==> values[0] == "")
      && (q.questionId.Some? ==> q.questionId.value == values[0])
      && q.question == values[1]
      && q.option1 == values[2] && q.option2 == values[3]
      && q.option3 == values[4] && q.option4 == values[5]
      && Some(q.correctOption) == ParseCorrectOption(values[6])
  {
  }

  /** Fields after the eighth are ignored. */
  lemma ExtraFieldsIgnored(values: seq<string>, extra: seq<string>)
    requires |values| >= 8
    ensures RecordFromFields(values + extra) == RecordFromFields(values)
  {
    assert (values + extra)[..8] == values[..8];
  }

  /** A row with fewer than eight fields is skipped. */
  lemma ShortRowSkipped(values: seq<string>)
    requires |values| < 8
    ensures RecordFromFields(values) == None
  {
  }

  /** The record for one data line. */
  function ParseRow(line: string): Option<QuestionData> {
    RecordFromFields(Tokenize(line))
  }

  /** The list holding an option's value, or the empty list. */
  function Present<T>(o: Option<T>): (r: seq<T>)
    ensures |r| <= 1
  {
    if o.Some? then [o.value] else []
  }

  /** The values a partial parser yields on `lines`, in line order: a line it
      rejects contributes nothing. */
  function Collect<T>(lines: seq<string>, parse: string -> Option<T>): (r: seq<T>)
    ensures |r| <= |lines|
  {
    if |lines| == 0 then [] else Present(parse(lines[0])) + Collect(lines[1..], parse)
  }

  /** Each line contributes independently of the lines around it. */
  lemma {:induction false} CollectAppend<T>(a: seq<string>, b: seq<string>, parse: string -> Option<T>)
    ensures Collect(a + b, parse) == Collect(a, parse) + Collect(b, parse)
  {
    if |a| > 0 {
      assert (a + b)[0] == a[0];
      assert (a + b)[1..] == a[1..] + b;
      CollectAppend(a[1..], b, parse);
    } else {
      assert a + b == b;
    }
  }

  /** The records of the data lines, in order. */
  function DataRows(lines: seq<string>): (r: seq<QuestionData>)
    ensures |r| <= |lines|
    ensures forall k :: 0 <= k < |r| ==> WellFormed(r[k])
  {
    RowsWellFormed(lines);
    Collect(lines, ParseRow)
  }

  lemma {:induction false} RowsWellFormed(lines: seq<string>)
    ensures forall k :: 0 <= k < |Collect(lines, ParseRow)| ==> WellFormed(Collect(lines, ParseRow)[k])
  {
    if |lines| > 0 {
      RowsWellFormed(lines[1..]);
      var row := ParseRow(lines[0]);
      assert row.Some? ==> WellFormed(row.value);
      var rest := Collect(lines[1..], ParseRow);
      forall k | 0 <= k < |Present(row) + rest|
        ensures WellFormed((Present(row) + rest)[k])
      {
        if k < |Present(row)| {
          assert (Present(row) + rest)[k] == row.value;
        } else {
          assert (Present(row) + rest)[k] == rest[k - |Present(row)|];
        }
      }
    }
  }

  /** Records keep the order of their lines: each line contributes its own
      record or nothing, independently of the lines around it. */
  lemma DataRowsAppend(a: seq<string>, b: seq<string>)
    ensures DataRows(a + b) == DataRows(a) + DataRows(b)
  {
    CollectAppend(a, b, ParseRow);
  }

  /** The records of lines are those of the first line, then those of the rest. */
  lemma DataRowsUnfold(lines: seq<string>)
    requires |lines| > 0
    ensures DataRows(lines) == Present(ParseRow(lines[0])) + DataRows(lines[1..])
  {
  }

  lemma DataRowsSingle(line: string)
    ensures DataRows([line]) == Present(ParseRow(line))
  {
    DataRowsUnfold([line]);
    assert [line][1..] == [];
  }

  /** A data line that does not parse is dropped without a trace: the
      records are those of the lines before it and after it. */
  lemma SkippedRowLeavesNoRecord(before: seq<string>, line: string, after: seq<string>)
    requires ParseRow(line).None?
    ensures DataRows(before + [line] + after) == DataRows(before) + DataRows(after)
  {
    DataRowsAppend(before + [line], after);
    DataRowsAppend(before, [line]);
    DataRowsSingle(line);
  }

  predicate IsBlank(line: string) {
    Trim(line) == ""
  }

  /** The lines that are not whitespace-only, in order. */
  function NonBlank(lines: seq<string>): (r: seq<string>)
    ensures |r| <= |lines|
    ensures forall k :: 0 <= k < |r| ==> !IsBlank(r[k])
  {
    if |lines| == 0 then []
    else if IsBlank(lines[0]) then NonBlank(lines[1..])
    else [lines[0]] + NonBlank(lines[1..])
  }

  /** A line survives exactly when it is one of the lines and not blank. */
  lemma {:induction false} NonBlankMembers(lines: seq<string>)
    ensures forall l :: l in NonBlank(lines) <==> l in lines && !IsBlank(l)
  {
    if |lines| > 0 {
      NonBlankMembers(lines[1..]);
      assert lines == [lines[0]] + lines[1..];
    }
  }

  lemma {:induction false} NonBlankAppend(a: seq<string>, b: seq<string>)
    ensures NonBlank(a + b) == NonBlank(a) + NonBlank(b)
  {
    if |a| > 0 {
      assert (a + b)[0] == a[0];
      assert (a + b)[1..] == a[1..] + b;
      NonBlankAppend(a[1..], b);
    } else {
      assert a + b == b;
    }
  }

  /** Without blank lines nothing is dropped. */
  lemma {:induction false} NonBlankKeepsAll(lines: seq<string>)
    requires forall k :: 0 <= k < |lines| ==> !IsBlank(lines[k])
    ensures NonBlank(lines) == lines
  {
    if |lines| > 0 {
      NonBlankKeepsAll(lines[1..]);
      assert [lines[0]] + lines[1..] == lines;
    }
  }

  /** The non-blank lines of a text. */
  function TextLines(text: string): seq<string> {
    NonBlank(Split(text, '\n'))
  }

  /** `parseCSV`: the records of every data line, or `NoHeaderLine` when the
      text has no non-blank line at all. */
  function ParseCsv(text: string): (r: Result<seq<QuestionData>, ImportError>)
    ensures r.Failure? <==> |TextLines(text)| == 0
    ensures r.Success? ==> |r.value| <= |TextLines(text)| - 1
    ensures r.Success? ==> forall k :: 0 <= k < |r.value| ==> WellFormed(r.value[k])
  {
    var lines := TextLines(text);
    if |lines| == 0 then Failure(NoHeaderLine)
    else Success(DataRows(lines[1..]))
  }

  /** Lines split at a newline: the lines of each side. */
  lemma TextLinesAround(a: string, b: string)
    ensures TextLines(a + "\n" + b) == TextLines(a) + TextLines(b)
  {
    SplitAround(a, '\n', b);
    NonBlankAppend(Split(a, '\n'), Split(b, '\n'));
  }

  lemma BlankTextLines(w: string)
    requires '\n' !in w && IsBlank(w)
    ensures TextLines(w) == []
  {
    SplitNoSep(w, '\n');
  }

  lemma BlankLineLines(a: string, w: string, b: string)
    requires '\n' !in w && IsBlank(w)
    ensures TextLines(a + "\n" + w + "\n" + b) == TextLines(a + "\n" + b)
  {
    TextLinesAround(a + "\n" + w, b);
    TextLinesAround(a, w);
    BlankTextLines(w);
    TextLinesAround(a, b);
  }

  /** A whitespace-only line anywhere changes nothing. */
  lemma BlankLineIgnored(a: string, w: string, b: string)
    requires '\n' !in w && IsBlank(w)
    ensures ParseCsv(a + "\n" + w + "\n" + b) == ParseCsv(a + "\n" + b)
  {
    BlankLineLines(a, w, b);
  }

  /** The first non-blank line is the header: its content is never looked at
      and it never yields a record. */
  lemma HeaderSkipped(header: string, body: string)
    requires '\n' !in header && !IsBlank(header)
    ensures ParseCsv(header + "\n" + body) == Success(DataRows(TextLines(body)))
  {
    TextLinesAround(header, body);
    SplitNoSep(header, '\n');
    assert TextLines(header) == [header];
    assert ([header] + TextLines(body))[1..] == TextLines(body);
  }
}
