/**
 * Writing a CSV file from plain cells and importing it again, and the
 * downloadable template as an instance: its header and four sample rows
 * import back as four well-formed records. The one long sample question is
 * written as two literal pieces joined with `+`; the text is the same.
 */
module ImportTemplate {
  import opened Wrappers
  import opened Text
  import opened CsvTokenizer
  import opened CorrectOption
  import opened QuestionImport
  import opened QuestionUpload

  /** A cell that can be written into a CSV line as it is. */
  predicate LineCell(s: string) {
    PlainCell(s) && '\n' !in s
  }

  /** Cells for one line that is not blank: the first cell is not empty. */
  predicate LineCells(cells: seq<string>) {
    && |cells| >= 1 && |cells[0]| > 0
    && forall k :: 0 <= k < |cells| ==> LineCell(cells[k])
  }

  /** A data row that imports: eight line cells, a non-empty id, and a
      correct-option cell that is a single digit from 1 to 4. */
  predicate SampleRow(cells: seq<string>) {
    && RecordShape(cells) && LineCells(cells)
    && 1 <= DigitValue(cells[6][0]) <= 4
  }

  /** Eight cells, the seventh a single digit: enough to name a record. */
  predicate RecordShape(cells: seq<string>) {
    |cells| == 8 && |cells[6]| == 1 && IsDigit(cells[6][0])
  }

  predicate SampleRows(rows: seq<seq<string>>) {
    forall k :: 0 <= k < |rows| ==> SampleRow(rows[k])
  }

  /** The record a data row is meant to become. */
  function SampleRecord(cells: seq<string>): QuestionData
    requires RecordShape(cells)
  {
    QuestionData(Some(cells[0]), cells[1], cells[2], cells[3], cells[4], cells[5],
                 DigitValue(cells[6][0]) as int, NormalizeDifficulty(cells[7]))
  }

  /** One CSV line per row of cells. */
  function CsvLines(rows: seq<seq<string>>): (r: seq<string>)
    ensures |r| == |rows|
    ensures forall k :: 0 <= k < |rows| ==> r[k] == Join(rows[k], ",")
  {
    if |rows| == 0 then [] else [Join(rows[0], ",")] + CsvLines(rows[1..])
  }

  /** A CSV file: the header line, then one line per row. */
  function CsvText(header: seq<string>, rows: seq<seq<string>>): string {
    Join([Join(header, ",")] + CsvLines(rows), "\n")
  }

  /** The records the rows are meant to become, in order. */
  function SampleRecords(rows: seq<seq<string>>): (r: seq<QuestionData>)
    requires forall k :: 0 <= k < |rows| ==> RecordShape(rows[k])
    ensures |r| == |rows|
    ensures forall k :: 0 <= k < |rows| ==> r[k] == SampleRecord(rows[k])
  {
    if |rows| == 0 then [] else [SampleRecord(rows[0])] + SampleRecords(rows[1..])
  }

  lemma SingleDigit(d: string)
    requires |d| == 1 && IsDigit(d[0])
    ensures AllDigits(d) && DecimalValue(d) == DigitValue(d[0])
  {
    assert d[..0] == [];
  }

  lemma SampleRowAnswer(cells: seq<string>)
    requires SampleRow(cells)
    ensures ParseCorrectOption(cells[6]) == Some(DigitValue(cells[6][0]) as int)
  {
    SingleDigit(cells[6]);
    NumberAnswer(cells[6]);
  }

  lemma SampleRowFields(cells: seq<string>)
    requires SampleRow(cells)
    ensures Tokenize(Join(cells, ",")) == cells
  {
    TokenizeJoin(cells);
  }

  /** A data row's line parses to the row's record. */
  lemma SampleRowRecord(cells: seq<string>)
    requires SampleRow(cells)
    ensures ParseRow(Join(cells, ",")) == Some(SampleRecord(cells))
  {
    SampleRowAnswer(cells);
    SampleRowFields(cells);
  }

  /** A line written from line cells has no line break and is not blank. */
  lemma CellsLine(cells: seq<string>)
    requires LineCells(cells)
    ensures '\n' !in Join(cells, ",") && !IsBlank(Join(cells, ","))
  {
    JoinAvoids(cells, ",", '\n');
    JoinStartsWithFirst(cells, ",");
    assert Join(cells, ",")[0] == cells[0][0];
  }

  /** The data rows' lines parse to their records, in order. */
  lemma {:induction false} SampleRowsRecords(rows: seq<seq<string>>)
    requires SampleRows(rows)
    ensures DataRows(CsvLines(rows)) == SampleRecords(rows)
  {
    if |rows| > 0 {
      var lines := CsvLines(rows);
      DataRowsUnfold(lines);
      SampleRowsRecords(rows[1..]);
      SampleRowRecord(rows[0]);
      assert lines[1..] == CsvLines(rows[1..]);
    }
  }

  /** The lines of a written CSV file are its header line and row lines. */
  lemma CsvTextLines(header: seq<string>, rows: seq<seq<string>>)
    requires LineCells(header) && |rows| >= 1 && SampleRows(rows)
    ensures CsvText(header, rows) == Join(header, ",") + "\n" + Join(CsvLines(rows), "\n")
    ensures TextLines(Join(CsvLines(rows), "\n")) == CsvLines(rows)
  {
    var body := CsvLines(rows);
    forall k | 0 <= k < |body| ensures '\n' !in body[k] && !IsBlank(body[k]) {
      CellsLine(rows[k]);
    }
    SplitJoin(body, '\n');
    NonBlankKeepsAll(body);
  }

  /** Round trip: a CSV file written from a header and data rows of plain
      cells imports back as exactly the rows' records, in order. */
  lemma CsvTextImports(header: seq<string>, rows: seq<seq<string>>)
    requires LineCells(header) && |rows| >= 1 && SampleRows(rows)
    ensures ParseCsv(CsvText(header, rows)) == Success(SampleRecords(rows))
  {
    CellsLine(header);
    CsvTextLines(header, rows);
    HeaderSkipped(Join(header, ","), Join(CsvLines(rows), "\n"));
    SampleRowsRecords(rows);
  }

  const HeaderCells: seq<string> :=
    ["Question ID", "Question", "Option 1", "Option 2", "Option 3", "Option 4",
     "Correct Option", "Difficulty Level"]

  const Row1: seq<string> :=
    ["Q001", "What is the capital of France?", "London", "Berlin", "Paris", "Madrid", "3", "easy"]

  /** The second sample question, in two pieces. */
  const Question2a: string := "Which programming language "
  const Question2b: string := "is used for web development?"

  const Row2: seq<string> :=
    ["Q002", Question2a + Question2b,
     "Python", "JavaScript", "C++", "Java", "2", "medium"]

  const Row3: seq<string> :=
    ["Q003", "What is 2 + 2?", "3", "4", "5", "6", "2", "easy"]

  const Row4: seq<string> :=
    ["Q004", "What is the largest planet?", "Earth", "Jupiter", "Mars", "Venus", "2", "hard"]

  /** The template file's text. */
  function TemplateText(): string {
    CsvText(HeaderCells, [Row1, Row2, Row3, Row4])
  }

  lemma SampleByCells(cells: seq<string>)
    requires LineCells(cells) && |cells| == 8
    requires |cells[6]| == 1 && '1' <= cells[6][0] <= '4'
    ensures SampleRow(cells)
  {
  }

  /** A row of eight line cells with a non-empty first cell. */
  lemma RowByCells(cells: seq<string>)
    requires |cells| == 8 && |cells[0]| > 0
    requires LineCell(cells[0]) && LineCell(cells[1]) && LineCell(cells[2]) && LineCell(cells[3])
    requires LineCell(cells[4]) && LineCell(cells[5]) && LineCell(cells[6]) && LineCell(cells[7])
    ensures LineCells(cells)
  {
  }

  /** Two pieces without separators, quotes or line ends, the first not
      starting and the second not ending with whitespace, make a line cell. */
  lemma CellConcat(a: string, b: string)
    requires |a| > 0 && |b| > 0 && !IsSpace(a[0]) && !IsSpace(b[|b| - 1])
    requires ',' !in a && '"' !in a && '\n' !in a
    requires ',' !in b && '"' !in b && '\n' !in b
    ensures LineCell(a + b)
  {
    assert (a + b)[0] == a[0];
    assert (a + b)[|a + b| - 1] == b[|b| - 1];
  }


  /** The cells of `HeaderCells`, one at a time. */
  lemma HeadCell0() ensures LineCell(HeaderCells[0]) { }
  lemma HeadCell1() ensures LineCell(HeaderCells[1]) { }
  lemma HeadCell2() ensures LineCell(HeaderCells[2]) { }
  lemma HeadCell3() ensures LineCell(HeaderCells[3]) { }
  lemma HeadCell4() ensures LineCell(HeaderCells[4]) { }
  lemma HeadCell5() ensures LineCell(HeaderCells[5]) { }
  lemma HeadCell6() ensures LineCell(HeaderCells[6]) { }
  lemma HeadCell7() ensures LineCell(HeaderCells[7]) { }
  lemma HeadCells() ensures LineCells(HeaderCells) {
    HeadCell0(); HeadCell1(); HeadCell2(); HeadCell3();
    HeadCell4(); HeadCell5(); HeadCell6(); HeadCell7();
    RowByCells(HeaderCells);
  }

  /** The cells of `Row1`, one at a time. */
  lemma Row1Cell0() ensures LineCell(Row1[0]) { }
  lemma Row1Cell1() ensures LineCell(Row1[1]) { }
  lemma Row1Cell2() ensures LineCell(Row1[2]) { }
  lemma Row1Cell3() ensures LineCell(Row1[3]) { }
  lemma Row1Cell4() ensures LineCell(Row1[4]) { }
  lemma Row1Cell5() ensures LineCell(Row1[5]) { }
  lemma Row1Cell6() ensures LineCell(Row1[6]) { }
  lemma Row1Cell7() ensures LineCell(Row1[7]) { }
  lemma Row1Cells() ensures LineCells(Row1) {
    Row1Cell0(); Row1Cell1(); Row1Cell2(); Row1Cell3();
    Row1Cell4(); Row1Cell5(); Row1Cell6(); Row1Cell7();
    RowByCells(Row1);
  }

  /** The cells of `Row2`, one at a time. */
  lemma Row2Cell0() ensures LineCell(Row2[0]) { }
  lemma Row2Cell2() ensures LineCell(Row2[2]) { }
  lemma Row2Cell3() ensures LineCell(Row2[3]) { }
  lemma Row2Cell4() ensures LineCell(Row2[4]) { }
  lemma Row2Cell5() ensures LineCell(Row2[5]) { }
  lemma Row2Cell6() ensures LineCell(Row2[6]) { }
  lemma Row2Cell7() ensures LineCell(Row2[7]) { }
  lemma Question2Start() ensures !IsSpace(Question2a[0]) && ',' !in Question2a && '"' !in Question2a { }
  lemma Question2StartLine() ensures '\n' !in Question2a { }
  lemma Question2End() ensures !IsSpace(Question2b[|Question2b| - 1]) && ',' !in Question2b && '"' !in Question2b { }
  lemma Question2EndLine() ensures '\n' !in Question2b { }
  lemma Row2Cell1() ensures LineCell(Row2[1]) {
    Question2Start(); Question2StartLine(); Question2End(); Question2EndLine();
    CellConcat(Question2a, Question2b);
  }
  lemma Row2Cells() ensures LineCells(Row2) {
    Row2Cell0(); Row2Cell1(); Row2Cell2(); Row2Cell3();
    Row2Cell4(); Row2Cell5(); Row2Cell6(); Row2Cell7();
    RowByCells(Row2);
  }

  /** The cells of `Row3`, one at a time. */
  lemma Row3Cell0() ensures LineCell(Row3[0]) { }
  lemma Row3Cell1() ensures LineCell(Row3[1]) { }
  lemma Row3Cell2() ensures LineCell(Row3[2]) { }
  lemma Row3Cell3() ensures LineCell(Row3[3]) { }
  lemma Row3Cell4() ensures LineCell(Row3[4]) { }
  lemma Row3Cell5() ensures LineCell(Row3[5]) { }
  lemma Row3Cell6() ensures LineCell(Row3[6]) { }
  lemma Row3Cell7() ensures LineCell(Row3[7]) { }
  lemma Row3Cells() ensures LineCells(Row3) {
    Row3Cell0(); Row3Cell1(); Row3Cell2(); Row3Cell3();
    Row3Cell4(); Row3Cell5(); Row3Cell6(); Row3Cell7();
    RowByCells(Row3);
  }

  /** The cells of `Row4`, one at a time. */
  lemma Row4Cell0() ensures LineCell(Row4[0]) { }
  lemma Row4Cell1() ensures LineCell(Row4[1]) { }
  lemma Row4Cell2() ensures LineCell(Row4[2]) { }
  lemma Row4Cell3() ensures LineCell(Row4[3]) { }
  lemma Row4Cell4() ensures LineCell(Row4[4]) { }
  lemma Row4Cell5() ensures LineCell(Row4[5]) { }
  lemma Row4Cell6() ensures LineCell(Row4[6]) { }
  lemma Row4Cell7() ensures LineCell(Row4[7]) { }
  lemma Row4Cells() ensures LineCells(Row4) {
    Row4Cell0(); Row4Cell1(); Row4Cell2(); Row4Cell3();
    Row4Cell4(); Row4Cell5(); Row4Cell6(); Row4Cell7();
    RowByCells(Row4);
  }

  lemma SampleRow1() ensures SampleRow(Row1) {
    Row1Cells();
    SampleByCells(Row1);
  }

  lemma SampleRow2() ensures SampleRow(Row2) {
    Row2Cells();
    SampleByCells(Row2);
  }

  lemma SampleRow3() ensures SampleRow(Row3) {
    Row3Cells();
    SampleByCells(Row3);
  }

  lemma SampleRow4() ensures SampleRow(Row4) {
    Row4Cells();
    SampleByCells(Row4);
  }

  lemma EasyKept() ensures NormalizeDifficulty("easy") == "easy" { }
  lemma MediumKept() ensures NormalizeDifficulty("medium") == "medium" { }
  lemma HardKept() ensures NormalizeDifficulty("hard") == "hard" { }

  /** The template's four sample questions, with correct options 3, 2, 2, 2. */
  function TemplateRecords(): seq<QuestionData> {
    [ QuestionData(Some(Row1[0]), Row1[1], Row1[2], Row1[3], Row1[4], Row1[5], 3, "easy"),
      QuestionData(Some(Row2[0]), Row2[1], Row2[2], Row2[3], Row2[4], Row2[5], 2, "medium"),
      QuestionData(Some(Row3[0]), Row3[1], Row3[2], Row3[3], Row3[4], Row3[5], 2, "easy"),
      QuestionData(Some(Row4[0]), Row4[1], Row4[2], Row4[3], Row4[4], Row4[5], 2, "hard") ]
  }

  lemma SampleRecord1() ensures SampleRow(Row1) && SampleRecord(Row1) == TemplateRecords()[0] {
    SampleRow1();
    EasyKept();
  }

  lemma SampleRecord2() ensures SampleRow(Row2) && SampleRecord(Row2) == TemplateRecords()[1] {
    SampleRow2();
    MediumKept();
  }

  lemma SampleRecord3() ensures SampleRow(Row3) && SampleRecord(Row3) == TemplateRecords()[2] {
    SampleRow3();
    EasyKept();
  }

  lemma SampleRecord4() ensures SampleRow(Row4) && SampleRecord(Row4) == TemplateRecords()[3] {
    SampleRow4();
    HardKept();
  }

  lemma FourRows(a: seq<string>, b: seq<string>, c: seq<string>, d: seq<string>)
    requires SampleRow(a) && SampleRow(b) && SampleRow(c) && SampleRow(d)
    ensures SampleRows([a, b, c, d])
  {
    var rows := [a, b, c, d];
    assert rows[0] == a && rows[1] == b && rows[2] == c && rows[3] == d;
  }

  lemma FourRecords(a: seq<string>, b: seq<string>, c: seq<string>, d: seq<string>)
    requires RecordShape(a) && RecordShape(b) && RecordShape(c) && RecordShape(d)
    ensures SampleRecords([a, b, c, d])
            == [SampleRecord(a), SampleRecord(b), SampleRecord(c), SampleRecord(d)]
  {
    var rows := [a, b, c, d];
    assert rows[0] == a && rows[1] == b && rows[2] == c && rows[3] == d;
    var r := SampleRecords(rows);
    assert r[0] == SampleRecord(a) && r[1] == SampleRecord(b);
    assert r[2] == SampleRecord(c) && r[3] == SampleRecord(d);
  }

  lemma TemplateSampleRecords()
    ensures SampleRows([Row1, Row2, Row3, Row4])
    ensures SampleRecords([Row1, Row2, Row3, Row4]) == TemplateRecords()
  {
    SampleRow1(); SampleRow2(); SampleRow3(); SampleRow4();
    FourRows(Row1, Row2, Row3, Row4);
    FourRecords(Row1, Row2, Row3, Row4);
    SampleRecord1(); SampleRecord2(); SampleRecord3(); SampleRecord4();
  }

  /** Importing the template gives back its four sample questions. */
  lemma TemplateImports()
    ensures ParseCsv(TemplateText()) == Success(TemplateRecords())
  {
    HeadCells();
    TemplateSampleRecords();
    CsvTextImports(HeaderCells, [Row1, Row2, Row3, Row4]);
  }

  /** Uploading the template as a signed-in user with a store that accepts
      everything inserts all four questions, in order, and reports no error. */
  lemma TemplateUploads(user: string, store: Store, numbering: Numbering)
    requires forall k, q :: store(k, q) == Inserted
    ensures var r := HandleUpload(Some(Readable(TemplateText())), Some(user), store, numbering);
      && r.Completed? && r.report.success == 4 && r.report.errors == []
      && |r.report.attempted| == 4
      && forall k :: 0 <= k < 4 ==> r.report.attempted[k] == QuestionInsert(TemplateRecords()[k], user)
  {
    TemplateImports();
    AcceptedUpload(TemplateText(), user, store, numbering);
  }
}
