/**
 * The questions table: the correct-answer text, the difficulty badge class,
 * the displayed question id, the list after a delete, who may delete, and
 * the row selection.
 */
module QuestionsTable {
  import opened Wrappers
  import opened Text
  import QuestionImport

  /** A stored question. `created_at` only orders the fetch and is not modelled. */
  datatype Question = Question(
    id: string,
    questionId: Option<string>,
    question: string,
    option1: string, option2: string, option3: string, option4: string,
    correctOption: int,
    difficultyLevel: string,
    createdBy: Option<string>)

  /** The four options, in order. */
  function Options(q: Question): seq<string> {
    [q.option1, q.option2, q.option3, q.option4]
  }

  /** `getCorrectOptionText`: the text of the correct option, or `Unknown`
      when the stored number is not 1 to 4. */
  function CorrectOptionText(q: Question): (r: string)
    ensures 1 <= q.correctOption <= 4 ==> r == Options(q)[q.correctOption - 1]
    ensures !(1 <= q.correctOption <= 4) ==> r == "Unknown"
  {
    match q.correctOption
    case 1 => q.option1
    case 2 => q.option2
    case 3 => q.option3
    case 4 => q.option4
    case _ => "Unknown"
  }

  /** The stored row for an imported record. */
  function Stored(id: string, data: QuestionImport.QuestionData, createdBy: Option<string>): Question {
    Question(id, data.questionId, data.question, data.option1, data.option2, data.option3, data.option4,
             data.correctOption, data.difficultyLevel, createdBy)
  }

  /** An imported question always shows one of its own options as the answer. */
  lemma ImportedAnswerIsAnOption(id: string, data: QuestionImport.QuestionData, createdBy: Option<string>)
    requires QuestionImport.WellFormed(data)
    ensures CorrectOptionText(Stored(id, data, createdBy)) in Options(Stored(id, data, createdBy))
  {
  }

  const EasyClass := "bg-green-100 text-green-800"
  const MediumClass := "bg-yellow-100 text-yellow-800"
  const HardClass := "bg-red-100 text-red-800"
  const DefaultClass := "bg-gray-100 text-gray-800"

  /** `getDifficultyColor`: the badge class for a difficulty. */
  function DifficultyColor(difficulty: string): (r: string)
    ensures r in {EasyClass, MediumClass, HardClass, DefaultClass}
    ensures r == DefaultClass <==> !QuestionImport.IsDifficulty(difficulty)
  {
    match difficulty
    case "easy" => EasyClass
    case "medium" => MediumClass
    case "hard" => HardClass
    case _ => DefaultClass
  }

  /** The three difficulties get three different classes, each different from the default. */
  lemma DifficultyColorsDistinct(a: string, b: string)
    requires QuestionImport.IsDifficulty(a) && QuestionImport.IsDifficulty(b)
    ensures DifficultyColor(a) == DifficultyColor(b) <==> a == b
  {
  }

  /** The id shown in the first column: the question's own id when it is
      present and not empty, else `Q` and the 1-based row number padded with
      zeros to three digits. */
  function DisplayId(q: Question, index: nat): string {
    match q.questionId
    case Some(qid) => if qid != "" then qid else RowLabel(index)
    case None => RowLabel(index)
  }

  /** `Q${String(index + 1).padStart(3, '0')}`. */
  function RowLabel(index: nat): (r: string)
    ensures |r| >= 4 && r[0] == 'Q'
  {
    "Q" + PadStart(NatToString(index + 1), 3, '0')
  }

  /** The fallback label reads back as the row number, and never loses a
      digit: the number's full decimal text ends the label. */
  lemma RowLabelReadsBack(index: nat)
    ensures AllDigits(RowLabel(index)[1..])
    ensures DecimalValue(RowLabel(index)[1..]) == index + 1
    ensures NatToString(index + 1) <= RowLabel(index)[|RowLabel(index)| - |NatToString(index + 1)|..]
    ensures |RowLabel(index)| == 1 + if index + 1 < 1000 then 3 else |NatToString(index + 1)|
  {
    var digits := NatToString(index + 1);
    var padded := PadStart(digits, 3, '0');
    assert RowLabel(index)[1..] == padded;
    var zeros := padded[..|padded| - |digits|];
    PadStartEndsWith(digits, 3, '0');
    DecimalValueLeadingZeros(zeros, digits);
    DecimalValueOfNatToString(index + 1);
    if index + 1 < 1000 {
      NatToStringShort(index + 1);
    }
  }

  lemma NatToStringShort(n: nat)
    requires n < 1000
    ensures |NatToString(n)| <= 3
  {
    if n >= 10 {
      assert |NatToString(n)| == |NatToString(n / 10)| + 1;
      if n / 10 >= 10 {
        assert |NatToString(n / 10)| == |NatToString(n / 10 / 10)| + 1;
        assert n / 10 / 10 < 10;
      }
    }
  }

  /** The first row without an id is shown as `Q001`. */
  lemma FirstRowLabel()
    ensures RowLabel(0) == "Q001"
  {
    assert NatToString(1) == "1";
    assert Repeat('0', 2) == "00";
  }

  /** A question's own non-empty id is always shown as it is. */
  lemma OwnIdShown(q: Question, index: nat)
    requires q.questionId.Some? && q.questionId.value != ""
    ensures DisplayId(q, index) == q.questionId.value
  {
  }

  /** The store's answer to a delete. */
  datatype DeleteResult = Deleted | DeleteFailed(message: string)

  /** The list without any entry of id `id`, in the same order. */
  function WithoutId(questions: seq<Question>, id: string): (r: seq<Question>)
    ensures |r| <= |questions|
    ensures forall q :: q in r <==> q in questions && q.id != id
  {
    if |questions| == 0 then []
    else if questions[0].id == id then WithoutId(questions[1..], id)
    else [questions[0]] + WithoutId(questions[1..], id)
  }

  /** Removal works piece by piece, so the remaining entries keep their order. */
  lemma {:induction false} WithoutIdAppend(a: seq<Question>, b: seq<Question>, id: string)
    ensures WithoutId(a + b, id) == WithoutId(a, id) + WithoutId(b, id)
  {
    if |a| > 0 {
      assert (a + b)[0] == a[0];
      assert (a + b)[1..] == a[1..] + b;
      WithoutIdAppend(a[1..], b, id);
    } else {
      assert a + b == b;
    }
  }

  /** Number of entries with id `id`. */
  function CountId(questions: seq<Question>, id: string): nat {
    if |questions| == 0 then 0
    else (if questions[0].id == id then 1 else 0) + CountId(questions[1..], id)
  }

  /** Exactly the entries with that id are removed. */
  lemma {:induction false} WithoutIdCount(questions: seq<Question>, id: string)
    ensures |WithoutId(questions, id)| == |questions| - CountId(questions, id)
  {
    if |questions| > 0 {
      WithoutIdCount(questions[1..], id);
    }
  }

  /** `deleteQuestion`: the list after the store answers. */
  function AfterDelete(questions: seq<Question>, id: string, result: DeleteResult): (r: seq<Question>)
    ensures result.DeleteFailed? ==> r == questions
    ensures result.Deleted? ==> forall q :: q in r <==> q in questions && q.id != id
  {
    if result.Deleted? then WithoutId(questions, id) else questions
  }

  /** Deleting twice is the same as deleting once. */
  lemma {:induction false} WithoutIdIdempotent(questions: seq<Question>, id: string)
    ensures WithoutId(WithoutId(questions, id), id) == WithoutId(questions, id)
  {
    if |questions| > 0 {
      WithoutIdIdempotent(questions[1..], id);
      if questions[0].id != id {
        var rest := WithoutId(questions[1..], id);
        assert ([questions[0]] + rest)[1..] == rest;
      }
    }
  }

  /** The delete button shows only for the signed-in author: with no user,
      or a question without an author, it never shows. */
  function CanDelete(user: Option<string>, q: Question): (r: bool)
    ensures r ==> user.Some? && q.createdBy.Some?
    ensures user.Some? && q.createdBy.Some? ==> (r <==> user.value == q.createdBy.value)
  {
    match user
    case None => false
    case Some(uid) => q.createdBy == Some(uid)
  }

  /** The view button: clicking the selected question clears the selection,
      clicking any other selects it. Questions are compared by id. */
  function ToggleSelection(selected: Option<Question>, q: Question): (r: Option<Question>)
    ensures r.None? <==> selected.Some? && selected.value.id == q.id
    ensures r.Some? ==> r.value == q
  {
    if selected.Some? && selected.value.id == q.id then None else Some(q)
  }

  /** Clicking the same question twice from no selection ends with no selection. */
  lemma ToggleTwice(q: Question)
    ensures ToggleSelection(ToggleSelection(None, q), q) == None
  {
  }
}
