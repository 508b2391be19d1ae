/**
 * The upload action: refuse without a file or a signed-in user, parse the
 * file, then insert every record in order, one store call each, counting
 * successes and collecting one error line per failed insert. A failure never
 * stops the loop; nothing is retried or rolled back.
 */
module QuestionUpload {
  import opened Wrappers
  import opened Text
  import opened QuestionImport

  /** What is sent to the store: the record plus `created_by`. */
  datatype QuestionInsert = QuestionInsert(data: QuestionData, createdBy: string)

  /** The store's answer to one insert. */
  datatype InsertResult = Inserted | InsertFailed(message: string)

  /** The store, as an oracle: the answer to the `k`-th insert (0-based). */
  type Store = (nat, QuestionInsert) -> InsertResult

  /** One reported failure: the row number shown and the store's message. */
  datatype RowError = RowError(row: nat, message: string)

  /** The text shown for a failure: `Row <n>: <message>`. */
  function RenderError(e: RowError): string {
    "Row " + NatToString(e.row) + ": " + e.message
  }

  function RenderErrors(es: seq<RowError>): (r: seq<string>)
    ensures |r| == |es|
    ensures forall k :: 0 <= k < |es| ==> r[k] == RenderError(es[k])
  {
    seq(|es|, k requires 0 <= k < |es| => RenderError(es[k]))
  }

  /** How a failed insert is numbered in the report. */
  datatype Numbering =
    | SuccessCountPlusOne  // the code as written: one more than the successes so far
    | Position             // the record's 1-based position among the parsed records

  /** The accumulated state of the insert loop. */
  datatype UploadReport = UploadReport(success: nat, errors: seq<RowError>, attempted: seq<QuestionInsert>)

  /** The store's messages for the failed inserts among the first `n` records, in order. */
  function FailureMessages(records: seq<QuestionData>, user: string, store: Store, n: nat): seq<string>
    requires n <= |records|
  {
    if n == 0 then []
    else
      var prev := FailureMessages(records, user, store, n - 1);
      match store(n - 1, QuestionInsert(records[n - 1], user))
      case Inserted => prev
      case InsertFailed(m) => prev + [m]
  }

  function Messages(es: seq<RowError>): (r: seq<string>)
    ensures |r| == |es|
    ensures forall k :: 0 <= k < |es| ==> r[k] == es[k].message
  {
    seq(|es|, k requires 0 <= k < |es| => es[k].message)
  }

  /** The insert loop over the first `n` records. */
  function RunInserts(records: seq<QuestionData>, user: string, store: Store, numbering: Numbering, n: nat)
    : (r: UploadReport)
    requires n <= |records|
    ensures r.success + |r.errors| == n
    ensures |r.attempted| == n
    ensures forall k :: 0 <= k < n ==> r.attempted[k] == QuestionInsert(records[k], user)
  {
    if n == 0 then UploadReport(0, [], [])
    else
      var prev := RunInserts(records, user, store, numbering, n - 1);
      var ins := QuestionInsert(records[n - 1], user);
      match store(n - 1, ins)
      case Inserted => UploadReport(prev.success + 1, prev.errors, prev.attempted + [ins])
      case InsertFailed(m) =>
        var row := if numbering == Position then n else prev.success + 1;
        UploadReport(prev.success, prev.errors + [RowError(row, m)], prev.attempted + [ins])
  }

  /** Whatever the numbering, the reported messages are the store's messages
      for the failed inserts, in record order. */
  lemma {:induction false} ReportedMessages(records: seq<QuestionData>, user: string, store: Store, numbering: Numbering, n: nat)
    requires n <= |records|
    ensures Messages(RunInserts(records, user, store, numbering, n).errors) == FailureMessages(records, user, store, n)
  {
    if n > 0 {
      ReportedMessages(records, user, store, numbering, n - 1);
      MessagesGrow(records, user, store, numbering, n);
    }
  }

  /** The inductive step of `ReportedMessages`. */
  lemma MessagesGrow(records: seq<QuestionData>, user: string, store: Store, numbering: Numbering, n: nat)
    requires 0 < n <= |records|
    requires Messages(RunInserts(records, user, store, numbering, n - 1).errors) == FailureMessages(records, user, store, n - 1)
    ensures Messages(RunInserts(records, user, store, numbering, n).errors) == FailureMessages(records, user, store, n)
  {
    var prev := RunInserts(records, user, store, numbering, n - 1);
    match store(n - 1, QuestionInsert(records[n - 1], user))
    case Inserted =>
    case InsertFailed(m) =>
      MessagesSnoc(prev.errors, RowError(if numbering == Position then n else prev.success + 1, m));
  }

  lemma MessagesSnoc(es: seq<RowError>, e: RowError)
    ensures Messages(es + [e]) == Messages(es) + [e.message]
  {
  }

  /** The loop of the upload action, as written in the source: one store call
      per record, `successCount` incremented on success, otherwise an error
      line numbered `successCount + 1`. */
  method UploadLoop(questions: seq<QuestionData>, user: string, store: Store)
    returns (successCount: nat, errors: seq<string>)
    ensures successCount + |errors| == |questions|
    ensures successCount == RunInserts(questions, user, store, SuccessCountPlusOne, |questions|).success
    ensures errors == RenderErrors(RunInserts(questions, user, store, SuccessCountPlusOne, |questions|).errors)
  {
    successCount := 0;
    errors := [];
    var i := 0;
    while i < |questions|
      invariant 0 <= i <= |questions|
      invariant successCount == RunInserts(questions, user, store, SuccessCountPlusOne, i).success
      invariant errors == RenderErrors(RunInserts(questions, user, store, SuccessCountPlusOne, i).errors)
    {
      var result := store(i, QuestionInsert(questions[i], user));
      if result.InsertFailed? {
        AsWrittenFailure(questions, user, store, i, successCount, errors);
        errors := errors + ["Row " + NatToString(successCount + 1) + ": " + result.message];
      } else {
        AsWrittenSuccess(questions, user, store, i, successCount, errors);
        successCount := successCount + 1;
      }
      i := i + 1;
    }
  }

  /** A successful insert in the as-written loop adds one to the count and no error. */
  lemma AsWrittenSuccess(records: seq<QuestionData>, user: string, store: Store, i: nat,
                         successCount: nat, errors: seq<string>)
    requires i < |records| && store(i, QuestionInsert(records[i], user)).Inserted?
    requires successCount == RunInserts(records, user, store, SuccessCountPlusOne, i).success
    requires errors == RenderErrors(RunInserts(records, user, store, SuccessCountPlusOne, i).errors)
    ensures successCount + 1 == RunInserts(records, user, store, SuccessCountPlusOne, i + 1).success
    ensures errors == RenderErrors(RunInserts(records, user, store, SuccessCountPlusOne, i + 1).errors)
  {
  }

  /** A failed insert in the as-written loop adds the line `Row <count + 1>: <message>`. */
  lemma AsWrittenFailure(records: seq<QuestionData>, user: string, store: Store, i: nat,
                         successCount: nat, errors: seq<string>)
    requires i < |records| && store(i, QuestionInsert(records[i], user)).InsertFailed?
    requires successCount == RunInserts(records, user, store, SuccessCountPlusOne, i).success
    requires errors == RenderErrors(RunInserts(records, user, store, SuccessCountPlusOne, i).errors)
    ensures successCount == RunInserts(records, user, store, SuccessCountPlusOne, i + 1).success
    ensures errors + ["Row " + NatToString(successCount + 1) + ": " + store(i, QuestionInsert(records[i], user)).message]
         == RenderErrors(RunInserts(records, user, store, SuccessCountPlusOne, i + 1).errors)
  {
    var prev := RunInserts(records, user, store, SuccessCountPlusOne, i);
    RenderErrorsSnoc(prev.errors, RowError(successCount + 1, store(i, QuestionInsert(records[i], user)).message));
  }

  lemma RenderErrorsSnoc(es: seq<RowError>, e: RowError)
    ensures RenderErrors(es + [e]) == RenderErrors(es) + [RenderError(e)]
  {
  }

  /** The selected file, as far as reading it as text goes. */
  datatype SelectedFile = Readable(text: string) | Unreadable

  /** What the upload action ends with. */
  datatype UploadOutcome =
    | Refused                         // no file or no user: nothing parsed, nothing inserted
    | Failed                          // unreadable file or no header line: "Upload failed"
    | Completed(report: UploadReport) // every parsed record was attempted

  /** The upload action. `SuccessCountPlusOne` numbers failed rows as the
      source does (its loop is `UploadLoop`); `Position` is the corrected
      numbering (see `RowNumbersIdentifyRecords`). */
  function HandleUpload(file: Option<SelectedFile>, user: Option<string>, store: Store, numbering: Numbering)
    : (r: UploadOutcome)
    ensures r.Refused? <==> file.None? || user.None?
    ensures r.Failed? <==> file.Some? && user.Some?
                           && (file.value.Unreadable? || ParseCsv(file.value.text).Failure?)
    ensures r.Completed? ==>
      var records := ParseCsv(file.value.text).value;
      && r.report.success + |r.report.errors| == |records|
      && |r.report.attempted| == |records|
      && (forall k :: 0 <= k < |records| ==>
            r.report.attempted[k].data == records[k] && r.report.attempted[k].createdBy == user.value)
    ensures r.Completed? ==>
      var records := ParseCsv(file.value.text).value;
      r.report == RunInserts(records, user.value, store, numbering, |records|)
  {
    if file.None? || user.None? then Refused
    else
      match file.value
      case Unreadable => Failed
      case Readable(text) =>
        match ParseCsv(text)
        case Failure(_) => Failed
        case Success(records) => Completed(RunInserts(records, user.value, store, numbering, |records|))
  }

  /** A store that accepts every insert: all records succeed and no error is reported. */
  lemma {:induction false} AllAccepted(records: seq<QuestionData>, user: string, store: Store, numbering: Numbering, n: nat)
    requires n <= |records|
    requires forall k, q :: store(k, q) == Inserted
    ensures RunInserts(records, user, store, numbering, n).success == n
    ensures RunInserts(records, user, store, numbering, n).errors == []
  {
    if n > 0 {
      AllAccepted(records, user, store, numbering, n - 1);
    }
  }

  /** Uploading a file that parses, with a store that accepts every insert,
      inserts every record, in order, and reports no error. */
  lemma AcceptedUpload(text: string, user: string, store: Store, numbering: Numbering)
    requires ParseCsv(text).Success?
    requires forall k, q :: store(k, q) == Inserted
    ensures var records := ParseCsv(text).value;
            var r := HandleUpload(Some(Readable(text)), Some(user), store, numbering);
      && r.Completed? && r.report.success == |records| && r.report.errors == []
      && |r.report.attempted| == |records|
      && forall k :: 0 <= k < |records| ==> r.report.attempted[k] == QuestionInsert(records[k], user)
  {
    var records := ParseCsv(text).value;
    AllAccepted(records, user, store, numbering, |records|);
  }

  /** A failed insert does not stop the loop: a store that fails on the second
      of three records still sees all three, and the report shows two
      successes and one error, for row 2, under either numbering. */
  lemma SecondOfThreeFails(records: seq<QuestionData>, user: string, store: Store, numbering: Numbering)
    requires |records| == 3
    requires store(0, QuestionInsert(records[0], user)).Inserted?
    requires store(1, QuestionInsert(records[1], user)).InsertFailed?
    requires store(2, QuestionInsert(records[2], user)).Inserted?
    ensures var r := RunInserts(records, user, store, numbering, 3);
      && r.success == 2 && |r.errors| == 1 && r.errors[0].row == 2
      && r.errors[0].message == store(1, QuestionInsert(records[1], user)).message
      && r.attempted[2] == QuestionInsert(records[2], user)
  {
    var r1 := RunInserts(records, user, store, numbering, 1);
    var r2 := RunInserts(records, user, store, numbering, 2);
    assert r1.success == 1 && r1.errors == [];
    assert r2.success == 1 && |r2.errors| == 1 && r2.errors[0].row == 2;
  }

  /** The row numbers of `es` rise strictly. */
  predicate RowsIncrease(es: seq<RowError>) {
    forall i, j :: 0 <= i < j < |es| ==> es[i].row < es[j].row
  }

  /** Every error in `es` names one of the first `n` records, whose insert
      failed with exactly that error's message. */
  predicate RowsNameFailures(records: seq<QuestionData>, user: string, store: Store, n: nat, es: seq<RowError>)
    requires n <= |records|
  {
    forall i :: 0 <= i < |es| ==>
      1 <= es[i].row <= n
      && store(es[i].row - 1, QuestionInsert(records[es[i].row - 1], user)) == InsertFailed(es[i].message)
  }

  lemma RowsNameFailuresWiden(records: seq<QuestionData>, user: string, store: Store, n: nat, es: seq<RowError>)
    requires n < |records| && RowsNameFailures(records, user, store, n, es)
    ensures RowsNameFailures(records, user, store, n + 1, es)
  {
  }

  lemma RowsNameFailuresGrow(records: seq<QuestionData>, user: string, store: Store, n: nat,
                             es: seq<RowError>, e: RowError)
    requires n < |records| && RowsNameFailures(records, user, store, n, es)
    requires e.row == n + 1 && store(n, QuestionInsert(records[n], user)) == InsertFailed(e.message)
    ensures RowsNameFailures(records, user, store, n + 1, es + [e])
  {
  }

  lemma RowsIncreaseGrow(es: seq<RowError>, e: RowError)
    requires RowsIncrease(es) && forall i :: 0 <= i < |es| ==> es[i].row < e.row
    ensures RowsIncrease(es + [e])
  {
  }

  /** With `Position` numbering each failure names the record it belongs to:
      the row numbers rise strictly, and row `k` is the `k`-th record, whose
      insert failed with exactly that message. */
  lemma {:induction false} RowNumbersIdentifyRecords(records: seq<QuestionData>, user: string, store: Store, n: nat)
    requires n <= |records|
    ensures RowsIncrease(RunInserts(records, user, store, Position, n).errors)
    ensures RowsNameFailures(records, user, store, n, RunInserts(records, user, store, Position, n).errors)
  {
    if n > 0 {
      RowNumbersIdentifyRecords(records, user, store, n - 1);
      PositionGrow(records, user, store, n - 1);
    }
  }

  /** The inductive step of `RowNumbersIdentifyRecords`. */
  lemma PositionGrow(records: seq<QuestionData>, user: string, store: Store, i: nat)
    requires i < |records|
    requires RowsIncrease(RunInserts(records, user, store, Position, i).errors)
    requires RowsNameFailures(records, user, store, i, RunInserts(records, user, store, Position, i).errors)
    ensures RowsIncrease(RunInserts(records, user, store, Position, i + 1).errors)
    ensures RowsNameFailures(records, user, store, i + 1, RunInserts(records, user, store, Position, i + 1).errors)
  {
    var prev := RunInserts(records, user, store, Position, i).errors;
    var result := store(i, QuestionInsert(records[i], user));
    PositionStep(records, user, store, i);
    if result.InsertFailed? {
      var e := RowError(i + 1, result.message);
      RowsNameFailuresGrow(records, user, store, i, prev, e);
      RowsIncreaseGrow(prev, e);
    } else {
      RowsNameFailuresWiden(records, user, store, i, prev);
    }
  }

  /** One more record with `Position` numbering: a failure adds an error
      numbered with the record's position, a success adds none. */
  lemma PositionStep(records: seq<QuestionData>, user: string, store: Store, i: nat)
    requires i < |records|
    ensures var prev := RunInserts(records, user, store, Position, i).errors;
      var next := RunInserts(records, user, store, Position, i + 1).errors;
      match store(i, QuestionInsert(records[i], user))
      case Inserted => next == prev
      case InsertFailed(m) => next == prev + [RowError(i + 1, m)]
  {
  }

  /** The two numberings agree on everything except the row numbers. */
  lemma NumberingOnlyChangesRows(records: seq<QuestionData>, user: string, store: Store, n: nat)
    requires n <= |records|
    ensures var a := RunInserts(records, user, store, SuccessCountPlusOne, n);
            var b := RunInserts(records, user, store, Position, n);
      && a.success == b.success && a.attempted == b.attempted
      && Messages(a.errors) == Messages(b.errors)
  {
    ReportedMessages(records, user, store, SuccessCountPlusOne, n);
    ReportedMessages(records, user, store, Position, n);
  }

  /** The row numbers of `es` never decrease. */
  predicate RowsNonDecreasing(es: seq<RowError>) {
    forall i, j :: 0 <= i < j < |es| ==> es[i].row <= es[j].row
  }

  /** Every row number of `es` is between 1 and `success + 1`. */
  predicate RowsWithin(es: seq<RowError>, success: nat) {
    forall i :: 0 <= i < |es| ==> 1 <= es[i].row <= success + 1
  }

  /** As written, a failure is numbered one past the successes before it, so
      the numbers never decrease and none exceeds the final count plus one. */
  lemma {:induction false} AsWrittenRows(records: seq<QuestionData>, user: string, store: Store, n: nat)
    requires n <= |records|
    ensures var r := RunInserts(records, user, store, SuccessCountPlusOne, n);
      RowsNonDecreasing(r.errors) && RowsWithin(r.errors, r.success)
  {
    if n > 0 {
      AsWrittenRows(records, user, store, n - 1);
      AsWrittenGrow(records, user, store, n);
    }
  }

  /** The inductive step of `AsWrittenRows`. */
  lemma AsWrittenGrow(records: seq<QuestionData>, user: string, store: Store, n: nat)
    requires 0 < n <= |records|
    requires var r := RunInserts(records, user, store, SuccessCountPlusOne, n - 1);
      RowsNonDecreasing(r.errors) && RowsWithin(r.errors, r.success)
    ensures var r := RunInserts(records, user, store, SuccessCountPlusOne, n);
      RowsNonDecreasing(r.errors) && RowsWithin(r.errors, r.success)
  {
    var prev := RunInserts(records, user, store, SuccessCountPlusOne, n - 1);
    match store(n - 1, QuestionInsert(records[n - 1], user))
    case Inserted =>
      RowsWithinWiden(prev.errors, prev.success);
    case InsertFailed(m) =>
      RowsSnoc(prev.errors, prev.success, RowError(prev.success + 1, m));
  }

  lemma RowsWithinWiden(es: seq<RowError>, success: nat)
    requires RowsWithin(es, success)
    ensures RowsWithin(es, success + 1)
  {
  }

  lemma RowsSnoc(es: seq<RowError>, success: nat, e: RowError)
    requires RowsNonDecreasing(es) && RowsWithin(es, success) && e.row == success + 1
    ensures RowsNonDecreasing(es + [e]) && RowsWithin(es + [e], success)
  {
  }

  /** As written, two failures in a row are reported under the same row
      number, because the number only moves on a success. */
  lemma {:induction false} AsWrittenRowNumbersRepeat(records: seq<QuestionData>, user: string, store: Store, n: nat)
    requires n + 2 <= |records|
    requires store(n, QuestionInsert(records[n], user)).InsertFailed?
    requires store(n + 1, QuestionInsert(records[n + 1], user)).InsertFailed?
    ensures var es := RunInserts(records, user, store, SuccessCountPlusOne, n + 2).errors;
      |es| >= 2 && es[|es| - 2].row == es[|es| - 1].row
  {
    var r0 := RunInserts(records, user, store, SuccessCountPlusOne, n);
    var r1 := RunInserts(records, user, store, SuccessCountPlusOne, n + 1);
    assert r1.success == r0.success && r1.errors == r0.errors + [RowError(r0.success + 1, store(n, QuestionInsert(records[n], user)).message)];
  }
}
