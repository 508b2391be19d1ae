# StudyMates question importer and page helpers, in Dafny

This project models the client-side logic of the StudyMates study app that
is more than layout:

- the CSV question importer of the question-upload page;
- the upload loop that inserts the parsed questions one by one;
- the downloadable template file;
- the pure helpers of the questions table, the profile page, the quiz lobby,
  the quiz catalog and the friends page.

It proves properties of that model.

The importer is modelled in four steps:

- **CSV tokenizer.** A `"` toggles a flag and is dropped. A `,` outside quotes ends a field. Every field is trimmed.
- **Row mapping.** The first eight fields are taken by position. Rows with fewer than eight fields, or with an unreadable correct option, are skipped.
- **Correct-option reading.** The text is lower-cased, trimmed and stripped of quotes. Then three encodings are tried in order:
  - `/option\s*(\d+)/` with `parseInt`;
  - a single letter `a`–`d`;
  - `parseInt` of the whole text.
- **Difficulty.** The column is lower-cased. Anything other than `easy`, `medium` or `hard` becomes `medium`.

JavaScript's `trim`, `split`, `join`, `padStart`, `parseInt` (sign, `0x` prefix, longest digit run, NaN) and the regular expression are written out in `text.dfy` and `correct_option.dfy`.

The store, the file reader and the other backend calls are not modelled; they become parameters:

- The upload's insert call is a `Store` oracle. It gives the answer to the `k`-th insert.
- Reading the file is a `SelectedFile` value.
- Every other backend answer (profile fetch and save, invite, join, friend connections and profile lookup) is a parameter of the step that receives it.

Modules, one per file:

| module | models |
|---|---|
| `Wrappers` | `Option` and `Result` |
| `Text` | the JavaScript string operations the source uses |
| `CsvTokenizer` | the per-line field scanner, as a function and as the source's loop |
| `CorrectOption` | the correct-option column and `parseInt` |
| `QuestionImport` | `parseCSV`: blank lines, header, row mapping, difficulty |
| `QuestionUpload` | `handleUpload`: the insert loop and its report |
| `ImportTemplate` | writing a CSV from plain cells, and the downloadable template |
| `QuestionsTable` | answer text, badge class, displayed id, delete, selection |
| `Profile` | skills parse and join, form defaults, save and fetch steps |
| `Lobby` | user-code field, invite and join steps, player slots, start gate |
| `Quiz` | the quiz catalog, the player filter, select and cancel |
| `Friends` | friend ids from connections, the fetch step |

## Model

| member | source | states |
|---|---|---|
| CsvTokenizer.TokenizeLine | src/pages/QuestionUpload.tsx:57-72 | The source's character loop yields exactly the fields of the functional tokenizer `Tokenize`. |
| CsvTokenizer.TokenizeFieldsClean | src/pages/QuestionUpload.tsx:61-72 | No field ever contains a double quote, and every field is whitespace-trimmed. |
| CsvTokenizer.TokenizeFieldCount | src/pages/QuestionUpload.tsx:61-72 | A line has exactly one more field than it has commas outside quotes. |
| CsvTokenizer.TokenizeUnquoted | src/pages/QuestionUpload.tsx:61-72 | On a line without quotes, the tokenizer is `split(',')` followed by trimming each piece. |
| CsvTokenizer.QuotedSpan | src/pages/QuestionUpload.tsx:63-70 | A quoted span is copied into the current field verbatim, commas included, with its quotes dropped. |
| CsvTokenizer.QuotedCell | src/pages/QuestionUpload.tsx:63-72 | A trimmed cell without double quotes, wrapped in quotes, tokenizes to that one cell. |
| CsvTokenizer.QuotedCommaKept | src/pages/QuestionUpload.tsx:63-70 | `"Paris, France"` tokenizes to the single field `Paris, France`. |
| CsvTokenizer.TokenizeJoin | src/pages/QuestionUpload.tsx:61-72 | Cells with no comma, no quote and no surrounding whitespace, joined by commas, tokenize back to exactly those cells. |
| CorrectOption.ParseCorrectOption | src/pages/QuestionUpload.tsx:77-99 | The result is always in 1..4. It is present exactly when the number read from the column is in 1..4, and then it equals that number. |
| CorrectOption.NumberAnswer | src/pages/QuestionUpload.tsx:90-96 | A digit string is read as its decimal value: kept when the value is 1..4, rejected otherwise. |
| CorrectOption.LabelAnswer | src/pages/QuestionUpload.tsx:82-85 | `option`, in any letter case, followed by any whitespace and digits, is read as the number after it. |
| CorrectOption.LetterAnswer | src/pages/QuestionUpload.tsx:86-89 | A single letter a–d, in either case, is option 1–4. |
| CorrectOption.WordAnswer | src/pages/QuestionUpload.tsx:90-99 | A short lower-case word other than a–d reads as NaN, so the row is rejected. |
| CorrectOption.OptionWithoutNumber | src/pages/QuestionUpload.tsx:82-85 | `4 option` reads as NaN: once `option` appears, only digits after it count. |
| CorrectOption.ParseIntDigits | src/pages/QuestionUpload.tsx:92 | `parseInt` of a digit string is its decimal value, leading zeros included. |
| CorrectOption.ParseIntHex | src/pages/QuestionUpload.tsx:92 | `parseInt` honours a `0x` prefix and reads the rest as hexadecimal. |
| CorrectOption.ParseIntStopsAtNonDigit | src/pages/QuestionUpload.tsx:92 | `parseInt` reads the leading digits and ignores whatever follows them (so `2.9` is 2). |
| CorrectOption.QuotedAnswer | src/pages/QuestionUpload.tsx:77 | Single quotes around a number are stripped before it is read. |
| QuestionImport.NormalizeDifficulty | src/pages/QuestionUpload.tsx:109-115 | The result is always easy, medium or hard. A recognised lower-cased value is kept; anything else becomes `medium`. |
| QuestionImport.DifficultyCaseInsensitive | src/pages/QuestionUpload.tsx:109-115 | Difficulty is read regardless of letter case, and normalising twice changes nothing. |
| QuestionImport.RecordFromFields | src/pages/QuestionUpload.tsx:74-117 | A record is produced exactly when there are at least eight fields and the correct option is readable. Every record produced is well-formed. |
| QuestionImport.RecordFieldsByPosition | src/pages/QuestionUpload.tsx:101-108 | Fields 0–5 map by position to the id, the question and the four options. An empty id becomes an absent `question_id`. |
| QuestionImport.ExtraFieldsIgnored | src/pages/QuestionUpload.tsx:74-110 | Fields after the eighth do not affect the record. |
| QuestionImport.ShortRowSkipped | src/pages/QuestionUpload.tsx:74 | A row with fewer than eight fields yields no record. |
| QuestionImport.DataRows | src/pages/QuestionUpload.tsx:55-119 | There are no more records than data lines, and every record is well-formed. |
| QuestionImport.DataRowsAppend | src/pages/QuestionUpload.tsx:55-117 | Records keep their line order: each line contributes its own record, or nothing. |
| QuestionImport.SkippedRowLeavesNoRecord | src/pages/QuestionUpload.tsx:95-99 | A row that fails validation is dropped silently; the records are those of the lines around it. |
| QuestionImport.NonBlank | src/pages/QuestionUpload.tsx:51 | No surviving line is whitespace-only, and no line is added. |
| QuestionImport.NonBlankMembers | src/pages/QuestionUpload.tsx:51 | A line survives exactly when it is in the text and is not whitespace-only. |
| QuestionImport.ParseCsv | src/pages/QuestionUpload.tsx:50-122 | Parsing fails exactly when no line is non-blank. Otherwise it yields at most one record per non-header line, all well-formed. |
| Text.TrimCutsWhitespace | src/pages/QuestionUpload.tsx:51 | `trim` keeps one slice `s[i..j]` of the text, with `i` the length of the leading whitespace run; everything before `i` and from `j` on is whitespace. |
| Text.TrimIdempotent | src/pages/QuestionUpload.tsx:51 | Trimming twice is the same as trimming once. |
| QuestionImport.BlankLineIgnored | src/pages/QuestionUpload.tsx:51 | Inserting a whitespace-only line anywhere does not change the result. |
| QuestionImport.HeaderSkipped | src/pages/QuestionUpload.tsx:51-55 | The first non-blank line is the header: it is never read as data, whatever it holds. |
| QuestionUpload.RunInserts | src/pages/QuestionUpload.tsx:142-155 | Every record is attempted in order with `created_by` set to the user. Successes plus errors equal the number of records. |
| QuestionUpload.ReportedMessages | src/pages/QuestionUpload.tsx:142-155 | Whatever the numbering, the reported messages are exactly the store's failure messages, in record order. |
| QuestionUpload.UploadLoop | src/pages/QuestionUpload.tsx:135-157 | The source's loop, error text included, computes the same count and `Row N: message` lines as the as-written fold, and successes plus errors equal the number of records. |
| QuestionUpload.HandleUpload | src/pages/QuestionUpload.tsx:124-175 | No file or no user is refused. An unreadable file or a text with no header line fails. Otherwise every parsed record is attempted in order, carrying the user's id, successes plus errors equal the number of records, and the report is the insert fold with the chosen numbering. With the source's `SuccessCountPlusOne` numbering that fold is what `UploadLoop` computes, `Row {successCount + 1}: message` lines included. |
| QuestionUpload.AsWrittenRows | src/pages/QuestionUpload.tsx:142-155 | As written, error row numbers never decrease, and each lies between 1 and the final success count plus one. |
| QuestionUpload.AllAccepted | src/pages/QuestionUpload.tsx:142-155 | If the store accepts every insert, every record succeeds and no error is reported, whatever the numbering. |
| QuestionUpload.SecondOfThreeFails | src/pages/QuestionUpload.tsx:142-155 | A store failing the 2nd of 3 inserts gives 2 successes and one error for row 2, and the 3rd record is still attempted, with the source's numbering and the corrected one alike. |
| QuestionUpload.NumberingOnlyChangesRows | src/pages/QuestionUpload.tsx:142-155 | The as-written and corrected numberings agree on the success count, the attempts and the messages. |
| QuestionUpload.AsWrittenRowNumbersRepeat | src/pages/QuestionUpload.tsx:150-154 | As written, two failures in a row carry the same row number. |
| QuestionUpload.RowNumbersIdentifyRecords | src/pages/QuestionUpload.tsx:150-152 | With position numbering, row numbers rise strictly, and row `k` names the `k`-th record, whose insert failed with exactly that message. |
| ImportTemplate.CsvTextImports | src/pages/QuestionUpload.tsx:50-122 | A CSV written from a header and data rows of plain cells imports back as exactly the rows' records, in order. |
| ImportTemplate.TemplateImports | src/pages/QuestionUpload.tsx:178-182 | The template imports as its four questions, with correct options 3, 2, 2, 2 and difficulties easy, medium, easy, hard. |
| ImportTemplate.TemplateUploads | src/pages/QuestionUpload.tsx:124-157 | Uploading the template with an accepting store inserts all four questions, in order, with no error. |
| QuestionsTable.CorrectOptionText | src/components/QuestionsTable.tsx:87-95 | Correct option `k` in 1..4 shows the `k`-th option's text; any other value shows `Unknown`. |
| QuestionsTable.ImportedAnswerIsAnOption | src/components/QuestionsTable.tsx:87-95 | An imported question always shows one of its own options as the answer. |
| QuestionsTable.DifficultyColor | src/components/QuestionsTable.tsx:78-85 | The default class is given exactly to strings that are not easy, medium or hard. |
| QuestionsTable.DifficultyColorsDistinct | src/components/QuestionsTable.tsx:78-85 | easy, medium and hard get three different classes. |
| QuestionsTable.RowLabelReadsBack | src/components/QuestionsTable.tsx:142 | The fallback id is `Q` followed by digits that read back as the 1-based row number. It has at least three digits and never loses one. |
| Text.PadStartEndsWith | src/components/QuestionsTable.tsx:142 | `padStart` only adds characters in front: the padded text ends with the original. |
| QuestionsTable.FirstRowLabel | src/components/QuestionsTable.tsx:142 | The first row without an id shows `Q001`. |
| QuestionsTable.OwnIdShown | src/components/QuestionsTable.tsx:142 | A non-empty `question_id` is shown as it is. |
| QuestionsTable.WithoutId | src/components/QuestionsTable.tsx:64 | An entry remains exactly when it was there and has a different id. |
| QuestionsTable.WithoutIdAppend | src/components/QuestionsTable.tsx:64 | Removal works piece by piece, so the remaining entries keep their order. |
| QuestionsTable.WithoutIdCount | src/components/QuestionsTable.tsx:64 | Exactly as many entries are removed as had that id. |
| QuestionsTable.WithoutIdIdempotent | src/components/QuestionsTable.tsx:64 | Removing the same id twice is the same as removing it once. |
| QuestionsTable.AfterDelete | src/components/QuestionsTable.tsx:55-76 | After a successful delete, the entries with that id are gone and nothing else is; after a failed delete, the list is unchanged. |
| QuestionsTable.CanDelete | src/components/QuestionsTable.tsx:180 | Delete is offered only with a signed-in user and an authored question, and then exactly when the user is the author. |
| QuestionsTable.ToggleSelection | src/components/QuestionsTable.tsx:174-176 | Clicking the selected question (same id) clears the selection; otherwise the clicked question becomes selected. |
| QuestionsTable.ToggleTwice | src/components/QuestionsTable.tsx:174-176 | Clicking the same question twice from no selection ends with no selection. |
| Profile.ParseSkills | src/pages/Profile.tsx:106-108 | An empty input gives no skills. Every parsed skill is non-empty, trimmed and comma-free. |
| Text.SplitJoin | src/pages/Profile.tsx:106-107 | Pieces without the separator, joined with it and split on it again, come back unchanged. |
| Profile.SkillsRoundTrip | src/pages/Profile.tsx:90-108 | Clean skills joined with `", "` (as the form is filled) and parsed again (as on save) give back the same list. |
| Profile.FormFromProfile | src/pages/Profile.tsx:84-94 | Every text field is the stored value, with null as `""`. Stored skills are joined with `", "`, and null skills become `""`. Null visibility becomes true, and a stored false stays false. |
| Profile.BuildRecord | src/pages/Profile.tsx:110-122 | The record copies the form's fields, takes `user_id` and `email` from the user, and holds the parsed skills. |
| Profile.LoadThenSaveKeepsSkills | src/pages/Profile.tsx:90-122 | Loading a profile with clean skills and saving the untouched form writes back the same skills. |
| Profile.LoadThenSaveKeepsText | src/pages/Profile.tsx:84-122 | Loading and saving untouched writes back all seven stored text fields (full name, bio, mobile number, university, branch/course, competitive exam, career goal; absent as `""`), and visibility is kept unless it was absent. |
| Profile.FetchProfile | src/pages/Profile.tsx:63-99 | A fetch error changes nothing. A found profile fills the form. No profile turns editing on. |
| Profile.SaveRequestFor | src/pages/Profile.tsx:124-131 | The save is an update keyed by the user's id exactly when a profile was loaded, and an insert otherwise, both of the form's record. |
| Profile.HandleSave | src/pages/Profile.tsx:101-150 | Without a user nothing happens. On success, editing is turned off and the profile is fetched again; on failure the page is unchanged. |
| Lobby.SanitizeUserCode | src/pages/Lobby.tsx:340 | The field keeps only digits: the first (at most six) digits of the typed text, in order. |
| Lobby.DigitsOfMembers | src/pages/Lobby.tsx:340 | The characters kept by `replace(/\D/g, '')` are exactly the digits of the typed text. |
| Lobby.SanitizeIdempotent | src/pages/Lobby.tsx:340 | Sanitising twice is the same as sanitising once. |
| Lobby.NonDigitIgnored | src/pages/Lobby.tsx:340 | Typing a non-digit leaves the field as it was. |
| Lobby.SendEnabledIffSixDigits | src/pages/Lobby.tsx:337-358 | Send Invite is enabled exactly when the typed text holds at least six digits and nothing is loading. |
| Lobby.HandleSendInvite | src/pages/Lobby.tsx:72-80 | An invitation with the trimmed code and the lobby's id goes out exactly when the code is non-blank and there is a current lobby. The dialog closes and clears only on a truthy answer. |
| Lobby.EnabledInviteIsSent | src/pages/Lobby.tsx:72-80 | A code that enables Send Invite always passes the send step's own check. |
| Lobby.JoinCodeInput | src/pages/Lobby.tsx:304 | The join field holds the typed text upper-cased with the ASCII-only mapping of `Text.Upper`: no lower-case ASCII letter, and (under that mapping only) the same length. |
| Lobby.HandleJoinLobby | src/pages/Lobby.tsx:62-70 | A join is attempted exactly when the code is non-blank, with the trimmed code. The dialog closes and clears only on a truthy answer. |
| Lobby.EnabledJoinIsAttempted | src/pages/Lobby.tsx:318 | Clicking an enabled Join Lobby button always attempts the join. A click that attempts nothing leaves the dialog unchanged. |
| Lobby.JoinCodeUpperCase | src/pages/Lobby.tsx:62-70 | A join is always attempted with a code that has no lower-case ASCII letter. |
| Lobby.RenderPlayerSlot | src/pages/Lobby.tsx:101-145 | A slot waits for a player exactly when it has no member. A filled slot is the host's exactly at index 0, marks the member who is the signed-in user, and shows that member's display name and initial. |
| Lobby.DisplayName | src/pages/Lobby.tsx:136 | The name shown is the member's full name when it is non-empty, and `Anonymous` otherwise; it is never empty. |
| Lobby.Initial | src/pages/Lobby.tsx:131 | The avatar fallback is one character: the full name's first character when the name is non-empty, and `U` otherwise. This matches `charAt(0)` when the first character lies in the Basic Multilingual Plane. |
| Lobby.Slots | src/pages/Lobby.tsx:208-210 | There are exactly `max_players` slots, and slot `i` holds the `i`-th member when there is one. |
| Lobby.FilledSlots | src/pages/Lobby.tsx:208-210 | The slots show min(members, `max_players`) players. |
| Lobby.HostInFirstSlot | src/pages/Lobby.tsx:101-139 | With a member present, slot 0 is a filled host slot, and no other slot is the host's. |
| Lobby.ActivePanel | src/pages/Lobby.tsx:207-214 | The panel has `max_players` slots, and the start action shows exactly when the lobby's status is `full`. |
| Quiz.Filtered | src/pages/Quiz.tsx:111-113 | `all` gives the catalog unchanged; a player count gives exactly the entries for that many players. |
| Quiz.WithPlayersMembers | src/pages/Quiz.tsx:113 | A quiz passes a player-count filter exactly when it is in the catalog and is for that many players. |
| Quiz.WithPlayersAppend | src/pages/Quiz.tsx:113 | Filtering works entry by entry, so results keep catalog order. |
| Quiz.FiltersPartition | src/pages/Quiz.tsx:111-113 | When every entry is for 2 or 4 players, the 2-filter and the 4-filter together hold every entry exactly once. |
| Quiz.CatalogSplit | src/pages/Quiz.tsx:21-88 | The catalog splits into three 2-player and three 4-player quizzes, together the whole catalog. |
| Quiz.CatalogTwo | src/pages/Quiz.tsx:21-88 | The 2-player filter gives the 1st, 3rd and 5th quiz, in that order. |
| Quiz.CatalogFour | src/pages/Quiz.tsx:21-88 | The 4-player filter gives the 2nd, 4th and 6th quiz, in that order. |
| Quiz.StartQuiz | src/pages/Quiz.tsx:96-97 | Choosing a quiz selects it and keeps the filter. |
| Quiz.Cancel | src/pages/Quiz.tsx:258 | Cancel clears the selection and keeps the filter. |
| Quiz.StartThenCancel | src/pages/Quiz.tsx:258 | Choosing then cancelling leaves nothing selected, whatever was selected before. |
| Friends.OtherPartyIsTheOtherEnd | src/pages/Friends.tsx:46 | For a connection linking the user to someone else, the picked id is that someone: one of the two ends, and not the user. |
| Friends.FriendIds | src/pages/Friends.tsx:45-47 | One id per connection, in the same order. Each is `user2_id` when `user1_id` is the user, and `user1_id` otherwise. |
| Friends.FriendIdsExcludeSelf | src/pages/Friends.tsx:45-47 | When every connection links the user to someone else, the user is not among the friend ids. |
| Friends.FetchFriends | src/pages/Friends.tsx:27-56 | A query error leaves the list untouched. No connections empties it with no lookup. Otherwise the lookup asks for the friend ids, and its answer, if any, becomes the list. |
| Friends.LookupIffConnections | src/pages/Friends.tsx:39-53 | A profile lookup is made exactly when there is at least one connection, and it asks for one id per connection. |

## Left out

- Backend calls: every insert, update, delete and select in all six files. Each becomes a parameter or an oracle, and the data they carry is modelled only as far as the page uses it.
- `fetchQuestions`: the questions table's initial load and its `created_at` ordering. It is a plain select.
- `file.text()`: replaced by the `SelectedFile` value. A read that throws is the `Unreadable` case.
- Toasts, `console.log`, the busy flags `isUploading` and `isSaving`, navigation and redirects: user-interface effects with no data to state.
- `handleFileChange`: the `.csv` type and extension check on the selected file. It is a browser file-picker detail; the model starts from the selected file.
- The header line's split into `headers`: the importer computes it and never uses it.
- The template download plumbing (Blob, object URL, anchor click): browser I/O. The template's text itself is modelled.
- `copyUserCode` and `copyInviteCode`, with their clipboard and timer: browser I/O.
- `handleCreateLobby`, `leaveLobby`, the `lobbyOptions` catalog, and the `getDifficultyColor` copies in the lobby and quiz pages: backend calls and display-only styling.
- The quiz catalog's descriptions and icons: display-only.
- `Lobby.SanitizeUserCode`: the model sanitises the whole typed text, while the page's `maxLength={6}` (src/pages/Lobby.tsx:342) first cuts the raw input to six UTF-16 units, so a pasted `12-34-56` becomes `1234` in the page but `123456` in the model. The browser's input truncation is not modelled.
- `Text.Lower`: maps only ASCII letters, where `toLowerCase` maps all of Unicode. Every string the importer compares against is ASCII.
- `Text.Upper`: maps only ASCII letters, where `toUpperCase` maps all of Unicode and can change the length (`ß` becomes `SS`). The lobby's invite codes are ASCII.
- Strings are sequences of Dafny characters (Unicode scalar values), whereas JavaScript strings are UTF-16 code units. The two agree on text inside the Basic Multilingual Plane (below U+10000). `Lobby.Initial` is the one operation here where the difference shows for other text.
- `Lobby.Initial`: gives the name's first Unicode character, whereas `charAt(0)` (src/pages/Lobby.tsx:131) gives its first UTF-16 code unit. For a name starting outside the Basic Multilingual Plane, such as `😀Bob`, the page shows a lone high surrogate and the model shows the whole character. The model does not promise the page's behaviour for such names.
- `CorrectOption.JsParseInt` returns an exact integer, where `parseInt` returns a double. Digit strings beyond 2^53 would round, but any such value is outside 1–4 either way, so the accepted rows are the same.
- Lobby: `max_players` is a natural number. JavaScript's `Array.from` would turn a negative length into zero slots.
- The importer's rejected rows are dropped silently, as the source does, with no rejection message. A reporting variant is not modelled.
- The inserted `question_id` is absent rather than `undefined`; the two mean the same to the store.
- The template's one long question is written as two string pieces, `Question2a + Question2b`; the text is the same.

## Findings

| source | as written | input that shows it | evidently intended | confidence | as-written member | corrected member |
|---|---|---|---|---|---|---|
| src/pages/QuestionUpload.tsx:151 | A failed insert is reported as `Row {successCount + 1}`, so the number moves only on successes. | Two records whose inserts both fail: both errors read `Row 1`. | Each error names the record it belongs to: its 1-based position among the parsed records. | high (not executed) | QuestionUpload.AsWrittenRowNumbersRepeat | QuestionUpload.RowNumbersIdentifyRecords |

`QuestionUpload.UploadLoop` is the loop as written, and it is proved equal to the fold with `SuccessCountPlusOne` numbering. `QuestionUpload.HandleUpload` takes the numbering as a parameter: `SuccessCountPlusOne` gives the source's behaviour, and `Position` the corrected one, whose row numbers `QuestionUpload.RowNumbersIdentifyRecords` characterises. `QuestionUpload.NumberingOnlyChangesRows` shows that the two numberings differ in nothing but the row numbers.
