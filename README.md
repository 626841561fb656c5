# Kithab note portal: a verified model of the front-end logic

Kithab is a portal for lecture notes. Administrators maintain the taxonomy of
regulations (curriculum versions), branches (departments) and subjects, and
manage uploaded notes. Faculty members upload notes for their subjects.
Students search for notes by regulation, branch, semester and subject, then
view, download or favourite them. The front-end is a set of React screens
over a REST backend. This project models, in Dafny, the logic those screens
carry:

- the taxonomy guards: the create validators of the three "add" dialogs, and
  the edit-time required-field loop and duplicate checks of the taxonomy
  screen;
- the normalisation of references (a raw id, an embedded record with `_id`,
  or null) and of semesters (a number, a numeric string, an extended-JSON
  `$numberInt` wrapper, or absent);
- the cascading selectors of every screen and the option lists they derive;
- the note query, its client-side filter, and deletion on the notes screen;
- registration and password-reset validation;
- login routing and the stored session;
- the student search with its "download all" archive, and the faculty upload
  form;
- a note card's download name, its view-type fallback and its favourite
  toggle.

Network replies are inputs of type `Http.Reply<T>`: either `Ok(data)`, or
`Failed(status, message)`. The build-time settings (`REACT_APP_ADMIN_ID`,
`REACT_APP_BACKEND_URL`) are parameters. Browser storage is a map from keys
to stored values. A call of the session's `logout`, a navigation, an alert
and a saved file are returned as results instead of being performed.

Each screen whose handlers update state is a class. Its fields are the
screen's state, and each handler is a method whose `ensures` states the
whole new state. The pure parts (filters, validators, normalisations) are
Dafny functions, and lemmas state their properties. Validators that fill an
error object test by test are methods (`Collect...Errors`), proved equal to
a reference function whose meaning the lemmas pin down.

Modules: `Wrappers` (Option), `Text` (ASCII `trim`, `toLowerCase`, and the
comparison key), `Numbers` (the integer-or-NaN results of `Number(...)`),
`Seqs` (`filter`, `some`, `find`), `Refs`, `Http`, `Taxonomy` (records and
shared option lists), `Forms` (error objects), and then one module per
screen: `MetaManager`, `NotesManager`, `AddSubjectModal`, `AddBranchModal`,
`AddRegulationModal`, `LoginPage`, `ResetPassword`, `AuthContext`,
`StudentDashboard`, `FacultyDashboard`, `Card`.

## Model

| member | source | states |
|---|---|---|
| `Text.TrimStart` | src/Components/Admin/AddSubjectModal.jsx:34-35 | The result is a suffix of the input; everything dropped is whitespace; the result does not start with whitespace. |
| `Text.TrimEnd` | src/Components/Admin/AddSubjectModal.jsx:34-35 | The result is a prefix of the input; everything dropped is whitespace; the result does not end with whitespace. |
| `Text.Trim` | src/Components/Admin/AddSubjectModal.jsx:34-35 | `trim()` is never longer than its input and has no whitespace at either end. |
| `Text.Utf16Length` | src/pages/Login.jsx:47 | JavaScript's `.length` lies between the number of characters and twice it. It equals the number of characters when all are in the Basic Multilingual Plane, and twice it when none is. |
| `Text.LowerChar` | src/Components/Admin/MetaManager.jsx:98 | A lower-cased character is never an upper-case ASCII letter, and it is whitespace exactly when the input is. |
| `Text.Lower` | src/Components/Admin/MetaManager.jsx:98 | `toLowerCase()` keeps the length and lower-cases each character in place. |
| `Text.TrimOfTrimmed` | src/Components/Admin/AddSubjectModal.jsx:72-73 | A string with no whitespace at either end is its own trim. |
| `Text.BlankIffAllSpace` | src/Components/Admin/AddSubjectModal.jsx:34-35 | `!s.trim()` holds exactly when every character of `s` is whitespace. |
| `Text.TrimIdempotent` | src/Components/Admin/AddSubjectModal.jsx:72-73 | Trimming twice is trimming once, so a posted trimmed name re-validates unchanged. |
| `Text.LowerIdempotent` | src/Components/Admin/MetaManager.jsx:98 | Lower-casing twice is lower-casing once. |
| `Text.TrimOfLower` | src/Components/Admin/MetaManager.jsx:98 | Trimming and lower-casing commute. |
| `Text.FoldIdempotent` | src/Components/Admin/MetaManager.jsx:98 | The duplicate-check key `trim().toLowerCase()` is stable under re-folding. |
| `Text.FoldIgnoresCase` | src/Components/Admin/AddBranchModal.jsx:29 | Upper-case and lower-case spellings have the same duplicate-check key. |
| `Text.FoldIgnoresLeadingSpace` | src/Components/Admin/AddBranchModal.jsx:29 | Leading whitespace never changes the duplicate-check key. |
| `Text.FoldIgnoresTrailingSpace` | src/Components/Admin/AddBranchModal.jsx:29 | Trailing whitespace never changes the duplicate-check key. |
| `Text.FoldEmptyIffBlank` | src/Components/Admin/AddBranchModal.jsx:20-21 | The key is empty exactly when the value counts as blank for the required-field test. |
| `Text.TrimStartOfPadded` | src/Components/Admin/AddRegulationModal.jsx:30 | `trimStart` drops exactly the whitespace in front of a word that starts with a non-space. |
| `Text.TrimEndOfPadded` | src/Components/Admin/AddRegulationModal.jsx:30 | `trimEnd` drops exactly the whitespace after a word that ends with a non-space. |
| `Text.TrimPadded` | src/Components/Admin/AddRegulationModal.jsx:30 | `trim` of a word padded with whitespace on both sides is the word. |
| `Numbers.ParseNumber` | src/Components/Admin/AddRegulationModal.jsx:30 | `Number(s)` of a blank string is 0, and it is NaN exactly when the trimmed text is not an optionally signed run of digits. |
| `Numbers.DigitChar` | src/Components/Admin/MetaManager.jsx:358-365 | The character of a digit is a decimal digit with that value. |
| `Numbers.NatToString` | src/Components/Admin/MetaManager.jsx:358-365 | `String(n)` of a natural number is a non-empty run of digits with no leading zero. |
| `Numbers.IntToString` | src/pages/StudentDashboard.jsx:54 | `String(n)` is non-empty and has no whitespace at either end. |
| `Numbers.NatToStringValue` | src/pages/StudentDashboard.jsx:54 | Reading back the decimal digits of `n` gives `n`. |
| `Numbers.ParseIntToString` | src/Components/Admin/AddSubjectModal.jsx:75 | `Number(String(n)) === n` for every integer: the rendering used by the option values parses back to the number. |
| `Numbers.ZerosValue` | src/Components/Admin/AddRegulationModal.jsx:30 | A run of zeros has the value 0. |
| `Numbers.LeadingZerosIgnored` | src/Components/Admin/AddRegulationModal.jsx:30 | Leading zeros do not change the value of a run of digits. |
| `Numbers.ParsePaddedDigits` | src/Components/Admin/AddRegulationModal.jsx:30 | A run of digits with no sign, a "+" or a "-", padded with whitespace, reads as its signed value, so " +5 " is 5 and "-3" is -3. |
| `Numbers.ParseZeroPadded` | src/Components/Admin/AddRegulationModal.jsx:30 | Leading zeros and whitespace padding are ignored, so " 007 " is 7. |
| `Numbers.SignedDigitsEnds` | src/Components/Admin/AddRegulationModal.jsx:30 | A run of digits after an optional sign neither starts nor ends with whitespace. |
| `Numbers.ParseSignedDigits` | src/Components/Admin/AddRegulationModal.jsx:30 | Text whose trim is a sign and digits reads as the signed value of the digits. |
| `Numbers.NonNumericText` | src/Components/Admin/AddRegulationModal.jsx:30 | Trimmed text that starts with neither a sign nor a digit reads as NaN. |
| `Numbers.NumText` | src/Components/Admin/MetaManager.jsx:131-133 | `String(n)` of a number is never blank, and `Number(String(n))` gives `n` back, NaN included. |
| `Numbers.OneTo` | src/Components/Admin/MetaManager.jsx:358-365 | `Array.from({ length: n }, (_, i) => i + 1)` is 1, 2, ..., n in order, and empty when n <= 0. |
| `Seqs.Filter` | src/Components/Admin/MetaManager.jsx:175-179 | `filter` keeps only passing elements, keeps every passing element, and is never longer than its input. |
| `Seqs.FilterIsSubsequence` | src/Components/Admin/MetaManager.jsx:175-179 | `filter` keeps the surviving elements in their original order. |
| `Seqs.SubsequenceSkip` | src/Components/Admin/MetaManager.jsx:175-179 | A subsequence of the tail is a subsequence of the whole list. |
| `Seqs.SubsequenceTail` | src/Components/Admin/MetaManager.jsx:175-179 | Dropping the first element of a subsequence leaves a subsequence. |
| `Seqs.FilterCount` | src/Components/Admin/NotesManager.jsx:209 | `filter` keeps every occurrence of a passing element and none of a failing one. |
| `Seqs.FilterAppend` | src/Components/Admin/AddBranchModal.jsx:24-26 | Filtering a concatenation filters each part. |
| `Seqs.FilterNone` | src/Components/Admin/NotesManager.jsx:91-93 | When no element passes, the filter is empty. |
| `Seqs.FilterAll` | src/Components/Admin/NotesManager.jsx:209 | When every element passes, the filter is the whole list. |
| `Seqs.Any` | src/Components/Admin/MetaManager.jsx:95-100 | `some(p)` holds exactly when some element passes. |
| `Seqs.Find` | src/Components/Admin/AddSubjectModal.jsx:25 | `find(p)` is none exactly when nothing passes, and otherwise the first passing element. |
| `Refs.RefId` | src/pages/StudentDashboard.jsx:48 | `String(r?._id \|\| r)` is the raw id, a non-empty embedded `_id`, or `"null"`. |
| `Refs.Normalize` | src/Components/Admin/NotesManager.jsx:56-63 | A normalised branch or subject reference reads as the reference's id, an empty raw id becomes null, and only an embedded record without `_id` stays embedded. |
| `Refs.NormalizeNoteRef` | src/Components/Admin/NotesManager.jsx:133-148 | A normalised note reference reads as the reference's id; non-embedded references are kept as they are. |
| `Refs.NormalizeIdempotent` | src/Components/Admin/NotesManager.jsx:56-73 | Normalising twice is normalising once, for both normalisations. |
| `Refs.SemesterReadingsAgree` | src/Components/Admin/NotesManager.jsx:72 | The notes screen's `Number(s?.$numberInt ?? s ?? 0)` and the taxonomy screen's `Number(s?.$numberInt \|\| s \|\| 0)` (MetaManager.jsx line 60) agree on every semester except an empty `$numberInt` wrapper, which the taxonomy screen reads as NaN and the notes screen as 0. |
| `Refs.WrappedSemesterReadsValue` | src/Components/Admin/NotesManager.jsx:72 | A `{ $numberInt: String(k) }` semester reads as k on both screens. |
| `Refs.SemesterTextParses` | src/pages/StudentDashboard.jsx:54 | The text of a numeric semester parses back to its number, so comparing as text and as number agree on numbers. |
| `Http.MessageOr` | src/Components/Admin/AddSubjectModal.jsx:82-84 | `message \|\| fallback` is the server message when it is non-empty, and the fallback otherwise. |
| `Http.FailureMessage` | src/Components/Admin/MetaManager.jsx:164 | A failure message is never empty when the fallback is not. |
| `Taxonomy.SemesterCount` | src/Components/Admin/AddSubjectModal.jsx:26 | The length `n \|\| 0` given to `Array.from` is n when n is a positive number, and 0 for NaN, zero and negatives. |
| `Taxonomy.BranchesOf` | src/Components/Admin/AddSubjectModal.jsx:20-22 | `branchesForReg` is exactly the branches whose regulation id, embedded `_id` or raw, is the selected one. |
| `Taxonomy.BranchesOfInOrder` | src/Components/Admin/AddSubjectModal.jsx:20-22 | The branches of a regulation keep their order. |
| `Taxonomy.BranchesOfAppend` | src/Components/Admin/AddBranchModal.jsx:24-26 | A new branch joins its regulation's list at the end, whether its reference is embedded or raw. |
| `Taxonomy.FindRegulation` | src/Components/Admin/MetaManager.jsx:361 | The regulation lookup is none exactly when no regulation has the id. Otherwise it is the first regulation with that id, as `Array.find` returns. |
| `Taxonomy.SemesterOptions` | src/Components/Admin/MetaManager.jsx:358-365 | The semester options are 1..N for the selected regulation's N, and empty when no regulation matches. |
| `Taxonomy.SemesterOptionsMembers` | src/Components/Admin/MetaManager.jsx:358-365 | Semester k is offered exactly when a regulation matches and 1 <= k <= N. |
| `Taxonomy.NormalizeRegulation` | src/Components/Admin/MetaManager.jsx:47-51 | The regulation keeps its id and name, and its count is read through `Number`. A count stored as an object or missing reads as NaN. |
| `Taxonomy.NormalizeBranch` | src/Components/Admin/NotesManager.jsx:56-63 | The branch keeps its id, name and code, and its regulation reads as the original reference's id. |
| `Taxonomy.MetaSubjectRow` | src/Components/Admin/MetaManager.jsx:56-62 | The subject row keeps its id, name and code, and its branch reads as the original reference's id. Its semester is `MetaSemester`, the `\|\|` reading of `$numberInt` or the value: a stored number is kept, and a missing or empty semester gives 0. |
| `Taxonomy.NotesSubjectRow` | src/Components/Admin/NotesManager.jsx:66-73 | The notes screen's subject row keeps its id, name and code, and its branch reads as the original reference's id. Its semester is `NotesSemester`, the `??` reading of `$numberInt` or the value: a stored number is kept, and a missing semester gives 0. |
| `Taxonomy.NormalizeNote` | src/Components/Admin/NotesManager.jsx:133-148 | A normalised note keeps its id and title, and each reference reads as the original's id. |
| `Taxonomy.FilteredSubjects` | src/Components/Admin/MetaManager.jsx:181-185 | Subject options are exactly the rows with the selected branch text and the numeric semester `Number(selected)`; NotesManager.jsx:105-109 is the same filter. |
| `Taxonomy.FilteredSubjectsInOrder` | src/Components/Admin/MetaManager.jsx:181-185 | The subject options keep their order. |
| `Taxonomy.MapSeq` | src/Components/Admin/MetaManager.jsx:47-62 | `map(f)` keeps the length and applies f in place. |
| `Forms.ServerError` | src/Components/Admin/AddSubjectModal.jsx:82-84 | A server failure leaves exactly one entry, `server`. |
| `Forms.EmptyIsNoErrors` | src/Components/Admin/AddSubjectModal.jsx:60 | `Object.keys(e).length === 0` holds exactly when the error object is `{}`. |
| `MetaManager.IsDuplicateRegulation` | src/Components/Admin/MetaManager.jsx:95-100 | A duplicate exists exactly when some regulation with another id has the same trimmed, lower-cased name. |
| `MetaManager.IsDuplicateBranch` | src/Components/Admin/MetaManager.jsx:102-115 | A duplicate exists exactly when some branch with another id, in the same regulation, has the same trimmed, lower-cased name; codes are not compared. |
| `MetaManager.IsDuplicateSubject` | src/Components/Admin/MetaManager.jsx:117-124 | A duplicate exists exactly when some subject with another id has the same folded name, the same branch text and the same numeric semester. |
| `MetaManager.RegulationNeverConflictsWithItself` | src/Components/Admin/MetaManager.jsx:95-100 | Records that share the edited record's id never change the verdict. |
| `MetaManager.RegulationDuplicateIgnoresCase` | src/Components/Admin/MetaManager.jsx:98 | A name equal to another regulation's up to case is a duplicate. |
| `MetaManager.BranchDuplicateScopedToRegulation` | src/Components/Admin/MetaManager.jsx:102-115 | Branches of other regulations never make a name a duplicate. |
| `MetaManager.SubjectDuplicateScopedToBranchAndSemester` | src/Components/Admin/MetaManager.jsx:117-124 | Subjects of another branch or semester never make a name a duplicate. |
| `MetaManager.FilteredBranches` | src/Components/Admin/MetaManager.jsx:175-179 | Empty without a selected regulation; otherwise exactly the branches whose regulation id is the selection. |
| `MetaManager.FirstKeyError` | src/Components/Admin/MetaManager.jsx:129-141 | No error exactly when every key passes; otherwise the message of the first failing key in key order. |
| `MetaManager.CheckKeys` | src/Components/Admin/MetaManager.jsx:129-141 | The key loop with its early return yields the first failing key's message. |
| `MetaManager.FirstBlankKeyBlocksSave` | src/Components/Admin/MetaManager.jsx:129-136 | The first blank required key blocks the save with `Field "<key>" cannot be empty.`. |
| `MetaManager.FirstFailingKey` | src/Components/Admin/MetaManager.jsx:129-140 | The first key, in key order, that fails a test decides the message of the key loop. |
| `MetaManager.SemestersNeverBlank` | src/Components/Admin/MetaManager.jsx:129-140 | `String(numberOfSemesters)` is never blank, because it renders a number, so that key fails exactly when the count is zero or negative. |
| `MetaManager.NonPositiveSemestersBlockSave` | src/Components/Admin/MetaManager.jsx:137-140 | A count of zero or less always blocks the save. |
| `MetaManager.SaveErrorIgnoresOtherLists` | src/Components/Admin/MetaManager.jsx:143-154 | Only the current subsection's duplicate check runs; the other two lists never matter. |
| `MetaManager.SetKey` | src/Components/Admin/MetaManager.jsx:487 | `{ ...item, key: v }` keeps every key, keeps the order when the key exists, and adds the key otherwise. |
| `MetaManager.MetaManagerScreen.constructor` | src/Components/Admin/MetaManager.jsx:10-30 | The screen starts with empty lists, no selection, no dialog and no error. |
| `MetaManager.MetaManagerScreen.FetchData` | src/Components/Admin/MetaManager.jsx:32-69 | On success the regulations and subjects are replaced by their normalised forms and the branches by the list as sent; on failure only the error is set; the selections and dialogs are unchanged. |
| `MetaManager.MetaManagerScreen.SelectRegulationForBranches` | src/Components/Admin/MetaManager.jsx:246 | The branches table's regulation filter changes only the selection. |
| `MetaManager.MetaManagerScreen.SelectRegulationForSubjects` | src/Components/Admin/MetaManager.jsx:320-325 | A regulation change clears branch and semester and hides the subjects table. |
| `MetaManager.MetaManagerScreen.SelectBranch` | src/Components/Admin/MetaManager.jsx:338-342 | A branch change clears the semester and hides the subjects table; the regulation is kept. |
| `MetaManager.MetaManagerScreen.SelectSemester` | src/Components/Admin/MetaManager.jsx:355 | The semester selector changes nothing else. |
| `MetaManager.MetaManagerScreen.ShowSubjects` | src/Components/Admin/MetaManager.jsx:373-377 | The table is shown only once all three filters are chosen, as the disabled button enforces. |
| `MetaManager.MetaManagerScreen.ClearFilters` | src/Components/Admin/MetaManager.jsx:168-173 | All three selections are cleared and the subjects table is hidden. |
| `MetaManager.MetaManagerScreen.StartEdit` | src/Components/Admin/MetaManager.jsx:220 | The edit dialog opens on the clicked record of the table on show. |
| `MetaManager.MetaManagerScreen.CancelEdit` | src/Components/Admin/MetaManager.jsx:565 | The edit dialog closes. |
| `MetaManager.MetaManagerScreen.EditName` | src/Components/Admin/MetaManager.jsx:484-543 | Typing a name updates only the edited record's name, and its key order as `SetKey` says. |
| `MetaManager.MetaManagerScreen.EditCode` | src/Components/Admin/MetaManager.jsx:514-550 | Typing a code updates a branch's or subject's code; a regulation has no code field. |
| `MetaManager.MetaManagerScreen.EditSemesters` | src/Components/Admin/MetaManager.jsx:491-501 | The count field stores `Number(input)` on a regulation. |
| `MetaManager.MetaManagerScreen.EditBranchRegulation` | src/Components/Admin/MetaManager.jsx:521-526 | The branch's regulation becomes the chosen raw id. |
| `MetaManager.MetaManagerScreen.EditSave` | src/Components/Admin/MetaManager.jsx:126-166 | The PUT is sent exactly when no key and no duplicate check fails; otherwise the first failure's message is shown. A sent PUT goes to `/admin/<subsection>/<id of the edited record>` with the edited record as its body. A successful PUT closes the dialog and clears the error; a failed one shows the server's message or "Update failed". |
| `MetaManager.MetaManagerScreen.DeleteClick` | src/Components/Admin/MetaManager.jsx:75-78 | The delete dialog opens on the clicked record. |
| `MetaManager.MetaManagerScreen.ConfirmDelete` | src/Components/Admin/MetaManager.jsx:80-93 | The DELETE goes to `/admin/<kind>/<id>`. The lists are reloaded only on success; a failure alerts with the server's message or "Delete failed". The dialog closes whatever the outcome. |
| `MetaManager.MetaManagerScreen.CancelDelete` | src/Components/Admin/MetaManager.jsx:602-604 | The delete dialog closes and forgets its record. |
| `NotesManager.NotesBranches` | src/Components/Admin/NotesManager.jsx:91-93 | Branch options are exactly the branches whose normalised regulation text is the selection. |
| `NotesManager.NoBranchesBeforeRegulation` | src/Components/Admin/NotesManager.jsx:56-63 | After normalisation, an empty selection offers no branch. |
| `NotesManager.NotesBranchesInOrder` | src/Components/Admin/NotesManager.jsx:91-93 | The branch options keep their order. |
| `NotesManager.FindRecord` | src/Components/Admin/NotesManager.jsx:95-97 | The selected record is none exactly when no record has the id. Otherwise it is the first record with that id, as `Array.find` returns. |
| `NotesManager.NotesSemesterOptions` | src/Components/Admin/NotesManager.jsx:98-103 | `semesterOptions` is 1..N of the selected record, and empty when no record matches. |
| `NotesManager.FindRecordNormalized` | src/Components/Admin/NotesManager.jsx:95-97 | Looking up the raw records and normalising the result is looking up the normalised records. |
| `NotesManager.NotesSemesterOptionsMatchAdmin` | src/Components/Admin/NotesManager.jsx:95-103 | For every selection, the notes screen offers the same semesters as the taxonomy screen offers over the same regulations. |
| `NotesManager.MatchingNotes` | src/Components/Admin/NotesManager.jsx:150-156 | The kept notes are exactly the normalised notes that match all four selections. |
| `NotesManager.MatchingNotesCount` | src/Components/Admin/NotesManager.jsx:150-156 | A matching row is kept as many times as it occurs among the normalised notes, and a row that does not match is never kept. |
| `NotesManager.MatchingNotesInOrder` | src/Components/Admin/NotesManager.jsx:150-156 | The kept notes are in the order the server sent them. |
| `NotesManager.RawNoteMatches` | src/Components/Admin/NotesManager.jsx:150-156 | A note with the selected raw ids and the selected numeric semester is kept. |
| `NotesManager.EmbeddedNoteMatchesLikeRaw` | src/Components/Admin/NotesManager.jsx:136-146 | An embedded reference matches exactly as its raw id would. |
| `NotesManager.WrappedSemesterNoteNeverMatches` | src/Components/Admin/NotesManager.jsx:147 | A note whose semester is a `$numberInt` wrapper matches no selection. |
| `NotesManager.WithoutNote` | src/Components/Admin/NotesManager.jsx:209 | The list after a delete holds exactly the notes with another id. |
| `NotesManager.WithoutNoteRemovesExactly` | src/Components/Admin/NotesManager.jsx:209 | A delete keeps the other notes in order and with their multiplicities, drops every note with the id, and changes nothing when no note has it. |
| `NotesManager.NotesScreen.constructor` | src/Components/Admin/NotesManager.jsx:11-29 | The screen starts with empty lists, no selection, no notes and no dialog. |
| `NotesManager.NotesScreen.SemesterOptionsShown` | src/Components/Admin/NotesManager.jsx:95-103 | The semester options of the current selection, read from the stored raw records, are those the taxonomy screen offers over the same records normalised; with no regulation chosen there are none. |
| `NotesManager.NotesScreen.LoadMeta` | src/Components/Admin/NotesManager.jsx:36-88 | Without a token nothing happens. On success the regulations are kept as sent, the branches and subjects are normalised, and a list that is missing or not an array reads as `[]`. A 401 logs out; any other failure sets "Failed to load meta data". |
| `NotesManager.NotesScreen.FetchNotes` | src/Components/Admin/NotesManager.jsx:112-167 | The request is made exactly when all four selections are set; otherwise the guard message is shown. Success keeps exactly the matching notes, a missing body reading as `[]`; failure empties the list, and a 401 logs out. |
| `NotesManager.NotesScreen.ResetOnChange` | src/Components/Admin/NotesManager.jsx:222-224 | Any change of the four selections empties the notes. |
| `NotesManager.NotesScreen.SelectRegulation` | src/Components/Admin/NotesManager.jsx:242-247 | A regulation change clears branch, semester and subject. |
| `NotesManager.NotesScreen.SelectBranch` | src/Components/Admin/NotesManager.jsx:259-262 | A branch change clears semester and subject. |
| `NotesManager.NotesScreen.SelectSemester` | src/Components/Admin/NotesManager.jsx:276-279 | A semester change clears the subject. |
| `NotesManager.NotesScreen.SelectSubject` | src/Components/Admin/NotesManager.jsx:292 | The subject selector clears nothing else. |
| `NotesManager.NotesScreen.DeleteClick` | src/Components/Admin/NotesManager.jsx:197-200 | The delete dialog opens on the clicked note. |
| `NotesManager.NotesScreen.CancelDelete` | src/Components/Admin/NotesManager.jsx:371 | Only the dialog closes. |
| `NotesManager.NotesScreen.ConfirmDelete` | src/Components/Admin/NotesManager.jsx:202-219 | Success removes exactly that note's id from the list, and failure sets the error or logs out on 401. The dialog, the note to delete and `deleting` are reset in every case. |
| `AddSubjectModal.SubjectErrors` | src/Components/Admin/AddSubjectModal.jsx:29-61 | Only the five field keys can hold errors. Name and code are in error exactly when blank or taken in scope, each independently, and the duplicate message wins. |
| `AddSubjectModal.SubjectErrorMessages` | src/Components/Admin/AddSubjectModal.jsx:31-35 | Each empty selection has its own entry, and each entry carries its field's message. |
| `AddSubjectModal.SubjectFormValid` | src/Components/Admin/AddSubjectModal.jsx:59-60 | The form is valid exactly when every field is filled and neither name nor code is taken in scope. |
| `AddSubjectModal.SubjectScope` | src/Components/Admin/AddSubjectModal.jsx:38-41 | Subjects of another branch or another numeric semester never change the errors. |
| `AddSubjectModal.CollectSubjectErrors` | src/Components/Admin/AddSubjectModal.jsx:29-61 | The step-by-step `validate` builds exactly `SubjectErrors`, and reports whether it is empty. |
| `AddSubjectModal.SubmitSubject` | src/Components/Admin/AddSubjectModal.jsx:63-88 | The POST is sent exactly when the errors are empty, with trimmed name and code and a numeric semester. The dialog closes on success; a failure leaves the single `server` entry. |
| `AddSubjectModal.AddSubjectForm.constructor` | src/Components/Admin/AddSubjectModal.jsx:12-18 | The dialog starts with empty inputs and no errors. |
| `AddSubjectModal.AddSubjectForm.BranchOptions` | src/Components/Admin/AddSubjectModal.jsx:20-22 | The branch options are exactly the branches of the chosen regulation. |
| `AddSubjectModal.AddSubjectForm.SemesterChoices` | src/Components/Admin/AddSubjectModal.jsx:24-27 | `semOptions` is 1..N of the chosen regulation, and empty when none is chosen. |
| `AddSubjectModal.AddSubjectForm.Validate` | src/Components/Admin/AddSubjectModal.jsx:29-61 | The error object is replaced by `SubjectErrors`, and the result says whether it is empty. |
| `AddSubjectModal.AddSubjectForm.Submit` | src/Components/Admin/AddSubjectModal.jsx:63-88 | The dialog state after `handleSubmit` is as `SubmitSubject` says. |
| `AddSubjectModal.AddSubjectForm.SelectRegulation` | src/Components/Admin/AddSubjectModal.jsx:101-106 | A regulation change clears branch and semester, and the regulation's error. |
| `AddSubjectModal.AddSubjectForm.SelectBranch` | src/Components/Admin/AddSubjectModal.jsx:124-127 | A branch change clears the semester, and the branch's error. |
| `AddSubjectModal.AddSubjectForm.SelectSemester` | src/Components/Admin/AddSubjectModal.jsx:144 | The semester selector changes nothing else, not even the errors. |
| `AddSubjectModal.AddSubjectForm.EditName` | src/Components/Admin/AddSubjectModal.jsx:160 | Typing a name changes nothing else. |
| `AddSubjectModal.AddSubjectForm.EditCode` | src/Components/Admin/AddSubjectModal.jsx:170 | Typing a code changes nothing else. |
| `AddBranchModal.BranchErrors` | src/Components/Admin/AddBranchModal.jsx:17-44 | Only the three field keys can hold errors. A missing regulation is in error; name and code are in error exactly when blank or taken in the regulation. |
| `AddBranchModal.BranchErrorMessages` | src/Components/Admin/AddBranchModal.jsx:19-40 | Each entry carries its field's message, and the duplicate message exactly when the value is taken. |
| `AddBranchModal.BranchFormValid` | src/Components/Admin/AddBranchModal.jsx:42-43 | The form is valid exactly when every field is filled and neither name nor code is taken in the regulation. |
| `AddBranchModal.BranchScope` | src/Components/Admin/AddBranchModal.jsx:24-33 | Branches of another regulation never change the errors: an identical name there is not a duplicate. |
| `AddBranchModal.NameTakenIgnoresCase` | src/Components/Admin/AddBranchModal.jsx:27-33 | A name is taken exactly when its lower-cased form is. |
| `AddBranchModal.CollectBranchErrors` | src/Components/Admin/AddBranchModal.jsx:17-44 | The step-by-step `validate` builds exactly `BranchErrors`, and reports whether it is empty. |
| `AddBranchModal.SubmitBranch` | src/Components/Admin/AddBranchModal.jsx:46-66 | The POST is sent exactly when the errors are empty, with trimmed name and code. The dialog closes on success; a failure leaves the single `server` entry. |
| `AddBranchModal.AddBranchForm.constructor` | src/Components/Admin/AddBranchModal.jsx:11-15 | The dialog starts with empty inputs and no errors. |
| `AddBranchModal.AddBranchForm.Validate` | src/Components/Admin/AddBranchModal.jsx:17-44 | The error object is replaced by `BranchErrors`, and the result says whether it is empty. |
| `AddBranchModal.AddBranchForm.Submit` | src/Components/Admin/AddBranchModal.jsx:46-66 | The dialog state after `handleSubmit` is as `SubmitBranch` says. |
| `AddBranchModal.AddBranchForm.SelectRegulation` | src/Components/Admin/AddBranchModal.jsx:78-81 | Choosing a regulation clears only that field's error. |
| `AddBranchModal.AddBranchForm.EditName` | src/Components/Admin/AddBranchModal.jsx:99-102 | Typing a name clears only the name's error. |
| `AddBranchModal.AddBranchForm.EditCode` | src/Components/Admin/AddBranchModal.jsx:111-114 | Typing a code clears only the code's error. |
| `AddRegulationModal.RegulationErrors` | src/Components/Admin/AddRegulationModal.jsx:25-42 | Only name and count can hold errors. The name is in error exactly when blank or taken anywhere; the count exactly when empty, not a number, or not positive. |
| `AddRegulationModal.RegulationErrorMessages` | src/Components/Admin/AddRegulationModal.jsx:27-38 | The required-field messages win, and the duplicate is reported only for a non-blank name. |
| `AddRegulationModal.RegulationFormValid` | src/Components/Admin/AddRegulationModal.jsx:40-41 | The form is valid exactly when the name is filled and new and the count reads as a positive number. |
| `AddRegulationModal.BlankCountNotPositive` | src/Components/Admin/AddRegulationModal.jsx:28-31 | A count of only spaces reads as 0, so it is refused as not positive rather than as missing. |
| `AddRegulationModal.PositiveCountAccepted` | src/Components/Admin/AddRegulationModal.jsx:30-52 | Any positive count typed in decimal gives no count error, and that count is what is posted. |
| `AddRegulationModal.CollectRegulationErrors` | src/Components/Admin/AddRegulationModal.jsx:25-42 | The step-by-step `validate` builds exactly `RegulationErrors`, and reports whether it is empty. |
| `AddRegulationModal.SubmitRegulation` | src/Components/Admin/AddRegulationModal.jsx:44-63 | The POST is sent exactly when the errors are empty, with the trimmed name and the numeric count. The dialog closes on success; a failure leaves the single `server` entry. |
| `AddRegulationModal.AddRegulationForm.constructor` | src/Components/Admin/AddRegulationModal.jsx:5-9 | The dialog starts empty, with no known regulations. |
| `AddRegulationModal.AddRegulationForm.LoadExisting` | src/Components/Admin/AddRegulationModal.jsx:11-23 | The known regulations become `res.data \|\| []` on success; a failure keeps them. |
| `AddRegulationModal.AddRegulationForm.Validate` | src/Components/Admin/AddRegulationModal.jsx:25-42 | The error object is replaced by `RegulationErrors`, and the result says whether it is empty. |
| `AddRegulationModal.AddRegulationForm.Submit` | src/Components/Admin/AddRegulationModal.jsx:44-63 | The dialog state after `handleSubmit` is as `SubmitRegulation` says. |
| `AddRegulationModal.AddRegulationForm.EditName` | src/Components/Admin/AddRegulationModal.jsx:77-80 | Typing a name clears only the name's error. |
| `AddRegulationModal.AddRegulationForm.EditSemesters` | src/Components/Admin/AddRegulationModal.jsx:90-94 | Typing a count clears only the count's error. |
| `LoginPage.RouteFor` | src/pages/Login.jsx:22-27 | A signed-in admin, faculty member or student goes to `/admin`, `/faculty` or `/student`; no user or any other role stays put. |
| `LoginPage.EmailLikeInContext` | src/pages/Login.jsx:42 | `\S+@\S+\.\S+` is searched anywhere, so surrounding text never spoils a match. |
| `LoginPage.EmailLikeNeeds` | src/pages/Login.jsx:42 | Every address that passes holds an "@" and a "." and has at least five characters. |
| `LoginPage.EmailLikeAddress` | src/pages/Login.jsx:42 | Every `user@host.tld` whose three parts are non-empty and free of whitespace passes. |
| `LoginPage.RegisterErrors` | src/pages/Login.jsx:38-54 | Each field is in error exactly when its own test fails, independently of the others. The password length is JavaScript's `.length`, counted in UTF-16 code units. |
| `LoginPage.RegisterErrorMessages` | src/pages/Login.jsx:40-50 | Each entry carries its message, with "Email is required" before the format error and "Password is required" before the length error. |
| `LoginPage.RegisterValid` | src/pages/Login.jsx:49-53 | Registration passes exactly when every field is filled, the email is well formed, the password has at least 6 UTF-16 code units and the passwords agree. |
| `LoginPage.CollectRegisterErrors` | src/pages/Login.jsx:38-54 | The step-by-step `validateRegister` builds exactly `RegisterErrors`, and reports whether it is empty. |
| `LoginPage.RegisterStep` | src/pages/Login.jsx:69-98 | Nothing is sent unless validation passes. Then the POST goes to the registration URL. Success alerts "Registration successful! Please login." and returns to the login tab; failure flags the page. Either way the inputs are cleared. |
| `LoginPage.LoginScreen.constructor` | src/pages/Login.jsx:12-20 | The page starts on the login tab with empty inputs and no errors. |
| `LoginPage.LoginScreen.ClearFields` | src/pages/Login.jsx:29-36 | All six inputs become empty. |
| `LoginPage.LoginScreen.ShowLoginTab` | src/pages/Login.jsx:119-123 | The login tab resets the failure flag and the errors. |
| `LoginPage.LoginScreen.ShowRegisterTab` | src/pages/Login.jsx:128-133 | The register tab resets the failure flag and the errors. |
| `LoginPage.LoginScreen.Submit` | src/pages/Login.jsx:56-104 | In login mode a failed login flags the page and clears all six inputs. In register mode the page changes, and the success alert is raised, as `RegisterStep` says. |
| `ResetPassword.ResetCheck` | src/pages/ResetPassword.jsx:20-31 | The checks run in order (both required, then a new password of at least 6 UTF-16 code units, then equality), and the first failure is the only message. |
| `ResetPassword.ResetScreen.constructor` | src/pages/ResetPassword.jsx:9-13 | The page starts empty and not loading. |
| `ResetPassword.ResetScreen.EditNewPassword` | src/pages/ResetPassword.jsx:9 | Typing changes only the new password. |
| `ResetPassword.ResetScreen.EditConfirmPassword` | src/pages/ResetPassword.jsx:10 | Typing changes only the confirmation. |
| `ResetPassword.ResetScreen.BeginSubmit` | src/pages/ResetPassword.jsx:15-40 | Error and success are cleared. No request is made unless every check passes; otherwise `loading` becomes true and the POST is made. |
| `ResetPassword.ResetScreen.FinishSubmit` | src/pages/ResetPassword.jsx:42-51 | `loading` ends false whatever the outcome. Success shows the server's message and redirects; failure shows the failure message. |
| `AuthContext.EndpointFor` | src/context/AuthContext.js:31-44 | The admin id wins, then the "FAC" prefix; every other id is a student roll number. |
| `AuthContext.FirstSegment` | src/context/AuthContext.js:59 | `split(sep)[0]` is the prefix before the first separator. |
| `AuthContext.FirstSegmentOfJoin` | src/context/AuthContext.js:59 | The first segment of `a + sep + b` is `a` when `a` has no separator. |
| `AuthContext.RecordKeyOfEndpoint` | src/context/AuthContext.js:58-60 | Each endpoint's user record is read under "admin", "faculty" or "student". |
| `AuthContext.StripTrailingSlash` | src/context/AuthContext.js:46 | `replace(/\/$/, "")` removes at most one trailing "/". |
| `AuthContext.StripOnlyOneSlash` | src/context/AuthContext.js:46 | A base ending in two slashes keeps one. |
| `AuthContext.LoginUrlShape` | src/context/AuthContext.js:46 | The URL is the base, then `/auth/`, then the endpoint's path. |
| `AuthContext.PlanLogin` | src/context/AuthContext.js:19-46 | `login` refuses with "ID and password required" exactly when a trimmed input is empty; otherwise it posts the trimmed id and password to the routed endpoint. |
| `AuthContext.PaddingKeepsEndpoint` | src/context/AuthContext.js:20-21 | Padding the id with spaces never changes the request. |
| `AuthContext.TrimOfPadded` | src/context/AuthContext.js:20 | One space at each end does not change the trim. |
| `AuthContext.TrimEndAppendSpace` | src/context/AuthContext.js:20 | A trailing space is always trimmed away. |
| `AuthContext.StoredUserOf` | src/context/AuthContext.js:7-9 | The session user is present exactly when a user record is stored under "user". |
| `AuthContext.StoredTokenOf` | src/context/AuthContext.js:10 | The session token is present exactly when a non-empty token is stored under "token". |
| `AuthContext.AuthSession.constructor` | src/context/AuthContext.js:7-10 | The session is read from storage. |
| `AuthContext.AuthSession.Logout` | src/context/AuthContext.js:73-78 | User and token are cleared, and both storage keys are removed; other keys stay. |
| `AuthContext.AuthSession.CheckOnLoad` | src/context/AuthContext.js:13-17 | A missing token or user logs out, and afterwards user and token are present together or not at all. |
| `AuthContext.AuthSession.Login` | src/context/AuthContext.js:19-71 | A refused plan sends nothing and leaves the session untouched, and so does a failed reply; both return `success: false` with their message. If the reply holds the user record, the user and token are set and stored. If it does not, the token is still set, the user becomes undefined, storage holds "undefined" for the user and the token, and the `TypeError` from `userData.role` is returned as `success: false`. |
| `AuthContext.StoredSessionReadsBack` | src/context/AuthContext.js:62-65 | A reload reads back exactly the user and token `login` stored. |
| `AuthContext.LoggedOutStorageReadsEmpty` | src/context/AuthContext.js:73-78 | After `logout`, a reload finds no session. |
| `StudentDashboard.StudentBranches` | src/pages/StudentDashboard.jsx:46-49 | Branch options are exactly the branches whose regulation id, embedded or raw, is the selection. |
| `StudentDashboard.StudentSubjects` | src/pages/StudentDashboard.jsx:51-55 | Subject options are exactly the subjects with the selected branch id and the selected semester, compared as text. |
| `StudentDashboard.StudentSubjectsInOrder` | src/pages/StudentDashboard.jsx:51-55 | The subject options keep their order. |
| `StudentDashboard.StudentSemestersMembers` | src/pages/StudentDashboard.jsx:181-185 | The semester options are always 1..8, whatever regulation is chosen. |
| `StudentDashboard.SemesterComparedAsText` | src/pages/StudentDashboard.jsx:54 | A numeric semester k matches the option "k"; the text "03" and a `$numberInt` wrapper never match. |
| `StudentDashboard.Archive` | src/pages/StudentDashboard.jsx:87-94 | The archive exists exactly when every fetch succeeds, and then holds one `<title>.pdf` entry per note, in order. |
| `StudentDashboard.CollectArchive` | src/pages/StudentDashboard.jsx:88-92 | The loop builds exactly `Archive`; it fetches the notes' files in order and stops at the first failure. |
| `StudentDashboard.StudentScreen.constructor` | src/pages/StudentDashboard.jsx:11-21 | The screen starts with empty lists, no selection and no results. |
| `StudentDashboard.StudentScreen.LoadMeta` | src/pages/StudentDashboard.jsx:25-44 | On success the three lists are set, a missing list reading as `[]`; a failure alerts and keeps them. |
| `StudentDashboard.StudentScreen.GetNotes` | src/pages/StudentDashboard.jsx:57-81 | With any selection empty it alerts and sends nothing. Otherwise the results become the returned notes (or `[]`, or `[]` on failure), and the search is marked done. |
| `StudentDashboard.StudentScreen.DownloadAll` | src/pages/StudentDashboard.jsx:83-101 | Nothing happens without results. Otherwise the archive is saved as "All_Notes.zip" when every fetch succeeds, and the failure alert is raised when one does not. |
| `StudentDashboard.StudentScreen.SelectRegulation` | src/pages/StudentDashboard.jsx:128-135 | A regulation change clears branch, semester, subject, the results and `searchDone`. |
| `StudentDashboard.StudentScreen.SelectBranch` | src/pages/StudentDashboard.jsx:150-156 | A branch change clears semester, subject, the results and `searchDone`. |
| `StudentDashboard.StudentScreen.SelectSemester` | src/pages/StudentDashboard.jsx:172-177 | A semester change clears the subject, the results and `searchDone`. |
| `StudentDashboard.StudentScreen.SelectSubject` | src/pages/StudentDashboard.jsx:193 | The subject selector changes nothing else. |
| `FacultyDashboard.AccessOf` | src/pages/FacultyDashboard.jsx:25-29 | A missing token or a non-faculty role redirects to login, a faculty user is allowed, and a token with no user throws. |
| `FacultyDashboard.FacultyBranches` | src/pages/FacultyDashboard.jsx:60-62 | Branch options are exactly the branches with an embedded regulation whose `_id` is the selection. |
| `FacultyDashboard.FacultySubjects` | src/pages/FacultyDashboard.jsx:64-68 | Subject options are exactly the subjects with an embedded branch `_id` equal to the selection and `semester.toString()` equal to the selected semester. |
| `FacultyDashboard.RawReferencesNeverOffered` | src/pages/FacultyDashboard.jsx:60-68 | A raw regulation or branch id is never offered, though the student screen would offer it. |
| `FacultyDashboard.Files` | src/pages/FacultyDashboard.jsx:95-97 | `getAll("files")` returns no more files than the form has entries. |
| `FacultyDashboard.TextFieldAppend` | src/pages/FacultyDashboard.jsx:88-97 | Entries appended after a key's first text value do not change what `get` returns. |
| `FacultyDashboard.FilesAppend` | src/pages/FacultyDashboard.jsx:88-97 | The files of a concatenated form are the files of each part, in order. |
| `FacultyDashboard.FilesOfFileEntries` | src/pages/FacultyDashboard.jsx:95-97 | The file entries give back the chosen files, in order. |
| `FacultyDashboard.FormCons` | src/pages/FacultyDashboard.jsx:88-97 | What `get` and `getAll` return on a form that starts with a given entry. |
| `FacultyDashboard.FormHeaderReadsBack` | src/pages/FacultyDashboard.jsx:89-93 | The five text entries hold each selection and the uploader under its own key, and no file. |
| `FacultyDashboard.UploadFormReadsBack` | src/pages/FacultyDashboard.jsx:88-97 | The posted form gives back each selection, the uploader and the files in order. |
| `FacultyDashboard.BuildUploadForm` | src/pages/FacultyDashboard.jsx:88-97 | The five appends and the file loop build exactly `UploadForm`: regulation, branch, semester, subject, uploadedBy, then one "files" entry per file. |
| `FacultyDashboard.FacultyScreen.constructor` | src/pages/FacultyDashboard.jsx:12-23 | The screen starts with empty lists, no selection, no files and no uploads. |
| `FacultyDashboard.FacultyScreen.Mount` | src/pages/FacultyDashboard.jsx:25-58 | The guard decides access. When allowed, the meta lists and uploads are loaded, and a failure of either keeps its lists. |
| `FacultyDashboard.FacultyScreen.Submit` | src/pages/FacultyDashboard.jsx:70-128 | Upload is refused without all four selections or without files. Otherwise the form is posted. Success resets the selections and files and re-fetches uploads. A 401 from the upload, or from that re-fetch, alerts and logs out; any other failure of either alerts "Upload failed". |
| `FacultyDashboard.FacultyScreen.SelectRegulation` | src/pages/FacultyDashboard.jsx:164-168 | A regulation change clears branch and subject but keeps the semester. |
| `FacultyDashboard.FacultyScreen.SelectBranch` | src/pages/FacultyDashboard.jsx:181-184 | A branch change clears the subject. |
| `FacultyDashboard.FacultyScreen.SelectSemester` | src/pages/FacultyDashboard.jsx:198-201 | A semester change clears the subject. |
| `FacultyDashboard.FacultyScreen.SelectSubject` | src/pages/FacultyDashboard.jsx:215 | The subject selector changes nothing else. |
| `FacultyDashboard.FacultyScreen.ChooseFiles` | src/pages/FacultyDashboard.jsx:230 | The chosen files replace the list. |
| `Card.LastSegment` | src/Components/Card.jsx:25 | `split(".").pop()` is the suffix after the last ".", which contains no ".". |
| `Card.LastSegmentOfDotted` | src/Components/Card.jsx:25 | The last segment of `base + "." + ext` is `ext`, whatever `base` holds. |
| `Card.LastSegmentOfPlain` | src/Components/Card.jsx:25 | A name without "." is its own last segment. |
| `Card.DownloadExtension` | src/Components/Card.jsx:25 | The extension is the last segment of the filename; it is "pdf" when the filename is missing or its last segment is empty. |
| `Card.TitleOr` | src/Components/Card.jsx:29 | `title \|\| "file"` is the title when non-empty, and "file" when the title is missing or empty. |
| `Card.DownloadNameCases` | src/Components/Card.jsx:25-29 | The download name is title-or-"file", then ".", then the extension, in each filename case. |
| `Card.ViewType` | src/Components/Card.jsx:52-61 | A typed blob keeps its type. An untyped or octet-stream blob gets the PDF, Word or docx type exactly when the lower-cased extension is pdf, doc or docx; any other extension, or no filename, keeps its type. |
| `Card.UpperCasePdfViewsAsPdf` | src/Components/Card.jsx:53 | An untyped `*.PDF` file opens as a PDF, because the extension is lower-cased. |
| `Card.InitialFavourite` | src/Components/Card.jsx:11-13 | `isFav` starts true exactly when the user's favourites contain the note, and false without a user or a list. |
| `Card.NoteCard.constructor` | src/Components/Card.jsx:8-13 | A card starts with `isFav` as `InitialFavourite` says, and neither downloading nor viewing. |
| `Card.NoteCard.UserChanged` | src/Components/Card.jsx:11-13 | The effect recomputes `isFav` for the new user. |
| `Card.NoteCard.Download` | src/Components/Card.jsx:16-40 | The file is fetched from `${backend}/notes/<id>`. A fetched file is saved under the download name. On failure nothing is saved and "Failed to download file" is alerted. `downloading` ends false. |
| `Card.NoteCard.View` | src/Components/Card.jsx:43-73 | The file is fetched from `${backend}/notes/<id>`. A fetched file opens with `ViewType`. On failure nothing opens and "Failed to view file" is alerted. `viewing` ends false. |
| `Card.NoteCard.ToggleFavourite` | src/Components/Card.jsx:75-93 | The request goes to `${backend}/notes/<id>/favorite`. DELETE is used for a favourite and POST otherwise. `isFav` flips only on success, and only then is the new list reported; a failure alerts "Could not update favourite status". |

## Left out

- Network I/O (axios, `fetch`, `Promise.all`, multipart posting) is not performed. Each reply is an input, and a thrown request is a `Failed` reply.
- StudentDashboard.CollectArchive: the loop never checks `res.ok`, so an error status still puts its body in the archive. In the model a `Failed` file reply stands only for a `fetch` that rejects.
- Blob and URL creation, anchor clicks, `window.open`, `setTimeout`, JSZip and file-saver are not modelled. The archive is a list of entries, so JSZip replacing an earlier entry of the same name is not captured.
- The notes screen's `downloadNote`, its faculty details dialog, and FacultyDashboard's `handleViewFile` are browser-file and display code, and are not modelled.
- JSON parsing in browser storage is not modelled. A stored value is a user record, a token, or other text.
- AuthContext.StoredUserOf: stored text that is not a user record reads as no user. In the source, `JSON.parse` throws on text that is not JSON, such as the "undefined" that `JSON.stringify(undefined)` stores, and the provider then fails on reload. The model does not capture that crash.
- React rendering, CSS, date formatting, `alert` and `console` are not modelled. Alerts are returned as messages.
- `src/Components/Carousel.jsx`, `src/App.js`, `src/Components/Navbar.jsx`, `src/services/api.js` and `src/Components/Admin/UserManager.jsx` are not part of this model; they hold no logic of the modelled screens.
- Whitespace and case are ASCII only. JavaScript's Unicode `trim` and `toLowerCase` are not modelled. String length, where the source compares it, is counted in UTF-16 code units as JavaScript does (`Text.Utf16Length`).
- Numbers.ParseNumber: `Number(s)` is modelled on optionally signed decimal integers. Fractions, exponents, hexadecimal and `Infinity` are not modelled, and read as NaN.
- `data || []` and `Array.isArray(data) ? data : []` on a reply are modelled by an `Option` list in the reply, read with `GetOr([])`. A body that is truthy but not an array makes `.map` throw in the source; the model reads it as `[]`.
- Refs.SemesterText: a semester stored as `null` is not told apart from a missing one. The model reads both as missing: "undefined" as text and NaN as a number, where `null` would give "null" and 0.
- `{ ...prev, k: null }` is modelled as removing the key k. Both read and render the same.
- FacultyDashboard's `fetchMeta` sets each list without `|| []`. A reply without a list would break the page, which the model does not capture: its replies always carry the three lists.
- FacultyDashboard.FacultySubjects: `s.semester.toString()` throws on a subject without a semester. The model reads such a semester as the text "undefined", which never equals a chosen semester.
- AuthContext.AuthSession.Login: the message of the `TypeError` for a missing user record is engine-specific. It is a fixed constant in the model.
- Card.TitleOr: a `null` title is modelled as absent, so it gives "file". `StudentDashboard.EntryName` reads an absent title as "undefined".
- Refs.RefId: an embedded record whose `_id` is empty reads as `"[object Object]"`. That is JavaScript's text for an object, and the model does not go further into it.
- The refetch after an upload and the reload after a save or delete are separate replies or methods. They are not nested inside one handler call.
