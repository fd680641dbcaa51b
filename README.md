# Study tool: create-study form and dashboard logic

This project models two pieces of the study tool's front end in Dafny and proves properties about them.

- **The "Create New Study" dialog** (`components/create-study-dialog.tsx`). It is a form with a title, a description, notes, a list of at most 20 selected PDF files, an error line, a loading flag and an open flag. Its handlers change these fields in place. They are modelled as the class `CreateStudyDialog.Dialog`, with one method per handler. The class invariant `Valid()` says the dialog holds at most 20 files and that every held file has the MIME type `application/pdf`. Each method states the whole new state (`State()`) in terms of the old state.
  - Each submit handler is asynchronous. It is split in two steps. `StartNotesSubmit` / `StartPdfSubmit` validate the form, turn `loading` on and return the request body. `Settle` applies the request's outcome when it arrives. `HandleNotesSubmit` / `HandlePdfSubmit` run both steps with nothing in between.
  - The network result is a parameter of type `Outcome`. It is `Created` (an ok response), `Rejected(message)` (a non-ok response whose JSON body is an object, and that object's `error` field, if any), or `Failed` (an exception). An exception covers three cases: a network failure, a body that is not JSON, and a non-ok response whose body is JSON `null`, because reading `data.error` of `null` throws inside the `try`.
- **The dashboard page** (`app/dashboard/page.tsx`). It is modelled as pure functions in module `Dashboard`:
  - the redirect to `/login` when there is no session;
  - the header line that counts the studies;
  - the avatar initials;
  - one card per study, with its source label ("1 PDF", "3 PDFs", "Notes") and a 150-character content preview.

  The `auth_token` cookie is a parameter. The answers of the backend's `/auth/me` and `/studies` endpoints are parameters too, given as functions of the token. The result also records which backend calls the page made, in order. That makes "a missing session redirects before the studies are fetched" a property the model can state.
- **Supporting modules.** `StudyRecord` holds the study record (`IStudy`, `lib/models/Study.ts`). `Text` holds the string operations the two files use: `trim`, `toUpperCase`, `slice(0, k)`, and the decimal form of a number in a template literal. The decimal form has a proved inverse (`ParseDigits`), so the model can prove that the labels and the header state the true counts.

## Model

| member | source | states |
|---|---|---|
| Text.TrimSpec | components/create-study-dialog.tsx:59 | the trimmed string is a contiguous part of the input, neither starts nor ends with whitespace, and every character outside it is whitespace |
| Text.TrimStartSpec | components/create-study-dialog.tsx:59 | trimming the front removes exactly the leading whitespace: what is dropped is all whitespace and what is kept does not start with it |
| Text.TrimEndSpec | components/create-study-dialog.tsx:93 | trimming the back removes exactly the trailing whitespace: what is dropped is all whitespace and what is kept does not end with it |
| Text.Trim | components/create-study-dialog.tsx:59 | `trim()` gives the empty (falsy) string exactly when every character is whitespace, as the blank tests on title and notes use it |
| Text.ToUpper | app/dashboard/page.tsx:67 | upper-casing keeps the length and upper-cases each character in its place |
| Text.UpperChar | app/dashboard/page.tsx:67 | a letter 'a'..'z' becomes the matching 'A'..'Z' (its code minus 32), every other character is unchanged, and no result is lower-case |
| Text.Take | app/dashboard/page.tsx:171 | `slice(0, k)` gives the first k characters, or the whole string when it is shorter; the result is a prefix of the input |
| Text.NatToString | app/dashboard/page.tsx:121 | the decimal form of a count is a non-empty string of digits with no leading zero |
| Text.ParseNatToString | app/dashboard/page.tsx:158 | reading the decimal form back gives the number again |
| Text.LeadingDigitsOf | app/dashboard/page.tsx:121 | in a number followed by a space, the digits at the front are exactly the number's decimal form |
| StudyRecord.PdfCount | app/dashboard/page.tsx:158 | the PDF count is the length of `pdfFileNames`, and 0 when the field is absent |
| Dashboard.SourceLabel | app/dashboard/page.tsx:157-159 | a study whose source type is not PDF is labelled "Notes" |
| Dashboard.SourceLabelPlural | app/dashboard/page.tsx:158 | a PDF label is exactly "1 PDF" for one file and exactly the count followed by " PDFs" for any other count, 0 included; so it ends in " PDF" exactly when the count is 1 |
| Dashboard.SourceLabelRoundTrip | app/dashboard/page.tsx:157-159 | the count read back from a label is the study's PDF count for a PDF study; a notes label carries no count |
| Dashboard.SourceLabelInjective | app/dashboard/page.tsx:158 | two PDF studies with different file counts never get the same label |
| Dashboard.CountMessage | app/dashboard/page.tsx:121 | for a positive count the header starts with "You have " |
| Dashboard.CountMessageShape | app/dashboard/page.tsx:119-121 | the header is "Create your first study to get started" exactly when there are no studies, exactly "You have 1 study" for one, and exactly "You have " + N + " studies" for N > 1 |
| Dashboard.CountMessageRoundTrip | app/dashboard/page.tsx:119-121 | the count read back from the header is the number of studies |
| Dashboard.Initials | app/dashboard/page.tsx:67 | the initials are the first two characters of the email upper-cased (fewer for a shorter email) and contain no lower-case letter |
| Dashboard.Preview | app/dashboard/page.tsx:171 | the preview is the first min(n, 150) characters of the content followed by "...", so it is at most 153 long and always ends in "..." |
| Dashboard.PreviewOfShortContent | app/dashboard/page.tsx:171 | content of at most 150 characters is shown whole, followed by "..." |
| Dashboard.CardOf | app/dashboard/page.tsx:147-177 | a card links to `/study/<id>`, shows the study's source label, its title and the preview of its content, carries its creation time, and shows the study's description exactly when that description is non-empty |
| Dashboard.StudiesView | app/dashboard/page.tsx:127-181 | the empty state is shown exactly when there are no studies; otherwise the grid has one card per study, in the order received |
| Dashboard.UserOf | app/dashboard/page.tsx:25-37 | an ok response yields exactly the `user` it carries (null when it carries none); a non-ok response or an exception yields null |
| Dashboard.StudiesOf | app/dashboard/page.tsx:39-51 | a non-ok response or an exception from the studies fetch yields an empty list |
| Dashboard.DashboardPage | app/dashboard/page.tsx:53-66 | the page redirects, always to "/login", exactly when the token is missing or empty or the user lookup yields null. A redirect never fetches studies: with no token no call is made, and after a failed lookup the only call is that one lookup. Otherwise the user is looked up and then the studies are fetched, and the page shows that user's initials, the header for that many studies, and their view |
| Dashboard.HasToken | app/dashboard/page.tsx:57-59 | `!token`: a missing cookie and an empty cookie value both mean there is no session |
| Dashboard.FailedStudiesFetchShowsEmptyState | app/dashboard/page.tsx:45-49 | a signed-in user whose studies fetch fails sees the empty state and the first-study prompt |
| CreateStudyDialog.IsPdf | components/create-study-dialog.tsx:43 | a file is kept exactly when its type is the string "application/pdf" |
| CreateStudyDialog.PdfOnly | components/create-study-dialog.tsx:42-43 | the filtered batch holds exactly the batch's files whose type is "application/pdf", and is no longer than the batch |
| CreateStudyDialog.PdfOnlyAppend | components/create-study-dialog.tsx:43 | filtering splits over concatenation, so the PDFs keep their relative order |
| CreateStudyDialog.PdfOnlyKeepsPdfs | components/create-study-dialog.tsx:43 | a list of PDFs passes the filter unchanged |
| CreateStudyDialog.RemoveAt | components/create-study-dialog.tsx:55 | filtering out index i removes exactly the entry at i and keeps the others in order; an index out of range changes nothing |
| CreateStudyDialog.RejectionMessage | components/create-study-dialog.tsx:78 | the error shown for a non-ok response is its non-empty `error` field if there is one, and "Failed to create study" otherwise; it is never empty |
| CreateStudyDialog.Cleared | components/create-study-dialog.tsx:33-39 | after a reset, title, description, notes and error are "" and the file list is empty; `open` and `loading` keep their values |
| CreateStudyDialog.NotesValidation | components/create-study-dialog.tsx:59-62 | the notes submit goes ahead exactly when neither the title nor the notes is all whitespace; otherwise the error is "Title and notes are required" |
| CreateStudyDialog.PdfValidation | components/create-study-dialog.tsx:93-101 | a blank title gives "Title is required" whatever the file count; a valid title with no files gives "Please upload at least one PDF"; the PDF submit goes ahead exactly when the title is not blank and there is at least one file |
| CreateStudyDialog.Dialog.Valid | components/create-study-dialog.tsx:45-50 | the dialog invariant: at most 20 files are held, all of them PDFs; every method requires and keeps it |
| CreateStudyDialog.Dialog.constructor | components/create-study-dialog.tsx:24-30 | the dialog starts closed and not loading, with every field empty and no files |
| CreateStudyDialog.Dialog.SetOpen | components/create-study-dialog.tsx:136 | opening or closing the dialog changes only `open` |
| CreateStudyDialog.Dialog.SetTitle | components/create-study-dialog.tsx:158 | typing a title changes only the title |
| CreateStudyDialog.Dialog.SetDescription | components/create-study-dialog.tsx:168 | typing a description changes only the description |
| CreateStudyDialog.Dialog.SetNotes | components/create-study-dialog.tsx:255 | typing notes changes only the notes |
| CreateStudyDialog.Dialog.ResetForm | components/create-study-dialog.tsx:33-39 | the new state is the cleared form, and `open` and `loading` are unchanged |
| CreateStudyDialog.Dialog.HandleFileChange | components/create-study-dialog.tsx:41-52 | keeps at most 20 files, all of them PDFs. If the held files plus the batch's PDFs would exceed 20, only the error changes, to "Maximum 20 PDF files allowed". Otherwise the batch's PDFs are appended after the held ones in their order, the error is cleared, and nothing else changes. Non-PDF files count neither toward the list nor toward the limit |
| CreateStudyDialog.Dialog.RemoveFile | components/create-study-dialog.tsx:54-56 | the file list loses exactly the entry at the index, if there is one, and nothing else changes |
| CreateStudyDialog.Dialog.StartNotesSubmit | components/create-study-dialog.tsx:58-65 | a failed validation sets only the error and sends no request, so `loading` is unchanged. Otherwise `loading` turns on, the error is cleared, and the request carries the title, the description and the notes as content |
| CreateStudyDialog.Dialog.StartPdfSubmit | components/create-study-dialog.tsx:92-104 | a failed validation, with the title checked first, sets only the error and sends no request. Otherwise `loading` turns on, the error is cleared, and the request carries the title, the description and the files in order |
| CreateStudyDialog.Dialog.Settle | components/create-study-dialog.tsx:75-89 | `loading` ends false whatever the outcome. Success clears the form and closes the dialog. A rejection keeps the fields and shows the server message or "Failed to create study". An exception keeps the fields and shows "Something went wrong" |
| CreateStudyDialog.Dialog.HandleNotesSubmit | components/create-study-dialog.tsx:58-90 | the whole notes handler: no request and only the error changed on a failed validation; otherwise the request is sent and the outcome is applied as in `Settle` |
| CreateStudyDialog.Dialog.HandlePdfSubmit | components/create-study-dialog.tsx:92-133 | the whole PDF handler: no request and only the validation error set on a failed validation; otherwise the request is sent and the outcome is applied as in `Settle` |

## Left out

- Network and framework calls are not modelled. This covers `fetch`, `FormData`, `res.json()`, `router.refresh()`, `cookies()` and `redirect`. Each request's result is a parameter instead (`Outcome`, `UserResponse`, `StudiesResponse`). `redirect` is modelled as the page's result, because in the source it ends the page function.
- Text.Trim: only ASCII whitespace counts (space, tab, line feed, vertical tab, form feed, carriage return). JavaScript's `trim` also removes Unicode spaces and line terminators.
- Text.ToUpper: only 'a'..'z' are upper-cased, one character at a time. JavaScript's `toUpperCase` follows the full Unicode mapping, which can change the length (for example 'ß' becomes "SS").
- Text.Take: strings are sequences of Unicode characters, while JavaScript's `slice` counts UTF-16 code units. For text with characters outside the Basic Multilingual Plane, the source keeps fewer characters than the model and may split a surrogate pair.
- Dashboard.Initials: takes the first two Unicode characters of the email; the source takes the first two UTF-16 code units (see Text.Take).
- Dashboard.Preview: keeps the first 150 Unicode characters, and its bound of 153 counts characters; in the source both the 150 and the 153 count UTF-16 code units (see Text.Take).
- Dashboard.CardOf: the creation date is carried as its raw value. `toLocaleDateString` depends on the locale and is not modelled. The study id is taken as its string form.
- The card's CSS `uppercase` class changes only how the label is displayed, so the label is modelled as written. The icons and the layout of the JSX are not modelled.
- React's asynchronous state updates are not modelled. `handleFileChange` checks the length of the `pdfFiles` seen at render time and appends through an updater function of the previous list. The model applies each handler's updates in sequence, so the two lists are the same.
- A study list body without a `studies` field is not modelled. Nor is a user without an `email` field. The source would fail on either.
- The submit buttons are disabled while `loading` is true. That is markup, not handler logic, and the handlers themselves do not check `loading`, so neither do `StartNotesSubmit` and `StartPdfSubmit`.
- The rest of the repository is not part of this model: the quiz, chat, document search and video components, the authentication routes, the JWT helpers, the database connection and the schema enforcement of the study model.
