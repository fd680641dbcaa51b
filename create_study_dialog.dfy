/**
 * The "Create New Study" dialog: a form whose handlers update component state.
 * The two submit handlers are asynchronous in the source; each is modelled as
 * a start step (validation, then `loading` on and the request built) and a
 * settle step that applies the request's outcome once it arrives.
 */
module CreateStudyDialog {
  import opened Wrappers
  import opened Text

  const MaxPdfFiles := 20
  const PdfMimeType := "application/pdf"

  const TooManyFilesError := "Maximum 20 PDF files allowed"
  const NotesRequiredError := "Title and notes are required"
  const TitleRequiredError := "Title is required"
  const NoPdfError := "Please upload at least one PDF"
  const CreateFailedError := "Failed to create study"
  const UnexpectedError := "Something went wrong"

  /** A selected file: its name and its MIME type (`File.type`). */
  datatype File = File(name: string, mimeType: string)

  predicate IsPdf(f: File) {
    f.mimeType == PdfMimeType
  }

  /** `files.filter((f) => f.type === "application/pdf")`. */
  function PdfOnly(files: seq<File>): (r: seq<File>)
    ensures |r| <= |files|
    ensures forall f :: f in r <==> f in files && IsPdf(f)
  {
    if files == [] then []
    else (if IsPdf(files[0]) then [files[0]] else []) + PdfOnly(files[1..])
  }

  /** Filtering splits over concatenation, so the PDFs keep their relative order. */
  lemma {:induction false} PdfOnlyAppend(a: seq<File>, b: seq<File>)
    ensures PdfOnly(a + b) == PdfOnly(a) + PdfOnly(b)
  {
    if a != [] {
      assert (a + b)[1..] == a[1..] + b;
      PdfOnlyAppend(a[1..], b);
    } else {
      assert a + b == b;
    }
  }

  /** A list of PDFs passes the filter unchanged. */
  lemma {:induction false} PdfOnlyKeepsPdfs(files: seq<File>)
    requires forall f :: f in files ==> IsPdf(f)
    ensures PdfOnly(files) == files
  {
    if files != [] {
      PdfOnlyKeepsPdfs(files[1..]);
    }
  }

  /** `prev.filter((_, i) => i !== index)`. */
  function RemoveAt<T>(s: seq<T>, index: int): (r: seq<T>)
    ensures 0 <= index < |s| ==> r == s[..index] + s[index + 1..]
    ensures !(0 <= index < |s|) ==> r == s
  {
    if s == [] then []
    else (if index == 0 then [] else [s[0]]) + RemoveAt(s[1..], index - 1)
  }

  /** The body of the create request: JSON for notes, form data for PDFs. */
  datatype Request =
    | NotesRequest(title: string, description: string, content: string)
    | PdfRequest(title: string, description: string, pdfs: seq<File>)

  /**
   * How the request ended: an ok response, a non-ok response whose JSON body
   * is an object, with its `error` field (absent when the object has none), or
   * an exception. An exception covers a network failure, a body that is not
   * JSON, and a non-ok response whose body is JSON `null`, because reading
   * `data.error` of `null` throws inside the `try`.
   */
  datatype Outcome = Created | Rejected(message: Option<string>) | Failed

  /** `data.error || "Failed to create study"`: an absent or empty message falls back to the default. */
  function RejectionMessage(message: Option<string>): (r: string)
    ensures r != ""
    ensures message.Some? && message.value != "" ==> r == message.value
    ensures !(message.Some? && message.value != "") ==> r == CreateFailedError
  {
    if message.Some? && message.value != "" then message.value else CreateFailedError
  }

  /** The component state, as one value. */
  datatype FormState = FormState(
    open: bool,
    loading: bool,
    error: string,
    title: string,
    description: string,
    notes: string,
    pdfFiles: seq<File>)

  /** The state that `resetForm` leaves: fields and error cleared, `open` and `loading` as they were. */
  function Cleared(st: FormState): (r: FormState)
    ensures r.open == st.open && r.loading == st.loading
    ensures r.title == "" && r.description == "" && r.notes == "" && r.pdfFiles == [] && r.error == ""
  {
    st.(title := "", description := "", notes := "", pdfFiles := [], error := "")
  }

  /** The validation message of the notes submit: None exactly when neither field is blank. */
  function NotesValidation(title: string, notes: string): (r: Option<string>)
    ensures r.None? <==> !AllSpace(title) && !AllSpace(notes)
    ensures r.Some? ==> r.value == NotesRequiredError
  {
    if Trim(title) == [] || Trim(notes) == [] then Some(NotesRequiredError) else None
  }

  /** The validation message of the PDF submit: the title is checked before the file count. */
  function PdfValidation(title: string, fileCount: nat): (r: Option<string>)
    ensures AllSpace(title) ==> r == Some(TitleRequiredError)
    ensures !AllSpace(title) && fileCount == 0 ==> r == Some(NoPdfError)
    ensures r.None? <==> !AllSpace(title) && fileCount > 0
  {
    if Trim(title) == [] then Some(TitleRequiredError)
    else if fileCount == 0 then Some(NoPdfError)
    else None
  }

  class Dialog {
    var open: bool
    var loading: bool
    var error: string
    var title: string
    var description: string
    var notes: string
    var pdfFiles: seq<File>

    /** At most 20 files are held, and every one of them is a PDF. */
    ghost predicate Valid()
      reads this
    {
      |pdfFiles| <= MaxPdfFiles && forall f :: f in pdfFiles ==> IsPdf(f)
    }

    function State(): FormState
      reads this
    {
      FormState(open, loading, error, title, description, notes, pdfFiles)
    }

    /** The initial `useState` values: closed, idle, empty. */
    constructor ()
      ensures Valid()
      ensures State() == FormState(false, false, "", "", "", "", [])
    {
      open, loading, error := false, false, "";
      title, description, notes := "", "", "";
      pdfFiles := [];
    }

    /** `onOpenChange` of the dialog. */
    method SetOpen(value: bool)
      requires Valid()
      modifies this
      ensures Valid()
      ensures State() == old(State()).(open := value)
    {
      open := value;
    }

    /** `onChange` of the title input. */
    method SetTitle(value: string)
      requires Valid()
      modifies this
      ensures Valid()
      ensures State() == old(State()).(title := value)
    {
      title := value;
    }

    /** `onChange` of the description input. */
    method SetDescription(value: string)
      requires Valid()
      modifies this
      ensures Valid()
      ensures State() == old(State()).(description := value)
    {
      description := value;
    }

    /** `onChange` of the notes text area. */
    method SetNotes(value: string)
      requires Valid()
      modifies this
      ensures Valid()
      ensures State() == old(State()).(notes := value)
    {
      notes := value;
    }

    /** `resetForm`. */
    method ResetForm()
      requires Valid()
      modifies this
      ensures Valid()
      ensures State() == Cleared(old(State()))
    {
      title, description, notes := "", "", "";
      pdfFiles := [];
      error := "";
    }

    /**
     * `handleFileChange` for the input's file list (None when the input has
     * none). The PDFs of the batch are appended all together, in their order,
     * unless that would make more than 20; then nothing is added and the
     * limit error is shown. Non-PDF files are dropped before the count.
     */
    method HandleFileChange(selected: Option<seq<File>>)
      requires Valid()
      modifies this
      ensures Valid()
      ensures var batch := PdfOnly(if selected.Some? then selected.value else []);
        if |old(pdfFiles)| + |batch| > MaxPdfFiles
        then State() == old(State()).(error := TooManyFilesError)
        else State() == old(State()).(pdfFiles := old(pdfFiles) + batch, error := "")
    {
      var files := if selected.Some? then selected.value else [];
      var pdfFilesOnly := PdfOnly(files);
      if |pdfFiles| + |pdfFilesOnly| > MaxPdfFiles {
        error := TooManyFilesError;
        return;
      }
      pdfFiles := pdfFiles + pdfFilesOnly;
      error := "";
    }

    /** `removeFile`: drops the entry at index, if there is one; nothing else changes. */
    method RemoveFile(index: int)
      requires Valid()
      modifies this
      ensures Valid()
      ensures State() == old(State()).(pdfFiles := RemoveAt(old(pdfFiles), index))
    {
      pdfFiles := RemoveAt(pdfFiles, index);
    }

    /**
     * The synchronous part of `handleNotesSubmit`: on a blank title or blank
     * notes, the error is shown and no request is made; otherwise `loading`
     * turns on, the error is cleared and the request is returned.
     */
    method StartNotesSubmit() returns (request: Option<Request>)
      requires Valid()
      modifies this
      ensures Valid()
      ensures NotesValidation(old(title), old(notes)).Some? ==>
        request.None? && State() == old(State()).(error := NotesRequiredError)
      ensures NotesValidation(old(title), old(notes)).None? ==>
        request == Some(NotesRequest(old(title), old(description), old(notes))) &&
        State() == old(State()).(loading := true, error := "")
    {
      var invalid := NotesValidation(title, notes);
      if invalid.Some? {
        error := invalid.value;
        request := None;
        assert State() == old(State()).(error := invalid.value);
        return;
      }
      loading := true;
      error := "";
      request := Some(NotesRequest(title, description, notes));
      assert State() == old(State()).(loading := true, error := "");
    }

    /** The synchronous part of `handlePdfSubmit`, with the title checked before the file count. */
    method StartPdfSubmit() returns (request: Option<Request>)
      requires Valid()
      modifies this
      ensures Valid()
      ensures PdfValidation(old(title), |old(pdfFiles)|).Some? ==>
        request.None? && State() == old(State()).(error := PdfValidation(old(title), |old(pdfFiles)|).value)
      ensures PdfValidation(old(title), |old(pdfFiles)|).None? ==>
        request == Some(PdfRequest(old(title), old(description), old(pdfFiles))) &&
        State() == old(State()).(loading := true, error := "")
    {
      var invalid := PdfValidation(title, |pdfFiles|);
      if invalid.Some? {
        error := invalid.value;
        request := None;
        assert State() == old(State()).(error := invalid.value);
        return;
      }
      loading := true;
      error := "";
      request := Some(PdfRequest(title, description, pdfFiles));
      assert State() == old(State()).(loading := true, error := "");
    }

    /**
     * The part of both submit handlers after the request: success clears the
     * form and closes the dialog; a rejection or an exception keeps the fields
     * and shows its message; in every case `loading` ends false.
     */
    method Settle(outcome: Outcome)
      requires Valid()
      modifies this
      ensures Valid()
      ensures !loading
      ensures match outcome
        case Created => State() == Cleared(old(State())).(open := false, loading := false)
        case Rejected(message) => State() == old(State()).(error := RejectionMessage(message), loading := false)
        case Failed => State() == old(State()).(error := UnexpectedError, loading := false)
    {
      match outcome {
        case Created =>
          ResetForm();
          open := false;
        case Rejected(message) =>
          error := RejectionMessage(message);
        case Failed =>
          error := UnexpectedError;
      }
      loading := false;
    }

    /** `handleNotesSubmit` run to completion, with the request's outcome given. */
    method HandleNotesSubmit(outcome: Outcome) returns (request: Option<Request>)
      requires Valid()
      modifies this
      ensures Valid()
      ensures NotesValidation(old(title), old(notes)).Some? ==>
        request.None? && State() == old(State()).(error := NotesRequiredError)
      ensures NotesValidation(old(title), old(notes)).None? ==>
        request == Some(NotesRequest(old(title), old(description), old(notes))) && !loading
      ensures NotesValidation(old(title), old(notes)).None? && outcome.Created? ==>
        State() == Cleared(old(State())).(open := false, loading := false)
      ensures NotesValidation(old(title), old(notes)).None? && !outcome.Created? ==>
        State() == old(State()).(error := if outcome.Failed? then UnexpectedError else RejectionMessage(outcome.message), loading := false)
    {
      request := StartNotesSubmit();
      if request.Some? {
        Settle(outcome);
      }
    }

    /** `handlePdfSubmit` run to completion, with the request's outcome given. */
    method HandlePdfSubmit(outcome: Outcome) returns (request: Option<Request>)
      requires Valid()
      modifies this
      ensures Valid()
      ensures PdfValidation(old(title), |old(pdfFiles)|).Some? ==>
        request.None? && State() == old(State()).(error := PdfValidation(old(title), |old(pdfFiles)|).value)
      ensures PdfValidation(old(title), |old(pdfFiles)|).None? ==>
        request == Some(PdfRequest(old(title), old(description), old(pdfFiles))) && !loading
      ensures PdfValidation(old(title), |old(pdfFiles)|).None? && outcome.Created? ==>
        State() == Cleared(old(State())).(open := false, loading := false)
      ensures PdfValidation(old(title), |old(pdfFiles)|).None? && !outcome.Created? ==>
        State() == old(State()).(error := if outcome.Failed? then UnexpectedError else RejectionMessage(outcome.message), loading := false)
    {
      request := StartPdfSubmit();
      if request.Some? {
        Settle(outcome);
      }
    }
  }
}
