/**
 * The "print your homework in your handwriting" page: a handwriting sample,
 * typed homework text or a homework PDF, an export button and a preview.
 *
 * The handlers are first given as functions on a `State` value (the three
 * state fields and the toasts emitted so far); the class `UploadWizard`
 * holds the same fields and its methods are specified by those functions.
 */
module Upload {
  import opened Toasts

  datatype Option<T> = None | Some(value: T)

  /** A browser file, seen only through its name, size and declared type. */
  datatype File = File(name: string, size: nat, mimeType: string)

  /** The page's three state fields, and the toasts emitted so far. */
  datatype State = State(
    handwritingSample: Option<File>,
    homeworkText: string,
    homeworkPdf: Option<File>,
    toasts: seq<Toast>)

  /** All three fields start empty, and nothing has been shown. */
  const Initial := State(None, "", None, [])

  function SampleUploadedToast(f: File): Toast {
    Toast(Info, "Handwriting sample uploaded!", f.name + " has been uploaded successfully.")
  }

  const InvalidFileTypeToast := Toast(Destructive, "Invalid file type", "Please upload an image file.")

  function PdfUploadedToast(f: File): Toast {
    Toast(Info, "PDF uploaded!", f.name + " has been uploaded successfully.")
  }

  const MissingInformationToast :=
    Toast(Destructive, "Missing information", "Please upload a handwriting sample and enter homework text or PDF.")

  const GeneratingToast :=
    Toast(Info, "Generating 3D print file...", "Your homework is being converted to 3D printer format.")

  /** `type.startsWith("image/")`. */
  predicate IsImageType(mimeType: string) {
    "image/" <= mimeType
  }

  /** The state fields other than the sample are as in `s`. */
  predicate SameExceptSample(s: State, t: State) {
    t.homeworkText == s.homeworkText && t.homeworkPdf == s.homeworkPdf
  }

  /** `t`'s log is `s`'s log with exactly one toast appended. */
  predicate OneToastMore(s: State, t: State) {
    |t.toasts| == |s.toasts| + 1 && t.toasts[..|s.toasts|] == s.toasts
  }

  /**
   * Choosing a file through the file picker: any file is taken as the
   * sample; when the picker returns no file nothing happens.
   */
  function FileUpload(s: State, file: Option<File>): (t: State)
    ensures SameExceptSample(s, t)
    ensures file.None? ==> t == s
    ensures file.Some? ==> t.handwritingSample == file && OneToastMore(s, t)
    ensures file.Some? ==> t.toasts[|s.toasts|] == SampleUploadedToast(file.value)
  {
    match file
    case None => s
    case Some(f) => s.(handwritingSample := file, toasts := s.toasts + [SampleUploadedToast(f)])
  }

  /**
   * Dropping a file onto the drop zone: only a file whose declared type
   * starts with "image/" is taken; anything else (no file at all included)
   * keeps the previous sample and raises one destructive toast.
   */
  function Drop(s: State, file: Option<File>): (t: State)
    ensures SameExceptSample(s, t) && OneToastMore(s, t)
    ensures t.toasts[|s.toasts|].kind == Info <==> file.Some? && IsImageType(file.value.mimeType)
    ensures t.toasts[|s.toasts|].kind == Info ==>
      t.handwritingSample == file && t.toasts[|s.toasts|] == SampleUploadedToast(file.value)
    ensures t.toasts[|s.toasts|].kind == Destructive ==>
      t.handwritingSample == s.handwritingSample && t.toasts[|s.toasts|] == InvalidFileTypeToast
  {
    if file.Some? && IsImageType(file.value.mimeType) then
      s.(handwritingSample := file, toasts := s.toasts + [SampleUploadedToast(file.value)])
    else
      s.(toasts := s.toasts + [InvalidFileTypeToast])
  }

  /**
   * Choosing a PDF: it replaces the previous PDF, and neither the typed
   * text nor the sample is cleared.
   */
  function PdfUpload(s: State, file: Option<File>): (t: State)
    ensures t.handwritingSample == s.handwritingSample && t.homeworkText == s.homeworkText
    ensures file.None? ==> t == s
    ensures file.Some? ==> t.homeworkPdf == file && OneToastMore(s, t)
    ensures file.Some? ==> t.toasts[|s.toasts|] == PdfUploadedToast(file.value)
  {
    match file
    case None => s
    case Some(f) => s.(homeworkPdf := file, toasts := s.toasts + [PdfUploadedToast(f)])
  }

  /**
   * Typing into the textarea. The textarea is disabled while a PDF is
   * present, so an edit only reaches the state when there is no PDF.
   */
  function EditText(s: State, value: string): (t: State)
    ensures t.handwritingSample == s.handwritingSample && t.homeworkPdf == s.homeworkPdf
    ensures t.toasts == s.toasts
    ensures t.homeworkText != s.homeworkText ==> s.homeworkPdf.None?
    ensures s.homeworkPdf.None? ==> t.homeworkText == value
  {
    if s.homeworkPdf.None? then s.(homeworkText := value) else s
  }

  /** The guard of the export handler: what makes it refuse. */
  predicate ExportBlocked(s: State) {
    s.handwritingSample.None? || (s.homeworkText == "" && s.homeworkPdf.None?)
  }

  /**
   * The export button: exactly one toast, destructive "Missing
   * information" when blocked and informational "Generating" otherwise;
   * no state field changes.
   */
  function Export(s: State): (t: State)
    ensures t.(toasts := s.toasts) == s && OneToastMore(s, t)
    ensures t.toasts[|s.toasts|].kind == Destructive <==> ExportBlocked(s)
    ensures t.toasts[|s.toasts|] == MissingInformationToast <==> ExportBlocked(s)
    ensures t.toasts[|s.toasts|] == GeneratingToast <==> !ExportBlocked(s)
  {
    if ExportBlocked(s) then
      s.(toasts := s.toasts + [MissingInformationToast])
    else
      s.(toasts := s.toasts + [GeneratingToast])
  }

  /** The condition under which the preview card is rendered. */
  function PreviewShown(s: State): (shown: bool)
    ensures shown <==> !ExportBlocked(s)
  {
    (s.homeworkText != "" || s.homeworkPdf.Some?) && s.handwritingSample.Some?
  }

  /** What the preview card displays. */
  datatype PreviewBody = PdfPreview(pdfName: string) | TextPreview(text: string) {
    /** The noun in the caption under the preview. */
    function Noun(): string {
      if PdfPreview? then "PDF" else "text"
    }
  }

  /**
   * The preview, when one is shown. A PDF takes precedence over typed
   * text, even when the text is not empty.
   */
  function Preview(s: State): (p: Option<PreviewBody>)
    ensures p.Some? <==> !ExportBlocked(s)
    ensures p.Some? && s.homeworkPdf.Some? ==> p.value == PdfPreview(s.homeworkPdf.value.name)
    ensures p.Some? && s.homeworkPdf.None? ==> p.value == TextPreview(s.homeworkText) && s.homeworkText != ""
    ensures p.Some? ==> (p.value.Noun() == "PDF" <==> s.homeworkPdf.Some?)
  {
    if !PreviewShown(s) then None
    else if s.homeworkPdf.Some? then Some(PdfPreview(s.homeworkPdf.value.name))
    else Some(TextPreview(s.homeworkText))
  }

  /** The status line beside the export button. */
  datatype Status = PdfUploaded | CharacterCount(count: nat)

  function StatusLabel(s: State): (l: Status)
    ensures l == PdfUploaded <==> s.homeworkPdf.Some?
    ensures l.CharacterCount? ==> l.count == |s.homeworkText|
  {
    if s.homeworkPdf.Some? then PdfUploaded else CharacterCount(|s.homeworkText|)
  }

  /** One user interaction with the page. */
  datatype Event =
    | ChooseSample(file: Option<File>)
    | DropSample(file: Option<File>)
    | ChoosePdf(file: Option<File>)
    | TypeText(value: string)
    | ClickExport

  function Apply(s: State, e: Event): State {
    match e
    case ChooseSample(f) => FileUpload(s, f)
    case DropSample(f) => Drop(s, f)
    case ChoosePdf(f) => PdfUpload(s, f)
    case TypeText(v) => EditText(s, v)
    case ClickExport => Export(s)
  }

  /** The state after the interactions `events`, in order. */
  function Run(s: State, events: seq<Event>): State
    decreases |events|
  {
    if events == [] then s else Run(Apply(s, events[0]), events[1..])
  }

  /** The toast log only grows, by at most one toast per interaction. */
  lemma {:induction false} RunAppendsToasts(s: State, events: seq<Event>)
    ensures |s.toasts| <= |Run(s, events).toasts| <= |s.toasts| + |events|
    ensures Run(s, events).toasts[..|s.toasts|] == s.toasts
    decreases |events|
  {
    if events != [] {
      var s' := Apply(s, events[0]);
      RunAppendsToasts(s', events[1..]);
      assert s'.toasts[..|s.toasts|] == s.toasts;
    }
  }

  /** No handler clears the sample: once present, it stays present. */
  lemma {:induction false} SampleStaysPresent(s: State, events: seq<Event>)
    requires s.handwritingSample.Some?
    ensures Run(s, events).handwritingSample.Some?
    decreases |events|
  {
    if events != [] {
      SampleStaysPresent(Apply(s, events[0]), events[1..]);
    }
  }

  /**
   * Once a PDF is present it stays present, and the typed text is frozen
   * at the value it had: the disabled textarea lets no edit through.
   */
  lemma {:induction false} PdfFreezesText(s: State, events: seq<Event>)
    requires s.homeworkPdf.Some?
    ensures Run(s, events).homeworkPdf.Some?
    ensures Run(s, events).homeworkText == s.homeworkText
    decreases |events|
  {
    if events != [] {
      PdfFreezesText(Apply(s, events[0]), events[1..]);
    }
  }

  /** Once both a sample and a PDF are present, the PDF is previewed from then on. */
  lemma PdfPreviewPersists(s: State, events: seq<Event>)
    requires s.handwritingSample.Some? && s.homeworkPdf.Some?
    ensures Preview(Run(s, events)).Some?
    ensures Preview(Run(s, events)).value.PdfPreview?
  {
    SampleStaysPresent(s, events);
    PdfFreezesText(s, events);
  }

  /** Every destructive toast in the log is one of the page's two error toasts. */
  predicate ErrorToastsKnown(log: seq<Toast>) {
    forall i :: 0 <= i < |log| && log[i].kind == Destructive ==>
      log[i] == InvalidFileTypeToast || log[i] == MissingInformationToast
  }

  lemma {:induction false} RunKeepsErrorToastsKnown(s: State, events: seq<Event>)
    requires ErrorToastsKnown(s.toasts)
    ensures ErrorToastsKnown(Run(s, events).toasts)
    decreases |events|
  {
    if events != [] {
      var s' := Apply(s, events[0]);
      assert ErrorToastsKnown(s'.toasts) by {
        forall i | 0 <= i < |s'.toasts| && s'.toasts[i].kind == Destructive
          ensures s'.toasts[i] == InvalidFileTypeToast || s'.toasts[i] == MissingInformationToast
        {
          if i < |s.toasts| {
            assert s'.toasts[i] == s.toasts[i];
          }
        }
      }
      RunKeepsErrorToastsKnown(s', events[1..]);
    }
  }

  /** Dropping a `text/plain` file leaves the sample as it was, absent included. */
  lemma DropPlainTextRejected(s: State, name: string, size: nat)
    ensures Drop(s, Some(File(name, size, "text/plain"))).handwritingSample == s.handwritingSample
    ensures Drop(s, Some(File(name, size, "text/plain"))).toasts == s.toasts + [InvalidFileTypeToast]
  {
    assert !IsImageType("text/plain") by {
      assert "text/plain"[0] != "image/"[0];
    }
  }

  /** A PDF chosen after typing "abc" is previewed instead of the text, which stays in the state. */
  lemma PdfAfterTextPreviewsPdf(sample: File, pdf: File)
    ensures Run(Initial, [ChooseSample(Some(sample)), TypeText("abc"), ChoosePdf(Some(pdf))]).homeworkText == "abc"
    ensures Preview(Run(Initial, [ChooseSample(Some(sample)), TypeText("abc"), ChoosePdf(Some(pdf))]))
      == Some(PdfPreview(pdf.name))
  {
    var events := [ChooseSample(Some(sample)), TypeText("abc"), ChoosePdf(Some(pdf))];
    var s1 := FileUpload(Initial, Some(sample));
    var s2 := EditText(s1, "abc");
    var s3 := PdfUpload(s2, Some(pdf));
    assert Run(Initial, events) == Run(s1, events[1..]);
    assert Run(s1, events[1..]) == Run(s2, events[2..]);
    assert Run(s2, events[2..]) == Run(s3, []);
  }

  /** The page component: its three state fields and the toasts it has raised. */
  class UploadWizard {
    var handwritingSample: Option<File>
    var homeworkText: string
    var homeworkPdf: Option<File>
    var toasts: seq<Toast>

    function Snapshot(): State
      reads this
    {
      State(handwritingSample, homeworkText, homeworkPdf, toasts)
    }

    constructor ()
      ensures Snapshot() == Initial
    {
      handwritingSample := None;
      homeworkText := "";
      homeworkPdf := None;
      toasts := [];
    }

    method HandleFileUpload(file: Option<File>)
      modifies this`handwritingSample, this`toasts
      ensures Snapshot() == FileUpload(old(Snapshot()), file)
    {
      if file.Some? {
        handwritingSample := file;
        toasts := toasts + [SampleUploadedToast(file.value)];
      }
    }

    method HandleDrop(file: Option<File>)
      modifies this`handwritingSample, this`toasts
      ensures Snapshot() == Drop(old(Snapshot()), file)
    {
      if file.Some? && IsImageType(file.value.mimeType) {
        handwritingSample := file;
        toasts := toasts + [SampleUploadedToast(file.value)];
      } else {
        toasts := toasts + [InvalidFileTypeToast];
      }
    }

    method HandlePdfUpload(file: Option<File>)
      modifies this`homeworkPdf, this`toasts
      ensures Snapshot() == PdfUpload(old(Snapshot()), file)
    {
      if file.Some? {
        homeworkPdf := file;
        toasts := toasts + [PdfUploadedToast(file.value)];
      }
    }

    /** The textarea's change handler; a disabled textarea never fires it. */
    method HandleTextChange(value: string)
      modifies this`homeworkText
      ensures Snapshot() == EditText(old(Snapshot()), value)
    {
      if homeworkPdf.None? {
        homeworkText := value;
      }
    }

    method HandleExport()
      modifies this`toasts
      ensures Snapshot() == Export(old(Snapshot()))
    {
      if ExportBlocked(Snapshot()) {
        toasts := toasts + [MissingInformationToast];
        return;
      }
      toasts := toasts + [GeneratingToast];
    }
  }
}
