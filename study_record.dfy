/**
 * The study record as the dashboard receives it (the `IStudy` fields).
 * Identifiers are kept as their string form; timestamps as abstract numbers.
 */
module StudyRecord {
  import opened Wrappers

  datatype SourceType = Notes | Pdf

  datatype Study = Study(
    id: string,
    userId: string,
    title: string,
    description: Option<string>,
    content: string,
    sourceType: SourceType,
    pdfFileNames: Option<seq<string>>,
    createdAt: int,
    updatedAt: int)

  /** `study.pdfFileNames?.length || 0`: the number of PDF names, 0 when the field is absent. */
  function PdfCount(s: Study): (n: nat)
    ensures s.pdfFileNames.None? ==> n == 0
    ensures s.pdfFileNames.Some? ==> n == |s.pdfFileNames.value|
  {
    match s.pdfFileNames
    case None => 0
    case Some(names) => |names|
  }
}
