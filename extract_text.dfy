/** Text extraction for uploaded files: PDFs go through a PDF parser, plain
    text and Markdown are read as text, everything else (images included)
    has no text. */
module ExtractText {
  import opened Wrappers
  import opened Text

  /** An uploaded file. `text` is its body decoded as UTF-8 (`file.text()`);
      `pdfText` is what the PDF parser extracts from the body, or `None`
      when the parser throws. */
  datatype File = File(name: string, mimeType: string, size: nat, text: string, pdfText: Option<string>)

  const PdfType: string := "application/pdf"
  const PlainTextType: string := "text/plain"
  const MarkdownType: string := "text/markdown"

  /** `extractTextFromPDF`: a parse error is swallowed and gives "". */
  function ExtractTextFromPdf(f: File): (text: string)
    ensures f.pdfText.None? ==> text == ""
    ensures f.pdfText.Some? ==> text == f.pdfText.value
  {
    match f.pdfText
    case Some(t) => t
    case None => ""
  }

  /** `extractTextFromFile`, dispatching on the lower-cased MIME type. */
  function ExtractTextFromFile(f: File): (r: Option<string>)
    ensures r.Some? <==> ToLower(f.mimeType) in {PdfType, PlainTextType, MarkdownType}
    ensures ToLower(f.mimeType) == PdfType ==> r == Some(ExtractTextFromPdf(f))
    ensures ToLower(f.mimeType) in {PlainTextType, MarkdownType} ==> r == Some(f.text)
  {
    var kind := ToLower(f.mimeType);
    if kind == PdfType then Some(ExtractTextFromPdf(f))
    else if kind == PlainTextType || kind == MarkdownType then Some(f.text)
    else if StartsWith(kind, "image/") then None
    else None
  }

  /** The MIME type is compared without regard to the case of its letters:
      two files that differ only in that get the same text. */
  lemma ExtractIgnoresTypeCase(f: File, mimeType: string)
    requires ToLower(mimeType) == ToLower(f.mimeType)
    ensures ExtractTextFromFile(f.(mimeType := mimeType)) == ExtractTextFromFile(f)
  {
  }

  /** Images never yield text. */
  lemma ImagesHaveNoText(f: File)
    requires StartsWith(ToLower(f.mimeType), "image/")
    ensures ExtractTextFromFile(f) == None
  {
    var kind := ToLower(f.mimeType);
    assert kind[..6] == "image/";
    assert kind != PdfType && kind != PlainTextType && kind != MarkdownType by {
      assert PdfType[..6] != "image/" && PlainTextType[..6] != "image/" && MarkdownType[..6] != "image/";
    }
  }

  /** A PDF always yields a text, possibly empty: a file the parser rejects
      is recorded with "" rather than null. */
  lemma PdfAlwaysHasText(f: File)
    requires ToLower(f.mimeType) == PdfType
    ensures ExtractTextFromFile(f).Some?
    ensures f.pdfText.None? ==> ExtractTextFromFile(f) == Some("")
  {
  }
}
