/** The project page's document list: one row per document with an icon
    chosen from its type, a human-readable size, the uploader's name and an
    "AI Ready" badge, and a delete button behind a confirmation. */
module DocumentList {
  import opened Wrappers
  import opened Text
  import opened Schema
  import opened Tables
  import opened Store
  import opened AiActions
  import opened DocumentActions
  import opened Forms

  datatype Icon = Pdf | Image | TextFile | Attachment {
    function Glyph(): string {
      match this
      case Pdf => "\U{1F4C4}"
      case Image => "\U{1F5BC}\U{FE0F}"
      case TextFile => "\U{1F4DD}"
      case Attachment => "\U{1F4CE}"
    }
  }

  /** `getFileIcon`: the first of "pdf", "image" and "text" the type
      contains decides the icon; the paper clip is the fallback. */
  function FileIcon(kind: string): (icon: Icon)
    ensures icon == Pdf <==> Contains(kind, "pdf")
    ensures icon == Image <==> !Contains(kind, "pdf") && Contains(kind, "image")
    ensures icon == TextFile <==> !Contains(kind, "pdf") && !Contains(kind, "image") && Contains(kind, "text")
    ensures icon == Attachment <==> !Contains(kind, "pdf") && !Contains(kind, "image") && !Contains(kind, "text")
  {
    if Contains(kind, "pdf") then Pdf
    else if Contains(kind, "image") then Image
    else if Contains(kind, "text") then TextFile
    else Attachment
  }

  /** The types the upload route extracts text from get a document icon:
      PDFs the page, plain text and Markdown the memo. */
  lemma PdfTypeHasPageIcon()
    ensures FileIcon("application/pdf") == Pdf
  {
    assert OccursAt("application/pdf", "pdf", 12);
    ContainsIffOccurs("application/pdf", "pdf");
  }

  lemma TextTypesHaveMemoIcon(kind: string)
    requires kind == "text/plain" || kind == "text/markdown"
    ensures FileIcon(kind) == TextFile
  {
    assert StartsWith(kind, "text");
    MissingCharNotContained(kind, "pdf", 2);
    MissingCharNotContained(kind, "image", 3);
  }

  /** `formatFileSize`: bytes below 1 KiB, kibibytes below 1 MiB, mebibytes
      from there on. */
  datatype FileSize = Bytes(text: string) | Kilobytes(amount: real) | Megabytes(amount: real)

  const KiB: int := 1024
  const MiB: int := 1024 * 1024

  function FormatFileSize(bytes: int): (size: FileSize)
    ensures size.Bytes? <==> bytes < KiB
    ensures size.Kilobytes? <==> KiB <= bytes < MiB
    ensures size.Megabytes? <==> MiB <= bytes
    ensures size.Bytes? ==> size.text == IntToString(bytes) + " B"
    ensures size.Kilobytes? ==> size.amount * KiB as real == bytes as real
    ensures size.Megabytes? ==> size.amount * MiB as real == bytes as real
  {
    if bytes < KiB then Bytes(IntToString(bytes) + " B")
    else if bytes < MiB then Kilobytes(bytes as real / KiB as real)
    else Megabytes(bytes as real / MiB as real)
  }

  /** The unit keeps the number shown at 1 or more, and a kibibyte amount
      below 1024. */
  lemma FileSizeAmountInRange(bytes: int)
    requires bytes >= KiB
    ensures var size := FormatFileSize(bytes);
      1.0 <= size.amount && (size.Kilobytes? ==> size.amount < 1024.0)
  {
  }

  /** The "AI Ready" badge: the document has non-empty extracted text. */
  predicate AiReady(d: Document)
  {
    d.content.Some? && d.content.value != ""
  }

  /** The badge shows exactly for the documents whose text reaches the
      assistant's prompt. */
  lemma AiReadyIffPromptHasContent(d: Document)
    ensures AiReady(d) <==> ContentLine(d.content) != NoContent
  {
    if AiReady(d) {
      assert ContentLine(d.content)[7] == ':';
    }
  }

  /** A document as the list receives it, joined with its uploader's name. */
  datatype Listed = Listed(doc: Document, uploaderName: Option<string>)

  /** One row of the list. */
  datatype Row = Row(icon: Icon, name: string, size: FileSize, uploader: Option<string>, aiReady: bool)

  datatype ListView = EmptyNotice(message: string) | Rows(rows: seq<Row>)

  const EmptyListMessage: string := "No documents uploaded yet"

  function RowOf(item: Listed): (row: Row)
    ensures row.name == item.doc.name && row.icon == FileIcon(item.doc.mimeType)
    ensures row.uploader.Some? <==> item.uploaderName.Some? && item.uploaderName.value != ""
    ensures row.uploader.Some? ==> row.uploader == item.uploaderName
    ensures row.aiReady == AiReady(item.doc)
  {
    Row(FileIcon(item.doc.mimeType), item.doc.name, FormatFileSize(item.doc.size),
        if item.uploaderName.Some? && item.uploaderName.value != "" then item.uploaderName else None,
        AiReady(item.doc))
  }

  /** The list: the notice for no documents, otherwise a row per document in
      the order received. */
  function View(items: seq<Listed>): (view: ListView)
    ensures view.EmptyNotice? <==> |items| == 0
    ensures view.EmptyNotice? ==> view.message == EmptyListMessage
    ensures view.Rows? ==> |view.rows| == |items| && forall i | 0 <= i < |items| :: view.rows[i] == RowOf(items[i])
  {
    if |items| == 0 then EmptyNotice(EmptyListMessage)
    else Rows(seq(|items|, i requires 0 <= i < |items| => RowOf(items[i])))
  }

  /** The question the confirmation dialog asks. */
  function ConfirmMessage(name: string): string
  {
    "Are you sure you want to delete \"" + name + "\"?"
  }

  /** `handleDelete`: asks `confirm` (the user's answer to the dialog); on
      yes, calls `deleteDocument` and reports the outcome in a toast. A
      declined dialog touches nothing. */
  method HandleDelete(db: Database, caller: Option<Id>, id: Id, name: string, confirm: string -> bool)
    returns (toast: Option<Toast>)
    requires db.Valid()
    modifies db
    ensures db.Valid()
    ensures !confirm(ConfirmMessage(name)) ==> toast.None? && db.documents == old(db.documents)
    ensures confirm(ConfirmMessage(name)) ==>
      if SignedIn(caller) && id in old(ValuesOf(db.documents, DocumentKey)) then
        toast == Some(Toast(true, "Document deleted successfully"))
        && db.documents == Without(old(db.documents), DocumentKey, {id})
      else
        toast == Some(Toast(false, "Failed to delete document")) && db.documents == old(db.documents)
    ensures db.users == old(db.users) && db.clients == old(db.clients)
    ensures db.projects == old(db.projects) && db.tasks == old(db.tasks)
  {
    if !confirm(ConfirmMessage(name)) {
      return None;
    }
    var r := DeleteDocument(db, caller, id);
    if r.Success? {
      toast := Some(Toast(true, "Document deleted successfully"));
    } else {
      toast := Some(Toast(false, "Failed to delete document"));
    }
  }
}
