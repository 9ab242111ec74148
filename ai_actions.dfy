/** The `askAI` server action: the prompt it assembles from a project, its
    client and its documents, and the answer it hands back. The language
    model is a parameter: a function from prompt to the response's text,
    which may be missing. */
module AiActions {
  import opened Wrappers
  import opened Text
  import opened Schema
  import opened Tables
  import opened Store

  /** How much of a document's extracted text goes into the prompt. */
  const ExcerptLength: nat := 1000

  const Preamble: string :=
    "You are a helpful project management assistant. Based on the following project context, answer the user's question.\n\n"
  const QuestionLabel: string := "\n\nUser Question: "
  const Closing: string :=
    "\n\nPlease provide a clear, concise, and helpful answer based on the project context provided."
  const NoDocuments: string := "No documents uploaded for this project yet."
  const NoContent: string := "Content not available"

  /** The content line of one document: the first 1000 characters of its
      text followed by "...", or a notice when the text is null or empty
      (both falsy). */
  function ContentLine(content: Option<string>): (line: string)
    ensures content.None? || content.value == "" ==> line == NoContent
    ensures content.Some? && content.value != "" ==>
      line == "Content: " + Take(content.value, ExcerptLength) + "..."
    ensures |line| <= |"Content: "| + ExcerptLength + |"..."|
  {
    if content.Some? && content.value != "" then "Content: " + Take(content.value, ExcerptLength) + "..."
    else NoContent
  }

  /** The block for the document at index `i`, numbered from 1. */
  function DocumentEntry(i: nat, d: Document): string
  {
    "\nDocument " + IntToString(i + 1) + ": " + d.name + "\n" + ContentLine(d.content) + "\n"
  }

  function DocumentEntries(docs: seq<Document>): (entries: seq<string>)
    ensures |entries| == |docs|
    ensures forall i | 0 <= i < |docs| :: entries[i] == DocumentEntry(i, docs[i])
  {
    seq(|docs|, i requires 0 <= i < |docs| => DocumentEntry(i, docs[i]))
  }

  /** The documents part of the context. */
  function DocumentsBlock(docs: seq<Document>): string
  {
    if |docs| > 0 then "\nProject Documents:\n" + Join(DocumentEntries(docs), "\n") + "\n"
    else NoDocuments
  }

  /** The project context. The budget line reads the project's `budget`
      property, which a `projects` row does not have, so it always shows
      "Not specified". */
  function Context(p: Project, clientName: string, docs: seq<Document>): string
  {
    "\nProject Context:\n- Name: " + p.name + ContextDetails(p, clientName, docs)
  }

  /** The lines of the context after the project name. */
  function ContextDetails(p: Project, clientName: string, docs: seq<Document>): string
  {
    "\n- Client: " + clientName
    + "\n- Description: " + (if p.description.Some? && p.description.value != "" then p.description.value else "No description")
    + "\n- Status: " + ProjectStatusName(p.status)
    + "\n- Priority: " + PriorityName(p.priority)
    + "\n- Budget: Not specified\n\n"
    + DocumentsBlock(docs) + "\n"
  }

  function Prompt(context: string, question: string): string
  {
    Preamble + context + QuestionLabel + question + Closing
  }

  /** What `askAI` returns. */
  datatype Answer = Answer(answer: Option<string>, projectName: string)

  /** `askAI`: signed-in callers only; fails with "Project not found" for an
      unknown project; otherwise asks the model with the prompt built from
      the project, its client's name and the project's documents in table
      order. */
  function AskAI(db: Database, caller: Option<Id>, projectId: Id, question: string,
                 generate: string -> Option<string>): (r: Result<Answer, Failure>)
    reads db
    requires db.Valid()
    ensures !SignedIn(caller) ==> r == Failure(Unauthorized)
    ensures SignedIn(caller) && projectId !in ValuesOf(db.projects, ProjectKey) ==> r == Failure(ProjectNotFound)
    ensures SignedIn(caller) && projectId in ValuesOf(db.projects, ProjectKey) ==>
      exists p, c | p in db.projects && p.id == projectId && c in db.clients && c.id == p.clientId ::
        r == Success(Answer(generate(Prompt(Context(p, c.name, Where(db.documents, DocumentProject, projectId)), question)), p.name))
  {
    if !SignedIn(caller) then Failure(Unauthorized)
    else
      match Find(db.projects, ProjectKey, projectId)
      case None => Failure(ProjectNotFound)
      case Some(p) =>
        assert ProjectRefsOk(p, db.clients, db.users);
        var c := Find(db.clients, ClientKey, p.clientId).value;
        var docs := Where(db.documents, DocumentProject, projectId);
        Success(Answer(generate(Prompt(Context(p, c.name, docs), question)), p.name))
  }

  /** The question reaches the model verbatim, right after its label. */
  lemma PromptCarriesQuestion(context: string, question: string)
    ensures OccursAt(Prompt(context, question), question, |Preamble| + |context| + |QuestionLabel|)
  {
    var k := |Preamble| + |context| + |QuestionLabel|;
    var pr := Prompt(context, question);
    assert pr == (Preamble + context + QuestionLabel) + question + Closing;
    assert pr[k..k + |question|] == question;
  }

  /** The project name sits on the context's "- Name: " line. */
  lemma ContextCarriesName(p: Project, clientName: string, docs: seq<Document>)
    ensures OccursAt(Context(p, clientName, docs), p.name, |"\nProject Context:\n- Name: "|)
  {
    OccursBetween("\nProject Context:\n- Name: ", p.name, ContextDetails(p, clientName, docs));
  }

  /** A text occurs in a concatenation right where it was put. */
  lemma OccursBetween(a: string, b: string, c: string)
    ensures OccursAt(a + b + c, b, |a|)
  {
    assert (a + b + c)[|a|..|a| + |b|] == b;
  }

  /** Only the first 1000 characters of a document's text reach the prompt:
      documents that agree on their names and on those characters (and on
      whether they have any text) give the same documents block. */
  lemma DocumentsBlockSeesExcerptsOnly(docs: seq<Document>, others: seq<Document>)
    requires |docs| == |others|
    requires forall i | 0 <= i < |docs| ::
      && docs[i].name == others[i].name
      && (docs[i].content.Some? && docs[i].content.value != "" <==> others[i].content.Some? && others[i].content.value != "")
      && (docs[i].content.Some? && docs[i].content.value != "" ==>
            Take(docs[i].content.value, ExcerptLength) == Take(others[i].content.value, ExcerptLength))
    ensures DocumentsBlock(docs) == DocumentsBlock(others)
  {
    assert DocumentEntries(docs) == DocumentEntries(others) by {
      forall i | 0 <= i < |docs|
        ensures DocumentEntry(i, docs[i]) == DocumentEntry(i, others[i])
      {
        assert ContentLine(docs[i].content) == ContentLine(others[i].content);
      }
    }
  }

  /** A document uploaded to a project adds one entry, numbered after the
      existing ones, at the end of that project's documents block. */
  lemma NewDocumentIsNumberedLast(documents: seq<Document>, d: Document, projectId: Id)
    requires d.projectId == projectId
    ensures var before := Where(documents, DocumentProject, projectId);
      DocumentEntries(Where(documents + [d], DocumentProject, projectId))
        == DocumentEntries(before) + [DocumentEntry(|before|, d)]
  {
    var before := Where(documents, DocumentProject, projectId);
    var after := Where(documents + [d], DocumentProject, projectId);
    WhereAppend(documents, [d], DocumentProject, projectId);
    assert Where([d], DocumentProject, projectId) == [d];
    assert after == before + [d];
    EntriesAppend(before, d);
  }

  /** Numbering a list with one more document at its end numbers the others
      as before and the new one last. */
  lemma EntriesAppend(docs: seq<Document>, d: Document)
    ensures DocumentEntries(docs + [d]) == DocumentEntries(docs) + [DocumentEntry(|docs|, d)]
  {
    var entries := DocumentEntries(docs + [d]);
    var expected := DocumentEntries(docs) + [DocumentEntry(|docs|, d)];
    forall i | 0 <= i < |entries|
      ensures entries[i] == expected[i]
    {
      if i < |docs| {
        assert (docs + [d])[i] == docs[i];
        assert expected[i] == DocumentEntry(i, docs[i]);
      } else {
        assert (docs + [d])[i] == d;
        assert expected[i] == DocumentEntry(|docs|, d);
      }
    }
  }

  /** A document uploaded to another project leaves the prompt unchanged. */
  lemma OtherDocumentsIgnored(documents: seq<Document>, d: Document, projectId: Id)
    requires d.projectId != projectId
    ensures Where(documents + [d], DocumentProject, projectId) == Where(documents, DocumentProject, projectId)
  {
    WhereAppend(documents, [d], DocumentProject, projectId);
    assert Where([d], DocumentProject, projectId) == [];
  }
}
