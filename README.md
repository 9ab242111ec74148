# Project-management app core, modelled in Dafny

This project models the core of a small project-management web application.
The application keeps clients, their projects, the tasks of each project
(shown on a kanban board) and uploaded project documents in a SQLite
database. It answers questions about a project by sending a prompt built
from the project and its documents to a language model.

The model covers:

- **Schema** (`schema.dfy`, `store.dfy`, `tables.dfy`): the five tables and
  their enums, column defaults, primary keys, the unique user e-mail and the
  foreign keys, including the `on delete cascade` from client to project and
  from project to tasks and documents. A `Store.Database` object holds the
  tables as sequences; `Database.Valid` is every declared constraint.
- **Server actions** (`task_actions.dfy`, `project_actions.dfy`,
  `client_actions.dfy`, `document_actions.dfy`, `user_actions.dfy`,
  `ai_actions.dfy`): methods that change the database object and getters
  that read it. They cover the "Unauthorized" check, the error each action
  throws and the task-position rule of `createTask`.
- **Upload route and text extraction** (`upload_route.dfy`,
  `extract_text.dfy`): the storage key and response of `POST /api/upload`,
  and which MIME types yield text.
- **Presentation components** (`kanban_board.dfy`, `task_card.dfy`,
  `document_list.dfy`, `ask_ai_dialog.dfy`): what the kanban board, task
  card and document list show. The ask-AI dialog is a class whose methods
  are its event handlers.
- **Forms** (`forms.dfy`, `task_form.dfy`, `edit_task_form.dfy`,
  `project_form.dfy`, `edit_project_form.dfy`, `edit_client_form.dfy`):
  validation, initial values and the payload each form submits.

Integers are unbounded. JavaScript's `parseInt`, `trim`, `toLowerCase`,
`split`, `includes` and `||` are written out in `text.dfy` and `forms.dfy`.
The clock, generated ids, the identity provider's profile, the language
model, object storage, the PDF parser, the browser's `confirm` dialog and
date formatting are parameters.

## Model

| member | source | states |
|---|---|---|
| Schema.TaskStatusName | src/db/schema/tasks.ts:25-29 | each task status has a column text that parses back to it |
| Schema.PriorityName | src/db/schema/tasks.ts:30-32 | each priority has a column text that parses back to it |
| Schema.ProjectStatusName | src/db/schema/projects.ts:13-17 | each project status has a column text that parses back to it |
| Schema.ClientStatusName | src/db/schema/clients.ts:12-16 | each client status has a column text that parses back to it |
| Schema.ParsedNamesRoundTrip | src/db/schema/tasks.ts:25-32 | a text accepted by an enum column is exactly the name of the member it parses to |
| Schema.ParseTaskStatus | src/db/schema/tasks.ts:25-29 | the enum column accepts exactly the five task status texts |
| Schema.ParsePriority | src/db/schema/tasks.ts:30-32 | the enum column accepts exactly the four priority texts |
| Schema.ParseProjectStatus | src/db/schema/projects.ts:13-17 | the enum column accepts exactly the five project status texts |
| Schema.ParseClientStatus | src/db/schema/clients.ts:12-16 | the enum column accepts exactly the four client status texts |
| Schema.TaskRow | src/db/schema/tasks.ts:6-48 | an inserted task stores every supplied column as given (id, project, title, description, content, category, assignee, reporter, tags, estimate, dates, and a supplied status, priority, position or tracked time); an omitted status is "todo", priority "medium", position 0, time tracked 0; both timestamps are the insert time |
| Schema.ProjectRow | src/db/schema/projects.ts:6-54 | an inserted project stores every supplied column as given (id, client, name, creator, description, config, metadata, dates, and a supplied status or priority); an omitted status is "planning", priority "medium"; both timestamps are the insert time |
| Schema.ClientRow | src/db/schema/clients.ts:4-38 | an inserted client stores every supplied column as given (id, name, creator, e-mail, phone, company, website, avatar, metadata, settings, and a supplied status); an omitted status is "active"; both timestamps are the insert time |
| Schema.DocumentRow | src/db/schema/documents.ts:6-25 | an inserted document keeps every given column and its uploader |
| Schema.UserRow | src/db/schema/users.ts:3-28 | an inserted user stores the supplied id, e-mail, name, avatar and role; an omitted role is "member"; permissions and preferences start as null; both timestamps are the insert time |
| Schema.PatchTask | src/actions/tasks.ts:92-96 | every column the change supplies is written and every other column is kept; the id is kept and `updatedAt` is stamped |
| Schema.PatchTaskProperties | src/actions/tasks.ts:92-96 | an empty change only stamps `updatedAt`; applying the same change twice equals applying it once |
| Schema.PatchProject | src/actions/projects.ts:66-70 | every column the change supplies is written and every other column is kept; the id is kept and `updatedAt` is stamped |
| Schema.PatchClient | src/actions/clients.ts:48-52 | every column the change supplies is written and every other column is kept; the id is kept and `updatedAt` is stamped |
| Tables.UniqueCons | src/db/schema/tasks.ts:7 | a key column stays unique after adding a row exactly when the new key is not yet present |
| Tables.Find | src/actions/tasks.ts:74-85 | `findFirst` by a column returns a row with that value, and nothing exactly when no row has it |
| Tables.FindUnique | src/actions/tasks.ts:74-85 | on a unique column, `findFirst` returns the one row with that value |
| Tables.Where | src/actions/tasks.ts:60-67 | a `where` filter keeps exactly the rows whose column has the value |
| Tables.WhereAppend | src/actions/documents.ts:26-37 | filtering commutes with appending rows |
| Tables.WhereCount | src/components/tasks/kanban-board.tsx:24-26 | a filter keeps every copy of a matching row and no copy of any other row |
| Tables.Without | src/actions/tasks.ts:135 | a `delete ... where` keeps exactly the rows whose column is outside the deleted values |
| Tables.WithoutKeepsUnique | src/actions/tasks.ts:135 | deleting rows keeps a unique column unique |
| Tables.WithoutKeys | src/actions/projects.ts:85 | after a delete by key, the keys present are the old keys minus the deleted ones |
| Tables.AppendKeepsUnique | src/actions/tasks.ts:24-31 | inserting a row with a fresh key keeps the key unique and adds exactly that key |
| Tables.Replace | src/actions/tasks.ts:92-96 | an update by key replaces exactly the rows with that key and leaves the order alone |
| Tables.ReplaceKeepsKeys | src/actions/tasks.ts:92-96 | an update that keeps the key keeps the key column unique and the set of keys unchanged |
| Tables.Insert | src/actions/tasks.ts:66 | inserting into a sorted sequence keeps it sorted and adds one copy of the row |
| Tables.SortBy | src/actions/tasks.ts:52 | `orderBy` returns a sorted permutation of the rows |
| Tables.WhereKeepsSorted | src/actions/tasks.ts:60-67 | filtering a sorted sequence keeps it sorted |
| Store.Failure.Message | src/actions/documents.ts:47 | every error the actions throw has a non-empty message, the source's own text |
| Store.MessagesAreDistinct | src/actions/documents.ts:47 | two different errors never share a message, so the text identifies the error |
| Store.ProjectsOfClient | src/db/schema/projects.ts:8-10 | the cascade from a client reaches exactly the ids of its projects: each of them, and no id without a project of that client |
| Store.SignedIn | src/actions/tasks.ts:13 | `!userId` rejects a missing or empty user id; every action checks it first |
| Store.DeleteProjectKeepsRefs | src/db/schema/tasks.ts:8-10 | deleting a project with its tasks and documents leaves no dangling reference |
| Store.DeleteClientKeepsRefs | src/db/schema/projects.ts:8-10 | deleting a client with its projects, and their tasks and documents, leaves no dangling reference |
| TaskActions.MaxPosition | src/actions/tasks.ts:16-22 | the highest position in the task's project and status column, or none when the column is empty |
| TaskActions.NextPosition | src/actions/tasks.ts:28 | the new position is above every position in its column; it is 1 in an empty column and the largest position + 1 otherwise |
| TaskActions.CreatedTask | src/actions/tasks.ts:24-31 | the inserted task has the caller as reporter, the given status or "todo", and the next position of its column |
| TaskActions.CreateTask | src/actions/tasks.ts:9-36 | signed-out: "Unauthorized"; otherwise the task is appended, or the insert fails on a constraint and nothing changes; other tables unchanged; constraints kept |
| TaskActions.GetTasks | src/actions/tasks.ts:38-54 | signed in: every task once, newest first |
| TaskActions.GetTasksByProjectId | src/actions/tasks.ts:56-68 | signed in: exactly the project's tasks, each once, by position |
| TaskActions.GetTaskById | src/actions/tasks.ts:70-86 | signed in: the task with that id, or nothing exactly when there is none |
| TaskActions.UpdateTask | src/actions/tasks.ts:88-103 | unknown id: no change and no row; otherwise the patched row replaces the task unless a reference would dangle |
| TaskActions.MoveTo | src/actions/tasks.ts:113-121 | the move changes only status, position and `updatedAt` |
| TaskActions.UpdateTaskStatus | src/actions/tasks.ts:105-128 | fails only for a signed-out caller; moves the task to the status and position and stamps it |
| TaskActions.DeleteTask | src/actions/tasks.ts:130-141 | fails only for a signed-out caller; afterwards no task has the id; nothing else changes |
| TaskActions.CreatedTaskIsLastInColumn | src/actions/tasks.ts:15-28 | a created task is below every task already in its column |
| ProjectActions.CreateProject | src/actions/projects.ts:9-26 | signed-out: "Unauthorized"; otherwise the project is appended with the caller as creator, or a constraint fails and nothing changes |
| ProjectActions.GetProjects | src/actions/projects.ts:28-38 | signed in: every project once, newest first |
| ProjectActions.GetProjectById | src/actions/projects.ts:40-50 | signed in: the project with that id, or nothing exactly when there is none |
| ProjectActions.GetProjectsByClientId | src/actions/projects.ts:52-60 | signed in: exactly the client's projects, each once, newest first |
| ProjectActions.UpdateProject | src/actions/projects.ts:62-78 | unknown id: no change; otherwise the patched project replaces it unless a reference would dangle |
| ProjectActions.DeleteProject | src/actions/projects.ts:80-91 | fails only for a signed-out caller; removes the project and, by cascade, its tasks and documents |
| UserActions.OrEmpty | src/actions/users.ts:29 | `x \|\| ""` on a nullable text |
| UserActions.PrimaryEmail | src/actions/users.ts:28 | the first e-mail address, or "" when there is none |
| UserActions.DisplayName | src/actions/users.ts:29 | the trimmed "first last" when it is not empty; else the username when it is not empty; else "User" |
| UserActions.DisplayNameOfFullName | src/actions/users.ts:29 | a user with both names, neither padded, is stored as "first last" |
| UserActions.DisplayNameWithoutNames | src/actions/users.ts:29 | with no names, the stored name is the username, or "User" without one |
| UserActions.NewUserRow | src/actions/users.ts:26-32 | a new user is an owner with the primary e-mail, display name and avatar |
| UserActions.SyncedUsers | src/actions/users.ts:8-35 | the users table after a sync is unchanged or has the new row appended |
| UserActions.SyncedUsersHasCaller | src/actions/users.ts:17-33 | after a sync the caller has a row exactly when they had one or a new row could be inserted |
| UserActions.SyncIsIdempotent | src/actions/users.ts:17-19 | once the caller has a row, syncing again changes nothing |
| UserActions.SyncCurrentUser | src/actions/users.ts:8-35 | returns the existing row; else "User not found" without a profile; else inserts the new row unless its e-mail is taken |
| UserActions.InsertUser | src/actions/users.ts:26-32 | inserting a user whose id and e-mail are new appends exactly that row, keeps every table's keys unique and references resolved, and changes no other table |
| UserActions.GetUser | src/actions/users.ts:37-45 | signed in: the user with that id, or nothing exactly when there is none |
| ClientActions.CreateClient | src/actions/clients.ts:10-24 | syncs the caller first, and a failed sync aborts; then appends the client with the caller as creator, or fails on a taken id |
| ClientActions.GetClients | src/actions/clients.ts:26-33 | signed in: every client once, newest first |
| ClientActions.GetClientById | src/actions/clients.ts:35-42 | signed in: the client with that id, or nothing exactly when there is none |
| ClientActions.UpdateClient | src/actions/clients.ts:44-57 | unknown id: no change; otherwise the patched client replaces it unless a reference would dangle |
| ClientActions.DeleteClient | src/actions/clients.ts:59-65 | removes the client and, by cascade, its projects and their tasks and documents |
| ClientActions.DeleteClientKeepsConstraints | src/actions/clients.ts:59-65 | after the cascade every key is still unique, every surviving row references surviving rows, and no surviving project names the deleted client |
| ClientActions.DeleteClientSparesOtherTasks | src/db/schema/projects.ts:8-10 | the cascade spares other clients: a task whose project belongs to another client survives the delete |
| DocumentActions.CreateDocument | src/actions/documents.ts:10-24 | syncs the caller first; appends the document with the caller as uploader unless the project is unknown or the id taken |
| DocumentActions.GetDocumentsByProjectId | src/actions/documents.ts:26-37 | signed in: exactly the project's documents, each once, newest first |
| DocumentActions.DeleteDocument | src/actions/documents.ts:39-51 | "Document not found" for an unknown id; otherwise removes it |
| DocumentActions.UpdateDocumentContent | src/actions/documents.ts:53-68 | fails only for a signed-out caller; replaces the content of the document with that id |
| AiActions.ContentLine | src/actions/ai.ts:44 | a document without text gets "Content not available"; otherwise its first 1000 characters followed by "..." |
| AiActions.DocumentEntries | src/actions/ai.ts:42-45 | one entry per document, in order, numbered from 1 |
| AiActions.AskAI | src/actions/ai.ts:11-66 | "Unauthorized"; "Project not found" for an unknown project; otherwise the model's answer to the prompt built from the project, its client and its documents |
| AiActions.Prompt | src/actions/ai.ts:50-56 | the prompt: the fixed preamble, the context, "User Question: " with the question, and the fixed closing request |
| AiActions.Context | src/actions/ai.ts:31-47 | the context block: the "Project Context:" heading and the project name line, then the details |
| AiActions.ContextDetails | src/actions/ai.ts:34-46 | client, description or "No description", status, priority, "Budget: Not specified", then the documents block |
| AiActions.DocumentsBlock | src/actions/ai.ts:40-46 | "Project Documents:" with the entries joined by newlines, or the no-documents sentence for none |
| AiActions.DocumentEntry | src/actions/ai.ts:42-45 | "Document i+1: name" followed by the content line |
| AiActions.PromptCarriesQuestion | src/actions/ai.ts:50-56 | the question appears verbatim right after "User Question: " |
| AiActions.ContextCarriesName | src/actions/ai.ts:31-33 | the project name appears on the context's name line |
| AiActions.DocumentsBlockSeesExcerptsOnly | src/actions/ai.ts:42-45 | documents that agree on name and first 1000 characters give the same prompt |
| AiActions.EntriesAppend | src/actions/ai.ts:40-46 | the entries of the documents with one more appended are the old entries followed by that document numbered after them |
| AiActions.NewDocumentIsNumberedLast | src/actions/ai.ts:26-28 | a document added to the project is the last entry |
| AiActions.OtherDocumentsIgnored | src/actions/ai.ts:26-28 | a document of another project does not change the prompt |
| ExtractText.ExtractTextFromPdf | src/lib/extract-text.ts:3-11 | the parser's text, or "" when the parser fails |
| ExtractText.ExtractTextFromFile | src/lib/extract-text.ts:13-34 | text exactly for PDF, plain text and markdown, judged on the lower-cased type |
| ExtractText.ExtractIgnoresTypeCase | src/lib/extract-text.ts:14 | types that differ only in letter case extract alike |
| ExtractText.ImagesHaveNoText | src/lib/extract-text.ts:28-30 | images yield no text |
| ExtractText.PdfAlwaysHasText | src/lib/extract-text.ts:17-20 | a PDF always yields a text, "" when unreadable |
| UploadRoute.EntryOf | src/app/api/upload/route.ts:32-39 | each response entry carries the file's name, type and size, its key and URL and its extracted text |
| UploadRoute.StorageKey | src/app/api/upload/route.ts:24 | the object key `userId/timestamp-name` |
| UploadRoute.PublicUrl | src/lib/r2.ts:26 | the stored object's address: the public base URL, "/", the key |
| UploadRoute.Post | src/app/api/upload/route.ts:6-50 | 401 signed out, 400 without files, 500 on a failure (files already stored stay stored); otherwise one entry per file, in order |
| UploadRoute.UploadAll | src/app/api/upload/route.ts:22-40 | stores the files one at a time, in order, each under its own key; stops at the first failed store with exactly the earlier files stored; on success yields one entry per file |
| UploadRoute.SplitAtFirst | src/app/api/upload/route.ts:24 | splitting at the first separator is unambiguous |
| UploadRoute.StorageKeyInjective | src/app/api/upload/route.ts:24 | a storage key determines user, timestamp and file name |
| KanbanBoard.TasksByStatus | src/components/tasks/kanban-board.tsx:24-26 | a column holds exactly the tasks with its status |
| KanbanBoard.ViewOf | src/components/tasks/kanban-board.tsx:31-53 | the badge counts the column's cards; "No tasks" shows exactly when no task has the status |
| KanbanBoard.Board | src/components/tasks/kanban-board.tsx:14-19 | four columns, in the declared order |
| KanbanBoard.ColumnsAreOpenStatuses | src/components/tasks/kanban-board.tsx:14-19 | every status but "blocked" has exactly one column |
| KanbanBoard.BoardPartitionsTasks | src/components/tasks/kanban-board.tsx:31-48 | each task shows on the board as often as it occurs in the list, except blocked tasks, which never show |
| KanbanBoard.ShownCountOfFour | src/components/tasks/kanban-board.tsx:31 | a task's count on a four-column board is the sum over the columns |
| KanbanBoard.ColumnKeepsOrder | src/components/tasks/kanban-board.tsx:25 | a column keeps the order of the list it was given |
| KanbanBoard.LowestTaskIsLastCard | src/components/tasks/kanban-board.tsx:46-48 | in a list sorted by position, the task with the highest position in its column is that column's last card |
| KanbanBoard.CreatedTaskShowsLastOnBoard | src/actions/tasks.ts:15-28 | a newly created task shows as the last card of its column |
| TaskCard.PriorityColorsAreDistinct | src/components/tasks/task-card.tsx:16-29 | every priority has its own non-empty colour; any other text gets none |
| TaskCard.PriorityColor | src/components/tasks/task-card.tsx:16-29 | a non-empty colour class exactly for the four priority texts |
| TaskCard.PriorityBadgeHidesMedium | src/components/tasks/task-card.tsx:49-56 | the priority badge shows exactly for non-medium priorities |
| TaskCard.ShowsPriorityBadge | src/components/tasks/task-card.tsx:49 | the badge condition `priority !== "medium"` |
| TaskCard.FirstChars | src/components/tasks/task-card.tsx:35-36 | joining first characters gives at most one character per word |
| TaskCard.Initials | src/components/tasks/task-card.tsx:31-39 | "?" for a missing or empty name, otherwise at most two characters |
| TaskCard.FirstCharsOfSplit | src/components/tasks/task-card.tsx:33-36 | the joined first characters of the words are the characters that start a word |
| TaskCard.InitialsAreWordStarts | src/components/tasks/task-card.tsx:31-39 | the initials are the first two word starts, upper-cased |
| TaskCard.SpacesHaveNoInitials | src/components/tasks/task-card.tsx:31-39 | a name made only of spaces gives empty initials |
| TaskCard.AvatarText | src/components/tasks/task-card.tsx:86-97 | the avatar shows the initials of the assignee id, "?" when unassigned |
| TaskCard.VisibleTags | src/components/tasks/task-card.tsx:65-67 | the first three tags, in order |
| TaskCard.OverflowLabel | src/components/tasks/task-card.tsx:76-80 | an overflow badge shows exactly when there are more than three tags |
| TaskCard.TagsAreAccountedFor | src/components/tasks/task-card.tsx:65-81 | the tags shown plus the number on the badge are all the tags |
| TaskCard.ZeroEstimateShowsStrayZero | src/components/tasks/task-card.tsx:99-104 | as written, a zero estimate renders a stray "0" |
| TaskCard.EstimateTextAsWritten | src/components/tasks/task-card.tsx:99-104 | as written, something is shown for every present estimate, and "0" for a zero one |
| TaskCard.EstimateText | src/components/tasks/task-card.tsx:99-104 | the estimate shows exactly when non-zero, as whole hours rounded down plus "h" |
| TaskCard.EstimateTextDiffersOnlyAtZero | src/components/tasks/task-card.tsx:99-104 | the corrected text agrees with the card as written for every estimate but 0 |
| TaskCard.EstimateTextReadsBack | src/components/tasks/task-card.tsx:102 | the number shown reads back as the whole hours of the estimate |
| TaskCard.OverdueIsPermanentUntilDone | src/components/tasks/task-card.tsx:106 | an overdue task stays overdue as time passes, until it is done |
| TaskCard.IsOverdue | src/components/tasks/task-card.tsx:106 | a due date before now on a task that is not done |
| DocumentList.FileIcon | src/components/documents/document-list.tsx:36-41 | the icon is chosen by the first of "pdf", "image", "text" that the type contains |
| DocumentList.PdfTypeHasPageIcon | src/components/documents/document-list.tsx:37 | a PDF upload gets the page icon |
| DocumentList.TextTypesHaveMemoIcon | src/components/documents/document-list.tsx:39 | plain text and markdown uploads get the memo icon |
| DocumentList.FormatFileSize | src/components/documents/document-list.tsx:30-34 | bytes below 1 KiB, kilobytes below 1 MiB, megabytes above, each amount the exact quotient |
| DocumentList.FileSizeAmountInRange | src/components/documents/document-list.tsx:32-33 | a kilobyte or megabyte amount is at least 1 and below 1024 kilobytes |
| DocumentList.AiReadyIffPromptHasContent | src/components/documents/document-list.tsx:85 | "AI Ready" shows exactly when the prompt gets the document's text |
| DocumentList.AiReady | src/components/documents/document-list.tsx:85 | the badge condition: the document has non-empty content |
| DocumentList.RowOf | src/components/documents/document-list.tsx:62-89 | a row shows the name, the icon, the uploader when named, and the AI badge |
| DocumentList.View | src/components/documents/document-list.tsx:52-62 | the empty notice exactly for no documents; otherwise one row per document, in order |
| DocumentList.HandleDelete | src/components/documents/document-list.tsx:17-28 | nothing without confirmation; otherwise deletes and reports success, or reports failure and changes nothing |
| AskAIDialog.ReplyText | src/components/ai/ask-ai-dialog.tsx:47 | the answer, or "No response" for a missing or empty one |
| AskAIDialog.Dialog.constructor | src/components/ai/ask-ai-dialog.tsx:29-32 | closed, empty, not loading |
| AskAIDialog.Dialog.SetQuestion | src/components/ai/ask-ai-dialog.tsx:30 | typing changes only the question |
| AskAIDialog.QuestionIsWellFormed | src/components/ai/ask-ai-dialog.tsx:35-38 | a question that is not blank becomes a well-formed user message once trimmed |
| AskAIDialog.Dialog.Submit | src/components/ai/ask-ai-dialog.tsx:34-41 | a blank question or a pending request sends nothing; otherwise sends the trimmed question, appends it and clears the input |
| AskAIDialog.Dialog.Complete | src/components/ai/ask-ai-dialog.tsx:43-54 | an answer appends the reply; a failure toasts; either way loading ends |
| AskAIDialog.Dialog.OpenChange | src/components/ai/ask-ai-dialog.tsx:57-63 | closing clears the conversation and the question; opening keeps them |
| Forms.EmptyToNull | src/components/tasks/task-form.tsx:96 | `v \|\| null`: null exactly for a missing or empty text |
| Forms.NullToEmpty | src/components/tasks/edit-task-form.tsx:64 | `v \|\| ""`: the text, or "" for null |
| Forms.NullToEmptyRoundTrip | src/components/clients/edit-client-form.tsx:64-93 | a nullable text shown in a field and saved back is unchanged, except "" becomes null |
| Forms.EmptyToNullRoundTrip | src/components/clients/edit-client-form.tsx:90 | a saved text shows back in its field unchanged |
| Forms.EnumField | src/components/tasks/task-form.tsx:34-35 | an enum field takes its default when unset and must parse otherwise |
| Forms.DateOrNull | src/components/projects/project-form.tsx:104-105 | a date exactly for a non-empty text |
| Forms.DateText | src/components/projects/edit-project-form.tsx:74-79 | the formatted date, or "" for none |
| Forms.DateRoundTrip | src/components/projects/edit-project-form.tsx:74-129 | a date shown in a date input and saved back is unchanged when the formatting reads back |
| Forms.HoursToMinutes | src/components/tasks/task-form.tsx:101 | a non-empty estimate that parses is 60 times the hours; an empty one is none |
| Forms.HoursToMinutesOfNumber | src/components/tasks/task-form.tsx:101 | a printed whole number of hours converts to 60 times that number |
| TaskForm.Validate | src/components/tasks/task-form.tsx:30-38 | accepts exactly when title and project are given and the enums parse; a rejection names exactly the bad fields |
| TaskForm.ValidatedEnumsAreTheFieldsText | src/components/tasks/task-form.tsx:34-35 | the accepted status and priority are the ones named, or "todo" and "medium" |
| TaskForm.Defaults | src/components/tasks/task-form.tsx:63-67 | the form opens with the requested status or "todo", "medium", the requested project or "", and nothing typed |
| TaskForm.DefaultsNeedOnlyATitle | src/components/tasks/task-form.tsx:63-67 | opened from a project with a valid status, a title is all it needs |
| TaskForm.BadDefaultStatusBlocksSubmit | src/components/tasks/task-form.tsx:64 | opened with an unknown status, every submission is rejected on the status |
| TaskForm.OfferedProjects | src/components/tasks/task-form.tsx:79 | exactly the active and planning projects are offered |
| TaskForm.Payload | src/components/tasks/task-form.tsx:94-102 | empty texts as null, the estimate in minutes, nothing else set |
| TaskForm.CreatedTaskFromForm | src/components/tasks/task-form.tsx:91-103 | the created task carries what was typed, the defaults, and the caller as reporter |
| EditTaskForm.Validate | src/components/tasks/edit-task-form.tsx:29-38 | accepts exactly when title and project are given and status and priority are given and parse; a rejection names exactly the bad fields and no other |
| EditTaskForm.EstimateFieldAsWritten | src/components/tasks/edit-task-form.tsx:69 | as written, the field is filled with the minutes |
| EditTaskForm.EstimateField | src/components/tasks/edit-task-form.tsx:69 | corrected, the field is filled with whole hours, the largest not above the minutes |
| EditTaskForm.InitialFields | src/components/tasks/edit-task-form.tsx:62-71 | corrected, the form opens with the task's values, null texts as "" and the estimate in whole hours |
| EditTaskForm.InitialFieldsAsWritten | src/components/tasks/edit-task-form.tsx:62-71 | as written, the same but with the estimate in minutes |
| EditTaskForm.Patch | src/components/tasks/edit-task-form.tsx:96-103 | only the form's fields are sent: an empty estimate or due date, and an absent description or category, are left out; other texts are written as typed |
| EditTaskForm.InitialFieldsAreAccepted | src/components/tasks/edit-task-form.tsx:62-71 | the form as opened is accepted |
| EditTaskForm.SaveUnchangedScalesEstimate | src/components/tasks/edit-task-form.tsx:69-96 | as written, saving unchanged multiplies the estimate by 60 |
| EditTaskForm.NinetyMinutesBecomeFiveThousandFourHundred | src/components/tasks/edit-task-form.tsx:69-96 | as written, a 90-minute estimate is saved as 5400 |
| EditTaskForm.SaveUnchangedKeepsTask | src/components/tasks/edit-task-form.tsx:62-103 | corrected, saving unchanged keeps the task, except null texts become "" and the estimate is rounded to whole hours |
| EditTaskForm.EstimateFieldRoundTrip | src/components/tasks/edit-task-form.tsx:69-96 | corrected, the estimate field is non-empty exactly when the task has an estimate, and submitted unchanged it gives back the estimate rounded down to whole hours |
| EditTaskForm.SaveUnchangedKeepsWholeHours | src/components/tasks/edit-task-form.tsx:93-103 | corrected, a whole-hour estimate survives an unchanged save |
| EditTaskForm.HandleDelete | src/components/tasks/edit-task-form.tsx:116-131 | nothing without confirmation; otherwise deletes and reports success, or reports failure when signed out |
| ProjectForm.ValidateWith | src/components/projects/project-form.tsx:30-38 | accepts exactly when name and client are given and the enums parse or default; a rejection names exactly the bad fields and no other |
| ProjectForm.Validate | src/components/projects/project-form.tsx:34-35 | accepts exactly when name and client are given and any given enum parses; the accepted data carries the typed name, client, description and dates, status "planning" and priority "medium" when omitted, else the parsed values |
| ProjectForm.Defaults | src/components/projects/project-form.tsx:62-66 | the form opens with "planning", "medium" and the given client, or none |
| ProjectForm.ApplyDefaultClient | src/components/projects/project-form.tsx:89-93 | the effect sets the client exactly when one is given |
| ProjectForm.DefaultClientIsPrefilled | src/components/projects/project-form.tsx:62-93 | the effect agrees with the defaults; given a client, a name is all the form needs |
| ProjectForm.OfferedClients | src/components/projects/project-form.tsx:77 | exactly the active clients are offered |
| ProjectForm.Payload | src/components/projects/project-form.tsx:98-106 | empty description and dates as null |
| ProjectForm.CreatedProjectFromForm | src/components/projects/project-form.tsx:95-106 | the created project carries what was typed, the defaults, and the caller as creator |
| EditProjectForm.Validate | src/components/projects/edit-project-form.tsx:30-38 | accepts exactly when name and client are given and status and priority are given and parse; the accepted data carries the typed fields and the parsed enums; a rejection names exactly the bad fields and no other |
| EditProjectForm.InitialFields | src/components/projects/edit-project-form.tsx:68-80 | the form opens, and resets, with the project's values |
| EditProjectForm.Patch | src/components/projects/edit-project-form.tsx:122-130 | every field written; empty description and dates as null |
| EditProjectForm.SaveUnchangedKeepsProject | src/components/projects/edit-project-form.tsx:119-130 | saving unchanged keeps the project, except "" becomes null |
| EditClientForm.Validate | src/components/clients/edit-client-form.tsx:28-35 | accepts exactly when a name is given, e-mail and website are empty or well-formed, and the status parses; a rejection names exactly the bad fields and no other |
| EditClientForm.InitialFields | src/components/clients/edit-client-form.tsx:62-83 | the form opens, and resets, with the client's values, null as "" |
| EditClientForm.Patch | src/components/clients/edit-client-form.tsx:88-95 | name and status as given, empty contact fields as null |
| EditClientForm.SaveUnchangedKeepsClient | src/components/clients/edit-client-form.tsx:85-95 | saving unchanged keeps the client, except "" becomes null |
| Text.Trim | src/actions/users.ts:29 | `trim()` is no longer than the text and leaves no white space at either end |
| Text.TrimKeepsMiddle | src/actions/users.ts:29 | `trim()` keeps a middle part of the text and drops only white space, before and after it |
| Text.TrimStart | src/actions/users.ts:29 | drops exactly the leading white space |
| Text.TrimEnd | src/actions/users.ts:29 | drops exactly the trailing white space |
| Text.TrimmedIsFixed | src/actions/users.ts:29 | trimming a text without outer white space changes nothing |
| Text.BlankIffAllSpace | src/components/ai/ask-ai-dialog.tsx:36 | `!question.trim()` holds exactly for all-white-space questions |
| Text.TrimIdempotent | src/components/ai/ask-ai-dialog.tsx:38 | trimming twice is trimming once |
| Text.ToLower | src/lib/extract-text.ts:14 | lower-cases each letter and keeps the length |
| Text.ToUpper | src/components/tasks/task-card.tsx:37 | upper-cases each letter and keeps the length |
| Text.ToLowerIdempotent | src/lib/extract-text.ts:14 | lower-casing twice is lower-casing once |
| Text.ContainsIffOccurs | src/components/documents/document-list.tsx:36-41 | `includes` holds exactly when the text occurs at some index |
| Text.Contains | src/components/documents/document-list.tsx:37-39 | `includes`: the needle starts here or somewhere further on |
| Text.StartsWith | src/lib/extract-text.ts:28 | `startsWith`: the text begins with the prefix |
| Text.MissingCharNotContained | src/components/documents/document-list.tsx:36-41 | a text missing a character of the needle does not include it |
| Text.Take | src/components/tasks/task-card.tsx:38 | `slice(0, n)`: the prefix of length at most n |
| Text.Split | src/components/tasks/task-card.tsx:34 | at least one part, none containing the separator |
| Text.Join | src/components/tasks/task-card.tsx:36 | `join`: the parts with the separator between neighbours |
| Text.JoinSplit | src/components/tasks/task-card.tsx:34 | joining the parts with the separator gives back the text |
| Text.IntToString | src/components/tasks/edit-task-form.tsx:69 | a number's decimal text is non-empty and has no sign when not negative |
| Text.ParseInt | src/components/tasks/edit-task-form.tsx:96 | `parseInt`: after leading white space and an optional sign, the leading digits' value, negated after "-"; NaN exactly when there is no leading digit |
| Text.DigitsValueOfNat | src/components/tasks/edit-task-form.tsx:69 | the decimal digits of a number read back as the number |
| Text.LeadingDigitsOfDigits | src/components/tasks/task-form.tsx:101 | `parseInt` reads exactly the leading digits |
| Text.ParseIntOfDigits | src/components/tasks/task-form.tsx:101 | `parseInt` of digits followed by a non-digit is their value |
| Text.ParseIntOfNegative | src/components/tasks/edit-task-form.tsx:96 | `parseInt` reads a negative number's text back |
| Text.ParseIntOfIntToStringThen | src/components/tasks/task-card.tsx:102 | `parseInt` reads a number back from its text, whatever non-digit follows |
| Text.ParseIntOfIntToString | src/components/tasks/edit-task-form.tsx:69-96 | `parseInt(String(n))` is n |
| Text.IntToStringInjective | src/app/api/upload/route.ts:24 | different numbers have different texts |

## Left out

- The relations loaded with `with:` (a task's project, client, assignee and reporter; a document's uploader; a project's client) are not modelled. The getters return the rows alone, and the document list takes the uploader's name as an input.
- `revalidatePath` only refreshes cached pages, so it is not modelled.
- The language model, R2 object storage, the PDF parser and the identity provider are external services. Their answers are parameters: `generate`, `put`, `pdfText` and `Profile`.
- The clock, generated UUIDs and `Date.now` are parameters. A sync and the insert that follows it in one action use the same time.
- Letter case is ASCII only, and strings are sequences of characters rather than UTF-16 code units.
- `parseInt` is modelled for optional white space, a sign and decimal digits. Hexadecimal prefixes and a radix argument are not modelled. A `NaN` estimate is stored as null, as SQLite stores it.
- The e-mail and URL checks of the validation library are parameters, and its error messages are not modelled; a rejection names the failing fields.
- `toFixed(2)`, `toLocaleDateString` and the date input's `toISOString().split("T")[0]` are not modelled. Sizes are kept as exact quotients, and date formatting is a parameter.
- Concurrent requests and races between actions are not modelled; every action runs alone.
- TaskActions.UpdateTaskStatus: takes a typed status. The source casts any text, so an invalid status could reach the database; the model does not capture that.
- The order of documents in the prompt is table order, since `findMany` without `orderBy` has no fixed order.
- The sidebar, top navigation, document upload dialog and the pages are not part of this model. Neither are JSX layout, spinners, the submitting/deleting flags and the closing of dialogs after a save.
- Schema.TaskPatch, Schema.ProjectPatch, Schema.ClientPatch: the update actions accept `Partial<NewTask>`, `Partial<NewProject>` and `Partial<NewClient>`, and each of these has an optional `id` that `.set(...)` would write. The model's change records have no `id` column, so it does not capture rewriting a primary key (and the foreign-key failures that could follow) through an update.

## Findings

| source | as written | input that shows it | evidently intended | confidence | as-written member | corrected member |
|---|---|---|---|---|---|---|
| src/components/tasks/edit-task-form.tsx:69 | the estimate field, labelled in hours, is filled with the stored minutes, and the save multiplies it by 60 | a task with a 90-minute estimate saved unchanged gets 5400 minutes | the field shows whole hours, so an unchanged save keeps a whole-hour estimate | high, not executed | EditTaskForm.NinetyMinutesBecomeFiveThousandFourHundred | EditTaskForm.SaveUnchangedKeepsWholeHours |
| src/components/tasks/task-card.tsx:99 | `{task.timeEstimate && ...}` renders the number 0 when the estimate is 0 | a task with estimate 0 shows a stray "0" on its card | nothing is shown for a zero estimate | high, not executed | TaskCard.ZeroEstimateShowsStrayZero | TaskCard.EstimateText |

Other behaviour of the source that the model keeps as written:

- The ask-AI dialog appends an answer that arrives after it was closed.
- A name made only of spaces gives empty initials.
- An edit-task save turns a null description or category into "".
- Clearing the estimate or due date in the edit-task form keeps the stored value.
- The task form opened with an unknown status rejects every submission until another status is picked.
- The document icon check is case-sensitive.
- The priority colour for "medium" is never shown.
