/** The document server actions: recording an uploaded file, listing a
    project's documents, deleting one and replacing its extracted text. */
module DocumentActions {
  import opened Wrappers
  import opened Schema
  import opened Tables
  import opened Store
  import opened UserActions

  /** `createDocument`: syncs the caller into `users`, then inserts the
      document with the caller as its uploader. */
  method CreateDocument(db: Database, caller: Option<Id>, profile: Option<Profile>, data: NewDocument, id: Id, now: Timestamp)
    returns (r: Result<Document, Failure>)
    requires db.Valid()
    modifies db
    ensures db.Valid()
    ensures !SignedIn(caller) ==> r == Failure(Unauthorized) && db.users == old(db.users)
    ensures SignedIn(caller) ==>
      var users := SyncedUsers(old(db.users), caller.value, profile, now);
      var d := DocumentRow(data, id, caller.value, now);
      && db.users == users
      && if !IsUser(users, caller.value) then
           r == Failure(if profile.None? then UserNotFound else ConstraintFailed)
         else if id in old(ValuesOf(db.documents, DocumentKey))
              || data.projectId !in old(ValuesOf(db.projects, ProjectKey)) then
           r == Failure(ConstraintFailed)
         else r == Success(d) && db.documents == old(db.documents) + [d]
    ensures r.Failure? ==> db.documents == old(db.documents)
    ensures db.clients == old(db.clients) && db.projects == old(db.projects) && db.tasks == old(db.tasks)
  {
    if !SignedIn(caller) {
      return Failure(Unauthorized);
    }
    var synced := SyncCurrentUser(db, caller, profile, now);
    if synced.Failure? {
      return Failure(synced.error);
    }
    var d := DocumentRow(data, id, caller.value, now);
    if d.id in ValuesOf(db.documents, DocumentKey) || d.projectId !in ValuesOf(db.projects, ProjectKey) {
      return Failure(ConstraintFailed);
    }
    AppendKeepsUnique(db.documents, DocumentKey, d);
    db.documents := db.documents + [d];
    r := Success(d);
  }

  /** `getDocumentsByProjectId`: the project's documents, newest first. */
  function GetDocumentsByProjectId(db: Database, caller: Option<Id>, projectId: Id): (r: Result<seq<Document>, Failure>)
    reads db
    ensures r.Success? <==> SignedIn(caller)
    ensures r.Success? ==> forall d :: d in r.value <==> d in db.documents && d.projectId == projectId
    ensures r.Success? ==> multiset(r.value) == multiset(Where(db.documents, DocumentProject, projectId))
    ensures r.Success? ==> forall i, j | 0 <= i < j < |r.value| :: r.value[i].createdAt >= r.value[j].createdAt
  {
    if !SignedIn(caller) then Failure(Unauthorized)
    else
      var matching := Where(db.documents, DocumentProject, projectId);
      var rows := SortBy(matching, DocumentNewestFirst);
      assert forall i, j | 0 <= i < j < |rows| :: DocumentNewestFirst(rows[i]) <= DocumentNewestFirst(rows[j]);
      assert forall d :: d in rows <==> d in matching by {
        forall d ensures d in rows <==> d in matching {
          assert d in rows <==> d in multiset(rows);
          assert d in matching <==> d in multiset(matching);
        }
      }
      Success(rows)
  }

  /** `deleteDocument`: unlike the other deletes it looks the row up first
      and fails with "Document not found" when there is none. */
  method DeleteDocument(db: Database, caller: Option<Id>, id: Id) returns (r: Result<(), Failure>)
    requires db.Valid()
    modifies db
    ensures db.Valid()
    ensures !SignedIn(caller) ==> r == Failure(Unauthorized)
    ensures SignedIn(caller) ==>
      if id in old(ValuesOf(db.documents, DocumentKey))
      then r.Success? && db.documents == Without(old(db.documents), DocumentKey, {id})
      else r == Failure(DocumentNotFound)
    ensures r.Failure? ==> db.documents == old(db.documents)
    ensures db.users == old(db.users) && db.clients == old(db.clients)
    ensures db.projects == old(db.projects) && db.tasks == old(db.tasks)
  {
    if !SignedIn(caller) {
      return Failure(Unauthorized);
    }
    var found := Find(db.documents, DocumentKey, id);
    if found.None? {
      return Failure(DocumentNotFound);
    }
    WithoutKeepsUnique(db.documents, DocumentKey, {id}, DocumentKey);
    db.documents := Without(db.documents, DocumentKey, {id});
    r := Success(());
  }

  /** `updateDocumentContent`: replaces the extracted text and stamps
      `updatedAt`; nothing happens when no document has the id. */
  method UpdateDocumentContent(db: Database, caller: Option<Id>, id: Id, content: string, now: Timestamp)
    returns (r: Result<Option<Document>, Failure>)
    requires db.Valid()
    modifies db
    ensures db.Valid()
    ensures r.Failure? <==> !SignedIn(caller)
    ensures SignedIn(caller) && id !in old(ValuesOf(db.documents, DocumentKey)) ==> r == Success(None)
    ensures SignedIn(caller) && id in old(ValuesOf(db.documents, DocumentKey)) ==>
      var d := old(Find(db.documents, DocumentKey, id)).value.(content := Some(content), updatedAt := now);
      r == Success(Some(d)) && db.documents == Replace(old(db.documents), DocumentKey, id, d)
    ensures r.Failure? || r == Success(None) ==> db.documents == old(db.documents)
    ensures db.users == old(db.users) && db.clients == old(db.clients)
    ensures db.projects == old(db.projects) && db.tasks == old(db.tasks)
  {
    if !SignedIn(caller) {
      return Failure(Unauthorized);
    }
    var found := Find(db.documents, DocumentKey, id);
    if found.None? {
      return Success(None);
    }
    var d := found.value.(content := Some(content), updatedAt := now);
    ReplaceKeepsKeys(db.documents, DocumentKey, id, d);
    db.documents := Replace(db.documents, DocumentKey, id, d);
    r := Success(Some(d));
  }
}
