/** The user server actions: copying the signed-in identity-provider user
    into the `users` table on first use, and reading a user back. */
module UserActions {
  import opened Wrappers
  import opened Text
  import opened Schema
  import opened Tables
  import opened Store

  /** What the identity provider's `currentUser()` reports about the
      signed-in user; `emailAddresses` in the provider's order. */
  datatype Profile = Profile(
    emailAddresses: seq<string>,
    firstName: Option<string>,
    lastName: Option<string>,
    username: Option<string>,
    imageUrl: string)

  /** `x || ""` on a nullable text: null and "" both give "". */
  function OrEmpty(x: Option<string>): (r: string)
    ensures x.Some? ==> r == x.value
    ensures x.None? ==> r == ""
  {
    x.GetOr("")
  }

  /** `emailAddresses[0]?.emailAddress || ""`. */
  function PrimaryEmail(addresses: seq<string>): (r: string)
    ensures |addresses| > 0 ==> r == addresses[0]
    ensures |addresses| == 0 ==> r == ""
  {
    if |addresses| > 0 then addresses[0] else ""
  }

  /** The name stored for a new user: first and last name joined by a space
      and trimmed, else the username, else "User". It is never empty. */
  function DisplayName(p: Profile): (name: string)
    ensures |name| > 0
    ensures var full := Trim(OrEmpty(p.firstName) + " " + OrEmpty(p.lastName));
      && (full != "" ==> name == full)
      && (full == "" && p.username.Some? && p.username.value != "" ==> name == p.username.value)
      && (full == "" && (p.username.None? || p.username.value == "") ==> name == "User")
  {
    var full := Trim(OrEmpty(p.firstName) + " " + OrEmpty(p.lastName));
    if full != "" then full
    else if p.username.Some? && p.username.value != "" then p.username.value
    else "User"
  }

  /** A user with both names, neither padded with white space, is stored as
      "First Last". */
  lemma DisplayNameOfFullName(p: Profile, first: string, last: string)
    requires p.firstName == Some(first) && p.lastName == Some(last)
    requires first != [] && !IsSpace(first[0]) && !IsSpace(first[|first| - 1])
    requires last != [] && !IsSpace(last[0]) && !IsSpace(last[|last| - 1])
    ensures DisplayName(p) == first + " " + last
  {
    var s := first + " " + last;
    assert s[0] == first[0] && s[|s| - 1] == last[|last| - 1];
    TrimmedIsFixed(s);
  }

  /** A user with no name at all is stored under the username, or as "User"
      when the username is missing or empty. */
  lemma DisplayNameWithoutNames(p: Profile)
    requires p.firstName.None? && p.lastName.None?
    ensures p.username.Some? && p.username.value != "" ==> DisplayName(p) == p.username.value
    ensures p.username.None? || p.username.value == "" ==> DisplayName(p) == "User"
  {
    assert IsSpace(' ');
    BlankIffAllSpace("" + " " + "");
  }

  /** The row `syncCurrentUser` inserts: the first user to sign in becomes
      an owner. */
  function NewUserRow(userId: Id, p: Profile, now: Timestamp): (u: User)
    ensures u.id == userId && u.role == Owner
    ensures u.email == PrimaryEmail(p.emailAddresses) && u.name == Some(DisplayName(p))
    ensures u.avatarUrl == Some(p.imageUrl)
    ensures u.createdAt == now && u.updatedAt == now
  {
    UserRow(NewUser(userId, PrimaryEmail(p.emailAddresses), Some(DisplayName(p)), Some(p.imageUrl), Some(Owner)), now)
  }

  /** The `users` table after `syncCurrentUser` for `userId`: unchanged when
      the user is already there, when the provider has no profile, or when
      the insert would repeat an e-mail; otherwise with the new row added. */
  function SyncedUsers(users: seq<User>, userId: Id, profile: Option<Profile>, now: Timestamp): (r: seq<User>)
    ensures r == users || (profile.Some? && r == users + [NewUserRow(userId, profile.value, now)])
  {
    if IsUser(users, userId) || profile.None? then users
    else
      var u := NewUserRow(userId, profile.value, now);
      if u.email in ValuesOf(users, UserEmail) then users else users + [u]
  }

  /** After a sync the caller has a row exactly when they had one already or
      the provider knew them under an e-mail no other user has. */
  lemma SyncedUsersHasCaller(users: seq<User>, userId: Id, profile: Option<Profile>, now: Timestamp)
    ensures IsUser(SyncedUsers(users, userId, profile, now), userId) <==>
      || IsUser(users, userId)
      || (profile.Some? && PrimaryEmail(profile.value.emailAddresses) !in ValuesOf(users, UserEmail))
  {
    var r := SyncedUsers(users, userId, profile, now);
    if !IsUser(users, userId) && profile.Some? {
      var u := NewUserRow(userId, profile.value, now);
      if u.email !in ValuesOf(users, UserEmail) {
        assert u in r;
      } else {
        assert r == users;
      }
    }
  }

  /** Syncing is idempotent: once the caller has a row, a later sync (with
      any profile, at any time) leaves the table as it is. */
  lemma SyncIsIdempotent(users: seq<User>, userId: Id, p: Option<Profile>, now: Timestamp,
                         q: Option<Profile>, later: Timestamp)
    requires IsUser(SyncedUsers(users, userId, p, now), userId)
    ensures SyncedUsers(SyncedUsers(users, userId, p, now), userId, q, later) == SyncedUsers(users, userId, p, now)
  {
  }

  /** `syncCurrentUser`: returns the caller's row, creating it from the
      identity provider's profile the first time. The insert fails when
      another user already has the same e-mail (the column is unique). */
  method SyncCurrentUser(db: Database, caller: Option<Id>, profile: Option<Profile>, now: Timestamp)
    returns (r: Result<User, Failure>)
    requires db.Valid()
    modifies db
    ensures db.Valid()
    ensures !SignedIn(caller) ==> r == Failure(Unauthorized)
    ensures SignedIn(caller) && old(IsUser(db.users, caller.value)) ==>
      r == Success(old(Find(db.users, UserKey, caller.value)).value)
    ensures SignedIn(caller) && !old(IsUser(db.users, caller.value)) ==>
      if profile.None? then r == Failure(UserNotFound)
      else
        var u := NewUserRow(caller.value, profile.value, now);
        if u.email in old(ValuesOf(db.users, UserEmail))
        then r == Failure(ConstraintFailed)
        else r == Success(u) && db.users == old(db.users) + [u]
    ensures SignedIn(caller) ==> db.users == SyncedUsers(old(db.users), caller.value, profile, now)
    ensures SignedIn(caller) ==> (r.Success? <==> IsUser(db.users, caller.value))
    ensures r.Success? ==> r.value.id == caller.value && r.value in db.users
    ensures r.Failure? || (SignedIn(caller) && old(IsUser(db.users, caller.value))) ==> db.users == old(db.users)
    ensures db.clients == old(db.clients) && db.projects == old(db.projects)
    ensures db.tasks == old(db.tasks) && db.documents == old(db.documents)
  {
    if !SignedIn(caller) {
      return Failure(Unauthorized);
    }
    var existing := Find(db.users, UserKey, caller.value);
    if existing.Some? {
      return Success(existing.value);
    }
    if profile.None? {
      return Failure(UserNotFound);
    }
    var u := NewUserRow(caller.value, profile.value, now);
    if u.email in ValuesOf(db.users, UserEmail) {
      return Failure(ConstraintFailed);
    }
    InsertUser(db, u);
    assert u in db.users;
    r := Success(u);
  }

  /** The `insert(users)` itself, once the id and the e-mail are known to
      be free. */
  method InsertUser(db: Database, u: User)
    requires db.Valid()
    requires !IsUser(db.users, u.id) && u.email !in ValuesOf(db.users, UserEmail)
    modifies db
    ensures db.Valid()
    ensures db.users == old(db.users) + [u]
    ensures db.clients == old(db.clients) && db.projects == old(db.projects)
    ensures db.tasks == old(db.tasks) && db.documents == old(db.documents)
  {
    AppendKeepsUnique(db.users, UserKey, u);
    AppendKeepsUnique(db.users, UserEmail, u);
    AddUserKeepsRefs(db.users, u, db.clients, db.projects, db.tasks, db.documents);
    db.users := db.users + [u];
  }

  /** `getUser`: the user with that id, if there is one. */
  function GetUser(db: Database, caller: Option<Id>, id: Id): (r: Result<Option<User>, Failure>)
    reads db
    ensures r.Success? <==> SignedIn(caller)
    ensures r.Success? && r.value.Some? ==> r.value.value in db.users && r.value.value.id == id
    ensures r.Success? ==> (r.value.None? <==> !IsUser(db.users, id))
  {
    if !SignedIn(caller) then Failure(Unauthorized)
    else Success(Find(db.users, UserKey, id))
  }
}
