/** `POST /api/upload`: stores each file of the multipart form in object
    storage under a per-user key and answers with what was stored and the
    text extracted from it. The clock, the storage service and the form
    parser are parameters. */
module UploadRoute {
  import opened Wrappers
  import opened Text
  import opened Store
  import opened ExtractText

  /** One entry of the `files` array in a successful response. */
  datatype UploadedFile = UploadedFile(
    name: string, mimeType: string, size: nat, url: string, key: string, content: Option<string>)

  datatype Body = Files(files: seq<UploadedFile>) | Error(message: string)

  datatype Response = Response(status: nat, body: Body)

  const UnauthorizedResponse: Response := Response(401, Error("Unauthorized"))
  const NoFilesResponse: Response := Response(400, Error("No files provided"))
  const FailedResponse: Response := Response(500, Error("Upload failed"))

  /** `${userId}/${timestamp}-${file.name}`. */
  function StorageKey(userId: string, timestamp: int, name: string): string
  {
    userId + "/" + IntToString(timestamp) + "-" + name
  }

  /** `uploadToR2` answers with the object's public address. */
  function PublicUrl(base: string, key: string): string
  {
    base + "/" + key
  }

  /** The key of the `i`-th file: the clock is read once per file. */
  function KeyOf(userId: string, files: seq<File>, i: nat, clock: nat -> int): string
    requires i < |files|
  {
    StorageKey(userId, clock(i), files[i].name)
  }

  /** The response entry for the `i`-th file. */
  function EntryOf(userId: string, files: seq<File>, i: nat, clock: nat -> int, base: string): (e: UploadedFile)
    requires i < |files|
    ensures e.name == files[i].name && e.mimeType == files[i].mimeType && e.size == files[i].size
    ensures e.key == KeyOf(userId, files, i, clock) && e.url == PublicUrl(base, e.key)
    ensures e.content == ExtractTextFromFile(files[i])
  {
    var key := KeyOf(userId, files, i, clock);
    UploadedFile(files[i].name, files[i].mimeType, files[i].size, PublicUrl(base, key), key,
                 ExtractTextFromFile(files[i]))
  }

  /** The `files` array of a response in which every file was stored. */
  function Entries(userId: string, files: seq<File>, clock: nat -> int, base: string): (es: seq<UploadedFile>)
    ensures |es| == |files|
    ensures forall j | 0 <= j < |files| :: es[j] == EntryOf(userId, files, j, clock, base)
  {
    seq(|files|, j requires 0 <= j < |files| => EntryOf(userId, files, j, clock, base))
  }

  /** The route handler. `form` is the parsed `files` entries, or `None`
      when the body is not a form; `put(file, key)` tells whether storing
      the object succeeded. Returns the response and the keys stored, in
      order: a failure stops the loop, and the objects already stored stay
      stored. */
  method Post(caller: Option<string>, form: Option<seq<File>>, clock: nat -> int,
              put: (File, string) -> bool, base: string)
    returns (response: Response, stored: seq<string>)
    ensures !SignedIn(caller) ==> response == UnauthorizedResponse && stored == []
    ensures SignedIn(caller) && form.None? ==> response == FailedResponse && stored == []
    ensures SignedIn(caller) && form == Some([]) ==> response == NoFilesResponse && stored == []
    ensures SignedIn(caller) && form.Some? ==>
      && |stored| <= |form.value|
      && forall j | 0 <= j < |stored| :: stored[j] == KeyOf(caller.value, form.value, j, clock)
                                      && put(form.value[j], stored[j])
    ensures SignedIn(caller) && form.Some? && |form.value| > 0 ==>
      if |stored| == |form.value| then
        response == Response(200, Files(Entries(caller.value, form.value, clock, base)))
      else
        response == FailedResponse
        && !put(form.value[|stored|], KeyOf(caller.value, form.value, |stored|, clock))
  {
    if !SignedIn(caller) {
      return UnauthorizedResponse, [];
    }
    if form.None? {
      return FailedResponse, [];
    }
    var files := form.value;
    if |files| == 0 {
      return NoFilesResponse, [];
    }
    var uploaded, ok;
    uploaded, stored, ok := UploadAll(caller.value, files, clock, put, base);
    if !ok {
      return FailedResponse, stored;
    }
    response := Response(200, Files(uploaded));
  }

  /** The loop over the files: for each one, read the clock, build the key,
      extract the text and store the object. The first failed store stops
      the loop (`ok` is false). */
  method UploadAll(userId: string, files: seq<File>, clock: nat -> int, put: (File, string) -> bool, base: string)
    returns (uploaded: seq<UploadedFile>, stored: seq<string>, ok: bool)
    ensures |stored| <= |files|
    ensures forall j | 0 <= j < |stored| :: stored[j] == KeyOf(userId, files, j, clock) && put(files[j], stored[j])
    ensures ok ==> |stored| == |files| && uploaded == Entries(userId, files, clock, base)
    ensures !ok ==> |stored| < |files| && !put(files[|stored|], KeyOf(userId, files, |stored|, clock))
  {
    uploaded, stored := [], [];
    var i := 0;
    while i < |files|
      invariant 0 <= i <= |files|
      invariant |uploaded| == i && |stored| == i
      invariant forall j | 0 <= j < i :: uploaded[j] == EntryOf(userId, files, j, clock, base)
      invariant forall j | 0 <= j < i :: stored[j] == KeyOf(userId, files, j, clock) && put(files[j], stored[j])
    {
      var file := files[i];
      var timestamp := clock(i);
      var key := StorageKey(userId, timestamp, file.name);
      assert key == KeyOf(userId, files, i, clock);
      var content := ExtractTextFromFile(file);
      if !put(file, key) {
        return uploaded, stored, false;
      }
      var url := PublicUrl(base, key);
      var entry := UploadedFile(file.name, file.mimeType, file.size, url, key, content);
      assert entry == EntryOf(userId, files, i, clock, base);
      StepInvariants(uploaded, stored, entry, key, i, userId, files, clock, put, base);
      stored := stored + [key];
      uploaded := uploaded + [entry];
      i := i + 1;
    }
    assert uploaded == Entries(userId, files, clock, base);
    ok := true;
  }

  /** One more stored file keeps the loop's invariants. */
  lemma StepInvariants(uploaded: seq<UploadedFile>, stored: seq<string>, entry: UploadedFile, key: string,
                       i: nat, userId: string, files: seq<File>, clock: nat -> int,
                       put: (File, string) -> bool, base: string)
    requires i < |files| && |uploaded| == i && |stored| == i
    requires forall j | 0 <= j < i :: uploaded[j] == EntryOf(userId, files, j, clock, base)
    requires forall j | 0 <= j < i :: stored[j] == KeyOf(userId, files, j, clock) && put(files[j], stored[j])
    requires entry == EntryOf(userId, files, i, clock, base)
    requires key == KeyOf(userId, files, i, clock) && put(files[i], key)
    ensures forall j | 0 <= j < i + 1 :: (uploaded + [entry])[j] == EntryOf(userId, files, j, clock, base)
    ensures forall j | 0 <= j < i + 1 :: (stored + [key])[j] == KeyOf(userId, files, j, clock) && put(files[j], (stored + [key])[j])
  {
  }

  /** Splitting at the first occurrence of a separator is unambiguous. */
  lemma {:induction false} SplitAtFirst(a: string, x: string, b: string, y: string, c: char)
    requires c !in a && c !in b
    requires a + [c] + x == b + [c] + y
    ensures a == b && x == y
  {
    var s, t := a + [c] + x, b + [c] + y;
    assert forall i | 0 <= i < |a| :: s[i] == a[i] != c;
    assert forall i | 0 <= i < |b| :: t[i] == b[i] != c;
    assert s[|a|] == c && t[|b|] == c;
    assert |a| == |b|;
    assert a == s[..|a|] && b == t[..|b|];
    assert x == s[|a| + 1..] && y == t[|b| + 1..];
  }

  /** Different uploads of one user get different keys: a key determines
      the clock reading and the file name, as long as the user id has no
      "/" and the clock is not before 1970. Two files with the same name
      stored within the same millisecond share a key, and the later one
      overwrites the earlier. */
  lemma StorageKeyInjective(userId: string, t1: int, n1: string, u2: string, t2: int, n2: string)
    requires '/' !in userId && '/' !in u2
    requires t1 >= 0 && t2 >= 0
    requires StorageKey(userId, t1, n1) == StorageKey(u2, t2, n2)
    ensures userId == u2 && t1 == t2 && n1 == n2
  {
    var d1, d2 := IntToString(t1), IntToString(t2);
    assert StorageKey(userId, t1, n1) == userId + ['/'] + (d1 + ['-'] + n1);
    assert StorageKey(u2, t2, n2) == u2 + ['/'] + (d2 + ['-'] + n2);
    SplitAtFirst(userId, d1 + ['-'] + n1, u2, d2 + ['-'] + n2, '/');
    SplitAtFirst(d1, n1, d2, n2, '-');
    IntToStringInjective(t1, t2);
  }
}
