/** What the API routes share: the authenticated user, the outcomes of backend calls (each an
    oracle: the model does not run the hosted database or storage), the JSON reply with its status
    code, the log of backend calls a handler makes, and the rows of the `doodles` table. */
module Backend {
  import opened Types
  import JsText

  datatype User = User(id: string)

  /** What a storage upload or a table write comes to: `{ error }` null (`Ok`) or not (`Failed`),
      or a throw from the client library (`Thrown`), which lands in the handler's catch-all. */
  datatype Outcome = Ok | Failed | Thrown

  /** A string member of a JSON request body: absent (`undefined`, which is dropped again when an
      object holding it is serialised), `null`, or a string. */
  datatype JsonField = Absent | Null | Text(text: string)

  /** The `{ data, error }` of a select. */
  datatype Query<T> = Rows(rows: T) | QueryFailed

  datatype Body<T> = Error(error: string) | Payload(value: T)

  /** `NextResponse.json(body, { status })`; the status defaults to 200. */
  datatype Reply<T> = Reply(status: int, body: Body<T>)

  const UNAUTHORIZED: string := "Unauthorized"
  const INTERNAL_ERROR: string := "Internal server error"
  const UNKNOWN_ARTIST: string := "Unknown Artist"

  /** A request a handler sends to the hosted backend. */
  datatype Call =
    | SelectDoodlesOf(userId: string)
    | SelectProfileOf(userId: string)
    | SelectAllDoodles
    | Upload(bucket: string, path: string, content: string)
    | InsertDoodle(userId: string, title: string, description: Option<string>, imageUrl: string)
    | UpdateProfileRow(userId: string, artistName: string, bio: JsonField, avatarUrl: JsonField)

  /** A handler's reply together with the backend calls it made, in order. */
  datatype Exchange<T> = Exchange(reply: Reply<T>, calls: seq<Call>)

  predicate Writes(calls: seq<Call>) {
    exists k :: 0 <= k < |calls| && (calls[k].InsertDoodle? || calls[k].UpdateProfileRow?)
  }

  /** `storage.from(bucket).getPublicUrl(path)`: built by the client library without a request. */
  type PublicUrlOf = (string, string) -> string

  /** The profile an artwork is joined with: the client library returns an array or a single
      object depending on how it reads the relation, or nothing. */
  datatype JoinedProfile = JoinedProfile(artistName: string, avatarUrl: Option<string>)
  datatype ProfileJoin = JoinArray(profiles: seq<JoinedProfile>) | JoinObject(profile: JoinedProfile)
                       | JoinNone

  /** A row of the `doodles` table. `createdAt` is `new Date(created_at).getTime()`. The two
      vote columns are the ones the two read routes use (`votes` and `votes_count`). */
  datatype DoodleRow = DoodleRow(
    id: string,
    title: string,
    description: Option<string>,
    imageUrl: string,
    votes: Option<int>,
    votesCount: Option<int>,
    createdAt: int,
    critique: Option<string>,
    profiles: ProfileJoin)

  /** A painting as the read routes send it: the client record plus the `description` column. */
  datatype ApiPainting = ApiPainting(painting: Painting, description: Option<string>)

  /** `n || 0` for a number column that may be null. */
  function OrZero(n: Option<int>): (r: int)
    ensures n.Some? ==> r == n.value
    ensures n.None? ==> r == 0
  {
    match n
    case Some(v) => v
    case None => 0
  }

  /** `${folder}/${user.id}/${timestamp}.png` */
  function StoragePath(folder: string, userId: string, timestamp: nat): string {
    folder + "/" + userId + "/" + JsText.Decimal(timestamp) + ".png"
  }

  /** A string split at its first slash: equal joins of slash-free heads have equal parts. */
  lemma SplitAtSlash(h1: string, t1: string, h2: string, t2: string)
    requires '/' !in h1 && '/' !in h2
    requires h1 + "/" + t1 == h2 + "/" + t2
    ensures h1 == h2 && t1 == t2
  {
    var s := h1 + "/" + t1;
    JsText.IndexOfAfter(h1, '/', t1);
    JsText.IndexOfAfter(h2, '/', t2);
    assert h1 == s[..|h1|] && h2 == s[..|h2|];
    assert t1 == s[|h1| + 1..] && t2 == s[|h2| + 1..];
  }

  /** Cancelling a common prefix and a common suffix. */
  lemma Between(a: string, m1: string, m2: string, z: string)
    requires a + m1 + z == a + m2 + z
    ensures m1 == m2
  {
    var s := a + m1 + z;
    assert m1 == s[|a|..|s| - |z|];
    assert m2 == (a + m2 + z)[|a|..|s| - |z|];
  }

  /** Paths are unique per user and millisecond: for user ids without a slash, equal paths in one
      folder come from the same user and the same timestamp. */
  lemma StoragePathUnique(folder: string, id1: string, t1: nat, id2: string, t2: nat)
    requires '/' !in id1 && '/' !in id2
    requires StoragePath(folder, id1, t1) == StoragePath(folder, id2, t2)
    ensures id1 == id2 && t1 == t2
  {
    var d1, d2 := JsText.Decimal(t1), JsText.Decimal(t2);
    var r1, r2 := id1 + "/" + d1, id2 + "/" + d2;
    assert StoragePath(folder, id1, t1) == folder + "/" + r1 + ".png";
    assert StoragePath(folder, id2, t2) == folder + "/" + r2 + ".png";
    Between(folder + "/", r1, r2, ".png");
    SplitAtSlash(id1, d1, id2, d2);
    JsText.DecimalInjective(t1, t2);
  }
}
