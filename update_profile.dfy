/** `POST /api/update-profile`: check the artist name, upload a freshly drawn avatar given as a
    `data:` URL (RFC 2397) and replace it by its public URL, then update the `profiles` row. */
module UpdateProfileRoute {
  import opened Types
  import opened Backend
  import JsText

  const NAME_REQUIRED: string := "Artist name is required"
  const AVATAR_UPLOAD_FAILED: string := "Failed to upload avatar"
  const UPDATE_FAILED: string := "Failed to update profile"
  const BUCKET: string := "paintings"
  const FOLDER: string := "avatars"

  const IMAGE_PREFIX: string := "data:image/"
  const BASE64_MARK: string := ";base64,"

  /** The JSON body's `name`, `bio` and `avatarUrl`; each may be absent, null or a string. */
  datatype ProfileBody = ProfileBody(name: JsonField, bio: JsonField, avatarUrl: JsonField)

  /** The echoed profile; an absent `bio` or `avatarUrl` is left out of the reply as well. */
  datatype ProfileEcho = ProfileEcho(name: string, bio: JsonField, avatarUrl: JsonField)

  /** `{ success: true, profile: { name, bio, avatarUrl } }` */
  datatype Updated = Updated(success: bool, profile: ProfileEcho)

  /** `!name`: an absent, null or empty name. */
  predicate NameMissing(name: JsonField) {
    !name.Text? || name.text == ""
  }

  /** `avatarUrl && avatarUrl.startsWith('data:image')` */
  predicate IsDataImage(avatar: JsonField) {
    avatar.Text? && avatar.text != "" && JsText.StartsWith(avatar.text, "data:image")
  }

  /** A row of the `profiles` table, as far as the route writes it. */
  datatype ProfileRow = ProfileRow(artistName: string, bio: Option<string>, avatarUrl: Option<string>)

  /** One column under `update({ ...: f })`: an absent member is dropped when the update object is
      serialised, so the column keeps its value; `null` clears it; a string is written. */
  function SetColumn(current: Option<string>, f: JsonField): (r: Option<string>)
    ensures f.Absent? ==> r == current
    ensures f.Null? ==> r.None?
    ensures f.Text? ==> r == Some(f.text)
  {
    match f
    case Absent => current
    case Null => None
    case Text(s) => Some(s)
  }

  /** The row after the update the handler sends. */
  function AfterUpdate(row: ProfileRow, artistName: string, bio: JsonField, avatarUrl: JsonField)
    : (r: ProfileRow)
    ensures r.artistName == artistName
    ensures r.bio == SetColumn(row.bio, bio) && r.avatarUrl == SetColumn(row.avatarUrl, avatarUrl)
  {
    ProfileRow(artistName, SetColumn(row.bio, bio), SetColumn(row.avatarUrl, avatarUrl))
  }

  /** Saving with only a name leaves the bio and avatar as they were, while an explicit null
      clears them. */
  lemma NameOnlyKeepsColumns(row: ProfileRow, name: string)
    ensures AfterUpdate(row, name, Absent, Absent) == row.(artistName := name)
    ensures AfterUpdate(row, name, Null, Null) == ProfileRow(name, None, None)
  {
  }

  /** The end of the run of `\w` characters starting at `i`. */
  function WordRunEnd(s: string, i: nat): (k: nat)
    requires i <= |s|
    ensures i <= k <= |s|
    ensures JsText.AllWordChars(s[i..k])
    ensures k < |s| ==> !JsText.IsWordChar(s[k])
    decreases |s| - i
  {
    if i < |s| && JsText.IsWordChar(s[i]) then WordRunEnd(s, i + 1) else i
  }

  /** `s.replace(/^data:image\/\w+;base64,/, "")`. Since `;` is not a word character, the greedy
      `\w+` matches only when the longest word run is followed by the marker. */
  function StripImageHeader(s: string): (r: string)
    ensures |r| <= |s|
    ensures r == s || exists w :: |w| > 0 && JsText.AllWordChars(w) && s == IMAGE_PREFIX + w + BASE64_MARK + r
    ensures (!exists w, p :: |w| > 0 && JsText.AllWordChars(w) && s == IMAGE_PREFIX + w + BASE64_MARK + p) ==> r == s
  {
    if !JsText.StartsWith(s, IMAGE_PREFIX) then s
    else
      var k := WordRunEnd(s, |IMAGE_PREFIX|);
      if k > |IMAGE_PREFIX| && JsText.StartsWith(s[k..], BASE64_MARK) then
        var w := s[|IMAGE_PREFIX|..k];
        assert s == IMAGE_PREFIX + w + BASE64_MARK + s[k + |BASE64_MARK|..];
        s[k + |BASE64_MARK|..]
      else s
  }

  /** The strip removes exactly a well-formed header and keeps the whole payload after it. */
  lemma StripImageHeaderOf(w: string, payload: string)
    requires |w| > 0 && JsText.AllWordChars(w)
    ensures StripImageHeader(IMAGE_PREFIX + w + BASE64_MARK + payload) == payload
  {
    var s := IMAGE_PREFIX + w + BASE64_MARK + payload;
    var n := |IMAGE_PREFIX|;
    assert s[..n] == IMAGE_PREFIX;
    WordRunStopsAt(s, n, n + |w|);
    assert s[n + |w|..][..|BASE64_MARK|] == BASE64_MARK;
    assert s[n + |w| + |BASE64_MARK|..] == payload;
  }

  lemma {:induction false} WordRunStopsAt(s: string, i: nat, k: nat)
    requires i <= k < |s|
    requires JsText.AllWordChars(s[i..k]) && !JsText.IsWordChar(s[k])
    ensures WordRunEnd(s, i) == k
    decreases k - i
  {
    if i < k {
      assert s[i] == s[i..k][0];
      assert s[i + 1..k] == s[i..k][1..];
      WordRunStopsAt(s, i + 1, k);
    }
  }

  /** The avatar URL the profile ends up with: the public URL of the upload for a drawn avatar,
      the given value otherwise. */
  function FinalAvatar(userId: string, avatar: JsonField, now: nat, publicUrl: PublicUrlOf)
    : (r: JsonField)
    ensures !IsDataImage(avatar) ==> r == avatar
    ensures IsDataImage(avatar) ==> r == Text(publicUrl(BUCKET, StoragePath(FOLDER, userId, now)))
  {
    if IsDataImage(avatar) then Text(publicUrl(BUCKET, StoragePath(FOLDER, userId, now))) else avatar
  }

  /** The handler. `body` is None when the request body is not JSON (the parse throws into the
      catch-all); `now` is the upload's timestamp and `upload`, `update` what storage and the table
      answer (a throw from either ends in the catch-all). `calls` lists the backend requests made. */
  method UpdateProfile(user: Option<User>, body: Option<ProfileBody>, now: nat,
                       upload: Outcome, update: Outcome, publicUrl: PublicUrlOf)
    returns (reply: Reply<Updated>, calls: seq<Call>)
    ensures user.None? ==> reply == Reply(401, Error(UNAUTHORIZED)) && calls == []
    ensures user.Some? && body.None? ==> reply == Reply(500, Error(INTERNAL_ERROR)) && calls == []
    ensures user.Some? && body.Some? && NameMissing(body.value.name) ==>
              reply == Reply(400, Error(NAME_REQUIRED)) && calls == []
    ensures user.Some? && body.Some? && !NameMissing(body.value.name) && IsDataImage(body.value.avatarUrl) ==>
              && 1 <= |calls|
              && calls[0] == Upload(BUCKET, StoragePath(FOLDER, user.value.id, now),
                                    StripImageHeader(body.value.avatarUrl.text))
              && (upload == Failed ==> reply == Reply(500, Error(AVATAR_UPLOAD_FAILED)) && |calls| == 1)
              && (upload == Thrown ==> reply == Reply(500, Error(INTERNAL_ERROR)) && |calls| == 1)
    ensures user.Some? && body.Some? && !NameMissing(body.value.name)
            && (IsDataImage(body.value.avatarUrl) ==> upload == Ok) ==>
              var b := body.value;
              var avatar := FinalAvatar(user.value.id, b.avatarUrl, now, publicUrl);
              && |calls| == (if IsDataImage(b.avatarUrl) then 2 else 1)
              && calls[|calls| - 1] == UpdateProfileRow(user.value.id, b.name.text, b.bio, avatar)
              && (update == Failed ==> reply == Reply(500, Error(UPDATE_FAILED)))
              && (update == Thrown ==> reply == Reply(500, Error(INTERNAL_ERROR)))
              && (update == Ok ==> reply == Reply(200, Payload(Updated(true, ProfileEcho(b.name.text, b.bio, avatar)))))
    ensures forall k :: 0 <= k < |calls| && calls[k].Upload? ==> k == 0
    ensures forall k :: 0 <= k < |calls| && calls[k].UpdateProfileRow? ==> k == |calls| - 1
  {
    calls := [];
    if user.None? {
      reply := Reply(401, Error(UNAUTHORIZED));
      return;
    }
    if body.None? {
      reply := Reply(500, Error(INTERNAL_ERROR));
      return;
    }
    var b := body.value;
    if NameMissing(b.name) {
      reply := Reply(400, Error(NAME_REQUIRED));
      return;
    }
    var publicAvatarUrl := b.avatarUrl;
    if IsDataImage(b.avatarUrl) {
      var filePath := StoragePath(FOLDER, user.value.id, now);
      var base64Data := StripImageHeader(b.avatarUrl.text);
      calls := calls + [Upload(BUCKET, filePath, base64Data)];
      if upload == Failed {
        reply := Reply(500, Error(AVATAR_UPLOAD_FAILED));
        return;
      } else if upload == Thrown {
        reply := Reply(500, Error(INTERNAL_ERROR));
        return;
      }
      publicAvatarUrl := Text(publicUrl(BUCKET, filePath));
    }
    calls := calls + [UpdateProfileRow(user.value.id, b.name.text, b.bio, publicAvatarUrl)];
    if update == Failed {
      reply := Reply(500, Error(UPDATE_FAILED));
      return;
    } else if update == Thrown {
      reply := Reply(500, Error(INTERNAL_ERROR));
      return;
    }
    reply := Reply(200, Payload(Updated(true, ProfileEcho(b.name.text, b.bio, publicAvatarUrl))));
  }
}
