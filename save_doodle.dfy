/** `POST /api/save-doodle`: validate the form, upload the image to storage, then record the
    doodle in the `doodles` table. */
module SaveDoodleRoute {
  import opened Types
  import opened Backend

  const MISSING_FIELDS: string := "Missing title or image data"
  const UPLOAD_FAILED: string := "Failed to upload image"
  const INSERT_FAILED: string := "Failed to save doodle metadata"
  const BUCKET: string := "artworks"
  const FOLDER: string := "paintings"

  /** The form fields `title`, `critique` and `file` (the image as a data URL); each may be absent. */
  datatype SaveForm = SaveForm(title: Option<string>, critique: Option<string>, file: Option<string>)

  /** `{ success: true, image_url }` */
  datatype Saved = Saved(success: bool, imageUrl: string)

  /** The checks a request must pass before anything is uploaded. */
  predicate Complete(form: SaveForm) {
    !Blank(form.title) && !Blank(form.file)
  }

  /** The handler. `blobOk` is whether the data URL converts to a blob, `now` the upload's
      timestamp, `upload` and `insert` what storage and the table answer (a throw from either
      ends in the catch-all), and `publicUrl` the
      client library's public URL for a stored object. `calls` lists the backend requests made. */
  method SaveDoodle(user: Option<User>, form: SaveForm, blobOk: bool, now: nat,
                    upload: Outcome, insert: Outcome, publicUrl: PublicUrlOf)
    returns (reply: Reply<Saved>, calls: seq<Call>)
    ensures user.None? ==> reply == Reply(401, Error(UNAUTHORIZED)) && calls == []
    ensures user.Some? && !Complete(form) ==> reply == Reply(400, Error(MISSING_FIELDS)) && calls == []
    ensures user.Some? && Complete(form) && !blobOk ==>
              reply == Reply(500, Error(INTERNAL_ERROR)) && calls == []
    ensures user.Some? && Complete(form) && blobOk ==>
              var path := StoragePath(FOLDER, user.value.id, now);
              && 1 <= |calls| && calls[0] == Upload(BUCKET, path, form.file.value)
              && (upload == Failed ==> reply == Reply(500, Error(UPLOAD_FAILED)) && |calls| == 1)
              && (upload == Thrown ==> reply == Reply(500, Error(INTERNAL_ERROR)) && |calls| == 1)
              && (upload == Ok ==> calls == [calls[0], InsertDoodle(user.value.id, form.title.value,
                                                                   form.critique, publicUrl(BUCKET, path))])
              && (upload == Ok && insert == Failed ==> reply == Reply(500, Error(INSERT_FAILED)))
              && (upload == Ok && insert == Thrown ==> reply == Reply(500, Error(INTERNAL_ERROR)))
              && (upload == Ok && insert == Ok ==>
                    reply == Reply(200, Payload(Saved(true, publicUrl(BUCKET, path)))))
    ensures forall k :: 0 <= k < |calls| && calls[k].InsertDoodle? ==>
              0 < k && calls[k - 1].Upload? && upload == Ok
    ensures reply.status == 200 <==> user.Some? && Complete(form) && blobOk && upload == Ok && insert == Ok
    ensures reply.status == 200 ==>
              reply.body.Payload? && exists k :: 0 <= k < |calls| && calls[k].InsertDoodle?
                                                   && calls[k].imageUrl == reply.body.value.imageUrl
  {
    calls := [];
    if user.None? {
      reply := Reply(401, Error(UNAUTHORIZED));
      return;
    }
    if Blank(form.title) || Blank(form.file) {
      reply := Reply(400, Error(MISSING_FIELDS));
      return;
    }
    if !blobOk {
      reply := Reply(500, Error(INTERNAL_ERROR));
      return;
    }
    var filePath := StoragePath(FOLDER, user.value.id, now);
    calls := calls + [Upload(BUCKET, filePath, form.file.value)];
    if upload == Failed {
      reply := Reply(500, Error(UPLOAD_FAILED));
      return;
    } else if upload == Thrown {
      reply := Reply(500, Error(INTERNAL_ERROR));
      return;
    }
    var url := publicUrl(BUCKET, filePath);
    calls := calls + [InsertDoodle(user.value.id, form.title.value, form.critique, url)];
    if insert == Failed {
      reply := Reply(500, Error(INSERT_FAILED));
      return;
    } else if insert == Thrown {
      reply := Reply(500, Error(INTERNAL_ERROR));
      return;
    }
    reply := Reply(200, Payload(Saved(true, url)));
    assert calls[1].InsertDoodle? && calls[1].imageUrl == url;
  }

  /** Two saves by users whose ids have no slash never write the same storage object unless they
      are by the same user in the same millisecond. */
  lemma SavesDoNotCollide(id1: string, t1: nat, id2: string, t2: nat)
    requires '/' !in id1 && '/' !in id2
    requires id1 != id2 || t1 != t2
    ensures StoragePath(FOLDER, id1, t1) != StoragePath(FOLDER, id2, t2)
  {
    if StoragePath(FOLDER, id1, t1) == StoragePath(FOLDER, id2, t2) {
      StoragePathUnique(FOLDER, id1, t1, id2, t2);
    }
  }
}
