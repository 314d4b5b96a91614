/** The signed-in home page (app/home/page.tsx): the painting list seeded from storage, the save
    dialog that posts to the save route, and voting. */
module UserHomePage {
  import opened Types
  import opened Backend
  import Artworks
  import SaveDoodleRoute

  const MISSING_FIELDS_ALERT: string := "Please provide both a title and image data!"
  const SAVE_FAILED_ALERT: string := "Failed to save art: "
  const UNEXPECTED_ALERT: string := "An unexpected error occurred while saving your art."

  /** `ViewMode | 'DASHBOARD'` */
  datatype HomeView = DASHBOARD | Mode(mode: ViewMode)

  /** The stored user profile, as far as this page reads it. */
  datatype StoredUser = StoredUser(name: string, avatarUrl: Option<string>)

  /** How `confirmSave` reads the save route's answer: `response.ok` with the public URL, a
      failure status with the route's error message, or an exception from `fetch` or `json()`. */
  datatype SaveReply = Saved(imageUrl: string) | Refused(error: string) | Threw

  /** The reply as the page sees it. `response.ok` is a 2xx status; a field the body lacks reads
      as `undefined`. */
  function ClientView(response: Option<Reply<SaveDoodleRoute.Saved>>): (r: SaveReply)
    ensures response.None? <==> r.Threw?
    ensures r.Saved? <==> response.Some? && 200 <= response.value.status < 300
  {
    match response
    case None => Threw
    case Some(Reply(status, body)) =>
      if 200 <= status < 300 then
        match body
        case Payload(saved) => Saved(saved.imageUrl)
        case Error(_) => Saved("undefined")
      else
        match body
        case Error(e) => Refused(e)
        case Payload(_) => Refused("undefined")
  }

  /** End to end: when the route stores the doodle, the page records the very URL the route
      inserted in the table; when it refuses, the page alerts with the route's own message.
      `blobOk` is whether the route can read the posted image. */
  method SaveRoundTrip(user: User, form: SaveDoodleRoute.SaveForm, blobOk: bool, now: nat,
                       upload: Outcome, insert: Outcome, publicUrl: PublicUrlOf)
    returns (seen: SaveReply, calls: seq<Call>)
    requires SaveDoodleRoute.Complete(form)
    ensures !blobOk ==> seen == Refused(INTERNAL_ERROR) && calls == []
    ensures blobOk && upload == Ok && insert == Ok ==>
              exists k :: 0 <= k < |calls| && calls[k].InsertDoodle? && seen == Saved(calls[k].imageUrl)
    ensures blobOk && upload == Failed ==> seen == Refused(SaveDoodleRoute.UPLOAD_FAILED) && !Writes(calls)
    ensures blobOk && upload == Ok && insert == Failed ==> seen == Refused(SaveDoodleRoute.INSERT_FAILED)
    ensures blobOk && (upload == Thrown || (upload == Ok && insert == Thrown)) ==>
              seen == Refused(INTERNAL_ERROR)
  {
    var reply;
    reply, calls := SaveDoodleRoute.SaveDoodle(Some(user), form, blobOk, now, upload, insert, publicUrl);
    seen := ClientView(Some(reply));
  }

  class UserHome {
    var view: HomeView
    var paintings: seq<Painting>
    var currentUser: StoredUser
    var isModalOpen: bool
    var currentImageData: Option<string>
    var artTitle: string
    var artCritique: string

    /** The page after its mount effect: the stored list, or the seed list when storage holds
        none, and the stored profile over the default one. */
    constructor (storedPaintings: Option<seq<Painting>>, storedProfile: Option<StoredUser>, now: int)
      ensures paintings == Artworks.Loaded(storedPaintings, now)
      ensures storedProfile.None? ==> currentUser == StoredUser("Artist", None)
      ensures storedProfile.Some? ==> currentUser == storedProfile.value
      ensures view == DASHBOARD && !isModalOpen && currentImageData.None?
      ensures artTitle == "" && artCritique == ""
    {
      view := DASHBOARD;
      isModalOpen := false;
      currentImageData := None;
      artTitle, artCritique := "", "";
      paintings := Artworks.Loaded(storedPaintings, now);
      currentUser := if storedProfile.Some? then storedProfile.value else StoredUser("Artist", None);
    }

    /** `savePaintingToStorage`: prepends the record and returns the list written to storage. */
    method SavePaintingToStorage(p: Painting) returns (stored: seq<Painting>)
      modifies this
      ensures paintings == Artworks.Prepend(old(paintings), p) && stored == paintings
      ensures view == old(view) && currentUser == old(currentUser) && isModalOpen == old(isModalOpen)
      ensures currentImageData == old(currentImageData)
      ensures artTitle == old(artTitle) && artCritique == old(artCritique)
    {
      paintings := Artworks.Prepend(paintings, p);
      stored := paintings;
    }

    /** `handleSaveRequest`: keep the image, clear the title and critique, open the dialog. */
    method HandleSaveRequest(dataUrl: string)
      modifies this
      ensures currentImageData == Some(dataUrl) && artTitle == "" && artCritique == "" && isModalOpen
      ensures paintings == old(paintings) && view == old(view) && currentUser == old(currentUser)
    {
      currentImageData := Some(dataUrl);
      artTitle, artCritique := "", "";
      isModalOpen := true;
    }

    /** `handleAIAnalyze`, given the critic's answer: it fills the dialog and opens it. */
    method HandleAIAnalyze(dataUrl: string, result: AICritiqueResponse)
      modifies this
      ensures artTitle == result.title && artCritique == result.critique
      ensures currentImageData == Some(dataUrl) && isModalOpen
      ensures paintings == old(paintings) && view == old(view) && currentUser == old(currentUser)
    {
      artTitle := result.title;
      artCritique := result.critique;
      currentImageData := Some(dataUrl);
      isModalOpen := true;
    }

    /** `confirmSave`. `reply` is the route's answer as the page reads it, `idTime` and `now` the
        two `Date.now()` readings. Returns the form posted (if any) and the alert shown (if any). */
    method ConfirmSave(reply: SaveReply, idTime: nat, now: int)
      returns (posted: Option<SaveDoodleRoute.SaveForm>, alert: Option<string>)
      modifies this
      ensures Blank(old(currentImageData)) || old(artTitle) == "" ==>
                posted.None? && alert == Some(MISSING_FIELDS_ALERT)
                && paintings == old(paintings) && view == old(view) && isModalOpen == old(isModalOpen)
      ensures !Blank(old(currentImageData)) && old(artTitle) != "" ==>
                posted == Some(SaveDoodleRoute.SaveForm(Some(old(artTitle)), Some(old(artCritique)),
                                                        old(currentImageData)))
      ensures !Blank(old(currentImageData)) && old(artTitle) != "" && !reply.Saved? ==>
                && alert == Some(if reply.Refused? then SAVE_FAILED_ALERT + reply.error else UNEXPECTED_ALERT)
                && paintings == old(paintings) && view == old(view) && isModalOpen == old(isModalOpen)
      ensures !Blank(old(currentImageData)) && old(artTitle) != "" && reply.Saved? ==>
                && alert.None?
                && paintings == Artworks.Prepend(old(paintings),
                     Artworks.NewPainting(idTime, reply.imageUrl, old(artTitle), old(currentUser).name,
                                          old(artCritique), now))
                && view == Mode(GALLERY) && !isModalOpen
      ensures currentUser == old(currentUser) && currentImageData == old(currentImageData)
      ensures artTitle == old(artTitle) && artCritique == old(artCritique)
    {
      if Blank(currentImageData) || artTitle == "" {
        return None, Some(MISSING_FIELDS_ALERT);
      }
      posted := Some(SaveDoodleRoute.SaveForm(Some(artTitle), Some(artCritique), currentImageData));
      match reply
      case Refused(error) =>
        alert := Some(SAVE_FAILED_ALERT + error);
      case Threw =>
        alert := Some(UNEXPECTED_ALERT);
      case Saved(imageUrl) =>
        var newPainting := Artworks.NewPainting(idTime, imageUrl, artTitle, currentUser.name, artCritique, now);
        var _ := SavePaintingToStorage(newPainting);
        isModalOpen := false;
        view := Mode(GALLERY);
        alert := None;
    }

    /** `handleVote`: the list becomes the incremented list sorted by votes, most first; the
        returned list is what is written to storage. */
    method HandleVote(id: string) returns (stored: seq<Painting>)
      modifies this
      ensures paintings == Artworks.SortByVotes(Artworks.IncrementVotes(old(paintings), id))
      ensures Artworks.SortedByVotes(paintings)
      ensures multiset(paintings) == multiset(Artworks.IncrementVotes(old(paintings), id))
      ensures stored == paintings
      ensures view == old(view) && currentUser == old(currentUser) && isModalOpen == old(isModalOpen)
      ensures currentImageData == old(currentImageData)
      ensures artTitle == old(artTitle) && artCritique == old(artCritique)
    {
      var updated := Artworks.Vote(paintings, id);
      paintings := updated;
      stored := updated;
    }
  }
}
