/** The public landing page (app/page.tsx): the same painting list, saved locally with an artist
    name typed into the dialog instead of going through the save route. */
module AppPage {
  import opened Types
  import Artworks
  import JsText

  const MISSING_FIELDS_ALERT: string := "Please provide both a name and a title!"

  class App {
    var view: ViewMode
    var paintings: seq<Painting>
    var isModalOpen: bool
    var currentImageData: Option<string>
    var artistName: string
    var artTitle: string
    var artCritique: string

    /** The page after its mount effect: the stored list, or the seed list when storage holds none. */
    constructor (stored: Option<seq<Painting>>, now: int)
      ensures paintings == Artworks.Loaded(stored, now)
      ensures view == HOME && !isModalOpen && currentImageData.None?
      ensures artistName == "" && artTitle == "" && artCritique == ""
    {
      view := HOME;
      isModalOpen := false;
      currentImageData := None;
      artistName, artTitle, artCritique := "", "", "";
      paintings := Artworks.Loaded(stored, now);
    }

    /** `savePaintingToStorage`: prepends the record and returns the list written to storage. */
    method SavePaintingToStorage(p: Painting) returns (stored: seq<Painting>)
      modifies this
      ensures paintings == Artworks.Prepend(old(paintings), p) && stored == paintings
      ensures view == old(view) && isModalOpen == old(isModalOpen)
      ensures currentImageData == old(currentImageData) && artistName == old(artistName)
      ensures artTitle == old(artTitle) && artCritique == old(artCritique)
    {
      paintings := Artworks.Prepend(paintings, p);
      stored := paintings;
    }

    /** `handleSaveRequest`: keep the image, clear the title and critique (the name typed before
        is kept), open the dialog. */
    method HandleSaveRequest(dataUrl: string)
      modifies this
      ensures currentImageData == Some(dataUrl) && artTitle == "" && artCritique == "" && isModalOpen
      ensures artistName == old(artistName) && paintings == old(paintings) && view == old(view)
    {
      currentImageData := Some(dataUrl);
      artTitle, artCritique := "", "";
      isModalOpen := true;
    }

    /** `handleAIAnalyze`, given the critic's answer: it fills the dialog and opens it. */
    method HandleAIAnalyze(dataUrl: string, result: AICritiqueResponse)
      modifies this
      ensures artTitle == result.title && artCritique == result.critique
      ensures currentImageData == Some(dataUrl) && isModalOpen
      ensures artistName == old(artistName) && paintings == old(paintings) && view == old(view)
    {
      artTitle := result.title;
      artCritique := result.critique;
      currentImageData := Some(dataUrl);
      isModalOpen := true;
    }

    /** `confirmSave`: all of image, name and title are needed; then the record is prepended,
        the dialog closes and the gallery shows. `idTime` and `now` are the two `Date.now()`
        readings. Returns the alert shown, if any. */
    method ConfirmSave(idTime: nat, now: int) returns (alert: Option<string>)
      modifies this
      ensures var complete := !Blank(old(currentImageData)) && old(artistName) != "" && old(artTitle) != "";
              && (!complete ==> alert == Some(MISSING_FIELDS_ALERT) && paintings == old(paintings)
                                && view == old(view) && isModalOpen == old(isModalOpen))
              && (complete ==> alert.None? && view == GALLERY && !isModalOpen
                               && paintings == Artworks.Prepend(old(paintings),
                                    Artworks.NewPainting(idTime, old(currentImageData).value, old(artTitle),
                                                         old(artistName), old(artCritique), now)))
      ensures currentImageData == old(currentImageData) && artistName == old(artistName)
      ensures artTitle == old(artTitle) && artCritique == old(artCritique)
    {
      if Blank(currentImageData) || artistName == "" || artTitle == "" {
        return Some(MISSING_FIELDS_ALERT);
      }
      var newPainting := Artworks.NewPainting(idTime, currentImageData.value, artTitle, artistName,
                                              artCritique, now);
      var _ := SavePaintingToStorage(newPainting);
      isModalOpen := false;
      view := GALLERY;
      alert := None;
    }

    /** `handleVote`: the list becomes the incremented list sorted by votes, most first; the
        returned list is what is written to storage. */
    method HandleVote(id: string) returns (stored: seq<Painting>)
      modifies this
      ensures paintings == Artworks.SortByVotes(Artworks.IncrementVotes(old(paintings), id))
      ensures Artworks.SortedByVotes(paintings)
      ensures multiset(Artworks.Ids(paintings)) == multiset(Artworks.Ids(old(paintings)))
      ensures stored == paintings
      ensures view == old(view) && isModalOpen == old(isModalOpen)
      ensures currentImageData == old(currentImageData) && artistName == old(artistName)
      ensures artTitle == old(artTitle) && artCritique == old(artCritique)
    {
      var updated := Artworks.Vote(paintings, id);
      paintings := updated;
      stored := updated;
    }
  }

  /** A visitor saves a drawing and votes for it: the list gains exactly the new id, and the vote
      leaves it sorted. */
  method SaveThenVote(stored: Option<seq<Painting>>, dataUrl: string, idTime: nat, now: int)
    returns (paintings: seq<Painting>)
    requires dataUrl != ""
    ensures Artworks.SortedByVotes(paintings)
    ensures multiset(Artworks.Ids(paintings))
            == multiset(Artworks.Ids(Artworks.Loaded(stored, now))) + multiset{JsText.Decimal(idTime)}
  {
    var app := new App(stored, now);
    app.HandleSaveRequest(dataUrl);
    app.artistName := "Ada";
    app.artTitle := "Sunrise";
    var alert := app.ConfirmSave(idTime, now);
    assert alert.None?;
    var saved := Artworks.NewPainting(idTime, dataUrl, "Sunrise", "Ada", "", now);
    ghost var before := Artworks.Loaded(stored, now);
    assert Artworks.Ids([saved] + before) == [saved.id] + Artworks.Ids(before);
    paintings := app.HandleVote(saved.id);
  }
}
