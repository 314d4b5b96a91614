/** The profile page (app/profile/page.tsx): the signed-in artist's paintings, their vote
    statistics, the badges those unlock, and saving an edited profile. */
module Profile {
  import opened Types
  import Rounding

  datatype UserProfile = UserProfile(
    name: string,
    avatarUrl: Option<string>,
    bio: Option<string>,
    joinedDate: Option<int>)

  /** What the profile editor hands back. */
  datatype EditedProfile = EditedProfile(name: string, avatarUrl: Option<string>)

  datatype ProfilePage = ProfilePage(currentUser: UserProfile, paintings: seq<Painting>, isEditing: bool)

  datatype Badge = Badge(id: string, name: string, description: string, unlocked: bool)

  /** The page after its load effect: the stored profile replaces the default one, and the stored
      list is shown; unlike the gallery pages, nothing is seeded when storage is empty. */
  function Loaded(storedProfile: Option<UserProfile>, storedPaintings: Option<seq<Painting>>, now: int)
    : (r: ProfilePage)
    ensures storedProfile.None? ==>
              r.currentUser == UserProfile("Artist", None, Some("Just a doodle enthusiast."), Some(now))
    ensures storedProfile.Some? ==> r.currentUser == storedProfile.value
    ensures storedPaintings.None? ==> r.paintings == []
    ensures storedPaintings.Some? ==> r.paintings == storedPaintings.value
    ensures !r.isEditing
  {
    var user := match storedProfile
                case Some(u) => u
                case None => UserProfile("Artist", None, Some("Just a doodle enthusiast."), Some(now));
    var ps := match storedPaintings
              case Some(ps) => ps
              case None => [];
    ProfilePage(user, ps, false)
  }

  /** `paintings.filter(p => p.artist === currentUser.name)` */
  function UserPaintings(ps: seq<Painting>, name: string): (r: seq<Painting>)
    ensures forall p :: p in r <==> p in ps && p.artist == name
    ensures |r| <= |ps|
    decreases |ps|
  {
    if ps == [] then []
    else (if ps[0].artist == name then [ps[0]] else []) + UserPaintings(ps[1..], name)
  }

  /** The filter keeps list order: filtering a concatenation concatenates the filtered parts. */
  lemma {:induction false} UserPaintingsAppend(a: seq<Painting>, b: seq<Painting>, name: string)
    ensures UserPaintings(a + b, name) == UserPaintings(a, name) + UserPaintings(b, name)
    decreases |a|
  {
    if a != [] {
      assert (a + b)[1..] == a[1..] + b;
      UserPaintingsAppend(a[1..], b, name);
    } else {
      assert a + b == b;
    }
  }

  /** A list that is all the artist's own comes through the filter unchanged. */
  lemma {:induction false} UserPaintingsOfOwnList(ps: seq<Painting>, name: string)
    requires forall i :: 0 <= i < |ps| ==> ps[i].artist == name
    ensures UserPaintings(ps, name) == ps
    decreases |ps|
  {
    if ps != [] {
      UserPaintingsOfOwnList(ps[1..], name);
    }
  }

  /** `reduce((acc, curr) => acc + curr.votes, 0)` */
  function TotalVotes(ps: seq<Painting>): (r: int)
    ensures (forall i :: 0 <= i < |ps| ==> ps[i].votes >= 0) ==> r >= 0
    decreases |ps|
  {
    if ps == [] then 0 else ps[0].votes + TotalVotes(ps[1..])
  }

  lemma {:induction false} TotalVotesAppend(a: seq<Painting>, b: seq<Painting>)
    ensures TotalVotes(a + b) == TotalVotes(a) + TotalVotes(b)
    decreases |a|
  {
    if a != [] {
      assert (a + b)[1..] == a[1..] + b;
      TotalVotesAppend(a[1..], b);
    } else {
      assert a + b == b;
    }
  }

  /** With non-negative votes, the total is at least any single painting's votes. */
  lemma {:induction false} TotalVotesAtLeastEach(ps: seq<Painting>, i: nat)
    requires i < |ps| && forall k :: 0 <= k < |ps| ==> ps[k].votes >= 0
    ensures TotalVotes(ps) >= ps[i].votes
    decreases |ps|
  {
    if i > 0 {
      TotalVotesAtLeastEach(ps[1..], i - 1);
    }
    assert TotalVotes(ps[1..]) >= 0;
  }

  /** `avgVotes`: 0 without paintings, else the mean rounded half-up. */
  function AvgVotes(ps: seq<Painting>, name: string): (r: int)
    ensures UserPaintings(ps, name) == [] ==> r == 0
    ensures UserPaintings(ps, name) != [] ==>
              |UserPaintings(ps, name)| * (2 * r - 1) <= 2 * TotalVotes(UserPaintings(ps, name))
              < |UserPaintings(ps, name)| * (2 * r + 1)
  {
    var mine := UserPaintings(ps, name);
    Rounding.RoundedMean(TotalVotes(mine), |mine|)
  }

  /** The four badges and their unlock rules, in the order the page lists them. */
  function Badges(ps: seq<Painting>, name: string): (r: seq<Badge>)
    ensures |r| == 4
    ensures r[0].id == "first_doodle" && r[1].id == "trending"
    ensures r[2].id == "gallery_builder" && r[3].id == "star"
    ensures r[0].unlocked <==> exists p :: p in ps && p.artist == name
    ensures r[1].unlocked <==> exists p :: p in ps && p.artist == name && p.votes >= 10
    ensures r[2].unlocked <==> |UserPaintings(ps, name)| >= 5
    ensures r[3].unlocked <==> TotalVotes(UserPaintings(ps, name)) >= 50
    ensures r[1].unlocked ==> r[0].unlocked
    ensures r[2].unlocked ==> r[0].unlocked
    ensures r[3].unlocked ==> r[0].unlocked
  {
    var mine := UserPaintings(ps, name);
    var total := TotalVotes(mine);
    assert mine != [] ==> mine[0] in mine;
    [ Badge("first_doodle", "First Doodle", "Uploaded your first painting", |mine| > 0),
      Badge("trending", "Trending Artist", "One artwork reached 10 votes",
            exists i :: 0 <= i < |mine| && mine[i].votes >= 10),
      Badge("gallery_builder", "Gallery Builder", "Uploaded 5 artworks", |mine| >= 5),
      Badge("star", "Super Star", "Received 50 total votes", total >= 50) ]
  }

  /** With non-negative votes, a trending painting means at least 10 votes in total. */
  lemma {:induction false} TrendingCountsTowardsStar(ps: seq<Painting>, name: string)
    requires forall k :: 0 <= k < |ps| ==> ps[k].votes >= 0
    requires Badges(ps, name)[1].unlocked
    ensures TotalVotes(UserPaintings(ps, name)) >= 10
  {
    var mine := UserPaintings(ps, name);
    var p :| p in ps && p.artist == name && p.votes >= 10;
    assert p in mine;
    var i :| 0 <= i < |mine| && mine[i] == p;
    forall k | 0 <= k < |mine|
      ensures mine[k].votes >= 0
    {
      assert mine[k] in ps;
    }
    TotalVotesAtLeastEach(mine, i);
  }

  /** `handleSaveProfile`: `{ ...currentUser, ...profile }` overwrites the name and the avatar,
      keeps the bio and the joined date, and the page leaves editing mode. */
  function SaveProfile(page: ProfilePage, edited: EditedProfile): (r: ProfilePage)
    ensures r.currentUser.name == edited.name && r.currentUser.avatarUrl == edited.avatarUrl
    ensures r.currentUser.bio == page.currentUser.bio
    ensures r.currentUser.joinedDate == page.currentUser.joinedDate
    ensures r.paintings == page.paintings && !r.isEditing
  {
    var updatedProfile := page.currentUser.(name := edited.name, avatarUrl := edited.avatarUrl);
    page.(currentUser := updatedProfile, isEditing := false)
  }
}
