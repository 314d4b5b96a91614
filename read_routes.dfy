/** The two read routes: `GET /api/get-user-data` (the signed-in artist's doodles with their
    statistics) and `GET /api/get-all-paintings` (every doodle, joined with its artist's profile). */
module ReadRoutes {
  import opened Types
  import opened Backend
  import Rounding
  import Profile

  const FETCH_FAILED: string := "Failed to fetch doodles"

  datatype Stats = Stats(totalArtworks: nat, totalVotes: int, avgVotes: int)
  datatype UserData = UserData(paintings: seq<ApiPainting>, stats: Stats)

  /** The client records inside the mapped rows. */
  function Records(ps: seq<ApiPainting>): (r: seq<Painting>)
    ensures |r| == |ps| && forall i :: 0 <= i < |ps| ==> r[i] == ps[i].painting
  {
    seq(|ps|, i requires 0 <= i < |ps| => ps[i].painting)
  }

  // ---------------------------------------------------------------- get-user-data

  /** `profile?.artist_name || 'Unknown Artist'`: a failed lookup, a missing row and an empty or
      null name all fall back to the placeholder; the lookup error itself is not fatal. */
  function ArtistName(profile: Query<Option<string>>): (r: string)
    ensures profile.Rows? && !Blank(profile.rows) ==> r == profile.rows.value
    ensures profile.QueryFailed? || Blank(profile.rows) ==> r == UNKNOWN_ARTIST
  {
    match profile
    case Rows(Some(name)) => if name == "" then UNKNOWN_ARTIST else name
    case _ => UNKNOWN_ARTIST
  }

  /** One element of `doodles.map(d => ...)` in get-user-data: the `votes` column, 0 when null. */
  function OwnPainting(d: DoodleRow, artist: string): (r: ApiPainting)
    ensures r.painting.id == d.id && r.painting.dataUrl == d.imageUrl && r.painting.title == d.title
    ensures r.painting.artist == artist && r.painting.critique == d.critique
    ensures r.painting.votes == OrZero(d.votes) && r.painting.timestamp == d.createdAt
    ensures r.description == d.description
  {
    ApiPainting(Painting(d.id, d.imageUrl, d.title, artist, d.critique, OrZero(d.votes), d.createdAt),
                d.description)
  }

  function OwnPaintings(ds: seq<DoodleRow>, artist: string): (r: seq<ApiPainting>)
    ensures |r| == |ds| && forall i :: 0 <= i < |ds| ==> r[i] == OwnPainting(ds[i], artist)
  {
    seq(|ds|, i requires 0 <= i < |ds| => OwnPainting(ds[i], artist))
  }

  /** `doodles.reduce((acc, curr) => acc + (curr.votes || 0), 0)` */
  function SumVotes(ds: seq<DoodleRow>): (r: int)
    ensures (forall i :: 0 <= i < |ds| ==> OrZero(ds[i].votes) >= 0) ==> r >= 0
    decreases |ds|
  {
    if ds == [] then 0 else OrZero(ds[0].votes) + SumVotes(ds[1..])
  }

  /** The 200 body: the mapped rows and their statistics. */
  function UserDataOf(ds: seq<DoodleRow>, artist: string): (d: UserData)
    ensures d.paintings == OwnPaintings(ds, artist)
    ensures d.stats.totalArtworks == |ds| && d.stats.totalVotes == SumVotes(ds)
    ensures ds == [] ==> d.stats.avgVotes == 0
    ensures ds != [] ==> |ds| * (2 * d.stats.avgVotes - 1) <= 2 * SumVotes(ds) < |ds| * (2 * d.stats.avgVotes + 1)
  {
    var totalVotes := SumVotes(ds);
    UserData(OwnPaintings(ds, artist), Stats(|ds|, totalVotes, Rounding.RoundedMean(totalVotes, |ds|)))
  }

  /** The whole handler. `doodles` is the user's rows as the query returns them (newest first),
      `profile` the `artist_name` lookup. */
  function GetUserData(user: Option<User>, doodles: Query<seq<DoodleRow>>,
                       profile: Query<Option<string>>): (r: Exchange<UserData>)
    ensures user.None? ==> r.reply == Reply(401, Error(UNAUTHORIZED)) && r.calls == []
    ensures user.Some? && doodles.QueryFailed? ==>
              r.reply == Reply(500, Error(FETCH_FAILED)) && r.calls == [SelectDoodlesOf(user.value.id)]
    ensures user.Some? && doodles.Rows? ==>
              && r.reply == Reply(200, Payload(UserDataOf(doodles.rows, ArtistName(profile))))
              && r.calls == [SelectDoodlesOf(user.value.id), SelectProfileOf(user.value.id)]
  {
    if user.None? then Exchange(Reply(401, Error(UNAUTHORIZED)), [])
    else
      var id := user.value.id;
      match doodles
      case QueryFailed => Exchange(Reply(500, Error(FETCH_FAILED)), [SelectDoodlesOf(id)])
      case Rows(ds) =>
        Exchange(Reply(200, Payload(UserDataOf(ds, ArtistName(profile)))),
                 [SelectDoodlesOf(id), SelectProfileOf(id)])
  }

  lemma {:induction false} SumVotesIsTotalVotes(ds: seq<DoodleRow>, artist: string)
    ensures Profile.TotalVotes(Records(OwnPaintings(ds, artist))) == SumVotes(ds)
    decreases |ds|
  {
    if ds != [] {
      SumVotesIsTotalVotes(ds[1..], artist);
      assert Records(OwnPaintings(ds, artist))[1..] == Records(OwnPaintings(ds[1..], artist));
    }
  }

  /** The route's statistics are the profile page's, computed over the paintings it returns: all
      of them carry the one artist name, so the page's filter keeps them all. */
  lemma StatsMatchProfilePage(ds: seq<DoodleRow>, name: string)
    ensures var d := UserDataOf(ds, name);
            var mine := Records(d.paintings);
            && d.stats.totalArtworks == |Profile.UserPaintings(mine, name)|
            && d.stats.totalVotes == Profile.TotalVotes(Profile.UserPaintings(mine, name))
            && d.stats.avgVotes == Profile.AvgVotes(mine, name)
  {
    var d := UserDataOf(ds, name);
    var mine := Records(OwnPaintings(ds, name));
    assert d.paintings == OwnPaintings(ds, name);
    OwnRecordsByArtist(ds, name);
    Profile.UserPaintingsOfOwnList(mine, name);
    SumVotesIsTotalVotes(ds, name);
    assert Profile.UserPaintings(mine, name) == mine;
    assert d.stats.avgVotes == Rounding.RoundedMean(SumVotes(ds), |ds|);
    assert Profile.AvgVotes(mine, name) == Rounding.RoundedMean(Profile.TotalVotes(mine), |mine|);
  }

  lemma OwnRecordsByArtist(ds: seq<DoodleRow>, name: string)
    ensures |Records(OwnPaintings(ds, name))| == |ds|
    ensures forall i :: 0 <= i < |ds| ==> Records(OwnPaintings(ds, name))[i].artist == name
  {
  }

  // ---------------------------------------------------------------- get-all-paintings

  /** `Array.isArray(profiles) && profiles[0] ? profiles[0].artist_name : "Unknown Artist"` */
  function JoinedArtist(join: ProfileJoin): (r: string)
    ensures join.JoinArray? && |join.profiles| > 0 ==> r == join.profiles[0].artistName
    ensures !(join.JoinArray? && |join.profiles| > 0) ==> r == UNKNOWN_ARTIST
  {
    match join
    case JoinArray(profiles) => if |profiles| > 0 then profiles[0].artistName else UNKNOWN_ARTIST
    case _ => UNKNOWN_ARTIST
  }

  /** One element of `doodles.map(...)` in get-all-paintings: the `votes_count` column, 0 when
      null, and no critique (the column is not selected). */
  function GalleryPainting(d: DoodleRow): (r: ApiPainting)
    ensures r.painting.id == d.id && r.painting.dataUrl == d.imageUrl && r.painting.title == d.title
    ensures r.painting.artist == JoinedArtist(d.profiles) && r.painting.critique.None?
    ensures r.painting.votes == OrZero(d.votesCount) && r.painting.timestamp == d.createdAt
    ensures r.description == d.description
  {
    ApiPainting(Painting(d.id, d.imageUrl, d.title, JoinedArtist(d.profiles), None,
                         OrZero(d.votesCount), d.createdAt),
                d.description)
  }

  function GalleryPaintings(ds: seq<DoodleRow>): (r: seq<ApiPainting>)
    ensures |r| == |ds| && forall i :: 0 <= i < |ds| ==> r[i] == GalleryPainting(ds[i])
  {
    seq(|ds|, i requires 0 <= i < |ds| => GalleryPainting(ds[i]))
  }

  /** The whole handler; `doodles` is the joined select, newest first. */
  function GetAllPaintings(doodles: Query<seq<DoodleRow>>): (r: Exchange<seq<ApiPainting>>)
    ensures r.calls == [SelectAllDoodles]
    ensures doodles.QueryFailed? <==> r.reply == Reply(500, Error(FETCH_FAILED))
    ensures doodles.Rows? ==> r.reply == Reply(200, Payload(GalleryPaintings(doodles.rows)))
  {
    match doodles
    case QueryFailed => Exchange(Reply(500, Error(FETCH_FAILED)), [SelectAllDoodles])
    case Rows(ds) => Exchange(Reply(200, Payload(GalleryPaintings(ds))), [SelectAllDoodles])
  }

  /** What a row needs for both routes to map it alike: the same vote count in `votes` and
      `votes_count`, no critique (the gallery never selects one), and the joined profile naming
      the artist the profile lookup found. */
  predicate RowAgrees(d: DoodleRow, artist: string) {
    && OrZero(d.votes) == OrZero(d.votesCount) && d.critique.None?
    && JoinedArtist(d.profiles) == artist
  }

  /** For one row the two mappings agree exactly when `RowAgrees` holds. */
  lemma RowMappingsAgree(d: DoodleRow, artist: string)
    ensures OwnPainting(d, artist) == GalleryPainting(d) <==> RowAgrees(d, artist)
  {
    if OwnPainting(d, artist) == GalleryPainting(d) {
      assert OwnPainting(d, artist).painting == GalleryPainting(d).painting;
    }
  }

  /** The two routes produce the same records exactly when every row agrees, whatever the profile
      lookup returned. */
  lemma {:induction false} ReadRoutesAgree(ds: seq<DoodleRow>, profile: Query<Option<string>>)
    ensures UserDataOf(ds, ArtistName(profile)).paintings == GetAllPaintings(Rows(ds)).reply.body.value
            <==> forall i :: 0 <= i < |ds| ==> RowAgrees(ds[i], ArtistName(profile))
  {
    var artist := ArtistName(profile);
    var own := OwnPaintings(ds, artist);
    var all := GalleryPaintings(ds);
    forall i | 0 <= i < |ds|
      ensures own[i] == all[i] <==> RowAgrees(ds[i], artist)
    {
      RowMappingsAgree(ds[i], artist);
    }
    if own == all {
      forall i | 0 <= i < |ds|
        ensures RowAgrees(ds[i], artist)
      {
        assert own[i] == all[i];
      }
    }
  }

  /** For an artist other than the placeholder, the gallery names them exactly when the join is a
      non-empty array whose first profile carries that name; an object-shaped or empty join
      matches only a profile whose name is the placeholder itself. */
  lemma JoinNamesArtist(join: ProfileJoin, artist: string)
    ensures artist != UNKNOWN_ARTIST ==>
              (JoinedArtist(join) == artist
               <==> join.JoinArray? && |join.profiles| > 0 && join.profiles[0].artistName == artist)
    ensures !(join.JoinArray? && |join.profiles| > 0) ==> (JoinedArtist(join) == artist <==> artist == UNKNOWN_ARTIST)
  {
  }
}
