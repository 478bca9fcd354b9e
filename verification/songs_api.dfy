/** The songs route: GET fetches all songs and all vote rows with one query
    each, then filters the vote rows once per song to compute its statistics;
    POST creates a song owned by the caller. */
module SongsApi {
  import opened Common
  import opened Ratings
  import opened Supabase

  const SongsFetchFailed := "Failed to fetch songs"

  /** GET: one entry per fetched song, in the order the store returned them
      (newest first), each with the statistics of its own rated votes. */
  function ListSongs(songs: Fetch<seq<DbSong>>, votes: Fetch<seq<RatingRow>>): (r: Response<seq<Song>>)
    ensures r.Ok? <==> songs.Fetched? && votes.Fetched?
    ensures !r.Ok? ==> r == ServerError(SongsFetchFailed)
    ensures r.Ok? ==>
      && |r.body| == |songs.data|
      && forall i :: 0 <= i < |songs.data| ==>
           && r.body[i] == DbSongToSong(songs.data[i], r.body[i].votes)
           && r.body[i].votes.totalVotes == |SongRatings(votes.data, songs.data[i].id)|
  {
    match (songs, votes)
    case (FetchError(_), _) => ServerError(SongsFetchFailed)
    case (_, FetchError(_)) => ServerError(SongsFetchFailed)
    case (Fetched(ss), Fetched(vs)) =>
      Ok(seq(|ss|, i requires 0 <= i < |ss| => DbSongToSong(ss[i], SongStats(vs, ss[i].id))))
  }

  /** Each listed song carries exactly the statistic the single-song vote
      route computes for it over the same vote rows. */
  lemma ListedStatsMatchVoteRoute(songs: seq<DbSong>, votes: seq<RatingRow>, i: nat)
    requires i < |songs|
    ensures var r := ListSongs(Fetched(songs), Fetched(votes));
      r.body[i].votes == StatsOf(RatingsOfSong(votes, songs[i].id))
  {
    BatchMatchesSingle(votes, songs[i].id);
  }

  /** A song without any rated vote is listed with `{averageRating: 0, totalVotes: 0}`. */
  lemma UnratedSongListedWithZero(songs: seq<DbSong>, votes: seq<RatingRow>, i: nat)
    requires i < |songs|
    requires forall j :: 0 <= j < |votes| ==> votes[j].songId != songs[i].id || votes[j].rating.None?
    ensures ListSongs(Fetched(songs), Fetched(votes)).body[i].votes == NoVotes
  {
    NoRatedRowsNoStats(votes, songs[i].id);
  }

  /** A vote on another song never changes a listed song's entry. */
  lemma ListedSongIgnoresOtherVotes(songs: seq<DbSong>, votes: seq<RatingRow>, other: RatingRow, i: nat)
    requires i < |songs| && other.songId != songs[i].id
    ensures ListSongs(Fetched(songs), Fetched(votes + [other])).body[i]
         == ListSongs(Fetched(songs), Fetched(votes)).body[i]
  {
    SongStatsIgnoresOtherSongs(votes, other, songs[i].id);
  }

  /** The body of a POST. */
  datatype SongRequest = SongRequest(
    title: Option<string>,
    artist: Option<string>,
    artwork: Option<string>,
    youtubeUrl: Option<string>,
    youtubeId: Option<string>)

  predicate Complete(req: SongRequest) {
    Present(req.title) && Present(req.artist) && Present(req.artwork)
    && Present(req.youtubeUrl) && Present(req.youtubeId)
  }

  /** The row POST asks the store to insert. */
  datatype NewSongRow = NewSongRow(
    title: string,
    artist: string,
    artwork: string,
    youtubeUrl: string,
    youtubeId: string,
    addedBy: string,
    addedByName: string,
    addedAt: string)

  /** What POST answers and the row it sent to the store, if any. */
  datatype CreateOutcome = CreateOutcome(response: Response<Song>, inserted: Option<NewSongRow>)

  const CreateSongFailed := "Failed to create song"

  /** POST: 401 without a user, 400 when a required field is falsy, otherwise
      insert and answer 201 with the stored row as a song with no votes.
      `stored` is the store's reply to the insert. */
  function CreateSong(user: Option<User>, req: SongRequest, now: string, stored: Fetch<DbSong>): (o: CreateOutcome)
    ensures user.None? ==> o == CreateOutcome(Unauthorized, None)
    ensures user.Some? && !Complete(req) ==> o == CreateOutcome(BadRequest(MissingFields), None)
    ensures o.inserted.Some? <==> user.Some? && Complete(req)
    ensures o.inserted.Some? ==>
      var row := o.inserted.value;
      && row.title == req.title.value && row.artist == req.artist.value
      && row.artwork == req.artwork.value && row.youtubeUrl == req.youtubeUrl.value
      && row.youtubeId == req.youtubeId.value
      && row.addedBy == user.value.id && row.addedByName == UserName(user.value)
      && row.addedAt == now
    ensures o.inserted.Some? && stored.FetchError? ==> o.response == ServerError(CreateSongFailed)
    ensures o.response.Created? <==> o.inserted.Some? && stored.Fetched?
    ensures o.response.Created? ==> o.response.body == DbSongToSong(stored.data, NoVotes)
  {
    if user.None? then CreateOutcome(Unauthorized, None)
    else if !Complete(req) then CreateOutcome(BadRequest(MissingFields), None)
    else
      var u := user.value;
      var row := NewSongRow(req.title.value, req.artist.value, req.artwork.value,
                            req.youtubeUrl.value, req.youtubeId.value, u.id, UserName(u), now);
      match stored
      case FetchError(_) => CreateOutcome(ServerError(CreateSongFailed), Some(row))
      case Fetched(data) => CreateOutcome(Created(DbSongToSong(data, NoVotes)), Some(row))
  }

  /** A freshly created song is answered exactly as the song list shows it
      once stored, as long as nobody has rated it yet. */
  lemma CreatedSongIsListed(u: User, req: SongRequest, now: string, stored: DbSong,
                            songs: seq<DbSong>, votes: seq<RatingRow>, i: nat)
    requires CreateSong(Some(u), req, now, Fetched(stored)).response.Created?
    requires i < |songs| && songs[i] == stored
    requires forall j :: 0 <= j < |votes| ==> votes[j].songId != stored.id || votes[j].rating.None?
    ensures CreateSong(Some(u), req, now, Fetched(stored)).response.body
         == ListSongs(Fetched(songs), Fetched(votes)).body[i]
  {
    UnratedSongListedWithZero(songs, votes, i);
  }
}
