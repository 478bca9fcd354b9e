/** The setlists route: GET returns every setlist with its songs ordered by
    position, each song with its vote statistics; POST creates an empty
    setlist. */
module SetlistsApi {
  import opened Common
  import opened Ratings
  import opened Supabase

  /** The song a join row points to, as the nested select returns it. */
  datatype JoinedSong = JoinedSong(
    id: string,
    title: string,
    artist: string,
    artwork: string,
    youtubeUrl: string,
    youtubeId: string,
    addedByName: Option<string>,
    userId: Option<string>)

  /** A `setlist_songs` row; `song` is absent when the join found no song. */
  datatype JoinRow = JoinRow(id: string, songId: string, position: int, song: Option<JoinedSong>)

  /** A `setlists` row with its nested `setlist_songs` (absent or a list). */
  datatype DbSetlist = DbSetlist(
    id: string,
    name: Option<string>,
    rehearsalDate: string,
    userId: string,
    createdAt: string,
    updatedAt: string,
    setlistSongs: Option<seq<JoinRow>>)

  datatype SetlistSong = SetlistSong(id: string, setlistId: string, songId: string, position: int, song: Option<Song>)

  datatype Setlist = Setlist(
    id: string,
    name: Option<string>,
    rehearsalDate: string,
    userId: string,
    createdAt: string,
    updatedAt: string,
    songs: seq<SetlistSong>)

  // ---------------------------------------------------------------------------
  // Ordering join rows by position: `sort((a, b) => a.position - b.position)`,
  // a stable sort.

  predicate SortedByPosition(rows: seq<JoinRow>) {
    forall i, j :: 0 <= i < j < |rows| ==> rows[i].position <= rows[j].position
  }

  predicate AllAtLeast(rows: seq<JoinRow>, bound: int) {
    forall k :: 0 <= k < |rows| ==> bound <= rows[k].position
  }

  lemma BoundSurvivesPermutation(rows: seq<JoinRow>, others: seq<JoinRow>, x: JoinRow, bound: int)
    requires multiset(rows) == multiset(others) + multiset{x}
    requires AllAtLeast(others, bound) && bound <= x.position
    ensures AllAtLeast(rows, bound)
  {
    forall k | 0 <= k < |rows| ensures bound <= rows[k].position {
      assert rows[k] in multiset(rows);
      if rows[k] != x {
        assert rows[k] in multiset(others);
        var m :| 0 <= m < |others| && others[m] == rows[k];
      }
    }
  }

  /** Insert `x` before the first row whose position is not below its own. */
  function InsertByPosition(x: JoinRow, sorted: seq<JoinRow>): (r: seq<JoinRow>)
    requires SortedByPosition(sorted)
    ensures |r| == |sorted| + 1
    ensures multiset(r) == multiset(sorted) + multiset{x}
    ensures SortedByPosition(r)
  {
    if sorted == [] then [x]
    else if x.position <= sorted[0].position then [x] + sorted
    else
      var rest := InsertByPosition(x, sorted[1..]);
      assert sorted == [sorted[0]] + sorted[1..];
      BoundSurvivesPermutation(rest, sorted[1..], x, sorted[0].position);
      ConsSorted(sorted[0], rest);
      [sorted[0]] + rest
  }

  lemma ConsSorted(head: JoinRow, rest: seq<JoinRow>)
    requires SortedByPosition(rest) && AllAtLeast(rest, head.position)
    ensures SortedByPosition([head] + rest)
  {
    var r := [head] + rest;
    forall i, j | 0 <= i < j < |r| ensures r[i].position <= r[j].position {
      assert r[j] == rest[j - 1];
      if i > 0 {
        assert r[i] == rest[i - 1];
      }
    }
  }

  function SortByPosition(rows: seq<JoinRow>): (r: seq<JoinRow>)
    ensures |r| == |rows|
    ensures multiset(r) == multiset(rows)
    ensures SortedByPosition(r)
  {
    if rows == [] then []
    else
      assert rows == [rows[0]] + rows[1..];
      InsertByPosition(rows[0], SortByPosition(rows[1..]))
  }

  // ---------------------------------------------------------------------------
  // Mapping

  /** `getVoteStats`: the votes query is not checked for errors; no data means
      every song is unrated. */
  function GetVoteStats(votes: Option<seq<RatingRow>>, songId: string): (st: Stats)
    ensures votes.None? ==> st == NoVotes
    ensures votes.Some? ==> st == SongStats(votes.value, songId)
  {
    SongStats(votes.GetOr([]), songId)
  }

  /** The nested song of a join row in the client's shape: its own columns,
      the display name or "Unknown", an empty `addedAt`, the owner's id and
      the song's vote statistics. */
  function ToSong(js: JoinedSong, votes: Option<seq<RatingRow>>): (s: Song)
    ensures s.id == js.id && s.title == js.title && s.artist == js.artist && s.artwork == js.artwork
    ensures s.youtubeUrl == js.youtubeUrl && s.youtubeId == js.youtubeId
    ensures Present(js.addedByName) ==> s.addedBy == js.addedByName.value
    ensures !Present(js.addedByName) ==> s.addedBy == "Unknown"
    ensures s.addedAt == "" && s.userId == js.userId
    ensures s.votes == GetVoteStats(votes, js.id)
  {
    Song(js.id, js.title, js.artist, js.artwork, js.youtubeUrl, js.youtubeId,
         OrElse(js.addedByName, "Unknown"), "", js.userId, GetVoteStats(votes, js.id))
  }

  function ToSetlistSong(setlistId: string, row: JoinRow, votes: Option<seq<RatingRow>>): (ss: SetlistSong)
    ensures ss.setlistId == setlistId
    ensures ss.id == row.id && ss.songId == row.songId && ss.position == row.position
    ensures ss.song.Some? <==> row.song.Some?
    ensures ss.song.Some? ==>
      && ss.song.value.id == row.song.value.id
      && ss.song.value.addedBy == (if Present(row.song.value.addedByName) then row.song.value.addedByName.value else "Unknown")
      && ss.song.value.votes == GetVoteStats(votes, row.song.value.id)
      && ss.song.value == ToSong(row.song.value, votes)
  {
    SetlistSong(row.id, setlistId, row.songId, row.position,
                if row.song.Some? then Some(ToSong(row.song.value, votes)) else None)
  }

  function MapRows(setlistId: string, rows: seq<JoinRow>, votes: Option<seq<RatingRow>>): (r: seq<SetlistSong>)
    ensures |r| == |rows|
    ensures forall i :: 0 <= i < |rows| ==> r[i] == ToSetlistSong(setlistId, rows[i], votes)
  {
    seq(|rows|, i requires 0 <= i < |rows| => ToSetlistSong(setlistId, rows[i], votes))
  }

  /** A setlist's `songs`: its join rows ordered by position and mapped; `[]`
      when the setlist has no join rows at all. */
  function SetlistSongs(setlistId: string, joinRows: Option<seq<JoinRow>>, votes: Option<seq<RatingRow>>): (r: seq<SetlistSong>)
    ensures joinRows.None? ==> r == []
    ensures joinRows.Some? ==> |r| == |joinRows.value|
    ensures forall i, j :: 0 <= i < j < |r| ==> r[i].position <= r[j].position
    ensures forall i :: 0 <= i < |r| ==> r[i].setlistId == setlistId
  {
    match joinRows
    case None => []
    case Some(rows) => MapRows(setlistId, SortByPosition(rows), votes)
  }

  /** A setlist row in the client's shape: its columns copied and its join
      rows as `songs`. */
  function TransformSetlist(s: DbSetlist, votes: Option<seq<RatingRow>>): (t: Setlist)
    ensures t.id == s.id && t.name == s.name && t.rehearsalDate == s.rehearsalDate
    ensures t.userId == s.userId && t.createdAt == s.createdAt && t.updatedAt == s.updatedAt
    ensures t.songs == SetlistSongs(s.id, s.setlistSongs, votes)
  {
    Setlist(s.id, s.name, s.rehearsalDate, s.userId, s.createdAt, s.updatedAt,
            SetlistSongs(s.id, s.setlistSongs, votes))
  }

  /** GET: 401 without a user, 500 with the store's message when the setlists
      query fails, otherwise every setlist in query order. */
  function ListSetlists(user: Option<User>, setlists: Fetch<seq<DbSetlist>>, votes: Option<seq<RatingRow>>): (r: Response<seq<Setlist>>)
    ensures user.None? ==> r == Unauthorized
    ensures user.Some? && setlists.FetchError? ==> r == ServerError(setlists.message)
    ensures r.Ok? <==> user.Some? && setlists.Fetched?
    ensures r.Ok? ==>
      && |r.body| == |setlists.data|
      && forall i :: 0 <= i < |r.body| ==>
           && r.body[i].id == setlists.data[i].id
           && r.body[i].name == setlists.data[i].name
           && r.body[i].rehearsalDate == setlists.data[i].rehearsalDate
           && r.body[i].userId == setlists.data[i].userId
           && r.body[i].createdAt == setlists.data[i].createdAt
           && r.body[i].updatedAt == setlists.data[i].updatedAt
           && r.body[i].songs == SetlistSongs(setlists.data[i].id, setlists.data[i].setlistSongs, votes)
  {
    if user.None? then Unauthorized
    else match setlists
      case FetchError(m) => ServerError(m)
      case Fetched(ss) => Ok(seq(|ss|, i requires 0 <= i < |ss| => TransformSetlist(ss[i], votes)))
  }

  // ---------------------------------------------------------------------------
  // Properties

  lemma {:induction false} MapRowsAppend(setlistId: string, a: seq<JoinRow>, b: seq<JoinRow>, votes: Option<seq<RatingRow>>)
    ensures MapRows(setlistId, a + b, votes) == MapRows(setlistId, a, votes) + MapRows(setlistId, b, votes)
  {
  }

  /** Mapping commutes with reordering: rows that are a permutation of each
      other map to entries that are a permutation of each other. */
  lemma {:induction false} MapRowsPermutation(setlistId: string, a: seq<JoinRow>, b: seq<JoinRow>, votes: Option<seq<RatingRow>>)
    requires multiset(a) == multiset(b)
    ensures multiset(MapRows(setlistId, a, votes)) == multiset(MapRows(setlistId, b, votes))
    decreases |a|
  {
    if a == [] {
      assert |b| == |multiset(b)| == 0;
    } else {
      var n := |a| - 1;
      var x := a[n];
      assert x in multiset(b);
      var i :| 0 <= i < |b| && b[i] == x;
      MultisetWithout(a, n);
      MultisetWithout(b, i);
      MapRowsPermutation(setlistId, a[..n] + a[n + 1..], b[..i] + b[i + 1..], votes);
      MapRowsRemove(setlistId, a, n, votes);
      MapRowsRemove(setlistId, b, i, votes);
    }
  }

  /** Mapping the rows without the one at `i` maps every row but that one. */
  lemma MapRowsRemove(setlistId: string, rows: seq<JoinRow>, i: nat, votes: Option<seq<RatingRow>>)
    requires i < |rows|
    ensures multiset(MapRows(setlistId, rows, votes))
         == multiset(MapRows(setlistId, rows[..i] + rows[i + 1..], votes)) + multiset{ToSetlistSong(setlistId, rows[i], votes)}
  {
    var f := ToSetlistSong(setlistId, rows[i], votes);
    assert rows == rows[..i] + [rows[i]] + rows[i + 1..];
    MapRowsAppend(setlistId, rows[..i] + [rows[i]], rows[i + 1..], votes);
    MapRowsAppend(setlistId, rows[..i], [rows[i]], votes);
    MapRowsAppend(setlistId, rows[..i], rows[i + 1..], votes);
    assert MapRows(setlistId, [rows[i]], votes) == [f];
  }

  /** No join row is dropped or duplicated: a setlist's songs are a
      permutation of its join rows, each mapped. */
  lemma SetlistSongsArePermutation(setlistId: string, rows: seq<JoinRow>, votes: Option<seq<RatingRow>>)
    ensures multiset(SetlistSongs(setlistId, Some(rows), votes)) == multiset(MapRows(setlistId, rows, votes))
  {
    MapRowsPermutation(setlistId, SortByPosition(rows), rows, votes);
  }

  /** When the votes query yielded no data, every song of every setlist is
      shown with `{0, 0}`. */
  lemma NoVoteDataNoStats(user: User, setlists: seq<DbSetlist>, i: nat, j: nat)
    requires i < |setlists|
    requires var r := ListSetlists(Some(user), Fetched(setlists), None); j < |r.body[i].songs|
    ensures var ss := ListSetlists(Some(user), Fetched(setlists), None).body[i].songs[j];
      ss.song.Some? ==> ss.song.value.votes == NoVotes
  {
  }

  /** The statistic shown for a setlist song is the one the single-song vote
      route computes for it. */
  lemma SetlistSongStatsMatchVoteRoute(setlistId: string, row: JoinRow, votes: seq<RatingRow>)
    requires row.song.Some?
    ensures ToSetlistSong(setlistId, row, Some(votes)).song.value.votes
         == StatsOf(RatingsOfSong(votes, row.song.value.id))
  {
    BatchMatchesSingle(votes, row.song.value.id);
  }

  // ---------------------------------------------------------------------------
  // POST

  datatype SetlistRequest = SetlistRequest(name: Option<string>, rehearsalDate: Option<string>)

  /** The row POST asks the store to insert. */
  datatype NewSetlistRow = NewSetlistRow(name: Option<string>, rehearsalDate: string, userId: string)

  datatype CreateSetlistOutcome = CreateSetlistOutcome(response: Response<Setlist>, inserted: Option<NewSetlistRow>)

  const DateRequired := "Rehearsal date is required"

  /** POST: 401 without a user, 400 without a rehearsal date, otherwise insert
      (an empty name stored as null) and answer 201 with an empty setlist.
      `stored` is the store's reply to the insert. */
  function CreateSetlist(user: Option<User>, req: SetlistRequest, stored: Fetch<DbSetlist>): (o: CreateSetlistOutcome)
    ensures user.None? ==> o == CreateSetlistOutcome(Unauthorized, None)
    ensures user.Some? && !Present(req.rehearsalDate) ==> o == CreateSetlistOutcome(BadRequest(DateRequired), None)
    ensures o.inserted.Some? <==> user.Some? && Present(req.rehearsalDate)
    ensures o.inserted.Some? ==>
      && o.inserted.value.rehearsalDate == req.rehearsalDate.value
      && o.inserted.value.userId == user.value.id
      && (o.inserted.value.name.None? <==> !Present(req.name))
      && (Present(req.name) ==> o.inserted.value.name == req.name)
    ensures o.inserted.Some? && stored.FetchError? ==> o.response == ServerError(stored.message)
    ensures o.response.Created? <==> o.inserted.Some? && stored.Fetched?
    ensures o.response.Created? ==>
      var b := o.response.body;
      && b.songs == [] && b.id == stored.data.id && b.name == stored.data.name
      && b.rehearsalDate == stored.data.rehearsalDate && b.userId == stored.data.userId
      && b.createdAt == stored.data.createdAt && b.updatedAt == stored.data.updatedAt
  {
    if user.None? then CreateSetlistOutcome(Unauthorized, None)
    else if !Present(req.rehearsalDate) then CreateSetlistOutcome(BadRequest(DateRequired), None)
    else
      var row := NewSetlistRow(OrNull(req.name), req.rehearsalDate.value, user.value.id);
      match stored
      case FetchError(m) => CreateSetlistOutcome(ServerError(m), Some(row))
      case Fetched(s) =>
        CreateSetlistOutcome(Created(Setlist(s.id, s.name, s.rehearsalDate, s.userId, s.createdAt, s.updatedAt, [])), Some(row))
  }

  /** A freshly created setlist is answered exactly as the setlist list shows
      it once stored, before any song is added to it. */
  lemma CreatedSetlistIsListed(u: User, req: SetlistRequest, stored: DbSetlist,
                               setlists: seq<DbSetlist>, votes: Option<seq<RatingRow>>, i: nat)
    requires CreateSetlist(Some(u), req, Fetched(stored)).response.Created?
    requires stored.setlistSongs.None? || stored.setlistSongs == Some([])
    requires i < |setlists| && setlists[i] == stored
    ensures CreateSetlist(Some(u), req, Fetched(stored)).response.body
         == ListSetlists(Some(u), Fetched(setlists), votes).body[i]
  {
    assert SetlistSongs(stored.id, stored.setlistSongs, votes) == [];
  }

  /** `.not('rating', 'is', null)`: the votes query of this route keeps the
      rated rows only, in store order. */
  function RatedOnly(rows: seq<RatingRow>): (r: seq<RatingRow>)
    ensures |r| <= |rows|
    ensures forall x :: x in r <==> x in rows && x.rating.Some?
  {
    if rows == [] then []
    else
      var n := |rows| - 1;
      assert rows == rows[..n] + [rows[n]];
      if rows[n].rating.Some? then RatedOnly(rows[..n]) + [rows[n]] else RatedOnly(rows[..n])
  }

  /** Dropping the unrated rows first changes no song's ratings. */
  lemma {:induction false} RatedOnlyKeepsSongRatings(rows: seq<RatingRow>, songId: string)
    ensures SongRatings(RatedOnly(rows), songId) == SongRatings(rows, songId)
  {
    if rows != [] {
      var n := |rows| - 1;
      var init := RatedOnly(rows[..n]);
      RatedOnlyKeepsSongRatings(rows[..n], songId);
      if rows[n].rating.Some? {
        assert (init + [rows[n]])[..|init|] == init;
      }
    }
  }

  /** A song shows the same statistic in a setlist as in the song list: the
      setlists route asks the store for the rated votes only, the songs route
      for all of them, and the statistics agree. */
  lemma SetlistSongMatchesListedSong(js: JoinedSong, db: DbSong, votes: seq<RatingRow>)
    requires js.id == db.id
    ensures ToSong(js, Some(RatedOnly(votes))).votes == DbSongToSong(db, SongStats(votes, db.id)).votes
  {
    RatedOnlyKeepsSongRatings(votes, db.id);
  }
}
