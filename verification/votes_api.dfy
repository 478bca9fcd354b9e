/** The vote route: POST validates a 1..10 rating, rounds it, upserts the
    user's vote on (song_id, user_id) and answers with the song's fresh
    statistics; GET answers with the statistics of one song. The votes table is
    the sequence of its rows in store order. */
module VotesApi {
  import opened Common
  import opened Ratings
  import KeyedList

  /** A row of the votes table. Legacy rows may lack a user or a rating. */
  datatype VoteRow = VoteRow(
    songId: string,
    userId: Option<string>,
    rating: Option<int>,
    comment: Option<string>,
    voterName: Option<string>,
    timestamp: string)

  /** The table's uniqueness key, the upsert's conflict target. */
  function VoteKey(r: VoteRow): (string, Option<string>) {
    (r.songId, r.userId)
  }

  /** `select('song_id, rating')` over the whole table, in store order. */
  function Select(table: seq<VoteRow>): (rows: seq<RatingRow>)
    ensures |rows| == |table|
    ensures forall i :: 0 <= i < |table| ==> rows[i] == RatingRow(table[i].songId, table[i].rating)
  {
    seq(|table|, i requires 0 <= i < |table| => RatingRow(table[i].songId, table[i].rating))
  }

  /** A row written by a signed-in user. */
  predicate HasUser(k: (string, Option<string>)) {
    k.1.Some?
  }

  /** The unique index on (song_id, user_id): two rows of one song by the
      same user never coexist. Postgres treats nulls as distinct, so legacy
      rows without a user may repeat. */
  predicate UniqueUserVotes(table: seq<VoteRow>) {
    KeyedList.UniqueKeysAmong(table, VoteKey, HasUser)
  }

  /** The statistic of one song as the route computes it from
      `.eq('song_id', songId)`: `{0, 0}` exactly when none of the song's rows
      carries a rating. */
  function SongStatsIn(table: seq<VoteRow>, songId: string): (st: Stats)
    ensures st.totalVotes <= |table|
    ensures st.totalVotes == 0 <==> forall i :: 0 <= i < |table| ==> table[i].songId != songId || table[i].rating.None?
    ensures st.totalVotes == 0 ==> st == NoVotes
  {
    BatchMatchesSingle(Select(table), songId);
    StatsOf(RatingsOfSong(Select(table), songId))
  }

  /** The body of a POST: `{ songId, rating, comment }`. */
  datatype VoteRequest = VoteRequest(songId: Option<string>, rating: Option<Json>, comment: Option<string>)

  const BadRating := "Rating must be a number between 1 and 10"

  datatype Validated = Accepted(songId: string, rating: int) | Rejected(message: string)

  predicate RatingInRange(v: Option<Json>) {
    v.Some? && v.value.JNumber? && 1.0 <= v.value.x <= 10.0
  }

  /** The two 400 checks of POST, in order, and the `Math.round` of an
      accepted rating. */
  function ValidateVote(req: VoteRequest): (v: Validated)
    ensures v.Accepted? <==> Present(req.songId) && RatingInRange(req.rating)
    ensures (!Present(req.songId) || !Truthy(req.rating)) ==> v == Rejected(MissingFields)
    ensures Present(req.songId) && Truthy(req.rating) && !RatingInRange(req.rating) ==> v == Rejected(BadRating)
    ensures v.Accepted? ==>
      && v.songId == req.songId.value
      && 1 <= v.rating <= 10
      && v.rating as real - 0.5 <= req.rating.value.x < v.rating as real + 0.5
  {
    if !Present(req.songId) || !Truthy(req.rating) then Rejected(MissingFields)
    else if !RatingInRange(req.rating) then Rejected(BadRating)
    else Accepted(req.songId.value, MathRound(req.rating.value.x))
  }

  /** The row POST writes for an accepted vote: keyed on the song and the
      signed-in user, with the rating, the comment unless empty, the user's
      display name and the time of the request. */
  function NewVoteRow(u: User, songId: string, rating: int, req: VoteRequest, now: string): (row: VoteRow)
    ensures VoteKey(row) == (songId, Some(u.id)) && HasUser(VoteKey(row))
    ensures row.rating == Some(rating)
    ensures row.comment.Some? <==> Present(req.comment)
    ensures row.comment.Some? ==> row.comment == req.comment
    ensures row.voterName.Some? && row.voterName.value != []
    ensures row.timestamp == now
  {
    VoteRow(songId, Some(u.id), Some(rating), OrNull(req.comment), Some(UserName(u)), now)
  }

  /** What POST answers and the votes table it leaves behind. */
  datatype PostOutcome = PostOutcome(response: Response<Stats>, table: seq<VoteRow>)

  function PostVote(user: Option<User>, req: VoteRequest, table: seq<VoteRow>, now: string): (o: PostOutcome)
    ensures user.None? ==> o == PostOutcome(Unauthorized, table)
    ensures user.Some? && !ValidateVote(req).Accepted? ==>
      o == PostOutcome(BadRequest(ValidateVote(req).message), table)
    ensures o.response.Ok? <==> user.Some? && ValidateVote(req).Accepted?
    ensures o.response.Ok? ==>
      var v := ValidateVote(req);
      var row := NewVoteRow(user.value, v.songId, v.rating, req, now);
      && row in o.table
      && o.table == KeyedList.Upsert(table, row, VoteKey)
      && (|o.table| == |table| || |o.table| == |table| + 1)
      && o.response.body == SongStatsIn(o.table, v.songId)
  {
    if user.None? then PostOutcome(Unauthorized, table)
    else
      var v := ValidateVote(req);
      if v.Rejected? then PostOutcome(BadRequest(v.message), table)
      else
        var row := NewVoteRow(user.value, v.songId, v.rating, req, now);
        var table' := KeyedList.Upsert(table, row, VoteKey);
        PostOutcome(Ok(SongStatsIn(table', v.songId)), table')
  }

  const SongIdRequired := "songId parameter is required"
  const VotesFetchFailed := "Failed to fetch votes"

  /** GET `?songId=`: 400 without a songId, 500 when the query fails. */
  function GetVotes(songId: Option<string>, fetched: Fetch<seq<VoteRow>>): (r: Response<Stats>)
    ensures !Present(songId) ==> r == BadRequest(SongIdRequired)
    ensures Present(songId) && fetched.FetchError? ==> r == ServerError(VotesFetchFailed)
    ensures r.Ok? <==> Present(songId) && fetched.Fetched?
    ensures r.Ok? ==> r.body == SongStatsIn(fetched.data, songId.value)
    ensures r.Ok? ==> r.body.totalVotes == RatedCount(Select(fetched.data), songId.value)
  {
    if !Present(songId) then BadRequest(SongIdRequired)
    else match fetched
      case FetchError(_) => ServerError(VotesFetchFailed)
      case Fetched(table) =>
        TotalIsRatedCount(table, songId.value);
        Ok(SongStatsIn(table, songId.value))
  }

  // ---------------------------------------------------------------------------
  // Properties

  /** The number of votes counted for a song in a table. */
  function TotalFor(table: seq<VoteRow>, songId: string): nat {
    SongStatsIn(table, songId).totalVotes
  }

  /** GET, asked right after a successful POST, returns the same statistic. */
  lemma PostThenGetAgree(user: Option<User>, req: VoteRequest, table: seq<VoteRow>, now: string)
    requires PostVote(user, req, table, now).response.Ok?
    ensures var o := PostVote(user, req, table, now);
      GetVotes(req.songId, Fetched(o.table)) == o.response
  {
  }

  lemma {:induction false} CountAfterUpdate(rows: seq<RatingRow>, i: nat, r: RatingRow, songId: string)
    requires i < |rows|
    requires rows[i].songId == r.songId && rows[i].rating.Some? == r.rating.Some?
    ensures RatedCount(rows[i := r], songId) == RatedCount(rows, songId)
  {
    var n := |rows| - 1;
    var rows' := rows[i := r];
    if i < n {
      assert rows'[n] == rows[n];
      assert rows'[..n] == rows[..n][i := r];
      CountAfterUpdate(rows[..n], i, r, songId);
    } else {
      assert rows'[..n] == rows[..n];
    }
  }

  /** The table an accepted vote leaves behind and the answer it gets. */
  lemma AcceptedPost(u: User, req: VoteRequest, table: seq<VoteRow>, now: string)
    requires ValidateVote(req).Accepted?
    ensures var v := ValidateVote(req);
      var table' := KeyedList.Upsert(table, NewVoteRow(u, v.songId, v.rating, req, now), VoteKey);
      PostVote(Some(u), req, table, now) == PostOutcome(Ok(SongStatsIn(table', v.songId)), table')
  {
  }

  lemma SelectUpdate(table: seq<VoteRow>, i: nat, row: VoteRow)
    requires i < |table|
    ensures Select(table[i := row]) == Select(table)[i := RatingRow(row.songId, row.rating)]
  {
  }

  lemma SelectAppend(table: seq<VoteRow>, row: VoteRow)
    ensures Select(table + [row]) == Select(table) + [RatingRow(row.songId, row.rating)]
  {
  }

  /** The number of rated votes of a song, as the single-song statistic counts it. */
  lemma TotalIsRatedCount(table: seq<VoteRow>, songId: string)
    ensures TotalFor(table, songId) == RatedCount(Select(table), songId)
  {
    BatchMatchesSingle(Select(table), songId);
    RatedCountIsLength(Select(table), songId);
  }

  /** A user who already has a rated vote for the song replaces it: the
      song's vote count stays what it was before the POST. */
  lemma RevoteKeepsTotal(u: User, req: VoteRequest, table: seq<VoteRow>, now: string)
    requires ValidateVote(req).Accepted?
    requires exists j :: 0 <= j < |table| && VoteKey(table[j]) == (req.songId.value, Some(u.id))
    requires forall j :: 0 <= j < |table| && VoteKey(table[j]) == (req.songId.value, Some(u.id)) ==> table[j].rating.Some?
    ensures PostVote(Some(u), req, table, now).response.body.totalVotes == TotalFor(table, req.songId.value)
  {
    var v := ValidateVote(req);
    var row := NewVoteRow(u, v.songId, v.rating, req, now);
    var j :| 0 <= j < |table| && VoteKey(table[j]) == (req.songId.value, Some(u.id));
    assert VoteKey(table[j]) == VoteKey(row);
    var i := KeyedList.IndexOfKey(table, VoteKey, VoteKey(row));
    KeyedList.IndexOfPresentKey(table, VoteKey, VoteKey(row), j);
    var table' := KeyedList.Upsert(table, row, VoteKey);
    KeyedList.UpsertReplaces(table, row, VoteKey);
    AcceptedPost(u, req, table, now);
    SelectUpdate(table, i, row);
    CountAfterUpdate(Select(table), i, RatingRow(row.songId, row.rating), v.songId);
    TotalIsRatedCount(table', v.songId);
    TotalIsRatedCount(table, v.songId);
  }

  /** A user's first vote for a song adds exactly one to its count. */
  lemma FirstVoteAddsOne(u: User, req: VoteRequest, table: seq<VoteRow>, now: string)
    requires ValidateVote(req).Accepted?
    requires forall j :: 0 <= j < |table| ==> VoteKey(table[j]) != (req.songId.value, Some(u.id))
    ensures PostVote(Some(u), req, table, now).response.body.totalVotes == TotalFor(table, req.songId.value) + 1
  {
    var v := ValidateVote(req);
    var row := NewVoteRow(u, v.songId, v.rating, req, now);
    var table' := table + [row];
    KeyedList.UpsertAppends(table, row, VoteKey);
    AcceptedPost(u, req, table, now);
    SelectAppend(table, row);
    assert Select(table')[..|table|] == Select(table);
    TotalIsRatedCount(table', v.songId);
    TotalIsRatedCount(table, v.songId);
  }

  /** Submitting the same vote twice (at any two times) answers the same
      statistic both times: the second submission overwrites the first. */
  lemma ResubmitSameResponse(u: User, req: VoteRequest, table: seq<VoteRow>, now1: string, now2: string)
    ensures var o1 := PostVote(Some(u), req, table, now1);
      PostVote(Some(u), req, o1.table, now2).response == o1.response
  {
    var v := ValidateVote(req);
    if v.Accepted? {
      var row1 := NewVoteRow(u, v.songId, v.rating, req, now1);
      var row2 := NewVoteRow(u, v.songId, v.rating, req, now2);
      var t1 := KeyedList.Upsert(table, row1, VoteKey);
      KeyedList.UpsertPresent(table, row1, VoteKey);
      var q := KeyedList.IndexOfKey(t1, VoteKey, VoteKey(row1));
      assert VoteKey(row2) == VoteKey(row1);
      var t2 := KeyedList.Upsert(t1, row2, VoteKey);
      assert KeyedList.HasKey(t1, VoteKey, VoteKey(row2));
      assert t2 == t1[q := row2];
      assert Select(t2) == Select(t1);
    }
  }

  /** Under the table's unique index, the table after POST still holds at
      most one row per song and signed-in user, and, read as a map from
      (song_id, user_id) to the first row with that key, it is the old table
      with the user's entry set to the new row. */
  lemma PostIsKeyedUpdate(u: User, req: VoteRequest, table: seq<VoteRow>, now: string)
    requires UniqueUserVotes(table)
    requires ValidateVote(req).Accepted?
    ensures var o := PostVote(Some(u), req, table, now);
      var v := ValidateVote(req);
      && UniqueUserVotes(o.table)
      && KeyedList.AsMap(o.table, VoteKey)
         == KeyedList.AsMap(table, VoteKey)[(v.songId, Some(u.id)) := NewVoteRow(u, v.songId, v.rating, req, now)]
  {
    var v := ValidateVote(req);
    var row := NewVoteRow(u, v.songId, v.rating, req, now);
    KeyedList.UpsertKeepsUniqueKeysAmong(table, row, VoteKey, HasUser);
    KeyedList.UpsertIsMapUpdate(table, row, VoteKey);
  }
}
