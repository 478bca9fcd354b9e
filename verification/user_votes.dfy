/** GET /api/votes/user: the signed-in user's own rated votes as a map from
    song id to rating and comment. */
module UserVotes {
  import opened Common
  import VotesApi
  import KeyedList

  /** What the map holds per song: the rating and a non-empty comment. */
  datatype UserVote = UserVote(rating: int, comment: Option<string>)

  /** A row of `select('song_id, rating, comment')`. */
  datatype SelectedVote = SelectedVote(songId: string, rating: int, comment: Option<string>)

  /** `.eq('user_id', user.id).not('rating', 'is', null)`. */
  predicate Selected(row: VotesApi.VoteRow, userId: string) {
    row.userId == Some(userId) && row.rating.Some?
  }

  function Project(row: VotesApi.VoteRow): SelectedVote
    requires row.rating.Some?
  {
    SelectedVote(row.songId, row.rating.value, row.comment)
  }

  /** The query: the user's rated rows, in store order. */
  function SelectUserVotes(table: seq<VotesApi.VoteRow>, userId: string): (r: seq<SelectedVote>)
    ensures |r| <= |table|
    ensures forall x :: x in r <==>
      exists i :: 0 <= i < |table| && Selected(table[i], userId) && x == Project(table[i])
  {
    if table == [] then []
    else
      var n := |table| - 1;
      var init := SelectUserVotes(table[..n], userId);
      assert forall i :: 0 <= i < n ==> table[..n][i] == table[i];
      if Selected(table[n], userId) then init + [Project(table[n])] else init
  }

  /** `comment || undefined`. */
  function Entry(x: SelectedVote): (e: UserVote)
    ensures e.rating == x.rating
    ensures e.comment.Some? <==> Present(x.comment)
    ensures e.comment.Some? ==> e.comment == x.comment
  {
    UserVote(x.rating, OrNull(x.comment))
  }

  /** The `forEach` that fills `votesMap`: a song's entry comes from the last
      row for that song, and every song of the rows has an entry. */
  function VotesMap(rows: seq<SelectedVote>): (m: map<string, UserVote>)
    ensures forall k :: k in m <==> exists i :: 0 <= i < |rows| && rows[i].songId == k
    ensures forall k :: k in m ==> exists i :: 0 <= i < |rows| && rows[i].songId == k && m[k] == Entry(rows[i])
    ensures forall i :: 0 <= i < |rows| && LastOfItsSong(rows, i)
              ==> rows[i].songId in m && m[rows[i].songId] == Entry(rows[i])
  {
    if rows == [] then map[]
    else
      var m0 := VotesMap(rows[..|rows| - 1]);
      KeysStep(rows, m0);
      SourceStep(rows, m0);
      LastRowWins(rows, m0);
      m0[rows[|rows| - 1].songId := Entry(rows[|rows| - 1])]
  }

  lemma KeysStep(rows: seq<SelectedVote>, m0: map<string, UserVote>)
    requires rows != []
    requires var init := rows[..|rows| - 1];
      forall k :: k in m0 <==> exists i :: 0 <= i < |init| && init[i].songId == k
    ensures var m := m0[rows[|rows| - 1].songId := Entry(rows[|rows| - 1])];
      forall k :: k in m <==> exists i :: 0 <= i < |rows| && rows[i].songId == k
  {
    var n := |rows| - 1;
    var init := rows[..n];
    var m := m0[rows[n].songId := Entry(rows[n])];
    forall k | exists i :: 0 <= i < |rows| && rows[i].songId == k ensures k in m {
      var i :| 0 <= i < |rows| && rows[i].songId == k;
      if i < n {
        assert init[i].songId == k;
      }
    }
    forall k | k in m ensures exists i :: 0 <= i < |rows| && rows[i].songId == k {
      if k != rows[n].songId {
        var i :| 0 <= i < n && init[i].songId == k;
        assert rows[i].songId == k;
      }
    }
  }

  lemma SourceStep(rows: seq<SelectedVote>, m0: map<string, UserVote>)
    requires rows != []
    requires var init := rows[..|rows| - 1];
      forall k :: k in m0 ==> exists i :: 0 <= i < |init| && init[i].songId == k && m0[k] == Entry(init[i])
    ensures var m := m0[rows[|rows| - 1].songId := Entry(rows[|rows| - 1])];
      forall k :: k in m ==> exists i :: 0 <= i < |rows| && rows[i].songId == k && m[k] == Entry(rows[i])
  {
    var n := |rows| - 1;
    var init := rows[..n];
    var m := m0[rows[n].songId := Entry(rows[n])];
    forall k | k in m ensures exists i :: 0 <= i < |rows| && rows[i].songId == k && m[k] == Entry(rows[i]) {
      if k != rows[n].songId {
        var i :| 0 <= i < n && init[i].songId == k && m0[k] == Entry(init[i]);
        assert rows[i].songId == k && m[k] == Entry(rows[i]);
      } else {
        assert rows[n].songId == k && m[k] == Entry(rows[n]);
      }
    }
  }

  lemma LastRowWins(rows: seq<SelectedVote>, m0: map<string, UserVote>)
    requires rows != []
    requires var init := rows[..|rows| - 1];
      forall i :: 0 <= i < |init| && LastOfItsSong(init, i)
        ==> init[i].songId in m0 && m0[init[i].songId] == Entry(init[i])
    ensures var m := m0[rows[|rows| - 1].songId := Entry(rows[|rows| - 1])];
      forall i :: 0 <= i < |rows| && LastOfItsSong(rows, i)
        ==> rows[i].songId in m && m[rows[i].songId] == Entry(rows[i])
  {
    var n := |rows| - 1;
    var init := rows[..n];
    var m := m0[rows[n].songId := Entry(rows[n])];
    forall i | 0 <= i < |rows| && LastOfItsSong(rows, i)
      ensures rows[i].songId in m && m[rows[i].songId] == Entry(rows[i])
    {
      if i < n {
        assert rows[n].songId != rows[i].songId;
        assert init[i] == rows[i];
        assert LastOfItsSong(init, i) by {
          forall j | i < j < n ensures init[j].songId != init[i].songId {
            assert init[j] == rows[j];
          }
        }
      }
    }
  }

  /** No later row is for the same song. */
  predicate LastOfItsSong(rows: seq<SelectedVote>, i: nat)
    requires i < |rows|
  {
    forall j :: i < j < |rows| ==> rows[j].songId != rows[i].songId
  }

  /** No later row of the table is a selected row for the same song. */
  predicate LastSelectedOfSong(table: seq<VotesApi.VoteRow>, userId: string, i: nat)
    requires i < |table|
  {
    forall j :: i < j < |table| && Selected(table[j], userId) ==> table[j].songId != table[i].songId
  }

  /** The user's last rated row for a song, in store order, is the one the
      map shows for that song. */
  lemma {:induction false} LastSelectedRowWins(table: seq<VotesApi.VoteRow>, userId: string, i: nat)
    requires i < |table| && Selected(table[i], userId)
    requires LastSelectedOfSong(table, userId, i)
    ensures var m := VotesMap(SelectUserVotes(table, userId));
      table[i].songId in m && m[table[i].songId] == Entry(Project(table[i]))
  {
    var n := |table| - 1;
    var init := table[..n];
    var rows0 := SelectUserVotes(init, userId);
    var rows := SelectUserVotes(table, userId);
    if i < n {
      assert init[i] == table[i];
      assert LastSelectedOfSong(init, userId, i) by {
        forall j | i < j < n && Selected(init[j], userId) ensures init[j].songId != init[i].songId {
          assert init[j] == table[j];
        }
      }
      LastSelectedRowWins(init, userId, i);
      if Selected(table[n], userId) {
        VotesMapSnoc(rows0, Project(table[n]));
      }
    } else {
      VotesMapSnoc(rows0, Project(table[n]));
    }
  }

  /** One more row sets its song's entry. */
  lemma VotesMapSnoc(rows: seq<SelectedVote>, x: SelectedVote)
    ensures VotesMap(rows + [x]) == VotesMap(rows)[x.songId := Entry(x)]
  {
    assert (rows + [x])[..|rows|] == rows;
  }

  /** What the user's votes map shows for a table: an entry exactly for the
      songs the user rated, each entry the rating and comment of one of the
      user's rated rows for that song, and of the last such row. */
  ghost predicate ShowsUserVotes(table: seq<VotesApi.VoteRow>, userId: string, m: map<string, UserVote>) {
    && (forall k :: k in m <==>
         exists i :: 0 <= i < |table| && Selected(table[i], userId) && table[i].songId == k)
    && (forall k :: k in m ==>
         exists i :: (0 <= i < |table| && Selected(table[i], userId)
           && table[i].songId == k && m[k] == Entry(Project(table[i]))))
    && (forall i :: (0 <= i < |table| && Selected(table[i], userId) && LastSelectedOfSong(table, userId, i))
         ==> (table[i].songId in m && m[table[i].songId] == Entry(Project(table[i]))))
  }

  /** The map the route builds shows the user's votes. */
  lemma UserMapShowsVotes(table: seq<VotesApi.VoteRow>, userId: string)
    ensures ShowsUserVotes(table, userId, VotesMap(SelectUserVotes(table, userId)))
  {
    var rows := SelectUserVotes(table, userId);
    var m := VotesMap(rows);
    forall k | k in m
      ensures exists i :: (0 <= i < |table| && Selected(table[i], userId)
        && table[i].songId == k && m[k] == Entry(Project(table[i])))
    {
      var p :| 0 <= p < |rows| && rows[p].songId == k && m[k] == Entry(rows[p]);
      assert rows[p] in rows;
      var i :| 0 <= i < |table| && Selected(table[i], userId) && rows[p] == Project(table[i]);
    }
    forall i | 0 <= i < |table| && Selected(table[i], userId) ensures table[i].songId in m {
      assert Project(table[i]) in rows;
    }
    forall i | 0 <= i < |table| && Selected(table[i], userId) && LastSelectedOfSong(table, userId, i)
      ensures table[i].songId in m && m[table[i].songId] == Entry(Project(table[i]))
    {
      LastSelectedRowWins(table, userId, i);
    }
  }

  const FetchFailed := "Failed to fetch user votes"

  /** GET /api/votes/user: each song the user rated maps to the rating and
      `comment || undefined` of the user's last row for it. */
  function GetUserVotes(user: Option<User>, fetched: Fetch<seq<VotesApi.VoteRow>>): (r: Response<map<string, UserVote>>)
    ensures user.None? ==> r == Unauthorized
    ensures user.Some? && fetched.FetchError? ==> r == ServerError(FetchFailed)
    ensures r.Ok? <==> user.Some? && fetched.Fetched?
    ensures r.Ok? ==> ShowsUserVotes(fetched.data, user.value.id, r.body)
    ensures r.Ok? ==> r.body == VotesMap(SelectUserVotes(fetched.data, user.value.id))
  {
    if user.None? then Unauthorized
    else match fetched
      case FetchError(_) => ServerError(FetchFailed)
      case Fetched(table) =>
        UserMapShowsVotes(table, user.value.id);
        Ok(VotesMap(SelectUserVotes(table, user.value.id)))
  }

  /** With at most one vote per signed-in user and song, as the votes table
      enforces, the user's entry for a song carries the rating and comment of
      that vote. Rows without a user may repeat; they are never selected. */
  lemma EntryIsTheUsersVote(table: seq<VotesApi.VoteRow>, userId: string, i: nat)
    requires VotesApi.UniqueUserVotes(table)
    requires i < |table| && Selected(table[i], userId)
    ensures var m := VotesMap(SelectUserVotes(table, userId));
      table[i].songId in m && m[table[i].songId] == Entry(Project(table[i]))
  {
    var rows := SelectUserVotes(table, userId);
    var m := VotesMap(rows);
    var k := table[i].songId;
    assert Project(table[i]) in rows;
    var p :| 0 <= p < |rows| && rows[p] == Project(table[i]);
    assert k in m;
    var q :| 0 <= q < |rows| && rows[q].songId == k && m[k] == Entry(rows[q]);
    assert rows[q] in rows;
    var t :| 0 <= t < |table| && Selected(table[t], userId) && rows[q] == Project(table[t]);
    assert VotesApi.VoteKey(table[t]) == VotesApi.VoteKey(table[i]);
    assert t == i;
  }

  /** After a successful vote, the user's votes report the rating just saved
      for that song. */
  lemma PostThenUserVotes(u: User, req: VotesApi.VoteRequest, table: seq<VotesApi.VoteRow>, now: string)
    requires VotesApi.UniqueUserVotes(table)
    requires VotesApi.ValidateVote(req).Accepted?
    ensures var o := VotesApi.PostVote(Some(u), req, table, now);
      var v := VotesApi.ValidateVote(req);
      var m := VotesMap(SelectUserVotes(o.table, u.id));
      v.songId in m && m[v.songId] == UserVote(v.rating, OrNull(req.comment))
  {
    var o := VotesApi.PostVote(Some(u), req, table, now);
    var v := VotesApi.ValidateVote(req);
    var row := VotesApi.NewVoteRow(u, v.songId, v.rating, req, now);
    VotesApi.PostIsKeyedUpdate(u, req, table, now);
    assert row in o.table;
    var i :| 0 <= i < |o.table| && o.table[i] == row;
    EntryIsTheUsersVote(o.table, u.id, i);
  }
}
