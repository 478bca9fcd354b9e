/** Rating aggregation shared by the vote, song and setlist routes: drop the
    null ratings, count the rest and average them rounded to one decimal
    (`Math.round(mean * 10) / 10`). The average is kept exactly, as an integer
    number of tenths. */
module Ratings {
  import opened Common

  /** `{ averageRating, totalVotes }` with `averageRating == averageTenths / 10`. */
  datatype Stats = Stats(averageTenths: int, totalVotes: nat) {
    function AverageRating(): real {
      averageTenths as real / 10.0
    }
  }

  const NoVotes := Stats(0, 0)

  function Sum(rs: seq<int>): int {
    if rs == [] then 0 else Sum(rs[..|rs| - 1]) + rs[|rs| - 1]
  }

  /** The tenths digit rounding of `sum / n`, in integers: floor((20 sum + n) / 2n). */
  function RoundedTenths(sum: int, n: int): (t: int)
    requires n > 0
    ensures 2 * n * t <= 20 * sum + n < 2 * n * (t + 1)
  {
    (20 * sum + n) / (2 * n)
  }

  /** Statistics over non-null ratings: 0 when there are none. */
  function Aggregate(rs: seq<int>): (st: Stats)
    ensures st.totalVotes == |rs|
    ensures rs == [] ==> st == NoVotes
    ensures rs != [] ==> 2 * |rs| * st.averageTenths <= 20 * Sum(rs) + |rs| < 2 * |rs| * (st.averageTenths + 1)
  {
    if rs == [] then NoVotes else Stats(RoundedTenths(Sum(rs), |rs|), |rs|)
  }

  /** `votes.filter(v => v.rating != null).map(v => v.rating)`: each rating
      is kept as often as a row carries it. */
  function ValidRatings(rows: seq<Option<int>>): (rs: seq<int>)
    ensures |rs| <= |rows|
    ensures forall r :: r in rs <==> Some(r) in rows
  {
    if rows == [] then []
    else
      assert rows == rows[..|rows| - 1] + [rows[|rows| - 1]];
      match rows[|rows| - 1]
      case None => ValidRatings(rows[..|rows| - 1])
      case Some(r) => ValidRatings(rows[..|rows| - 1]) + [r]
  }

  /** Each rating is kept exactly as often as the rows carry it. */
  lemma {:induction false} ValidRatingsCount(rows: seq<Option<int>>)
    ensures forall r :: multiset(ValidRatings(rows))[r] == multiset(rows)[Some(r)]
  {
    if rows != [] {
      var n := |rows| - 1;
      var init := rows[..n];
      ValidRatingsCount(init);
      assert rows == init + [rows[n]];
      assert multiset(rows) == multiset(init) + multiset{rows[n]};
      match rows[n]
      case None =>
        assert ValidRatings(rows) == ValidRatings(init);
      case Some(v) =>
        assert multiset(ValidRatings(rows)) == multiset(ValidRatings(init)) + multiset{v};
    }
  }

  /** No rating survives the filter exactly when every row is null. */
  lemma NoValidRatings(rows: seq<Option<int>>)
    ensures ValidRatings(rows) == [] <==> forall i :: 0 <= i < |rows| ==> rows[i].None?
  {
    var rs := ValidRatings(rows);
    if rs != [] {
      assert rs[0] in rs;
      assert Some(rs[0]) in rows;
    }
    if i :| 0 <= i < |rows| && rows[i].Some? {
      assert Some(rows[i].value) in rows;
      assert rows[i].value in rs;
    }
  }

  /** The statistic the single-song vote route returns for the ratings it
      fetched (the song's rows, null ratings included): it counts the non-null
      rows, and it is `{0, 0}` exactly when there is none. */
  function StatsOf(rows: seq<Option<int>>): (st: Stats)
    ensures st.totalVotes <= |rows|
    ensures st.totalVotes == 0 <==> forall i :: 0 <= i < |rows| ==> rows[i].None?
    ensures st.totalVotes == 0 ==> st == NoVotes
  {
    NoValidRatings(rows);
    Aggregate(ValidRatings(rows))
  }

  /** A vote row as the batch queries select it: `song_id, rating`. */
  datatype RatingRow = RatingRow(songId: string, rating: Option<int>)

  /** `.eq('song_id', songId)` followed by `select('rating')`, in store order. */
  function RatingsOfSong(rows: seq<RatingRow>, songId: string): (rs: seq<Option<int>>)
    ensures |rs| <= |rows|
    ensures forall x :: x in rs <==> RatingRow(songId, x) in rows
  {
    if rows == [] then []
    else
      assert rows == rows[..|rows| - 1] + [rows[|rows| - 1]];
      if rows[|rows| - 1].songId == songId then RatingsOfSong(rows[..|rows| - 1], songId) + [rows[|rows| - 1].rating]
    else RatingsOfSong(rows[..|rows| - 1], songId)
  }

  /** Each rating of the song appears as often as the song's rows carry it. */
  lemma {:induction false} RatingsOfSongCount(rows: seq<RatingRow>, songId: string)
    ensures forall x :: multiset(RatingsOfSong(rows, songId))[x] == multiset(rows)[RatingRow(songId, x)]
  {
    if rows != [] {
      var n := |rows| - 1;
      RatingsOfSongCount(rows[..n], songId);
      assert rows == rows[..n] + [rows[n]];
    }
  }

  /** The rows a batch aggregation keeps for a song:
      `v.song_id === songId && v.rating != null`, mapped to the rating. */
  function SongRatings(rows: seq<RatingRow>, songId: string): (rs: seq<int>)
    ensures |rs| <= |rows|
    ensures forall r :: r in rs <==> RatingRow(songId, Some(r)) in rows
  {
    if rows == [] then []
    else
      var last := rows[|rows| - 1];
      var rest := SongRatings(rows[..|rows| - 1], songId);
      assert rows == rows[..|rows| - 1] + [last];
      if last.songId == songId && last.rating.Some? then rest + [last.rating.value] else rest
  }

  /** Per-song statistics of the batch routes (songs list, setlists list):
      `{0, 0}` exactly when no row of the song carries a rating. */
  function SongStats(rows: seq<RatingRow>, songId: string): (st: Stats)
    ensures st.totalVotes <= |rows|
    ensures st.totalVotes == 0 <==> forall i :: 0 <= i < |rows| ==> rows[i].songId != songId || rows[i].rating.None?
    ensures st.totalVotes == 0 ==> st == NoVotes
  {
    NoSongRatings(rows, songId);
    Aggregate(SongRatings(rows, songId))
  }

  /** Each rating of the song is kept as often as the song's rows carry it. */
  lemma {:induction false} SongRatingsCount(rows: seq<RatingRow>, songId: string)
    ensures forall r :: multiset(SongRatings(rows, songId))[r] == multiset(rows)[RatingRow(songId, Some(r))]
  {
    if rows != [] {
      var n := |rows| - 1;
      SongRatingsCount(rows[..n], songId);
      assert rows == rows[..n] + [rows[n]];
    }
  }

  lemma NoSongRatings(rows: seq<RatingRow>, songId: string)
    ensures SongRatings(rows, songId) == []
        <==> forall i :: 0 <= i < |rows| ==> rows[i].songId != songId || rows[i].rating.None?
  {
    var rs := SongRatings(rows, songId);
    if rs != [] {
      assert rs[0] in rs;
      assert RatingRow(songId, Some(rs[0])) in rows;
    }
    if i :| 0 <= i < |rows| && rows[i].songId == songId && rows[i].rating.Some? {
      assert rows[i] == RatingRow(songId, Some(rows[i].rating.value));
      assert rows[i].rating.value in rs;
    }
  }

  // ---------------------------------------------------------------------------
  // Properties

  /** The tenths value is `Math.round(mean * 10)` computed over exact reals. */
  lemma TenthsIsRoundedMean(rs: seq<int>)
    requires rs != []
    ensures Aggregate(rs).averageTenths == MathRound(10.0 * (Sum(rs) as real) / (|rs| as real))
  {
    RoundedTenthsIsMathRound(Sum(rs), |rs|);
  }

  lemma RoundedTenthsIsMathRound(sum: int, n: int)
    requires n > 0
    ensures RoundedTenths(sum, n) == MathRound(10.0 * (sum as real) / (n as real))
  {
    var t := RoundedTenths(sum, n);
    var m, S, T := n as real, sum as real, t as real;
    assert (2 * t - 1) * n <= 20 * sum < (2 * t + 1) * n;
    CastMul(2 * t - 1, n);
    CastMul(2 * t + 1, n);
    assert (2.0 * T - 1.0) * m <= 20.0 * S < (2.0 * T + 1.0) * m;
    assert (T - 0.5) * m <= 10.0 * S < (T + 0.5) * m;
    DivLe(T - 0.5, 10.0 * S, m);
    DivLt(T + 0.5, 10.0 * S, m);
    MathRoundUnique(10.0 * S / m, t);
  }

  lemma CastMul(a: int, b: int)
    ensures (a * b) as real == (a as real) * (b as real)
  {
  }

  lemma DivLe(y: real, z: real, m: real)
    requires m > 0.0 && y * m <= z
    ensures y <= z / m
  {
  }

  lemma DivLt(y: real, z: real, m: real)
    requires m > 0.0 && z < y * m
    ensures z / m < y
  {
  }

  lemma {:induction false} SumBounds(rs: seq<int>, lo: int, hi: int)
    requires forall i :: 0 <= i < |rs| ==> lo <= rs[i] <= hi
    ensures |rs| * lo <= Sum(rs) <= |rs| * hi
  {
    if rs != [] {
      var n := |rs| - 1;
      var init := rs[..n];
      assert forall i :: 0 <= i < n ==> init[i] == rs[i];
      SumBounds(init, lo, hi);
      assert Sum(rs) == Sum(init) + rs[n];
      assert |rs| * lo == n * lo + lo && |rs| * hi == n * hi + hi;
    }
  }

  /** When every rating lies in [lo, hi], so does the rounded average. */
  lemma AverageWithinBounds(rs: seq<int>, lo: int, hi: int)
    requires rs != []
    requires forall i :: 0 <= i < |rs| ==> lo <= rs[i] <= hi
    ensures 10 * lo <= Aggregate(rs).averageTenths <= 10 * hi
  {
    SumBounds(rs, lo, hi);
    TenthsWithinBounds(|rs|, Sum(rs), Aggregate(rs).averageTenths, lo, hi);
  }

  /** The arithmetic behind AverageWithinBounds: a rounded mean of n values in
      [lo, hi] lies in [10 lo, 10 hi] tenths. */
  lemma TenthsWithinBounds(n: int, sum: int, t: int, lo: int, hi: int)
    requires n > 0
    requires n * lo <= sum <= n * hi
    requires 2 * n * t <= 20 * sum + n < 2 * n * (t + 1)
    ensures 10 * lo <= t <= 10 * hi
  {
    // 2n(10 lo) <= 20 sum + n < 2n(t + 1), so 10 lo < t + 1
    assert 2 * n * (10 * lo) == 20 * (n * lo);
    LessByPositiveFactor(2 * n, 10 * lo, t + 1);
    // 2n t <= 20 sum + n <= 20 n hi + n < 2n(10 hi + 1), so t < 10 hi + 1
    assert 2 * n * (10 * hi + 1) == 20 * (n * hi) + 2 * n;
    LessByPositiveFactor(2 * n, t, 10 * hi + 1);
  }

  lemma LessByPositiveFactor(k: int, a: int, b: int)
    requires k > 0 && k * a < k * b
    ensures a < b
  {
  }

  /** Accepted ratings are integers in [1, 10], so a song's average is in [1.0, 10.0]. */
  lemma AverageOfValidRatings(rs: seq<int>)
    requires rs != []
    requires forall i :: 0 <= i < |rs| ==> 1 <= rs[i] <= 10
    ensures 10 <= Aggregate(rs).averageTenths <= 100
  {
    AverageWithinBounds(rs, 1, 10);
  }

  lemma {:induction false} SumAppend(a: seq<int>, b: seq<int>)
    ensures Sum(a + b) == Sum(a) + Sum(b)
  {
    if b == [] {
      assert a + b == a;
    } else {
      assert (a + b)[..|a + b| - 1] == a + b[..|b| - 1];
      SumAppend(a, b[..|b| - 1]);
    }
  }

  lemma {:induction false} ValidRatingsAppend(a: seq<Option<int>>, b: seq<Option<int>>)
    ensures ValidRatings(a + b) == ValidRatings(a) + ValidRatings(b)
  {
    if b == [] {
      assert a + b == a;
    } else {
      assert (a + b)[..|a + b| - 1] == a + b[..|b| - 1];
      ValidRatingsAppend(a, b[..|b| - 1]);
    }
  }

  /** A null rating affects neither the count nor the average: the statistic
      is that of the same rows without it. */
  lemma NullRatingIgnored(a: seq<Option<int>>, b: seq<Option<int>>)
    ensures StatsOf(a + [None] + b) == StatsOf(a + b)
  {
    ValidRatingsAppend(a + [None], b);
    ValidRatingsAppend(a, [None]);
    ValidRatingsAppend(a, b);
    assert ValidRatings([None]) == [];
  }

  /** Every non-null rating is counted: totalVotes is the number of non-null rows. */
  lemma {:induction false} TotalCountsNonNull(rows: seq<Option<int>>)
    ensures StatsOf(rows).totalVotes == |set i | 0 <= i < |rows| && rows[i].Some?|
  {
    CountNonNull(rows);
  }

  function NonNullIndices(rows: seq<Option<int>>): set<int> {
    set i | 0 <= i < |rows| && rows[i].Some?
  }

  lemma {:induction false} CountNonNull(rows: seq<Option<int>>)
    ensures |ValidRatings(rows)| == |NonNullIndices(rows)|
  {
    if rows != [] {
      var init := rows[..|rows| - 1];
      CountNonNull(init);
      NonNullIndicesStep(rows);
    }
  }

  lemma NonNullIndicesStep(rows: seq<Option<int>>)
    requires rows != []
    ensures var n := |rows| - 1;
      |NonNullIndices(rows)| == |NonNullIndices(rows[..n])| + (if rows[n].Some? then 1 else 0)
  {
    var n := |rows| - 1;
    var init := rows[..n];
    var a := NonNullIndices(init);
    var b := NonNullIndices(rows);
    var extra: set<int> := if rows[n].Some? then {n} else {};
    forall i | i in b ensures i in a + extra {
      if i < n {
        assert init[i] == rows[i];
      }
    }
    forall i | i in a + extra ensures i in b {
      if i in a {
        assert init[i] == rows[i];
      }
    }
    assert b == a + extra;
    assert a !! extra;
  }

  lemma {:induction false} SumRemove(rs: seq<int>, i: nat)
    requires i < |rs|
    ensures Sum(rs) == Sum(rs[..i] + rs[i + 1..]) + rs[i]
  {
    assert rs == rs[..i] + [rs[i]] + rs[i + 1..];
    SumAppend(rs[..i] + [rs[i]], rs[i + 1..]);
    SumAppend(rs[..i], [rs[i]]);
    SumAppend(rs[..i], rs[i + 1..]);
    assert Sum([rs[i]]) == Sum([]) + rs[i];
  }

  /** The sum depends only on the multiset of ratings. */
  lemma {:induction false} SumPermutation(a: seq<int>, b: seq<int>)
    requires multiset(a) == multiset(b)
    ensures Sum(a) == Sum(b)
    decreases |a|
  {
    if a != [] {
      var x := a[|a| - 1];
      assert x in multiset(b);
      var i :| 0 <= i < |b| && b[i] == x;
      var a' := a[..|a| - 1];
      var b' := b[..i] + b[i + 1..];
      MultisetWithoutLast(a);
      MultisetWithout(b, i);
      SumPermutation(a', b');
      SumRemove(b, i);
    } else {
      assert |b| == |multiset(b)| == 0;
    }
  }

  lemma MultisetWithout<T>(xs: seq<T>, i: nat)
    requires i < |xs|
    ensures multiset(xs[..i] + xs[i + 1..]) == multiset(xs) - multiset{xs[i]}
  {
    assert xs == xs[..i] + [xs[i]] + xs[i + 1..];
  }

  lemma MultisetWithoutLast<T>(xs: seq<T>)
    requires xs != []
    ensures multiset(xs[..|xs| - 1]) == multiset(xs) - multiset{xs[|xs| - 1]}
  {
    assert xs == xs[..|xs| - 1] + [xs[|xs| - 1]];
  }

  /** The store returns a song's rows in no particular order; the statistic
      does not depend on it. */
  lemma StatsOrderIndependent(a: seq<int>, b: seq<int>)
    requires multiset(a) == multiset(b)
    ensures Aggregate(a) == Aggregate(b)
  {
    SumPermutation(a, b);
    assert |a| == |multiset(a)| == |multiset(b)| == |b|;
  }

  /** The statistic of the fetched rows, nulls included, does not depend on
      the order the store returns them in. */
  lemma StatsOfOrderIndependent(a: seq<Option<int>>, b: seq<Option<int>>)
    requires multiset(a) == multiset(b)
    ensures StatsOf(a) == StatsOf(b)
  {
    var va, vb := ValidRatings(a), ValidRatings(b);
    ValidRatingsCount(a);
    ValidRatingsCount(b);
    forall r ensures multiset(va)[r] == multiset(vb)[r] {
      assert multiset(va)[r] == multiset(a)[Some(r)];
      assert multiset(vb)[r] == multiset(b)[Some(r)];
    }
    assert multiset(va) == multiset(vb);
    StatsOrderIndependent(va, vb);
  }

  /** The number of rated rows of a song, counted row by row. */
  function RatedCount(rows: seq<RatingRow>, songId: string): nat {
    if rows == [] then 0
    else
      var last := rows[|rows| - 1];
      RatedCount(rows[..|rows| - 1], songId) + (if last.songId == songId && last.rating.Some? then 1 else 0)
  }

  /** A song's batch ratings are as many as its rated rows. */
  lemma {:induction false} RatedCountIsLength(rows: seq<RatingRow>, songId: string)
    ensures RatedCount(rows, songId) == |SongRatings(rows, songId)|
  {
    if rows != [] {
      RatedCountIsLength(rows[..|rows| - 1], songId);
    }
  }

  /** The batch aggregation computes, for each song, exactly what the single
      song route computes over that song's rows alone. */
  lemma {:induction false} BatchMatchesSingle(rows: seq<RatingRow>, songId: string)
    ensures SongStats(rows, songId) == StatsOf(RatingsOfSong(rows, songId))
  {
    SongRatingsAreValidRatings(rows, songId);
  }

  lemma {:induction false} SongRatingsAreValidRatings(rows: seq<RatingRow>, songId: string)
    ensures SongRatings(rows, songId) == ValidRatings(RatingsOfSong(rows, songId))
  {
    if rows != [] {
      var init := rows[..|rows| - 1];
      var last := rows[|rows| - 1];
      SongRatingsAreValidRatings(init, songId);
      if last.songId == songId {
        ValidRatingsAppend(RatingsOfSong(init, songId), [last.rating]);
      }
    }
  }

  /** Only the song's own rows matter: rows of other songs can be added or
      removed without changing its statistic. */
  lemma {:induction false} SongStatsIgnoresOtherSongs(rows: seq<RatingRow>, other: RatingRow, songId: string)
    requires other.songId != songId
    ensures SongStats(rows + [other], songId) == SongStats(rows, songId)
  {
    assert (rows + [other])[..|rows + [other]| - 1] == rows;
  }

  /** A song none of whose rows carries a rating gets `{0, 0}`. */
  lemma {:induction false} NoRatedRowsNoStats(rows: seq<RatingRow>, songId: string)
    requires forall i :: 0 <= i < |rows| ==> rows[i].songId != songId || rows[i].rating.None?
    ensures SongStats(rows, songId) == NoVotes
  {
    if rows != [] {
      NoRatedRowsNoStats(rows[..|rows| - 1], songId);
    }
  }

  /** Worked example: {7, 9, 8} averages 8.0. */
  lemma ExampleThreeVotes()
    ensures Aggregate([7, 9, 8]) == Stats(80, 3)
  {
    assert [7, 9, 8][..2] == [7, 9];
    assert [7, 9][..1] == [7];
    assert [7][..0] == [];
  }

  /** Worked example: {7, 9, 8, 5} averages 7.25, kept as 7.3. */
  lemma ExampleFourVotes()
    ensures Aggregate([7, 9, 8, 5]) == Stats(73, 4)
  {
    assert [7, 9, 8, 5][..3] == [7, 9, 8];
    assert [7, 9, 8][..2] == [7, 9];
    assert [7, 9][..1] == [7];
    assert [7][..0] == [];
  }

  /** Worked example: a null rating among {7, 9, 8} changes nothing. */
  lemma ExampleNullRating()
    ensures StatsOf([Some(7), None, Some(9), Some(8)]) == Stats(80, 3)
  {
    NullRatingDropped();
    ExampleThreeVotes();
  }

  /** The filter of the worked example, one row at a time. */
  lemma NullRatingDropped()
    ensures ValidRatings([Some(7), None, Some(9), Some(8)]) == [7, 9, 8]
  {
    assert [Some(7)][..0] == [];
    assert ValidRatings([Some(7)]) == [7];
    assert [Some(7), None][..1] == [Some(7)];
    assert ValidRatings([Some(7), None]) == [7];
    assert [Some(7), None, Some(9)][..2] == [Some(7), None];
    assert ValidRatings([Some(7), None, Some(9)]) == [7, 9];
    assert [Some(7), None, Some(9), Some(8)][..3] == [Some(7), None, Some(9)];
  }
}
