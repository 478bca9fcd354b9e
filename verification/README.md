# bandpractise — a Dafny model of its core

bandpractise is a web app where a band collects the songs it might rehearse.
Members rate each song from 1 to 10 and arrange songs into dated setlists. The
server side is a set of Next.js route handlers over a hosted Postgres store.
The client keeps a few pure computations of its own.

This project models the logic those handlers and helpers compute, with the
store reduced to the sequences of rows its queries return:

- **Rating aggregation** (`Ratings`). Null ratings are dropped, the rest are
  counted, and the mean is rounded to one decimal with
  `Math.round(mean * 10) / 10`. The average is kept exactly as an integer
  number of tenths, `(20·sum + n) div 2n`, and is proved equal to
  `Math.round` of the exact mean.
- **The vote route** (`VotesApi`). POST validates and rounds the rating,
  upserts the vote keyed on (song, user) and answers with the song's fresh
  statistics. GET answers with one song's statistics.
- **The songs and setlists routes** (`SongsApi`, `SetlistsApi`). Both fetch
  all vote rows with one query and then filter them once per song to compute
  that song's statistics. The setlists route also
  orders each setlist's join rows by position and maps them to the client's
  shape. Both POST handlers have their own required-field checks.
- **The user's own votes** (`UserVotes`): GET /api/votes/user, the
  signed-in user's rated votes as a map keyed by song id.
- **Row adapter** (`Supabase`): `dbSongToSong` and its `addedBy` fallback
  chain.
- **Drag-to-reorder** (`Reorder`): the drop handler of the setlists page, with
  its guards and its two splice branches.
- **YouTube helpers** (`YouTube`). The id extractor follows the two regular
  expressions with JavaScript's matching rules, then falls back to a bare
  11-character id. The module also has the thumbnail and embed URL builders.
- **Browser storage** (`Storage`): the list transformations of `saveSong`,
  `saveVote` and the deprecated `updateSongVotes`.
- **Song card display** (`Dashboard`): the rating gradient, the vote-count
  label and the one-decimal average.

`Common` holds the shared vocabulary:

- optional values;
- JSON body values and JavaScript truthiness;
- HTTP responses with their statuses;
- store replies (`Fetch`), the authenticated user and the display-name rule;
- `Math.round`.

`KeyedList` holds the generic find-first-by-key and replace-or-append upsert
that both the votes table and the browser vote list use.

The average is rounded with `Math.round` (`app/api/votes/route.ts:110`), which
rounds halves up. For the non-negative means that occur this is the same as
rounding half away from zero. The server-side setlist song endpoints
(`app/api/setlists/[setlistId]/songs/route.ts`) are not part of this model;
the client-side reorder computation is.

## Model

| member | source | states |
|---|---|---|
| Common.UserName | app/api/songs/route.ts:78 | The display name is the metadata name when non-empty, else the e-mail's local part when non-empty, else "Unknown"; it is never empty |
| Common.BeforeFirst | app/api/songs/route.ts:78 | `split('@')[0]` is a prefix of the address, contains no '@', and is followed by '@' whenever it is shorter than the address |
| Common.BeforeFirstIsLocalPart | app/api/songs/route.ts:78 | For an address `local@rest` with no '@' in `local`, the derived name is exactly `local` |
| Common.OrNull | app/api/votes/route.ts:41 | The comment's null fallback keeps a non-empty text and turns an empty or missing one into null |
| Common.MathRound | app/api/votes/route.ts:40 | `Math.round` returns the integer within half a unit below-inclusive of its argument |
| Common.MathRoundUnique | app/api/votes/route.ts:40 | That integer is unique, so any integer in the half-open window is the rounded value |
| Ratings.RoundedTenths | app/api/votes/route.ts:110 | The integer tenths bracket the exact mean: 2n·t ≤ 20·sum + n < 2n·(t+1) |
| Ratings.Aggregate | app/api/votes/route.ts:105-111 | totalVotes is the number of ratings; no ratings give {0, 0}; otherwise the tenths bracket the mean as above |
| Ratings.ValidRatings | app/api/votes/route.ts:104 | A rating is kept exactly when a non-null row carries it, and never more ratings than rows |
| Ratings.ValidRatingsCount | app/api/votes/route.ts:104 | Each rating is kept exactly as often as the rows carry it |
| Ratings.StatsOf | app/api/votes/route.ts:104-111 | The single-song statistic counts at most the fetched rows and is {0, 0} exactly when every fetched rating is null |
| Ratings.RatingsOfSong | app/api/votes/route.ts:137-140 | `.eq('song_id')` keeps a rating exactly when a row of the song carries it, never more than the rows |
| Ratings.RatingsOfSongCount | app/api/votes/route.ts:137-140 | Each rating of the song appears as often as the song's rows carry it |
| Ratings.TenthsIsRoundedMean | app/api/votes/route.ts:105-110 | The stored tenths equal `Math.round(10 · sum / n)` computed over exact reals |
| Ratings.RoundedTenthsIsMathRound | app/api/votes/route.ts:110 | The integer formula `(20·sum + n) div 2n` is `Math.round(10·sum/n)` for every sum and n > 0 |
| Ratings.AverageWithinBounds | app/api/votes/route.ts:104-110 | If every rating lies in [lo, hi], the rounded average lies in [10·lo, 10·hi] tenths (min and max included) |
| Ratings.AverageOfValidRatings | app/api/votes/route.ts:104-110 | With ratings from 1 to 10 the average is between 1.0 and 10.0 |
| Ratings.NullRatingIgnored | app/api/votes/route.ts:104 | Inserting a null-rated row anywhere leaves count and average unchanged |
| Ratings.TotalCountsNonNull | app/api/votes/route.ts:104-111 | totalVotes equals the number of row indices whose rating is non-null |
| Ratings.ValidRatingsAppend | app/api/votes/route.ts:104 | Filtering null ratings distributes over concatenation of row lists |
| Ratings.SumPermutation | app/api/votes/route.ts:106 | The sum of the ratings depends only on their multiset |
| Ratings.StatsOrderIndependent | app/api/votes/route.ts:104-111 | The statistic of the non-null ratings does not depend on their order |
| Ratings.StatsOfOrderIndependent | app/api/votes/route.ts:95-111 | The statistic of the fetched rows, nulls included, does not depend on the order the store returns the rows in |
| Ratings.SongRatings | app/api/songs/route.ts:31-32 | A rating is in a song's batch ratings exactly when a row of the song carries it non-null, never more than the rows |
| Ratings.SongRatingsCount | app/api/songs/route.ts:31-32 | Each rating of the song is kept as often as the song's rows carry it |
| Ratings.SongStats | app/api/songs/route.ts:31-40 | A song's batch statistic is {0, 0} exactly when none of its rows carries a rating, and counts at most the rows |
| Ratings.RatedCountIsLength | app/api/songs/route.ts:31-39 | A song's batch count equals the number of rows of that song with a non-null rating, counted row by row |
| Ratings.BatchMatchesSingle | app/api/songs/route.ts:31-40 | The batch statistic of a song equals the single-song route's statistic over that song's rows alone |
| Ratings.SongRatingsAreValidRatings | app/api/songs/route.ts:31-32 | Filtering by song and non-null rating is filtering by song, then dropping nulls |
| Ratings.SongStatsIgnoresOtherSongs | app/api/songs/route.ts:31 | Adding a row of another song never changes a song's statistic |
| Ratings.NoRatedRowsNoStats | app/api/songs/route.ts:33-40 | A song none of whose rows carries a rating gets {0, 0} |
| Ratings.ExampleThreeVotes | app/api/votes/route.ts:104-111 | Ratings 7, 9, 8 give average 8.0 over 3 votes |
| Ratings.ExampleFourVotes | app/api/votes/route.ts:104-111 | Ratings 7, 9, 8, 5 (mean 7.25) give 7.3 over 4 votes |
| Ratings.ExampleNullRating | app/api/votes/route.ts:104-111 | 7, null, 9, 8 give the same 8.0 over 3 votes |
| KeyedList.IndexOfKey | lib/storage.ts:29-31 | `findIndex`: the first index carrying the key, or -1 exactly when no element carries it |
| KeyedList.IndexOfPresentKey | lib/storage.ts:29-31 | A key carried at index i is found at i or before |
| KeyedList.Upsert | lib/storage.ts:29-36 | With the key present, the first element carrying it is replaced and every other element stays; otherwise the new element is appended after all old ones |
| KeyedList.UpsertReplaces | lib/storage.ts:32-33 | With the key present, upsert is assignment at the found index |
| KeyedList.UpsertAppends | lib/storage.ts:34-36 | With the key absent, upsert is appending |
| KeyedList.UpsertOverwrites | lib/storage.ts:29-36 | Two upserts with the same key equal the second one alone |
| KeyedList.UpsertIdempotent | lib/storage.ts:29-36 | Upserting the same element twice equals upserting it once |
| KeyedList.UpsertKeepsUniqueKeys | lib/storage.ts:29-36 | A list with at most one element per key keeps that shape |
| KeyedList.UpsertKeepsUniqueKeysAmong | app/api/votes/route.ts:56-62 | Uniqueness among a chosen kind of keys (rows with a user) survives an upsert, while other keys may repeat |
| KeyedList.AsMap | app/api/votes/route.ts:56-62 | The map's keys are exactly the keys carried in the list |
| KeyedList.AsMapPicksFirst | app/api/votes/route.ts:56-62 | A key of the list stands for the first record carrying it, the one `findIndex` and the upsert find |
| KeyedList.UpsertIsMapUpdate | app/api/votes/route.ts:56-62 | Viewed as a map from key to its first element, upsert is the map update at the element's key |
| Common.FalsyValues | app/api/votes/route.ts:21 | A body field fails the `!rating` test exactly when it is missing, null, false, 0 or the empty string |
| Common.TruthyStringIsPresent | app/api/songs/route.ts:71 | For a text field, JavaScript truthiness is the same as being a non-empty string |
| VotesApi.ValidateVote | app/api/votes/route.ts:21-40 | Accepted iff songId is non-empty and the rating is a JSON number in [1, 10]; a missing songId or falsy rating (0 included) gives "Missing required fields"; anything else gives the range message; an accepted rating is rounded to an integer in [1, 10] within half a unit of the input |
| VotesApi.NewVoteRow | app/api/votes/route.ts:38-46 | The written row is keyed on the song and the signed-in user, carries the rounded rating, the comment only when non-empty, a non-empty display name and the request time |
| VotesApi.SongStatsIn | app/api/votes/route.ts:94-111 | The statistic of one song counts at most the table's rows and is {0, 0} exactly when none of the song's rows carries a rating |
| VotesApi.PostVote | app/api/votes/route.ts:5-112 | 401 and 400 leave the table unchanged; success holds exactly for a user with an accepted request; the table is then the upsert of the new row on (song_id, user_id), so it is in the table, no other row changes and the table grows by at most one; the answer is the song's statistic over the new table |
| VotesApi.GetVotes | app/api/votes/route.ts:123-162 | A missing songId gives 400, a failed query 500 "Failed to fetch votes"; success holds exactly otherwise, the body is that song's statistic over the table and its count is the number of the song's rated rows |
| VotesApi.PostThenGetAgree | app/api/votes/route.ts:104-154 | GET over the table a successful POST leaves behind returns the very statistic POST answered |
| VotesApi.CountAfterUpdate | app/api/votes/route.ts:56-62 | Replacing a row by one of the same song and the same rated/unrated kind keeps every song's count |
| VotesApi.TotalIsRatedCount | app/api/votes/route.ts:104-111 | The route's totalVotes is the number of the song's rated rows in the table |
| VotesApi.RevoteKeepsTotal | app/api/votes/route.ts:56-62 | A user who re-rates a song leaves its vote count unchanged |
| VotesApi.FirstVoteAddsOne | app/api/votes/route.ts:56-62 | A user's first rating of a song adds exactly one to its count |
| VotesApi.ResubmitSameResponse | app/api/votes/route.ts:56-112 | Submitting the same vote again, at any time, answers the same statistic |
| VotesApi.PostIsKeyedUpdate | app/api/votes/route.ts:56-62 | Under the (song_id, user_id) unique index, which lets rows without a user repeat, the table stays unique among rows with a user and, read as a map from key to first row, becomes the old table with the user's entry set to the new row |
| Supabase.AddedBy | lib/supabase.ts:53 | `added_by_name`, else `added_by`, else "Unknown", whichever is first non-empty; never empty |
| Supabase.DbSongToSong | lib/supabase.ts:45-57 | Fields are copied under their new names, `addedBy` follows the fallback chain, the statistics are passed through and no owner id is set |
| Supabase.DbSongToSongRecoversRow | lib/supabase.ts:46-56 | When the display name was stored, the row is recoverable from the song apart from `created_at` and the owner id |
| SongsApi.ListSongs | app/api/songs/route.ts:6-52 | Success iff both queries succeeded, else 500 "Failed to fetch songs"; one entry per fetched song in store order, each the `dbSongToSong` image of its row (all fields and the `addedBy` fallback) with a count of that song's rated votes |
| SongsApi.ListedStatsMatchVoteRoute | app/api/songs/route.ts:30-42 | Each listed song carries the statistic the single-song vote route computes for it |
| SongsApi.UnratedSongListedWithZero | app/api/songs/route.ts:33-40 | A song with no rated vote is listed with {0, 0} |
| SongsApi.ListedSongIgnoresOtherVotes | app/api/songs/route.ts:31 | A vote on another song never changes a listed song's entry |
| SongsApi.CreateSong | app/api/songs/route.ts:55-108 | 401 without a user and 400 when any of the five fields is falsy, with nothing inserted; otherwise the inserted row carries the fields, the caller's id and display name and the time; a store error gives 500 "Failed to create song", success 201 with the stored row as a song with {0, 0} |
| SongsApi.CreatedSongIsListed | app/api/songs/route.ts:30-41 | The 201 answer for a new song equals the entry the song list shows for the stored row while nobody has rated it |
| SetlistsApi.InsertByPosition | app/api/setlists/route.ts:73 | Inserting into a position-sorted list keeps it sorted and adds exactly the new row |
| SetlistsApi.SortByPosition | app/api/setlists/route.ts:73 | The result is sorted ascending by position and is a permutation of the input |
| SetlistsApi.GetVoteStats | app/api/setlists/route.ts:51-62 | No vote data gives {0, 0}; otherwise the song's batch statistic |
| SetlistsApi.ToSong | app/api/setlists/route.ts:79-90 | The nested song keeps id, title, artist, artwork, URLs and owner, shows the display name or "Unknown", an empty `addedAt` and the song's statistic |
| SetlistsApi.ToSetlistSong | app/api/setlists/route.ts:74-90 | Ids and position are copied, the setlist id is the enclosing one, a missing joined song stays missing, and a present one is shown with every field of the join, `addedBy` falling back to "Unknown", an empty `addedAt` and the song's statistic |
| SetlistsApi.MapRows | app/api/setlists/route.ts:74-91 | One mapped entry per join row, in the same order |
| SetlistsApi.MapRowsAppend | app/api/setlists/route.ts:74-91 | Mapping distributes over concatenation |
| SetlistsApi.MapRowsPermutation | app/api/setlists/route.ts:74-91 | Rows that are permutations of each other map to entries that are permutations of each other |
| SetlistsApi.SetlistSongs | app/api/setlists/route.ts:72-91 | No join rows gives `[]`; otherwise one entry per join row, ascending by position, each with the enclosing setlist's id |
| SetlistsApi.SetlistSongsArePermutation | app/api/setlists/route.ts:72-91 | No join row is dropped or duplicated: the songs are a permutation of the mapped join rows |
| SetlistsApi.TransformSetlist | app/api/setlists/route.ts:65-92 | Every column of the setlist row is copied and its join rows become the ordered songs |
| SetlistsApi.ListSetlists | app/api/setlists/route.ts:5-102 | 401 without a user and 500 with the store's message on a failed query; otherwise one setlist per row in query order, with id, name, date, owner and timestamps copied and its ordered songs |
| SetlistsApi.NoVoteDataNoStats | app/api/setlists/route.ts:40-62 | When the votes query yields no data, every listed song shows {0, 0} |
| SetlistsApi.SetlistSongStatsMatchVoteRoute | app/api/setlists/route.ts:51-62 | A setlist song's statistic is the one the single-song vote route computes |
| SetlistsApi.RatedOnly | app/api/setlists/route.ts:40-43 | The votes query keeps exactly the rows with a non-null rating |
| SetlistsApi.RatedOnlyKeepsSongRatings | app/api/setlists/route.ts:40-62 | Dropping unrated rows first leaves every song's batch ratings as they were |
| SetlistsApi.SetlistSongMatchesListedSong | app/api/setlists/route.ts:40-62 | A song shows the same statistic in a setlist as in the song list, although only this route drops unrated votes in the query |
| SetlistsApi.CreateSetlist | app/api/setlists/route.ts:104-157 | 401 without a user and 400 without a rehearsal date, with nothing inserted; otherwise a falsy name is stored as null, a store error is answered with its message, and success is 201 with the stored row's id, name, date, owner and timestamps and no songs |
| SetlistsApi.CreatedSetlistIsListed | app/api/setlists/route.ts:65-92 | The 201 answer for a new setlist equals the setlist the list shows for the stored row before any song is added |
| Reorder.InsertAt | app/setlists/page.tsx:148 | `splice(i, 0, x)`: x at i, the elements before unchanged, the rest shifted one place back |
| Reorder.RemoveAt | app/setlists/page.tsx:147 | `splice(i, 1)`: the elements before i unchanged, the rest shifted one place forward |
| Reorder.MoveItem | app/setlists/page.tsx:140-154 | Same length; the dragged id lands at the target index; dragging down shifts dragged+1..target one place forward, dragging up shifts target..dragged-1 one place back; ids outside that range stay |
| Reorder.MovePreservesOthers | app/setlists/page.tsx:145-154 | Removing the moved id from the new order gives the old order without it: all other ids keep their relative order |
| Reorder.MoveIsPermutation | app/setlists/page.tsx:141-154 | The new order is a permutation of the old one |
| Reorder.RemoveThenInsert | app/setlists/page.tsx:145-148 | The drag-down branch is a permutation |
| Reorder.InsertThenRemove | app/setlists/page.tsx:149-154 | The drag-up branch is a permutation |
| Reorder.SongIds | app/setlists/page.tsx:134 | The setlist's song ids, one per song, in order |
| Reorder.DropOnSetlistSong | app/setlists/page.tsx:124-154 | No change when nothing is dragged, when a song is dropped on itself or when the setlist is missing; a request names the setlist, requires both ids in it, keeps the length and puts the dragged id at the target's index |
| Reorder.DropRequestsPermutation | app/setlists/page.tsx:129-154 | When both ids are in the setlist, a request is made and its order is a permutation of the song ids that keeps the other ids in order |
| YouTube.RunEnd | lib/youtube.ts:4 | `[^&\n?#]+` is greedy: the run stops exactly at the first separator or the end |
| YouTube.RunEndIsFirstSeparator | lib/youtube.ts:4 | Any position that is the first separator after the start is the run's end |
| YouTube.DirectGroup | lib/youtube.ts:4 | When the first pattern matches at a position, its group starts on a non-separator after the marker |
| YouTube.ScanDirect | lib/youtube.ts:9 | The leftmost position at or after the start where the first pattern matches, or none when it matches nowhere there |
| YouTube.MatchDirect | lib/youtube.ts:4 | The first pattern fails iff it matches nowhere; otherwise the capture is the clean maximal run after the leftmost match's marker |
| YouTube.LineEnd | lib/youtube.ts:5 | The first line terminator at or after a position, which `.` cannot cross |
| YouTube.LastParam | lib/youtube.ts:5 | The last `[?&]v=` followed by an allowed character in a range, or none in it |
| YouTube.SiteParam | lib/youtube.ts:5 | The `[?&]v=` the second pattern uses at a position is a match, and no later one on the line matches |
| YouTube.ScanSite | lib/youtube.ts:5 | The leftmost position where the second pattern can match, or none |
| YouTube.MatchSiteParam | lib/youtube.ts:5 | The second pattern fails iff it matches nowhere; otherwise the capture is the clean run after the last `[?&]v=` on the line of the leftmost `youtube.com/` that has one |
| YouTube.FoundSite | lib/youtube.ts:5 | The position the scan finds is a match with a clean capture, and the only leftmost one |
| YouTube.NoSiteMatch | lib/youtube.ts:5 | When the scan finds nothing, no position and parameter form a match |
| YouTube.LeftmostSiteUnique | lib/youtube.ts:5 | The leftmost match and its last parameter are unique |
| YouTube.Trim | lib/youtube.ts:16 | `trim`: the input with its leading and trailing white space cut off, no white space left at either end, and input without white space at its ends unchanged |
| YouTube.TrimBetween | lib/youtube.ts:16 | Between white-space margins whose inner ends are not white space, trimming keeps exactly that middle part |
| YouTube.TrimPadded | lib/youtube.ts:16 | A text padded with white space on either side trims back to the text |
| YouTube.ExtractYouTubeId | lib/youtube.ts:2-21 | The first pattern's capture if any, else the second's, else the trimmed input if it is a bare 11-character id, else null; any id returned is clean |
| YouTube.IdCharsAreClean | lib/youtube.ts:16-18 | A bare id contains no separator, so the fallback also returns a clean id |
| YouTube.ThumbnailUrl | lib/youtube.ts:24-26 | The URL is the fixed prefix, the id and the fixed suffix, so the id can be read back |
| YouTube.ThumbnailInjective | lib/youtube.ts:24-26 | Different ids give different thumbnail URLs |
| YouTube.EmbedUrl | lib/youtube.ts:29-31 | The URL starts with the embed prefix and ends in `autoplay=1` exactly when autoplay is asked for, `autoplay=0` otherwise, including by default |
| YouTube.DirectRoundTrip | lib/youtube.ts:4-13 | Any lead without 'y', then a marker, a clean id and a tail starting with a separator, extracts to that id |
| YouTube.EmbedUrlRoundTrip | lib/youtube.ts:4-31 | Extracting from the embed URL of a clean id gives the id back |
| YouTube.WatchLinkRoundTrip | lib/youtube.ts:4-13 | A `youtube.com/watch?v=` link of a clean id gives the id back |
| YouTube.ShortLinkRoundTrip | lib/youtube.ts:4-13 | A `youtu.be/` link of a clean id gives the id back |
| YouTube.SharedLinkRoundTrip | lib/youtube.ts:5-13 | A watch link whose `v` comes after another parameter misses the first pattern and the second returns the id |
| YouTube.NoDirectInIdChars | lib/youtube.ts:4 | The first pattern cannot match inside a run of id characters |
| YouTube.BareIdNoDirect | lib/youtube.ts:4 | The first pattern never matches a bare id |
| YouTube.BareIdNoSite | lib/youtube.ts:5 | The second pattern never matches a bare id |
| YouTube.BareIdUntrimmed | lib/youtube.ts:16 | Trimming leaves a bare id unchanged |
| YouTube.BareIdRoundTrip | lib/youtube.ts:16-18 | A bare 11-character id is returned as it is |
| Storage.SaveSong | lib/storage.ts:12-17 | The song is appended after every stored song, which all stay |
| Storage.SaveVote | lib/storage.ts:25-38 | The vote is stored; when the voter already had a vote for the song, the first such entry is replaced in place and nothing else changes, otherwise the vote is appended; the length is kept exactly in the first case |
| Storage.LastVoteWins | lib/storage.ts:29-36 | A later vote by the same voter on the same song replaces the earlier one as if it had never been saved |
| Storage.SaveVoteIdempotent | lib/storage.ts:29-36 | Saving the same vote twice stores it once |
| Storage.SaveVoteKeepsOneVotePerVoter | lib/storage.ts:29-36 | One vote per voter and song is kept, and that voter's entry for the song becomes the saved vote |
| Storage.UpdateSongVotes | lib/storage.ts:42-51 | Whatever is stored, both counts are zero |
| UserVotes.SelectUserVotes | app/api/votes/user/route.ts:19-23 | A selected row is exactly the projection of a table row of this user with a non-null rating |
| UserVotes.Entry | app/api/votes/user/route.ts:32-35 | The rating is copied and the comment is kept exactly when it is non-empty |
| UserVotes.VotesMap | app/api/votes/user/route.ts:30-36 | The keys are exactly the song ids of the rows; each value comes from a row of that song, and the last row of a song wins |
| UserVotes.GetUserVotes | app/api/votes/user/route.ts:5-46 | 401 without a user, 500 "Failed to fetch user votes" on a failed query; otherwise the keys are exactly the songs this user rated, each value is the rating and non-empty comment of one of the user's rated rows for that song, namely the last one in store order |
| UserVotes.LastSelectedRowWins | app/api/votes/user/route.ts:30-35 | The `forEach` leaves each song with the entry of the user's last rated row for it |
| UserVotes.UserMapShowsVotes | app/api/votes/user/route.ts:19-36 | The map built from the query has exactly the user's rated songs as keys, each with the entry of one of the user's rows for it and of the last one |
| UserVotes.EntryIsTheUsersVote | app/api/votes/user/route.ts:30-36 | With at most one row per song and signed-in user, a song's entry carries the rating and comment of the user's row for it |
| UserVotes.PostThenUserVotes | app/api/votes/user/route.ts:19-36 | After an accepted vote, the user's votes map has the saved rating and comment for that song |
| Dashboard.Band | app/page.tsx:66-71 | Each rating falls in exactly one of the four gradient bands |
| Dashboard.RatingColor | app/page.tsx:66-71 | Emerald/teal iff ≥ 8, cyan/blue iff in [6, 8), yellow/orange iff in [4, 6), red/pink iff < 4 (an unrated 0 included) |
| Dashboard.RatingColorMonotone | app/page.tsx:66-71 | A higher rating never gets a lower band |
| Dashboard.StatsColor | app/page.tsx:236 | On a song's statistics the band is decided by the tenths: 80, 60, 40 |
| Dashboard.NatToString | app/page.tsx:230 | The decimal text is non-empty, all digits and without a leading zero |
| Dashboard.ParseNatToString | app/page.tsx:230 | Reading the decimal text back gives the number |
| Dashboard.VoteCountText | app/page.tsx:230 | The label starts with the count and ends in 's' exactly when the count is not 1 |
| Dashboard.VoteCountTextReadsBack | app/page.tsx:230 | The number at the front of the label is the vote count |
| Dashboard.AverageText | app/page.tsx:241 | A dash iff the average is not positive; otherwise digits, a point and one digit |
| Dashboard.AverageTextReadsBack | app/page.tsx:241 | The shown one-decimal text reads back as the stored number of tenths |

## Left out

- Malformed request bodies: a body that is not JSON, or not an object, makes `request.json()` or the destructuring throw, and each POST answers 500 (`app/api/votes/route.ts:113-118`, `app/api/songs/route.ts:101-106`, `app/api/setlists/route.ts:150-155`). The models take an already-parsed record.
- Concurrent writes: POST /api/votes reads the statistic back with a second query after the upsert (`app/api/votes/route.ts:94-98`). The model computes it over the table the upsert left, so a write by someone else between the two queries is not modelled.
- Store failures in POST /api/votes (`app/api/votes/route.ts:90-119`): the model assumes the upsert and the statistics query succeed, so the "Failed to save vote" 500 is not produced.
- The `voter_name` missing-column retry (`app/api/votes/route.ts:64-92`): it branches on a database error code, not on domain data.
- Request bodies: text fields are strings or absent. A non-string JSON value in a text field is not modelled. The rating is a full JSON value, so its `typeof` check is modelled.
- Floating point: averages are exact integer tenths. JavaScript's double division can differ from this at exact .5 boundaries when n is not a power of two.
- Dashboard.AverageText: `toFixed(1)` is modelled on the exact tenths, not on the double the route returns.
- The rating bar width (`app/page.tsx:237`): a style percentage only.
- SetlistsApi.SortByPosition: sortedness and permutation are proved; stability is not. The insertion sort used keeps equal positions in input order, as `Array.prototype.sort` does.
- `!selectedSetlist.songs` (`app/setlists/page.tsx:132`): `songs` is always an array once a setlist is listed, so the model has no missing-songs case.
- After the reorder request the page calls the server and reloads (`app/setlists/page.tsx:156-160`). That is I/O; the model stops at the request.
- The server-side setlist song endpoints (`app/api/setlists/[setlistId]/songs/route.ts`) are not part of this model.
- localStorage reads and writes and the `typeof window` guards in `lib/storage.ts`: I/O. The model takes the stored list as input and returns the list written back.
- Storage.UpdateSongVotes: the filter it computes is unused, so the model does not compute it.
- Authentication, realtime subscriptions, React state and rendering: external services and UI.
- `created_at` and the other timestamps are opaque strings passed in. The clock is not modelled.
