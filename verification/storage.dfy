/** The legacy browser-storage layer: the stored song list and vote list,
    modelled as the values read before and written after each operation. */
module Storage {
  import opened Common
  import Supabase
  import KeyedList

  /** A locally stored vote. */
  datatype Vote = Vote(songId: string, rating: int, comment: Option<string>, voter: string, timestamp: string)

  /** One vote per voter per song. */
  function VoterKey(v: Vote): (string, string) {
    (v.songId, v.voter)
  }

  /** `saveSong`: the song is added after every stored one. */
  function SaveSong(songs: seq<Supabase.Song>, song: Supabase.Song): (r: seq<Supabase.Song>)
    ensures |r| == |songs| + 1 && r[|songs|] == song
    ensures r[..|songs|] == songs
    ensures multiset(r) == multiset(songs) + multiset{song}
  {
    songs + [song]
  }

  /** `saveVote`: the voter's earlier vote for the song is replaced in place;
      a first vote is appended. No other stored vote moves or changes, and
      the list gains an entry exactly when the voter had no vote for the song. */
  function SaveVote(votes: seq<Vote>, vote: Vote): (r: seq<Vote>)
    ensures vote in r
    ensures |r| == |votes| <==> KeyedList.HasKey(votes, VoterKey, VoterKey(vote))
    ensures |r| == |votes| || |r| == |votes| + 1
    ensures forall j :: 0 <= j < |votes| && VoterKey(votes[j]) != VoterKey(vote) ==> r[j] == votes[j]
    ensures forall w :: w in r ==> w == vote || w in votes
    ensures KeyedList.HasKey(votes, VoterKey, VoterKey(vote)) ==>
      r == votes[KeyedList.IndexOfKey(votes, VoterKey, VoterKey(vote)) := vote]
    ensures !KeyedList.HasKey(votes, VoterKey, VoterKey(vote)) ==> r == votes + [vote]
  {
    var r := KeyedList.Upsert(votes, vote, VoterKey);
    KeyedList.UpsertPresent(votes, vote, VoterKey);
    if KeyedList.HasKey(votes, VoterKey, VoterKey(vote)) then
      KeyedList.UpsertReplaces(votes, vote, VoterKey);
      r
    else
      KeyedList.UpsertAppends(votes, vote, VoterKey);
      r
  }

  /** A vote saved later by the same voter for the same song replaces the
      earlier one as if the earlier one had never been saved. */
  lemma LastVoteWins(votes: seq<Vote>, first: Vote, second: Vote)
    requires first.songId == second.songId && first.voter == second.voter
    ensures SaveVote(SaveVote(votes, first), second) == SaveVote(votes, second)
  {
    KeyedList.UpsertOverwrites(votes, first, second, VoterKey);
  }

  /** Saving the same vote twice stores it once. */
  lemma SaveVoteIdempotent(votes: seq<Vote>, vote: Vote)
    ensures SaveVote(SaveVote(votes, vote), vote) == SaveVote(votes, vote)
  {
    KeyedList.UpsertIdempotent(votes, vote, VoterKey);
  }

  /** A list with one vote per voter and song keeps that shape, and the
      voter's entry for the song is now the saved vote. */
  lemma SaveVoteKeepsOneVotePerVoter(votes: seq<Vote>, vote: Vote)
    requires KeyedList.UniqueKeys(votes, VoterKey)
    ensures KeyedList.UniqueKeys(SaveVote(votes, vote), VoterKey)
    ensures KeyedList.AsMap(SaveVote(votes, vote), VoterKey)
            == KeyedList.AsMap(votes, VoterKey)[VoterKey(vote) := vote]
  {
    KeyedList.UpsertKeepsUniqueKeys(votes, vote, VoterKey);
    KeyedList.UpsertIsMapUpdate(votes, vote, VoterKey);
  }

  /** The legacy yes/no tally. */
  datatype VoteCounts = VoteCounts(yes: nat, no: nat)

  /** `updateSongVotes`: deprecated; whatever is stored, both counts are zero. */
  function UpdateSongVotes(votes: seq<Vote>, songId: string): (c: VoteCounts)
    ensures c.yes == 0 && c.no == 0
  {
    VoteCounts(0, 0)
  }
}
