/** The row-to-domain adapter for songs (`dbSongToSong`). */
module Supabase {
  import opened Common
  import opened Ratings

  /** A row of the songs table. `added_by` is nullable for legacy rows. */
  datatype DbSong = DbSong(
    id: string,
    title: string,
    artist: string,
    artwork: string,
    youtubeUrl: string,
    youtubeId: string,
    addedBy: Option<string>,
    addedByName: Option<string>,
    addedAt: string,
    createdAt: string)

  /** The song the client sees. */
  datatype Song = Song(
    id: string,
    title: string,
    artist: string,
    artwork: string,
    youtubeUrl: string,
    youtubeId: string,
    addedBy: string,
    addedAt: string,
    userId: Option<string>,
    votes: Stats)

  /** `added_by_name || added_by || 'Unknown'`. */
  function AddedBy(row: DbSong): (name: string)
    ensures name != []
    ensures Present(row.addedByName) ==> name == row.addedByName.value
    ensures !Present(row.addedByName) && Present(row.addedBy) ==> name == row.addedBy.value
    ensures !Present(row.addedByName) && !Present(row.addedBy) ==> name == "Unknown"
  {
    OrElse(row.addedByName, OrElse(row.addedBy, "Unknown"))
  }

  function DbSongToSong(row: DbSong, votes: Stats): (s: Song)
    ensures s.id == row.id && s.title == row.title && s.artist == row.artist && s.artwork == row.artwork
    ensures s.youtubeUrl == row.youtubeUrl && s.youtubeId == row.youtubeId
    ensures s.addedBy == AddedBy(row) && s.addedAt == row.addedAt
    ensures s.votes == votes
    ensures s.userId.None?
  {
    Song(row.id, row.title, row.artist, row.artwork, row.youtubeUrl, row.youtubeId,
         AddedBy(row), row.addedAt, None, votes)
  }

  /** The adapter loses nothing but `created_at` and the owner's id: the row
      is recoverable from the song whenever its display name was stored. */
  lemma DbSongToSongRecoversRow(row: DbSong, votes: Stats)
    requires Present(row.addedByName)
    ensures var s := DbSongToSong(row, votes);
      row == DbSong(s.id, s.title, s.artist, s.artwork, s.youtubeUrl, s.youtubeId,
                    row.addedBy, Some(s.addedBy), s.addedAt, row.createdAt)
  {
  }
}
