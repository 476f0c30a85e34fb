/** The repository side of the library (src/library.rs): the rows of the
    relational store, held in memory as sequences in insertion order, and the
    `Library` methods that read and write them.

    Every SQL statement the repository issues is replaced by its effect on these
    tables: a lookup by natural key returns the first matching row, an `INSERT`
    appends a row and fails when the primary key is already taken, an
    `INSERT OR IGNORE` appends only a row that is not already present, and a
    `DELETE` removes the matching rows. Each operation is first defined as a
    function from the tables to an `Outcome` (the tables afterwards, which keep
    whatever was written before a failure, and the returned value or error),
    and the class methods are proved to behave as those functions say. */
module LibraryStore {
  import opened Wrappers
  import opened Strings
  import opened LibraryData

  datatype AlbumRow = AlbumRow(id: string, title: string, releaseYear: Option<int32>, albumArt: Option<seq<byte>>)

  datatype TrackRow = TrackRow(
    id: string, title: string, albumId: string, duration: real, path: Option<string>,
    source: TrackSource, sourceId: Option<string>, trackNumber: Option<int32>)

  /** A row of `album_artists` or `track_artists`: the owning album or track, and the artist. */
  datatype Link = Link(owner: string, artistId: string)

  datatype PlaylistEntry = PlaylistEntry(playlistId: string, trackId: string, position: int)

  datatype Tables = Tables(
    artists: seq<Artist>,
    albums: seq<AlbumRow>,
    tracks: seq<TrackRow>,
    albumArtists: seq<Link>,
    trackArtists: seq<Link>,
    playlistTracks: seq<PlaylistEntry>)

  /** The tables after a repository call, and what the call returned. */
  datatype Outcome<T> = Outcome(db: Tables, result: Result<T>)

  const EmptyTables: Tables := Tables([], [], [], [], [], [])

  function UniqueViolation(table: string): string {
    "Execute failed: UNIQUE constraint failed: " + table + ".id"
  }

  // ---------------------------------------------------------------------------
  // The store's invariant: natural keys and primary keys are unique, junction
  // rows are never duplicated, playlist positions start at 1.

  ghost predicate ArtistsValid(rows: seq<Artist>) {
    && (forall i, j :: 0 <= i < j < |rows| ==> rows[i].name != rows[j].name)
    && (forall i, j :: 0 <= i < j < |rows| ==> rows[i].id != rows[j].id)
  }

  ghost predicate AlbumsValid(rows: seq<AlbumRow>) {
    && (forall i, j :: 0 <= i < j < |rows| ==> rows[i].title != rows[j].title)
    && (forall i, j :: 0 <= i < j < |rows| ==> rows[i].id != rows[j].id)
  }

  ghost predicate TracksValid(rows: seq<TrackRow>) {
    forall i, j :: 0 <= i < j < |rows| ==> rows[i].id != rows[j].id
  }

  ghost predicate Distinct(links: seq<Link>) {
    forall i, j :: 0 <= i < j < |links| ==> links[i] != links[j]
  }

  ghost predicate PlaylistValid(entries: seq<PlaylistEntry>) {
    && (forall i, j :: 0 <= i < j < |entries| ==>
          (entries[i].playlistId, entries[i].trackId) != (entries[j].playlistId, entries[j].trackId))
    && (forall i :: 0 <= i < |entries| ==> entries[i].position >= 1)
  }

  ghost predicate Valid(db: Tables) {
    && ArtistsValid(db.artists)
    && AlbumsValid(db.albums)
    && TracksValid(db.tracks)
    && Distinct(db.albumArtists)
    && Distinct(db.trackArtists)
    && PlaylistValid(db.playlistTracks)
  }

  /** `later` holds every row of `earlier`, at the same places, and possibly more after them. */
  ghost predicate Grows(earlier: Tables, later: Tables) {
    && earlier.artists <= later.artists
    && earlier.albums <= later.albums
    && earlier.tracks <= later.tracks
    && earlier.albumArtists <= later.albumArtists
    && earlier.trackArtists <= later.trackArtists
    && earlier.playlistTracks == later.playlistTracks
  }

  // ---------------------------------------------------------------------------
  // Lookups: `SELECT ... WHERE key = ?` followed by `rows.first()`

  function FindArtistByName(rows: seq<Artist>, name: string): (r: Option<Artist>)
    ensures r.Some? ==> r.value in rows && r.value.name == name
    ensures r.None? <==> forall i :: 0 <= i < |rows| ==> rows[i].name != name
    decreases |rows|
  {
    if |rows| == 0 then None
    else if rows[0].name == name then Some(rows[0])
    else FindArtistByName(rows[1..], name)
  }

  function FindArtistById(rows: seq<Artist>, id: string): (r: Option<Artist>)
    ensures r.Some? ==> r.value in rows && r.value.id == id
    ensures r.None? <==> forall i :: 0 <= i < |rows| ==> rows[i].id != id
    decreases |rows|
  {
    if |rows| == 0 then None
    else if rows[0].id == id then Some(rows[0])
    else FindArtistById(rows[1..], id)
  }

  function FindAlbumRowByTitle(rows: seq<AlbumRow>, title: string): (r: Option<AlbumRow>)
    ensures r.Some? ==> r.value in rows && r.value.title == title
    ensures r.None? <==> forall i :: 0 <= i < |rows| ==> rows[i].title != title
    decreases |rows|
  {
    if |rows| == 0 then None
    else if rows[0].title == title then Some(rows[0])
    else FindAlbumRowByTitle(rows[1..], title)
  }

  predicate AlbumIdTaken(rows: seq<AlbumRow>, id: string) {
    exists i :: 0 <= i < |rows| && rows[i].id == id
  }

  predicate TrackIdTaken(rows: seq<TrackRow>, id: string) {
    exists i :: 0 <= i < |rows| && rows[i].id == id
  }

  /** `get_album_artists`: the artists joined to `owner` through `links`, in link order. */
  function JoinedArtists(links: seq<Link>, owner: string, artists: seq<Artist>): (r: seq<Artist>)
    ensures forall a :: a in r ==> a in artists && Link(owner, a.id) in links
    ensures forall l :: l in links && l.owner == owner && FindArtistById(artists, l.artistId).Some? ==>
      FindArtistById(artists, l.artistId).value in r
    decreases |links|
  {
    if |links| == 0 then []
    else
      var rest := JoinedArtists(links[1..], owner, artists);
      if links[0].owner == owner then
        match FindArtistById(artists, links[0].artistId)
        case Some(a) => [a] + rest
        case None => rest
      else rest
  }

  /** `find_album_by_title`, with its artists hydrated by the join query. */
  function FindAlbumByTitle(db: Tables, title: string): (r: Option<Album>)
    ensures r.Some? <==> exists i :: 0 <= i < |db.albums| && db.albums[i].title == title
    ensures r.Some? ==> r.value.title == title
  {
    match FindAlbumRowByTitle(db.albums, title)
    case None => None
    case Some(row) =>
      Some(Album(row.id, row.title, JoinedArtists(db.albumArtists, row.id, db.artists), row.releaseYear, row.albumArt))
  }

  // ---------------------------------------------------------------------------
  // Writes

  function InsertOrIgnore(links: seq<Link>, l: Link): (r: seq<Link>)
    ensures l in r
  {
    if l in links then links else links + [l]
  }

  /** `add_artist`: the stored artist of that name if there is one, otherwise
      insert the given artist and return it. */
  function AddArtistSpec(db: Tables, a: Artist): Outcome<Artist> {
    match FindArtistByName(db.artists, a.name)
    case Some(existing) => Outcome(db, Ok(existing))
    case None =>
      if FindArtistById(db.artists, a.id).Some? then Outcome(db, Err(UniqueViolation("artists")))
      else Outcome(db.(artists := db.artists + [a]), Ok(a))
  }

  /** The loop of `add_album` over the album's artists: add each one (deduplicated),
      then link the stored artist to the album; stop at the first failure. */
  function LinkAlbumArtists(db: Tables, albumId: string, artists: seq<Artist>): Outcome<()>
    decreases |artists|
  {
    if |artists| == 0 then Outcome(db, Ok(()))
    else
      var added := AddArtistSpec(db, artists[0]);
      if added.result.Err? then Outcome(added.db, Err(added.result.error))
      else
        var linked := added.db.(albumArtists := InsertOrIgnore(added.db.albumArtists, Link(albumId, added.result.value.id)));
        LinkAlbumArtists(linked, albumId, artists[1..])
  }

  /** `add_album`: the stored album of that title (with nothing inserted and no
      artist linked), otherwise insert the album row and link its artists. */
  function AddAlbumSpec(db: Tables, album: Album): Outcome<Album> {
    match FindAlbumByTitle(db, album.title)
    case Some(existing) => Outcome(db, Ok(existing))
    case None =>
      if AlbumIdTaken(db.albums, album.id) then Outcome(db, Err(UniqueViolation("albums")))
      else
        var inserted := db.(albums := db.albums + [AlbumRow(album.id, album.title, album.releaseYear, album.albumArt)]);
        var linked := LinkAlbumArtists(inserted, album.id, album.artists);
        if linked.result.Err? then Outcome(linked.db, Err(linked.result.error))
        else Outcome(linked.db, Ok(album))
  }

  /** The first loop of `add_track_internal`: add each artist, collecting the stored ones. */
  function AddArtistsSpec(db: Tables, artists: seq<Artist>): Outcome<seq<Artist>>
    decreases |artists|
  {
    if |artists| == 0 then Outcome(db, Ok([]))
    else
      var added := AddArtistSpec(db, artists[0]);
      if added.result.Err? then Outcome(added.db, Err(added.result.error))
      else Prepend(added.result.value, AddArtistsSpec(added.db, artists[1..]))
  }

  function Prepend<T>(x: T, o: Outcome<seq<T>>): Outcome<seq<T>> {
    if o.result.Err? then o else Outcome(o.db, Ok([x] + o.result.value))
  }

  /** The second loop of `add_track_internal`: `INSERT OR IGNORE` one link per artist. */
  function LinkTrackArtists(db: Tables, trackId: string, artists: seq<Artist>): Tables
    decreases |artists|
  {
    if |artists| == 0 then db
    else
      var linked := db.(trackArtists := InsertOrIgnore(db.trackArtists, Link(trackId, artists[0].id)));
      LinkTrackArtists(linked, trackId, artists[1..])
  }

  function TrackRowOf(t: Track, albumId: string): TrackRow {
    TrackRow(t.id, t.title, albumId, t.duration, t.path, t.source, t.sourceId, t.trackNumber)
  }

  /** `add_track_internal`: add the album and the artists, then always insert a new
      track row pointing at the stored album; the returned track carries the stored
      artists and the caller's own album value. */
  function AddTrackInternalSpec(db: Tables, t: Track): Outcome<Track> {
    var album := AddAlbumSpec(db, t.album);
    if album.result.Err? then Outcome(album.db, Err(album.result.error))
    else
      var artists := AddArtistsSpec(album.db, t.artists);
      if artists.result.Err? then Outcome(artists.db, Err(artists.result.error))
      else if TrackIdTaken(artists.db.tracks, t.id) then Outcome(artists.db, Err(UniqueViolation("tracks")))
      else
        var inserted := artists.db.(tracks := artists.db.tracks + [TrackRowOf(t, album.result.value.id)]);
        Outcome(LinkTrackArtists(inserted, t.id, artists.result.value), Ok(t.(artists := artists.result.value)))
  }

  /** The loop of `add_tracks`: add each track in turn, stopping at the first failure. */
  function AddTracksSpec(db: Tables, ts: seq<Track>): Outcome<seq<Track>>
    decreases |ts|
  {
    if |ts| == 0 then Outcome(db, Ok([]))
    else
      var added := AddTrackInternalSpec(db, ts[0]);
      if added.result.Err? then Outcome(added.db, Err(added.result.error))
      else Prepend(added.result.value, AddTracksSpec(added.db, ts[1..]))
  }

  /** `MAX(position)` over the playlist's rows; `None` (SQL `NULL`) when it has none. */
  function MaxPosition(entries: seq<PlaylistEntry>, playlistId: string): (r: Option<int>)
    ensures r.None? <==> forall i :: 0 <= i < |entries| ==> entries[i].playlistId != playlistId
    ensures r.Some? ==> exists i :: 0 <= i < |entries| && entries[i].playlistId == playlistId && entries[i].position == r.value
    ensures r.Some? ==> forall i :: 0 <= i < |entries| && entries[i].playlistId == playlistId ==> entries[i].position <= r.value
    decreases |entries|
  {
    if |entries| == 0 then None
    else
      var rest := MaxPosition(entries[1..], playlistId);
      if entries[0].playlistId != playlistId then rest
      else if rest.Some? && rest.value >= entries[0].position then rest
      else Some(entries[0].position)
  }

  /** `SELECT COALESCE(MAX(position), 0) + 1 FROM playlist_tracks WHERE playlist_id = ?` */
  function NextPosition(entries: seq<PlaylistEntry>, playlistId: string): int {
    MaxPosition(entries, playlistId).GetOr(0) + 1
  }

  predicate HasEntry(entries: seq<PlaylistEntry>, playlistId: string, trackId: string) {
    exists i :: 0 <= i < |entries| && entries[i].playlistId == playlistId && entries[i].trackId == trackId
  }

  /** `add_track_to_playlist`: insert at the next position unless the pair is already there. */
  function AddTrackToPlaylistSpec(db: Tables, playlistId: string, trackId: string): Tables {
    var position := NextPosition(db.playlistTracks, playlistId);
    if HasEntry(db.playlistTracks, playlistId, trackId) then db
    else db.(playlistTracks := db.playlistTracks + [PlaylistEntry(playlistId, trackId, position)])
  }

  function RemoveEntry(entries: seq<PlaylistEntry>, playlistId: string, trackId: string): (r: seq<PlaylistEntry>)
    ensures forall e :: e in r <==> e in entries && !(e.playlistId == playlistId && e.trackId == trackId)
    decreases |entries|
  {
    if |entries| == 0 then []
    else if entries[0].playlistId == playlistId && entries[0].trackId == trackId then RemoveEntry(entries[1..], playlistId, trackId)
    else [entries[0]] + RemoveEntry(entries[1..], playlistId, trackId)
  }

  function RemoveTrackRow(rows: seq<TrackRow>, id: string): (r: seq<TrackRow>)
    ensures forall row :: row in r <==> row in rows && row.id != id
    decreases |rows|
  {
    if |rows| == 0 then []
    else if rows[0].id == id then RemoveTrackRow(rows[1..], id)
    else [rows[0]] + RemoveTrackRow(rows[1..], id)
  }

  // ---------------------------------------------------------------------------
  // The repository object

  class Library {
    var db: Tables
    /** What the broadcast sender has been given, in order. */
    var events: seq<LibraryEvent>

    /** A freshly created store: the schema exists and every table is empty. */
    constructor ()
      ensures db == EmptyTables && events == []
    {
      db := EmptyTables;
      events := [];
    }

    method AddArtist(a: Artist) returns (r: Result<Artist>)
      modifies this
      ensures Outcome(db, r) == AddArtistSpec(old(db), a)
      ensures events == old(events)
    {
      var existing := FindArtistByName(db.artists, a.name);
      if existing.Some? {
        return Ok(existing.value);
      }
      if FindArtistById(db.artists, a.id).Some? {
        return Err(UniqueViolation("artists"));
      }
      db := db.(artists := db.artists + [a]);
      return Ok(a);
    }

    method AddAlbum(album: Album) returns (r: Result<Album>)
      modifies this
      ensures Outcome(db, r) == AddAlbumSpec(old(db), album)
      ensures events == old(events)
    {
      var existing := FindAlbumByTitle(db, album.title);
      if existing.Some? {
        return Ok(existing.value);
      }
      if AlbumIdTaken(db.albums, album.id) {
        return Err(UniqueViolation("albums"));
      }
      db := db.(albums := db.albums + [AlbumRow(album.id, album.title, album.releaseYear, album.albumArt)]);
      ghost var inserted := db;
      var k := 0;
      while k < |album.artists|
        invariant 0 <= k <= |album.artists|
        invariant LinkAlbumArtists(inserted, album.id, album.artists) ==
                  LinkAlbumArtists(db, album.id, album.artists[k..])
        invariant events == old(events)
      {
        var stored := AddArtist(album.artists[k]);
        if stored.Err? {
          return Err(stored.error);
        }
        db := db.(albumArtists := InsertOrIgnore(db.albumArtists, Link(album.id, stored.value.id)));
        assert album.artists[k..][1..] == album.artists[k + 1..];
        k := k + 1;
      }
      return Ok(album);
    }

    method AddTrackInternal(t: Track) returns (r: Result<Track>)
      modifies this
      ensures Outcome(db, r) == AddTrackInternalSpec(old(db), t)
      ensures events == old(events)
    {
      var album := AddAlbum(t.album);
      if album.Err? {
        return Err(album.error);
      }
      ghost var afterAlbum := db;
      var artistsWithIds: seq<Artist> := [];
      var k := 0;
      PrependNothing(AddArtistsSpec(db, t.artists));
      assert t.artists[0..] == t.artists;
      while k < |t.artists|
        invariant 0 <= k <= |t.artists|
        invariant AddArtistsSpec(afterAlbum, t.artists) ==
                  PrependAll(artistsWithIds, AddArtistsSpec(db, t.artists[k..]))
        invariant events == old(events)
      {
        var stored := AddArtist(t.artists[k]);
        if stored.Err? {
          return Err(stored.error);
        }
        PrependTwice(artistsWithIds, stored.value, AddArtistsSpec(db, t.artists[k + 1..]));
        assert t.artists[k..][1..] == t.artists[k + 1..];
        artistsWithIds := artistsWithIds + [stored.value];
        k := k + 1;
      }
      assert t.artists[k..] == [];
      assert artistsWithIds + [] == artistsWithIds;
      assert AddArtistsSpec(afterAlbum, t.artists) == Outcome(db, Ok(artistsWithIds));
      if TrackIdTaken(db.tracks, t.id) {
        return Err(UniqueViolation("tracks"));
      }
      db := db.(tracks := db.tracks + [TrackRowOf(t, album.value.id)]);
      ghost var inserted := db;
      var j := 0;
      assert artistsWithIds[0..] == artistsWithIds;
      while j < |artistsWithIds|
        invariant 0 <= j <= |artistsWithIds|
        invariant LinkTrackArtists(inserted, t.id, artistsWithIds) ==
                  LinkTrackArtists(db, t.id, artistsWithIds[j..])
        invariant events == old(events)
      {
        db := db.(trackArtists := InsertOrIgnore(db.trackArtists, Link(t.id, artistsWithIds[j].id)));
        assert artistsWithIds[j..][1..] == artistsWithIds[j + 1..];
        j := j + 1;
      }
      assert artistsWithIds[j..] == [];
      return Ok(t.(artists := artistsWithIds));
    }

    /** `add_track`: one `TracksAdded([track])` on success, nothing on failure. */
    method AddTrack(t: Track) returns (r: Result<Track>)
      modifies this
      ensures Outcome(db, r) == AddTrackInternalSpec(old(db), t)
      ensures r.Ok? ==> events == old(events) + [TracksAdded([r.value])]
      ensures r.Err? ==> events == old(events)
    {
      r := AddTrackInternal(t);
      if r.Ok? {
        events := events + [TracksAdded([r.value])];
      }
    }

    /** `add_tracks`: one `TracksAdded(results)` when every track was added and there
        was at least one; nothing when the list is empty or a track failed. */
    method AddTracks(ts: seq<Track>) returns (r: Result<seq<Track>>)
      modifies this
      ensures Outcome(db, r) == AddTracksSpec(old(db), ts)
      ensures r.Ok? && |r.value| > 0 ==> events == old(events) + [TracksAdded(r.value)]
      ensures r.Err? || |r.value| == 0 ==> events == old(events)
    {
      var results: seq<Track> := [];
      var k := 0;
      PrependNothing(AddTracksSpec(db, ts));
      assert ts[0..] == ts;
      while k < |ts|
        invariant 0 <= k <= |ts|
        invariant AddTracksSpec(old(db), ts) == PrependAll(results, AddTracksSpec(db, ts[k..]))
        invariant events == old(events)
      {
        var added := AddTrackInternal(ts[k]);
        if added.Err? {
          return Err(added.error);
        }
        PrependTwice(results, added.value, AddTracksSpec(db, ts[k + 1..]));
        assert ts[k..][1..] == ts[k + 1..];
        results := results + [added.value];
        k := k + 1;
      }
      assert ts[k..] == [];
      assert results + [] == results;
      assert AddTracksSpec(old(db), ts) == Outcome(db, Ok(results));
      if |results| > 0 {
        events := events + [TracksAdded(results)];
      }
      return Ok(results);
    }

    method AddTrackToPlaylist(playlistId: string, trackId: string)
      modifies this
      ensures db == AddTrackToPlaylistSpec(old(db), playlistId, trackId)
      ensures events == old(events)
    {
      var position := NextPosition(db.playlistTracks, playlistId);
      if !HasEntry(db.playlistTracks, playlistId, trackId) {
        db := db.(playlistTracks := db.playlistTracks + [PlaylistEntry(playlistId, trackId, position)]);
      }
    }

    method RemoveTrackFromPlaylist(playlistId: string, trackId: string)
      modifies this
      ensures db == old(db).(playlistTracks := RemoveEntry(old(db).playlistTracks, playlistId, trackId))
      ensures events == old(events)
    {
      db := db.(playlistTracks := RemoveEntry(db.playlistTracks, playlistId, trackId));
    }

    /** `delete_track`: removes the track's row; what the engine's foreign keys do
        to the junction rows is not part of this model. */
    method DeleteTrack(id: string)
      modifies this
      ensures db == old(db).(tracks := RemoveTrackRow(old(db).tracks, id))
      ensures events == old(events)
    {
      db := db.(tracks := RemoveTrackRow(db.tracks, id));
    }
  }

  /** The loop accumulator in front of a remaining outcome. */
  function PrependAll<T>(acc: seq<T>, o: Outcome<seq<T>>): Outcome<seq<T>> {
    if o.result.Err? then o else Outcome(o.db, Ok(acc + o.result.value))
  }

  lemma PrependNothing<T>(o: Outcome<seq<T>>)
    ensures PrependAll([], o) == o
  {
    if o.result.Ok? {
      assert [] + o.result.value == o.result.value;
    }
  }

  lemma PrependTwice<T>(acc: seq<T>, x: T, o: Outcome<seq<T>>)
    ensures PrependAll(acc, Prepend(x, o)) == PrependAll(acc + [x], o)
  {
    if o.result.Ok? {
      assert acc + ([x] + o.result.value) == (acc + [x]) + o.result.value;
    }
  }
}
