/** What the repository promises about its tables (src/library.rs): artists are
    deduplicated by name and albums by title, tracks are never deduplicated,
    junction rows are inserted at most once, playlist positions grow, and the
    store's uniqueness invariant survives every operation. */
module LibraryLaws {
  import opened Wrappers
  import opened LibraryData
  import opened LibraryStore

  // ---------------------------------------------------------------------------
  // First-match lookups are stable under appending rows

  lemma {:induction false} FindArtistByNameAppend(rows: seq<Artist>, more: seq<Artist>, name: string)
    requires FindArtistByName(rows, name).Some?
    ensures FindArtistByName(rows + more, name) == FindArtistByName(rows, name)
    decreases |rows|
  {
    if rows[0].name != name {
      assert (rows + more)[1..] == rows[1..] + more;
      FindArtistByNameAppend(rows[1..], more, name);
    }
  }

  lemma FindArtistByNamePrefix(rows: seq<Artist>, longer: seq<Artist>, name: string)
    requires rows <= longer && FindArtistByName(rows, name).Some?
    ensures FindArtistByName(longer, name) == FindArtistByName(rows, name)
  {
    assert longer == rows + longer[|rows|..];
    FindArtistByNameAppend(rows, longer[|rows|..], name);
  }

  lemma {:induction false} FindArtistByNameAfter(rows: seq<Artist>, a: Artist)
    requires FindArtistByName(rows, a.name).None?
    ensures FindArtistByName(rows + [a], a.name) == Some(a)
    decreases |rows|
  {
    if |rows| == 0 {
      assert rows + [a] == [a];
    } else {
      assert (rows + [a])[1..] == rows[1..] + [a];
      FindArtistByNameAfter(rows[1..], a);
    }
  }

  lemma {:induction false} FindAlbumRowAfter(rows: seq<AlbumRow>, row: AlbumRow)
    requires FindAlbumRowByTitle(rows, row.title).None?
    ensures FindAlbumRowByTitle(rows + [row], row.title) == Some(row)
    decreases |rows|
  {
    if |rows| == 0 {
      assert rows + [row] == [row];
    } else {
      assert (rows + [row])[1..] == rows[1..] + [row];
      FindAlbumRowAfter(rows[1..], row);
    }
  }

  /** `INSERT OR IGNORE`: the link is present afterwards, and a duplicate-free table stays so. */
  lemma InsertOrIgnoreKeepsDistinct(links: seq<Link>, l: Link)
    requires Distinct(links)
    ensures var r := InsertOrIgnore(links, l);
      && links <= r && |r| <= |links| + 1 && l in r
      && Distinct(r)
  {
  }

  // ---------------------------------------------------------------------------
  // add_artist

  /** The artist whose stored row of that name is linked to `owner` in `links`. */
  ghost predicate LinkedByName(db: Tables, links: seq<Link>, owner: string, name: string) {
    var stored := FindArtistByName(db.artists, name);
    stored.Some? && Link(owner, stored.value.id) in links
  }

  /** `add_artist` changes only the artists table. When a row of that name exists it is
      returned and nothing is inserted; otherwise exactly the given row is appended and
      returned. It fails only on an id already used by an artist of another name. */
  lemma AddArtistStoresByName(db: Tables, a: Artist)
    ensures var out := AddArtistSpec(db, a);
      && out.db == db.(artists := out.db.artists)
      && db.artists <= out.db.artists
      && (FindArtistByName(db.artists, a.name).Some? ==>
            out == Outcome(db, Ok(FindArtistByName(db.artists, a.name).value)))
      && (FindArtistByName(db.artists, a.name).None? && out.result.Ok? ==>
            out.db.artists == db.artists + [a] && out.result.value == a)
      && (out.result.Ok? ==>
            out.result.value.name == a.name && FindArtistByName(out.db.artists, a.name) == Some(out.result.value))
      && (out.result.Err? <==>
            FindArtistByName(db.artists, a.name).None? && FindArtistById(db.artists, a.id).Some?)
      && (out.result.Err? ==> out.db == db)
  {
    if FindArtistByName(db.artists, a.name).None? && FindArtistById(db.artists, a.id).None? {
      FindArtistByNameAfter(db.artists, a);
    }
  }

  /** Adding an artist of a name already added returns the same stored artist and changes nothing. */
  lemma AddArtistIdempotent(db: Tables, a: Artist, b: Artist)
    requires AddArtistSpec(db, a).result.Ok? && b.name == a.name
    ensures var once := AddArtistSpec(db, a);
      AddArtistSpec(once.db, b) == Outcome(once.db, once.result)
  {
    AddArtistStoresByName(db, a);
  }

  lemma AddArtistPreservesValid(db: Tables, a: Artist)
    requires ArtistsValid(db.artists)
    ensures ArtistsValid(AddArtistSpec(db, a).db.artists)
  {
  }

  // ---------------------------------------------------------------------------
  // add_album

  lemma GrowsKeepsAlbumLink(earlier: Tables, later: Tables, owner: string, name: string)
    requires Grows(earlier, later) && LinkedByName(earlier, earlier.albumArtists, owner, name)
    ensures LinkedByName(later, later.albumArtists, owner, name)
  {
    FindArtistByNamePrefix(earlier.artists, later.artists, name);
  }

  /** Linking an album's artists only adds artist rows and album links. */
  lemma {:induction false} LinkAlbumArtistsFrame(db: Tables, albumId: string, artists: seq<Artist>)
    ensures var out := LinkAlbumArtists(db, albumId, artists);
      && out.db == db.(artists := out.db.artists, albumArtists := out.db.albumArtists)
      && Grows(db, out.db)
    decreases |artists|
  {
    if |artists| > 0 {
      var added := AddArtistSpec(db, artists[0]);
      AddArtistStoresByName(db, artists[0]);
      if added.result.Ok? {
        var linked := added.db.(albumArtists := InsertOrIgnore(added.db.albumArtists, Link(albumId, added.result.value.id)));
        LinkAlbumArtistsFrame(linked, albumId, artists[1..]);
      }
    }
  }

  /** Linking an album's artists keeps artist names and ids unique and album links distinct. */
  lemma {:induction false} LinkAlbumArtistsValid(db: Tables, albumId: string, artists: seq<Artist>)
    requires ArtistsValid(db.artists) && Distinct(db.albumArtists)
    ensures var out := LinkAlbumArtists(db, albumId, artists);
      ArtistsValid(out.db.artists) && Distinct(out.db.albumArtists)
    decreases |artists|
  {
    if |artists| > 0 {
      var added := AddArtistSpec(db, artists[0]);
      AddArtistPreservesValid(db, artists[0]);
      AddArtistStoresByName(db, artists[0]);
      if added.result.Ok? {
        var link := Link(albumId, added.result.value.id);
        var linked := added.db.(albumArtists := InsertOrIgnore(added.db.albumArtists, link));
        InsertOrIgnoreKeepsDistinct(added.db.albumArtists, link);
        LinkAlbumArtistsValid(linked, albumId, artists[1..]);
      }
    }
  }

  /** When the loop completes, every artist of the list is linked to the album by its stored row. */
  lemma {:induction false} LinkAlbumArtistsLinksEach(db: Tables, albumId: string, artists: seq<Artist>)
    ensures var out := LinkAlbumArtists(db, albumId, artists);
      out.result.Ok? ==> forall k :: 0 <= k < |artists| ==> LinkedByName(out.db, out.db.albumArtists, albumId, artists[k].name)
    decreases |artists|
  {
    if |artists| > 0 {
      var added := AddArtistSpec(db, artists[0]);
      AddArtistStoresByName(db, artists[0]);
      if added.result.Ok? {
        var link := Link(albumId, added.result.value.id);
        var linked := added.db.(albumArtists := InsertOrIgnore(added.db.albumArtists, link));
        LinkAlbumArtistsLinksEach(linked, albumId, artists[1..]);
        LinkAlbumArtistsFrame(linked, albumId, artists[1..]);
        var out := LinkAlbumArtists(linked, albumId, artists[1..]);
        assert LinkedByName(linked, linked.albumArtists, albumId, artists[0].name);
        if out.result.Ok? {
          LinkedStep(linked, out.db, albumId, artists);
        }
      }
    }
  }

  /** One step of the induction above, on the tables alone. */
  lemma LinkedStep(linked: Tables, out: Tables, albumId: string, artists: seq<Artist>)
    requires |artists| > 0 && Grows(linked, out)
    requires LinkedByName(linked, linked.albumArtists, albumId, artists[0].name)
    requires forall k :: 0 <= k < |artists[1..]| ==> LinkedByName(out, out.albumArtists, albumId, artists[1..][k].name)
    ensures forall k :: 0 <= k < |artists| ==> LinkedByName(out, out.albumArtists, albumId, artists[k].name)
  {
    GrowsKeepsAlbumLink(linked, out, albumId, artists[0].name);
    forall k | 0 < k < |artists|
      ensures LinkedByName(out, out.albumArtists, albumId, artists[k].name)
    {
      assert artists[1..][k - 1] == artists[k];
    }
  }

  /** `add_album` only adds artist rows, album rows and album links. */
  lemma AddAlbumFrame(db: Tables, album: Album)
    ensures var out := AddAlbumSpec(db, album);
      && out.db == db.(artists := out.db.artists, albums := out.db.albums, albumArtists := out.db.albumArtists)
      && Grows(db, out.db)
  {
    if FindAlbumByTitle(db, album.title).None? && !AlbumIdTaken(db.albums, album.id) {
      var inserted := db.(albums := db.albums + [AlbumRow(album.id, album.title, album.releaseYear, album.albumArt)]);
      LinkAlbumArtistsFrame(inserted, album.id, album.artists);
    }
  }

  /** `add_album` keeps artists, albums and album links free of duplicates. */
  lemma AddAlbumValid(db: Tables, album: Album)
    requires ArtistsValid(db.artists) && AlbumsValid(db.albums) && Distinct(db.albumArtists)
    ensures var out := AddAlbumSpec(db, album);
      ArtistsValid(out.db.artists) && AlbumsValid(out.db.albums) && Distinct(out.db.albumArtists)
  {
    if FindAlbumByTitle(db, album.title).None? && !AlbumIdTaken(db.albums, album.id) {
      var inserted := db.(albums := db.albums + [AlbumRow(album.id, album.title, album.releaseYear, album.albumArt)]);
      assert AlbumsValid(inserted.albums);
      LinkAlbumArtistsFrame(inserted, album.id, album.artists);
      LinkAlbumArtistsValid(inserted, album.id, album.artists);
    }
  }

  /** `add_album`: a stored title is returned as stored, with nothing inserted and no
      artist linked; a new title inserts one album row, links every artist of the
      album, and returns the album given. Either way the returned id is the id of
      the stored album of that title. */
  lemma AddAlbumDeduplicatesByTitle(db: Tables, album: Album)
    ensures var out := AddAlbumSpec(db, album);
      && (FindAlbumByTitle(db, album.title).Some? ==>
            out == Outcome(db, Ok(FindAlbumByTitle(db, album.title).value)))
      && (FindAlbumByTitle(db, album.title).None? && out.result.Ok? ==>
            && out.result.value == album
            && out.db.albums == db.albums + [AlbumRow(album.id, album.title, album.releaseYear, album.albumArt)]
            && forall k :: 0 <= k < |album.artists| ==> LinkedByName(out.db, out.db.albumArtists, album.id, album.artists[k].name))
      && (out.result.Ok? ==>
            && out.result.value.title == album.title
            && FindAlbumRowByTitle(out.db.albums, album.title).Some?
            && FindAlbumRowByTitle(out.db.albums, album.title).value.id == out.result.value.id)
  {
    if FindAlbumByTitle(db, album.title).None? && !AlbumIdTaken(db.albums, album.id) {
      var row := AlbumRow(album.id, album.title, album.releaseYear, album.albumArt);
      var inserted := db.(albums := db.albums + [row]);
      FindAlbumRowAfter(db.albums, row);
      LinkAlbumArtistsFrame(inserted, album.id, album.artists);
      LinkAlbumArtistsLinksEach(inserted, album.id, album.artists);
    }
  }

  /** Adding an album of a title already added returns the stored album (same id) and changes nothing. */
  lemma AddAlbumIdempotent(db: Tables, album: Album, again: Album)
    requires AddAlbumSpec(db, album).result.Ok? && again.title == album.title
    ensures var once := AddAlbumSpec(db, album);
      var twice := AddAlbumSpec(once.db, again);
      && twice.db == once.db
      && twice.result.Ok?
      && twice.result.value.id == once.result.value.id
      && twice.result.value.title == album.title
  {
    AddAlbumDeduplicatesByTitle(db, album);
  }

  // ---------------------------------------------------------------------------
  // add_track_internal, add_tracks

  /** The artist loop of `add_track_internal` only adds artist rows. */
  lemma {:induction false} AddArtistsFrame(db: Tables, artists: seq<Artist>)
    ensures var out := AddArtistsSpec(db, artists);
      out.db == db.(artists := out.db.artists) && db.artists <= out.db.artists
    decreases |artists|
  {
    if |artists| > 0 {
      var added := AddArtistSpec(db, artists[0]);
      AddArtistStoresByName(db, artists[0]);
      if added.result.Ok? {
        AddArtistsFrame(added.db, artists[1..]);
      }
    }
  }

  lemma {:induction false} AddArtistsValid(db: Tables, artists: seq<Artist>)
    requires ArtistsValid(db.artists)
    ensures ArtistsValid(AddArtistsSpec(db, artists).db.artists)
    decreases |artists|
  {
    if |artists| > 0 {
      var added := AddArtistSpec(db, artists[0]);
      AddArtistPreservesValid(db, artists[0]);
      if added.result.Ok? {
        AddArtistsValid(added.db, artists[1..]);
      }
    }
  }

  /** On success the artist loop returns, position by position, the stored artist of each requested name. */
  lemma {:induction false} AddArtistsStored(db: Tables, artists: seq<Artist>)
    ensures var out := AddArtistsSpec(db, artists);
      out.result.Ok? ==>
        && |out.result.value| == |artists|
        && forall k :: 0 <= k < |artists| ==>
             out.result.value[k].name == artists[k].name &&
             FindArtistByName(out.db.artists, artists[k].name) == Some(out.result.value[k])
    decreases |artists|
  {
    if |artists| > 0 {
      var added := AddArtistSpec(db, artists[0]);
      AddArtistStoresByName(db, artists[0]);
      if added.result.Ok? {
        AddArtistsStored(added.db, artists[1..]);
        AddArtistsFrame(added.db, artists[1..]);
        var rest := AddArtistsSpec(added.db, artists[1..]);
        if rest.result.Ok? {
          FindArtistByNamePrefix(added.db.artists, rest.db.artists, artists[0].name);
          StoredStep(rest.db.artists, added.result.value, rest.result.value, artists);
        }
      }
    }
  }

  lemma StoredStep(rows: seq<Artist>, first: Artist, others: seq<Artist>, artists: seq<Artist>)
    requires |artists| > 0 && first.name == artists[0].name
    requires FindArtistByName(rows, artists[0].name) == Some(first)
    requires |others| == |artists| - 1
    requires forall k :: 0 <= k < |others| ==>
      others[k].name == artists[1..][k].name && FindArtistByName(rows, artists[1..][k].name) == Some(others[k])
    ensures forall k :: 0 <= k < |artists| ==>
      ([first] + others)[k].name == artists[k].name &&
      FindArtistByName(rows, artists[k].name) == Some(([first] + others)[k])
  {
    forall k | 0 <= k < |artists|
      ensures ([first] + others)[k].name == artists[k].name
      ensures FindArtistByName(rows, artists[k].name) == Some(([first] + others)[k])
    {
      if k > 0 {
        assert artists[1..][k - 1] == artists[k];
        assert ([first] + others)[k] == others[k - 1];
      }
    }
  }

  /** When every name is already stored, the artist loop succeeds and changes nothing. */
  lemma {:induction false} AddArtistsAllStored(db: Tables, artists: seq<Artist>)
    requires forall k :: 0 <= k < |artists| ==> FindArtistByName(db.artists, artists[k].name).Some?
    ensures AddArtistsSpec(db, artists).db == db && AddArtistsSpec(db, artists).result.Ok?
    decreases |artists|
  {
    if |artists| > 0 {
      AddArtistStoresByName(db, artists[0]);
      assert forall k :: 0 <= k < |artists[1..]| ==> artists[1..][k] == artists[k + 1];
      AddArtistsAllStored(db, artists[1..]);
    }
  }

  /** Linking a track's artists only adds track links, and links every one of them. */
  lemma {:induction false} LinkTrackArtistsEffect(db: Tables, trackId: string, artists: seq<Artist>)
    ensures var out := LinkTrackArtists(db, trackId, artists);
      && out == db.(trackArtists := out.trackArtists)
      && db.trackArtists <= out.trackArtists
      && forall k :: 0 <= k < |artists| ==> Link(trackId, artists[k].id) in out.trackArtists
    decreases |artists|
  {
    if |artists| > 0 {
      var link := Link(trackId, artists[0].id);
      var linked := db.(trackArtists := InsertOrIgnore(db.trackArtists, link));
      LinkTrackArtistsEffect(linked, trackId, artists[1..]);
      var out := LinkTrackArtists(linked, trackId, artists[1..]);
      assert link in linked.trackArtists;
      forall k | 0 <= k < |artists|
        ensures Link(trackId, artists[k].id) in out.trackArtists
      {
        if k > 0 {
          assert artists[1..][k - 1] == artists[k];
        }
      }
    }
  }

  /** Each track link is inserted at most once. */
  lemma {:induction false} LinkTrackArtistsValid(db: Tables, trackId: string, artists: seq<Artist>)
    requires Distinct(db.trackArtists)
    ensures Distinct(LinkTrackArtists(db, trackId, artists).trackArtists)
    decreases |artists|
  {
    if |artists| > 0 {
      var link := Link(trackId, artists[0].id);
      InsertOrIgnoreKeepsDistinct(db.trackArtists, link);
      LinkTrackArtistsValid(db.(trackArtists := InsertOrIgnore(db.trackArtists, link)), trackId, artists[1..]);
    }
  }

  /** `add_track_internal`: on success exactly one track row is appended, carrying
      the track's own fields and the id of the stored album of its album's title;
      the returned track is the caller's, album included, with its artists replaced
      by the stored ones, each of them linked to the track. A failure inserts no
      track row. */
  lemma AddTrackInternalInserts(db: Tables, t: Track)
    ensures var out := AddTrackInternalSpec(db, t);
      && db.tracks <= out.db.tracks
      && out.db.playlistTracks == db.playlistTracks
      && (out.result.Err? ==> out.db.tracks == db.tracks)
      && (out.result.Ok? ==>
            && out.db.tracks == db.tracks + [TrackRowOf(t, FindAlbumRowByTitle(out.db.albums, t.album.title).GetOr(AlbumRow("", "", None, None)).id)]
            && FindAlbumRowByTitle(out.db.albums, t.album.title).Some?
            && out.result.value == t.(artists := out.result.value.artists)
            && |out.result.value.artists| == |t.artists|
            && forall k :: 0 <= k < |t.artists| ==>
                 && out.result.value.artists[k].name == t.artists[k].name
                 && FindArtistByName(out.db.artists, t.artists[k].name) == Some(out.result.value.artists[k])
                 && Link(t.id, out.result.value.artists[k].id) in out.db.trackArtists)
  {
    var album := AddAlbumSpec(db, t.album);
    AddAlbumFrame(db, t.album);
    AddAlbumDeduplicatesByTitle(db, t.album);
    if album.result.Ok? {
      var artists := AddArtistsSpec(album.db, t.artists);
      AddArtistsFrame(album.db, t.artists);
      AddArtistsStored(album.db, t.artists);
      if artists.result.Ok? && !TrackIdTaken(artists.db.tracks, t.id) {
        var inserted := artists.db.(tracks := artists.db.tracks + [TrackRowOf(t, album.result.value.id)]);
        LinkTrackArtistsEffect(inserted, t.id, artists.result.value);
      }
    }
  }

  /** `add_track_internal` keeps the store valid. */
  lemma AddTrackInternalValid(db: Tables, t: Track)
    requires Valid(db)
    ensures Valid(AddTrackInternalSpec(db, t).db)
  {
    var album := AddAlbumSpec(db, t.album);
    AddAlbumFrame(db, t.album);
    AddAlbumValid(db, t.album);
    if album.result.Ok? {
      var artists := AddArtistsSpec(album.db, t.artists);
      AddArtistsFrame(album.db, t.artists);
      AddArtistsValid(album.db, t.artists);
      if artists.result.Ok? && !TrackIdTaken(artists.db.tracks, t.id) {
        var inserted := artists.db.(tracks := artists.db.tracks + [TrackRowOf(t, album.result.value.id)]);
        assert TracksValid(inserted.tracks);
        LinkTrackArtistsEffect(inserted, t.id, artists.result.value);
        LinkTrackArtistsValid(inserted, t.id, artists.result.value);
      }
    }
  }

  /** Tracks are not deduplicated: adding the same track again under a fresh id
      stores a second row, pointing at the same album. */
  lemma AddTrackTwiceStoresTwo(db: Tables, t: Track, freshId: string)
    requires AddTrackInternalSpec(db, t).result.Ok?
    requires !TrackIdTaken(AddTrackInternalSpec(db, t).db.tracks, freshId)
    ensures var once := AddTrackInternalSpec(db, t);
      var twice := AddTrackInternalSpec(once.db, t.(id := freshId));
      && twice.result.Ok?
      && |twice.db.tracks| == |db.tracks| + 2
      && twice.db.tracks[|db.tracks|].albumId == twice.db.tracks[|db.tracks| + 1].albumId
  {
    var once := AddTrackInternalSpec(db, t);
    var t2 := t.(id := freshId);
    AddTrackInternalInserts(db, t);
    var stored := FindAlbumRowByTitle(once.db.albums, t.album.title);
    assert stored.Some?;
    assert once.db.tracks[|db.tracks|].albumId == stored.value.id;
    // The album is found by title, so nothing is inserted for it.
    assert FindAlbumByTitle(once.db, t2.album.title).Some?;
    var album := AddAlbumSpec(once.db, t2.album);
    assert album.db == once.db && album.result.Ok?;
    // Every artist is found by name, so nothing is inserted for them either.
    AddArtistsAllStored(once.db, t2.artists);
    AddTrackInternalInserts(once.db, t2);
    var twice := AddTrackInternalSpec(once.db, t2);
    assert twice.result.Ok?;
    var artists := AddArtistsSpec(once.db, t2.artists);
    var inserted := once.db.(tracks := once.db.tracks + [TrackRowOf(t2, album.result.value.id)]);
    LinkTrackArtistsEffect(inserted, t2.id, artists.result.value);
    assert twice.db.albums == once.db.albums;
    assert twice.db.tracks[|db.tracks|] == once.db.tracks[|db.tracks|];
  }

  /** The part of `AddTrackInternalInserts` that `add_tracks` relies on. */
  lemma AddTrackInternalAppendsRow(db: Tables, t: Track)
    ensures var out := AddTrackInternalSpec(db, t);
      && db.tracks <= out.db.tracks
      && (out.result.Ok? ==>
            |out.db.tracks| == |db.tracks| + 1 && out.db.tracks[|db.tracks|].id == t.id && out.result.value.id == t.id)
  {
    AddTrackInternalInserts(db, t);
  }

  /** `add_tracks` answers with one result per track, in order. */
  lemma {:induction false} AddTracksResults(db: Tables, ts: seq<Track>)
    ensures var out := AddTracksSpec(db, ts);
      out.result.Ok? ==>
        |out.result.value| == |ts| && forall k :: 0 <= k < |ts| ==> out.result.value[k].id == ts[k].id
    decreases |ts|
  {
    if |ts| > 0 {
      var added := AddTrackInternalSpec(db, ts[0]);
      AddTrackInternalAppendsRow(db, ts[0]);
      if added.result.Ok? {
        AddTracksResults(added.db, ts[1..]);
        var rest := AddTracksSpec(added.db, ts[1..]);
        if rest.result.Ok? {
          forall k | 0 < k < |ts|
            ensures rest.result.value[k - 1].id == ts[k].id
          {
            assert ts[1..][k - 1] == ts[k];
          }
        }
      }
    }
  }

  /** `add_tracks` never removes or rewrites a track row. */
  lemma {:induction false} AddTracksKeepsRows(db: Tables, ts: seq<Track>)
    ensures db.tracks <= AddTracksSpec(db, ts).db.tracks
    decreases |ts|
  {
    if |ts| > 0 {
      var added := AddTrackInternalSpec(db, ts[0]);
      AddTrackInternalAppendsRow(db, ts[0]);
      if added.result.Ok? {
        AddTracksKeepsRows(added.db, ts[1..]);
      }
    }
  }

  function RowIds(rows: seq<TrackRow>): (r: seq<string>)
    ensures |r| == |rows| && forall i :: 0 <= i < |rows| ==> r[i] == rows[i].id
  {
    seq(|rows|, i requires 0 <= i < |rows| => rows[i].id)
  }

  function TrackIds(ts: seq<Track>): (r: seq<string>)
    ensures |r| == |ts| && forall i :: 0 <= i < |ts| ==> r[i] == ts[i].id
  {
    seq(|ts|, i requires 0 <= i < |ts| => ts[i].id)
  }

  /** On success `add_tracks` has appended exactly one row per track, in the order given. */
  lemma {:induction false} AddTracksInsertsEach(db: Tables, ts: seq<Track>)
    ensures var out := AddTracksSpec(db, ts);
      out.result.Ok? ==> RowIds(out.db.tracks) == RowIds(db.tracks) + TrackIds(ts)
    decreases |ts|
  {
    if |ts| > 0 {
      AddTrackInternalAppendsRow(db, ts[0]);
      var added := AddTrackInternalSpec(db, ts[0]);
      if added.result.Ok? {
        AddTracksInsertsEach(added.db, ts[1..]);
        var rest := AddTracksSpec(added.db, ts[1..]);
        if rest.result.Ok? {
          IdsStep(db.tracks, added.db.tracks, rest.db.tracks, ts);
        }
      }
    }
  }

  lemma IdsStep(before: seq<TrackRow>, mid: seq<TrackRow>, after: seq<TrackRow>, ts: seq<Track>)
    requires |ts| > 0 && before <= mid && |mid| == |before| + 1 && mid[|before|].id == ts[0].id
    requires RowIds(after) == RowIds(mid) + TrackIds(ts[1..])
    ensures RowIds(after) == RowIds(before) + TrackIds(ts)
  {
    var l, r := RowIds(after), RowIds(before) + TrackIds(ts);
    var m, t := RowIds(mid), TrackIds(ts[1..]);
    assert |l| == |r|;
    forall i | 0 <= i < |l|
      ensures l[i] == r[i]
    {
      if i < |before| {
        assert l[i] == m[i] == mid[i].id;
        assert mid[i] == before[i];
      } else if i == |before| {
        assert l[i] == m[i];
      } else {
        assert l[i] == t[i - |mid|] == ts[1..][i - |mid|].id;
        assert ts[1..][i - |mid|] == ts[i - |before|];
      }
    }
  }

  lemma {:induction false} AddTracksValid(db: Tables, ts: seq<Track>)
    requires Valid(db)
    ensures Valid(AddTracksSpec(db, ts).db)
    decreases |ts|
  {
    if |ts| > 0 {
      var added := AddTrackInternalSpec(db, ts[0]);
      AddTrackInternalValid(db, ts[0]);
      if added.result.Ok? {
        AddTracksValid(added.db, ts[1..]);
      }
    }
  }

  // ---------------------------------------------------------------------------
  // Playlists

  /** A track added to a playlist it is not yet in is stored after every track of
      that playlist, at position (largest position) + 1, or at 1 in an empty playlist;
      a pair already present changes nothing. The store stays valid. */
  lemma AddTrackToPlaylistPosition(db: Tables, playlistId: string, trackId: string)
    requires Valid(db)
    ensures var after := AddTrackToPlaylistSpec(db, playlistId, trackId);
      && Valid(after)
      && HasEntry(after.playlistTracks, playlistId, trackId)
      && (HasEntry(db.playlistTracks, playlistId, trackId) ==> after == db)
      && (!HasEntry(db.playlistTracks, playlistId, trackId) ==>
            && after == db.(playlistTracks := after.playlistTracks)
            && |after.playlistTracks| == |db.playlistTracks| + 1
            && var e := after.playlistTracks[|db.playlistTracks|];
            && e.playlistId == playlistId && e.trackId == trackId
            && (forall i :: 0 <= i < |db.playlistTracks| && db.playlistTracks[i].playlistId == playlistId ==>
                  db.playlistTracks[i].position < e.position)
            && ((forall i :: 0 <= i < |db.playlistTracks| ==> db.playlistTracks[i].playlistId != playlistId) ==>
                  e.position == 1))
  {
    var after := AddTrackToPlaylistSpec(db, playlistId, trackId);
    if !HasEntry(db.playlistTracks, playlistId, trackId) {
      assert after.playlistTracks[|db.playlistTracks|].playlistId == playlistId;
    }
  }

  /** Adding the same track to the same playlist twice is the same as adding it once. */
  lemma AddTrackToPlaylistIdempotent(db: Tables, playlistId: string, trackId: string)
    requires Valid(db)
    ensures var once := AddTrackToPlaylistSpec(db, playlistId, trackId);
      AddTrackToPlaylistSpec(once, playlistId, trackId) == once
  {
    AddTrackToPlaylistPosition(db, playlistId, trackId);
  }

  /** Removing a track from a playlist removes exactly that pair, keeps every other
      row, and keeps the playlist table's keys unique and its positions positive. */
  lemma {:induction false} RemoveEntryKeepsOthers(entries: seq<PlaylistEntry>, playlistId: string, trackId: string)
    ensures var r := RemoveEntry(entries, playlistId, trackId);
      && !HasEntry(r, playlistId, trackId)
      && |r| <= |entries|
      && (forall e :: e in entries && !(e.playlistId == playlistId && e.trackId == trackId) ==> e in r)
      && (PlaylistValid(entries) ==> PlaylistValid(r))
    decreases |entries|
  {
    if |entries| > 0 {
      var rest := RemoveEntry(entries[1..], playlistId, trackId);
      RemoveEntryKeepsOthers(entries[1..], playlistId, trackId);
      if PlaylistValid(entries) {
        assert PlaylistValid(entries[1..]);
        var e := entries[0];
        forall j | 0 <= j < |rest|
          ensures (e.playlistId, e.trackId) != (rest[j].playlistId, rest[j].trackId)
        {
          assert rest[j] in entries[1..];
        }
      }
    }
  }

  /** Deleting a track leaves no row with its id and keeps every other track row. */
  lemma DeleteTrackRemovesRow(db: Tables, id: string)
    ensures var rows := RemoveTrackRow(db.tracks, id);
      && !TrackIdTaken(rows, id)
      && forall row :: row in db.tracks && row.id != id ==> row in rows
  {
  }
}
