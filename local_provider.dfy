/** The local-file provider (src/providers/local.rs): how the tags read from an
    audio file become a library track. Reading the file is not part of this
    model: whether the path exists, what probing the file produced, the file
    stem the platform's path rules give, and the fresh identifiers are inputs. */
module LocalProvider {
  import opened Wrappers
  import opened Strings
  import opened LibraryData

  /** The items of one tag that resolve_track reads. `trackArtists` holds every
      value stored under the multi-value artists key, `trackArtist` the first
      value under the single artist key; `pictures` are the embedded images'
      bytes in tag order. */
  datatype Tag = Tag(
    trackArtists: seq<string>,
    trackArtist: Option<string>,
    pictures: seq<seq<byte>>,
    albumTitle: Option<string>,
    year: Option<string>,
    trackTitle: Option<string>,
    trackNumber: Option<string>)

  /** A probed file: its primary tag if the format has one, all its tags, and
      the playing time in seconds. */
  datatype TaggedFile = TaggedFile(primary: Option<Tag>, tags: seq<Tag>, duration: real)

  /** What resolve_track ends in: a track, an error, or a panic (the file stem is
      unwrapped when the tag has no title). */
  datatype Resolution = Resolved(track: Track) | Failed(message: string) | Panicked

  /** Fresh identifiers: one for the track, one for the album, and one for the
      `k`-th artist. */
  datatype Ids = Ids(track: string, album: string, artist: nat -> string)

  const UnknownAlbum: string := "Unknown Album"

  /** The tag used: the primary one, else the first one, if any. */
  function SelectTag(f: TaggedFile): (t: Option<Tag>)
    ensures f.primary.Some? ==> t == f.primary
    ensures f.primary.None? && |f.tags| > 0 ==> t == Some(f.tags[0])
    ensures t.None? <==> f.primary.None? && |f.tags| == 0
  {
    if f.primary.Some? then f.primary
    else if |f.tags| > 0 then Some(f.tags[0])
    else None
  }

  /** The artist names: the multi-value list when it is not empty, else the
      single artist, else none. */
  function ArtistNamesOf(tag: Option<Tag>): (names: seq<string>)
    ensures tag.None? ==> names == []
    ensures tag.Some? && |tag.value.trackArtists| > 0 ==> names == tag.value.trackArtists
    ensures tag.Some? && |tag.value.trackArtists| == 0 && tag.value.trackArtist.Some? ==> names == [tag.value.trackArtist.value]
    ensures tag.Some? && |tag.value.trackArtists| == 0 && tag.value.trackArtist.None? ==> names == []
  {
    match tag
    case None => []
    case Some(t) =>
      if |t.trackArtists| > 0 then t.trackArtists
      else if t.trackArtist.Some? then [t.trackArtist.value]
      else []
  }

  /** The release year: the first four characters of the year item read as an
      i32. Taking four characters here agrees with the byte slice the source
      takes, since a non-ASCII character among the first four makes either the
      slice or the parse fail. */
  function ReleaseYear(tag: Option<Tag>): (y: Option<int32>)
    ensures y.Some? ==> tag.Some? && tag.value.year.Some? && |tag.value.year.value| >= 4
    ensures y.Some? ==> ParseI32(tag.value.year.value[..4]) == Some(y.value as int)
    ensures (tag.Some? && tag.value.year.Some? && |tag.value.year.value| >= 4 &&
             ParseI32(tag.value.year.value[..4]).Some?) ==> y.Some?
  {
    if tag.None? || tag.value.year.None? || |tag.value.year.value| < 4 then None
    else
      match ParseI32(tag.value.year.value[..4])
      case None => None
      case Some(v) => Some(v as int32)
  }

  /** The artists with their fresh identifiers, in tag order. */
  function MakeArtists(names: seq<string>, artistId: nat -> string): (artists: seq<Artist>)
    ensures |artists| == |names|
    ensures forall k :: 0 <= k < |names| ==> artists[k] == Artist(artistId(k), names[k])
  {
    seq(|names|, k requires 0 <= k < |names| => Artist(artistId(k), names[k]))
  }

  function ResolveTrack(path: string, fileExists: bool, probed: Result<TaggedFile>, stem: Option<string>, ids: Ids): (r: Resolution)
    ensures path == [] ==> r == Failed("Path is empty")
    ensures path != [] && !fileExists ==> r == Failed("File does not exist: " + path)
    ensures path != [] && fileExists && probed.Err? ==> r == Failed(probed.error)
    ensures r.Panicked? <==> (path != [] && fileExists && probed.Ok? && stem.None? &&
                              (SelectTag(probed.value).None? || SelectTag(probed.value).value.trackTitle.None?))
    ensures r.Resolved? ==> path != [] && fileExists && probed.Ok?
  {
    if path == [] then Failed("Path is empty")
    else if !fileExists then Failed("File does not exist: " + path)
    else if probed.Err? then Failed(probed.error)
    else
      var f := probed.value;
      var tag := SelectTag(f);
      var artists := MakeArtists(ArtistNamesOf(tag), ids.artist);
      var albumArt := if tag.Some? && |tag.value.pictures| > 0 then Some(tag.value.pictures[0]) else None;
      var albumTitle := if tag.Some? && tag.value.albumTitle.Some? then tag.value.albumTitle.value else UnknownAlbum;
      var title := if tag.Some? && tag.value.trackTitle.Some? then Some(tag.value.trackTitle.value) else stem;
      var trackNumber := if tag.Some? && tag.value.trackNumber.Some? then ParseI32(tag.value.trackNumber.value) else None;
      if title.None? then Panicked
      else
        Resolved(Track(
          ids.track,
          title.value,
          artists,
          Album(ids.album, albumTitle, artists[..if |artists| == 0 then 0 else 1], ReleaseYear(tag), albumArt),
          f.duration,
          Some(path),
          Local,
          None,
          if trackNumber.Some? then Some(trackNumber.value as int32) else None))
  }

  /** Every resolved track is a local file at the given path, with no remote id,
      the file's duration, and the fresh identifiers. */
  lemma ResolvedIsLocal(path: string, fileExists: bool, probed: Result<TaggedFile>, stem: Option<string>, ids: Ids)
    requires ResolveTrack(path, fileExists, probed, stem, ids).Resolved?
    ensures var t := ResolveTrack(path, fileExists, probed, stem, ids).track;
      && t.source == Local && t.path == Some(path) && t.sourceId == None
      && t.id == ids.track && t.album.id == ids.album && t.duration == probed.value.duration
  {
  }

  /** The track's artists are the tag's names, in order; the album's artists are
      the first of them only (the same artist, not a second one). */
  lemma ResolvedArtists(path: string, fileExists: bool, probed: Result<TaggedFile>, stem: Option<string>, ids: Ids)
    requires ResolveTrack(path, fileExists, probed, stem, ids).Resolved?
    ensures var t := ResolveTrack(path, fileExists, probed, stem, ids).track;
      var names := ArtistNamesOf(SelectTag(probed.value));
      && |t.artists| == |names|
      && (forall k :: 0 <= k < |names| ==> t.artists[k].name == names[k])
      && |t.album.artists| <= 1
      && (|names| > 0 ==> t.album.artists == [t.artists[0]])
      && (|names| == 0 ==> t.album.artists == [])
  {
  }

  /** Title, album title, art, year and track number come from the selected tag,
      with the file stem and "Unknown Album" as the defaults. */
  lemma ResolvedFields(path: string, fileExists: bool, probed: Result<TaggedFile>, stem: Option<string>, ids: Ids)
    requires ResolveTrack(path, fileExists, probed, stem, ids).Resolved?
    ensures var t := ResolveTrack(path, fileExists, probed, stem, ids).track;
      var tag := SelectTag(probed.value);
      && (tag.Some? && tag.value.trackTitle.Some? ==> t.title == tag.value.trackTitle.value)
      && (tag.None? || tag.value.trackTitle.None? ==> stem == Some(t.title))
      && (tag.Some? && tag.value.albumTitle.Some? ==> t.album.title == tag.value.albumTitle.value)
      && (tag.None? || tag.value.albumTitle.None? ==> t.album.title == UnknownAlbum)
      && (t.album.albumArt.Some? <==> tag.Some? && |tag.value.pictures| > 0)
      && (t.album.albumArt.Some? ==> t.album.albumArt.value == tag.value.pictures[0])
      && t.album.releaseYear == ReleaseYear(tag)
      && (t.trackNumber.Some? ==> tag.Some? && tag.value.trackNumber.Some? &&
                                  ParseI32(tag.value.trackNumber.value) == Some(t.trackNumber.value as int))
      && (tag.Some? && tag.value.trackNumber.Some? && ParseI32(tag.value.trackNumber.value).Some? ==> t.trackNumber.Some?)
  {
  }

  /** A date item yields its year; a short or non-numeric one yields none. */
  lemma ReleaseYearExamples(t: Tag)
    ensures ReleaseYear(Some(t.(year := Some("2023-05-01")))) == Some(2023)
    ensures ReleaseYear(Some(t.(year := Some("199")))) == None
    ensures ReleaseYear(Some(t.(year := Some("MMXX")))) == None
    ensures ReleaseYear(Some(t.(year := None))) == None
  {
    var d := "2023-05-01";
    assert d[..4] == "2023";
    assert AllDigits("2023");
    assert "2023"[..3] == "202" && "202"[..2] == "20" && "20"[..1] == "2" && "2"[..0] == "";
    assert DigitsValue("2023") == 2023;
    assert !IsDigit("MMXX"[0]);
    assert "MMXX"[..4] == "MMXX";
  }
}
