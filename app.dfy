/** The application glue of the desktop front end (src/main.rs): starting a track
    by id, moving on when the engine reports the end of a track, turning a track
    into the record shown in the track list, and picking the audio files out of
    a directory listing. */
module App {
  import opened Wrappers
  import opened Strings
  import opened PlayerEngine

  // ---------------------------------------------------------------------------
  // play(id) and the End handler

  /** `play(id)`: when the id names a stored track (`found`, the result of the
      preferences lookup), empty the queue, queue that track and start it;
      otherwise hand the id to the download path, which is not part of this model,
      and leave the player as it was. */
  method PlayById(p: Player, found: Option<Track>) returns (downloading: bool)
    modifies p
    ensures downloading <==> found.None?
    ensures found.Some? ==>
      && p.currentTrack == Some(found.value)
      && p.queue == []
      && p.sent == old(p.sent) + [Command.Stop, Command.Play(found.value)]
    ensures found.None? ==>
      p.currentTrack == old(p.currentTrack) && p.queue == old(p.queue) && p.sent == old(p.sent)
  {
    if found.None? {
      return true;
    }
    p.ClearQueue();
    p.AddTrack(found.value);
    p.Play();
    return false;
  }

  /** The `End` event handler: forget the current track, then play the queue's
      head. Because the current track was cleared first, no `Stop` is sent. */
  method OnEnd(p: Player)
    modifies p
    ensures |old(p.queue)| > 0 ==>
      && p.currentTrack == Some(old(p.queue)[0])
      && p.queue == old(p.queue)[1..]
      && p.sent == old(p.sent) + [Command.Play(old(p.queue)[0])]
    ensures |old(p.queue)| == 0 ==>
      p.currentTrack == None && p.queue == [] && p.sent == old(p.sent)
  {
    p.currentTrack := None;
    p.Play();
  }

  // ---------------------------------------------------------------------------
  // From<player::Track> for TrackInfo

  /** The track as this revision of the front end sees it: the engine's track
      together with the album art reference that revision adds. */
  datatype ListedTrack = ListedTrack(track: Track, albumArt: Option<string>)

  datatype TrackInfo = TrackInfo(id: string, title: string, artists: string, album: string, albumArt: string, duration: real)

  const UnknownArtist: string := "Unknown Artist"
  const UnknownTitle: string := "Unknown Title"
  const UnknownAlbum: string := "Unknown Album"

  function ToTrackInfo(lt: ListedTrack): (r: TrackInfo)
    ensures r.id == lt.track.id && r.duration == lt.track.duration
    ensures r.title == lt.track.title.GetOr(UnknownTitle)
    ensures r.album == lt.track.album.GetOr(UnknownAlbum)
    ensures r.albumArt == lt.albumArt.GetOr("")
    ensures |lt.track.artists| == 0 ==> r.artists == UnknownArtist
    ensures |lt.track.artists| > 0 ==> r.artists == Join(lt.track.artists, ", ")
  {
    TrackInfo(
      lt.track.id,
      lt.track.title.GetOr(UnknownTitle),
      if |lt.track.artists| == 0 then UnknownArtist else Join(lt.track.artists, ", "),
      lt.track.album.GetOr(UnknownAlbum),
      lt.albumArt.GetOr(""),
      lt.track.duration)
  }

  /** The artists line lists the first name, then each further one after ", ". */
  lemma {:induction false} TrackInfoArtistsInOrder(lt: ListedTrack, more: seq<string>)
    requires |lt.track.artists| > 0 && |more| > 0
    ensures ToTrackInfo(lt.(track := lt.track.(artists := lt.track.artists + more))).artists ==
            ToTrackInfo(lt).artists + ", " + Join(more, ", ")
  {
    JoinAppend(lt.track.artists, more, ", ");
  }

  // ---------------------------------------------------------------------------
  // The audio-file filter of open_media_directory

  /** One entry of a directory listing: its full path, its file name, and whether
      the path is a regular file (following links). */
  datatype DirEntry = DirEntry(path: string, fileName: string, isFile: bool)

  /** The position of the last `.` in `s`, if any. */
  function LastDot(s: string): (r: Option<nat>)
    ensures r.Some? ==> r.value < |s| && s[r.value] == '.' && '.' !in s[r.value + 1..]
    ensures r.None? <==> '.' !in s
    decreases |s|
  {
    if |s| == 0 then None
    else if s[|s| - 1] == '.' then Some(|s| - 1)
    else
      var r := LastDot(s[..|s| - 1]);
      assert s[..|s| - 1] + [s[|s| - 1]] == s;
      if r.Some? then
        assert s[r.value + 1..] == s[..|s| - 1][r.value + 1..] + [s[|s| - 1]];
        r
      else r
  }

  /** `Path::extension` of a file name: the text after the last `.`, unless the
      name is `..`, has no `.`, or its only `.` is the leading one. */
  function Extension(fileName: string): (r: Option<string>)
    ensures r.Some? <==> fileName != ".." && LastDot(fileName).Some? && LastDot(fileName).value > 0
    ensures r.Some? ==> '.' !in r.value && exists stem :: |stem| > 0 && fileName == stem + "." + r.value
  {
    if fileName == ".." then None
    else
      match LastDot(fileName)
      case None => None
      case Some(k) =>
        if k == 0 then None
        else
          assert fileName == fileName[..k] + "." + fileName[k + 1..];
          Some(fileName[k + 1..])
  }

  predicate IsAudioExtension(ext: string) {
    ext == "mp3" || ext == "wav" || ext == "flac" || ext == "ogg"
  }

  predicate KeepsEntry(entry: Result<DirEntry>) {
    entry.Ok? && entry.value.isFile &&
    var ext := Extension(entry.value.fileName);
    ext.Some? && IsAudioExtension(ext.value)
  }

  /** The paths of the listing's regular files with an audio extension; entries
      that could not be read are skipped. */
  function AudioPaths(entries: seq<Result<DirEntry>>): (r: seq<string>)
    ensures |r| <= |entries|
    ensures forall p :: p in r <==> exists i :: 0 <= i < |entries| && KeepsEntry(entries[i]) && entries[i].value.path == p
    decreases |entries|
  {
    if |entries| == 0 then []
    else
      var rest := AudioPaths(entries[1..]);
      assert forall i :: 1 <= i < |entries| ==> entries[i] == entries[1..][i - 1];
      if KeepsEntry(entries[0]) then [entries[0].value.path] + rest else rest
  }

  lemma LastDotIsLast(s: string, k: nat)
    requires k < |s| && s[k] == '.' && '.' !in s[k + 1..]
    ensures LastDot(s) == Some(k)
  {
    assert s[k] in s;
  }

  /** A name made of a non-empty stem, a dot and a dot-free extension has that extension. */
  lemma ExtensionOfStem(stem: string, ext: string)
    requires |stem| > 0 && '.' !in ext && stem + "." + ext != ".."
    ensures Extension(stem + "." + ext) == Some(ext)
  {
    var name := stem + "." + ext;
    assert name[|stem| + 1..] == ext;
    LastDotIsLast(name, |stem|);
  }

  /** A name whose only dot is the leading one has no extension. */
  lemma HiddenNameHasNoExtension(ext: string)
    requires '.' !in ext && "." + ext != ".."
    ensures Extension("." + ext) == None
  {
    assert ("." + ext)[1..] == ext;
    LastDotIsLast("." + ext, 0);
  }

  /** Regular files named with an audio extension are kept, whatever their stem. */
  lemma AudioPathsKeepExamples()
    ensures KeepsEntry(Ok(DirEntry("/m/song.mp3", "song.mp3", true)))
    ensures KeepsEntry(Ok(DirEntry("/m/archive.tar.flac", "archive.tar.flac", true)))
  {
    ExtensionOfStem("song", "mp3");
    assert "song" + "." + "mp3" == "song.mp3";
    ExtensionOfStem("archive.tar", "flac");
    assert "archive.tar" + "." + "flac" == "archive.tar.flac";
  }

  /** The filter is exact and case-sensitive, and needs a regular file with a stem:
      "song.MP3", ".mp3", "mp3" and a directory named "song.mp3" are dropped. */
  lemma AudioPathsDropExamples()
    ensures !KeepsEntry(Ok(DirEntry("/m/song.mp3", "song.mp3", false)))
    ensures !KeepsEntry(Ok(DirEntry("/m/song.MP3", "song.MP3", true)))
    ensures !KeepsEntry(Ok(DirEntry("/m/.mp3", ".mp3", true)))
    ensures !KeepsEntry(Ok(DirEntry("/m/mp3", "mp3", true)))
    ensures !KeepsEntry(Err("permission denied"))
  {
    ExtensionOfStem("song", "MP3");
    assert "song" + "." + "MP3" == "song.MP3";
    HiddenNameHasNoExtension("mp3");
    assert "." + "mp3" == ".mp3";
    assert '.' !in "mp3";
  }
}
