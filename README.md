# Vibrance core, modelled in Dafny

Vibrance is a desktop music player. It has a local library stored in an
embedded SQL database. It plays audio on a background thread and lists
tracks from local files and from YouTube. It shows synchronised lyrics
fetched from QQ Music. This project models the parts of the player that decide
something, and proves what they promise:

- **The library repository** (`src/library.rs`):
  - the `TrackSource` text form and the typed getters over database values;
  - the database worker's cap of eight bound parameters;
  - the repository methods, over an in-memory model of the six tables:
    - artists are deduplicated by name and albums by title;
    - every track is inserted, with no deduplication;
    - junction rows are written with `INSERT OR IGNORE`;
    - playlist positions are numbered `max + 1`;
    - `TracksAdded` is emitted by the rules below.
  - Modules `LibraryData`, `LibraryStore` and `LibraryLaws`.
- **The older playback engine** (`src/player.rs`), module `PlayerEngine`:
  - the `Player` object: its queue, its current track, and the commands it sends
    to the audio thread;
  - the audio thread's loop, run against an abstract sink: mute and unmute,
    pause toggling, `Stop`, and an `End` that fires once per loaded track.
- **Application glue** (`src/main.rs`), module `App`:
  - `play(id)` and the `End` handler, composed from the `Player` methods;
  - the `TrackInfo` conversion with its defaults;
  - the audio-extension filter for a directory listing.
- **The player panel** (`src/components/player.rs`), module `PlayerPanel`: the
  repeat cycle, the seek guard, and how each engine event updates the panel's
  fields.
- **The lyrics view** (`src/views/lyrics.rs`), module `LyricsView`: the linear
  search for the active lyric line, and the handlers for a loaded track and for
  a fetch result.
- **Providers**:
  - `YouTube`: the byte-range partition of a download, the `Range` headers, the
    search-result mapping, and the choice of the widest cover;
  - `QQ`: the search key and the ordered HTML-entity decoding chain;
  - `LocalProvider`: how the tags of a local file become a `Track`.
- **Image sniffing** (`src/components/mod.rs`), module `ImageFormat`: the
  magic-byte tests, with JPEG as the fallback.

`Wrappers` (Option, Result, bytes) and `Strings` (join, replace-all, decimal
printing and parsing, ASCII lower-casing) are shared helpers.

Where a file changes state in place, the model is a class. `Library`, `Player`,
`Panel` and `View` have `modifies` clauses, and each method's `ensures` states
its whole new state. The library methods are proved equal to specification
functions over `Tables`, and `LibraryLaws` proves the properties of those
functions. The audio thread's loop is a `while` loop (`RunWorker`). It is
proved equal to a fold of a pure step function, and the engine properties are
proved about that step. Pure code (conversions, parsing, sniffing, entity
decoding) is written as functions and lemmas.

The files come from two revisions of the program. `src/player.rs` is the older
engine. `src/components/player.rs` and `src/views/lyrics.rs` talk to a newer
engine whose source is not part of this model; those calls are recorded as
logs. For example, the panel sends `SetRepeat`, a command that the
`PlayerCommand` of `src/player.rs` does not have. Each file is modelled as its
own code is written.

## Model

| member | source | states |
|---|---|---|
| LibraryData.AsStrRoundTrip | src/library.rs:127-140 | A source's stored text is already lower-case, and `from_str` reads it back as the same source |
| LibraryData.FromStrIgnoresCase | src/library.rs:134-140 | `from_str` gives `Local` exactly for the spellings of "local" in any ASCII case, `YouTube` exactly for those of "youtube", and `None` for every other string |
| LibraryData.FromStrExamples | src/library.rs:134-140 | "YouTube" and "LOCAL" are accepted; "Local " with a trailing space and "" are rejected |
| LibraryData.ArtistNames | src/library.rs:157-164 | One name per artist, in the track's order |
| LibraryData.ArtistsStringAppend | src/library.rs:157-164 | A single artist is shown by name alone; each further artist adds ", " and its name at the end |
| LibraryData.GetString | src/library.rs:418-423 | Succeeds exactly on a `Text` value and returns its text; any other value gives "Expected text value" |
| LibraryData.GetOptionalString | src/library.rs:425-431 | `Some` exactly on `Text`; `Null` and every other variant give `None` |
| LibraryData.GetI64 | src/library.rs:433-438 | Succeeds exactly on `Integer`; any other value gives "Expected integer value" |
| LibraryData.GetOptionalI64 | src/library.rs:440-446 | `Some` exactly on `Integer`; `Null` and every other variant give `None` |
| LibraryData.GetF64 | src/library.rs:448-453 | Succeeds exactly on `Real`; any other value gives "Expected real value" |
| LibraryData.GetOptionalBlob | src/library.rs:455-461 | `Some` exactly on `Blob`; `Null` and every other variant give `None` |
| LibraryData.Dispatch | src/library.rs:258-300 | A command reaches the connection unchanged if and only if it binds at most eight parameters; otherwise it is an `Execute` or a `Query`, and it is answered "Too many parameters" |
| LibraryData.ForwardedWithinCap | src/library.rs:244-300 | Every command the connection sees binds at most eight parameters and is one of the commands received; none is invented |
| LibraryData.ForwardedAllWithinCap | src/library.rs:244-300 | When every command is within the cap, the connection sees all of them, in arrival order |
| LibraryData.DbWorker | src/library.rs:244-326 | The receive loop forwards exactly the commands within the cap, in order, and answers every command once; an answer is a rejection exactly when the command binds more than eight |
| LibraryData.TrackRowRoundTrip | src/library.rs:858-869 | The eight values the tracks INSERT binds read back, through the getters and `from_str`, as the track's own scalar fields and the stored album id |
| LibraryData.TrackInsertForwarded | src/library.rs:691-712 | The widest statement the repository issues, the eight-value tracks INSERT, is under the cap and reaches the connection |
| LibraryStore.FindArtistByName | src/library.rs:500-515 | A stored artist with that name; `None` exactly when no row has the name |
| LibraryStore.FindArtistById | src/library.rs:482-497 | A stored artist with that id; `None` exactly when no row has the id |
| LibraryStore.FindAlbumRowByTitle | src/library.rs:598-610 | A stored album row with that title; `None` exactly when no row has the title |
| LibraryStore.JoinedArtists | src/library.rs:627-644 | The join returns exactly the linked artists: every artist returned is a stored artist linked to the album, and every link of the album to a stored artist yields that artist |
| LibraryStore.FindAlbumByTitle | src/library.rs:598-624 | An album is found exactly when some row has the title, and it carries that title |
| LibraryStore.MaxPosition | src/library.rs:999-1010 | `MAX(position)` over the playlist's rows: `None` exactly when the playlist has no rows, and otherwise a position that one of its rows has and no row exceeds |
| LibraryStore.RemoveEntry | src/library.rs:1026-1041 | Removes exactly the rows of that (playlist, track) pair and keeps every other row |
| LibraryStore.RemoveTrackRow | src/library.rs:891-898 | Removes exactly the rows with that id and keeps every other row |
| LibraryStore.Library.constructor | src/library.rs:329-363 | The store starts with every table empty and no event sent |
| LibraryStore.Library.AddArtist | src/library.rs:464-480 | Tables and result are those of `AddArtistSpec`: the stored artist of that name, or the given artist inserted and returned; no event is sent |
| LibraryStore.Library.AddAlbum | src/library.rs:533-566 | Tables and result are those of `AddAlbumSpec`, proved by a loop invariant over the artist loop; no event is sent |
| LibraryStore.Library.AddTrackInternal | src/library.rs:682-728 | Tables and result are those of `AddTrackInternalSpec`, proved through both loops (artists, then track links); no event is sent |
| LibraryStore.Library.AddTrack | src/library.rs:676-680 | Same effect as `add_track_internal`; exactly one `TracksAdded([track])` on success and no event on failure |
| LibraryStore.Library.AddTracks | src/library.rs:731-741 | Tables and result are those of `AddTracksSpec`; exactly one `TracksAdded(results)` when every track was added and there was at least one, and no event otherwise |
| LibraryStore.Library.AddTrackToPlaylist | src/library.rs:994-1023 | The tables become `AddTrackToPlaylistSpec`: a row at the next position unless the pair is already present |
| LibraryStore.Library.RemoveTrackFromPlaylist | src/library.rs:1026-1041 | Only the playlist rows of that pair are removed; no other table changes |
| LibraryStore.Library.DeleteTrack | src/library.rs:891-898 | Only the track rows with that id are removed |
| LibraryLaws.InsertOrIgnoreKeepsDistinct | src/library.rs:86-93 | `INSERT OR IGNORE` keeps the earlier rows, adds at most one, and never stores a junction row twice |
| LibraryLaws.AddArtistStoresByName | src/library.rs:464-480 | With a stored name, that row is returned and nothing changes. Otherwise the artist is appended and returned. The result always has the given name and is what a later lookup by that name finds. The call fails only on an id clash, and then changes nothing |
| LibraryLaws.AddArtistIdempotent | src/library.rs:464-467 | Adding an artist with an already-added name changes nothing and returns the stored artist |
| LibraryLaws.AddArtistPreservesValid | src/library.rs:464-480 | Names and ids of artists stay unique |
| LibraryLaws.LinkAlbumArtistsFrame | src/library.rs:556-563 | The album's artist loop touches only the artists and album_artists tables, and only adds rows |
| LibraryLaws.LinkAlbumArtistsValid | src/library.rs:556-563 | The loop keeps artist names and ids unique and album_artists free of duplicates |
| LibraryLaws.LinkAlbumArtistsLinksEach | src/library.rs:556-563 | After the loop succeeds, every artist of the album is linked to it through the stored artist of its name |
| LibraryLaws.AddAlbumFrame | src/library.rs:533-566 | `add_album` touches only the artists, albums and album_artists tables, and only adds rows |
| LibraryLaws.AddAlbumValid | src/library.rs:533-566 | `add_album` keeps artists, album titles and ids, and album links unique |
| LibraryLaws.AddAlbumDeduplicatesByTitle | src/library.rs:533-566 | A stored title returns the stored album and changes nothing, so no artist is linked. A new title appends one album row and links each artist, and the given album is returned. The result's title is then the stored row's title and id |
| LibraryLaws.AddAlbumIdempotent | src/library.rs:533-536 | Adding an album with an already-added title changes nothing and returns the same album id |
| LibraryLaws.AddArtistsFrame | src/library.rs:685-689 | The track's artist loop touches only the artists table and only appends |
| LibraryLaws.AddArtistsValid | src/library.rs:685-689 | The loop keeps artist names and ids unique |
| LibraryLaws.AddArtistsStored | src/library.rs:685-689 | On success there is one stored artist per given artist, with the same name, in order, each being what a lookup by that name finds |
| LibraryLaws.AddArtistsAllStored | src/library.rs:685-689 | When every name is already stored the loop succeeds and changes nothing |
| LibraryLaws.LinkTrackArtistsEffect | src/library.rs:714-723 | The track-link loop only appends to track_artists, and links the track to every stored artist |
| LibraryLaws.LinkTrackArtistsValid | src/library.rs:714-723 | The loop never stores a track link twice |
| LibraryLaws.AddTrackInternalInserts | src/library.rs:682-728 | On success exactly one track row is appended, pointing at the stored album of that title. The returned track is the input with its artists replaced by the stored ones, in order, each linked; its album is the caller's own. On failure the tracks table is unchanged |
| LibraryLaws.AddTrackInternalValid | src/library.rs:682-728 | Adding a track keeps every table's keys unique |
| LibraryLaws.AddTrackTwiceStoresTwo | src/library.rs:682-728 | Tracks are not deduplicated: the same track added again under a fresh id gives a second row, pointing at the same album |
| LibraryLaws.AddTrackInternalAppendsRow | src/library.rs:691-712 | On success the tracks table grows by one row, the new last row, carrying the track's id |
| LibraryLaws.AddTracksResults | src/library.rs:731-741 | On success there is one result per track, in order, each with its track's id |
| LibraryLaws.AddTracksKeepsRows | src/library.rs:731-741 | Earlier track rows are kept, success or failure |
| LibraryLaws.AddTracksInsertsEach | src/library.rs:731-741 | On success the stored track ids are the earlier ones followed by the given tracks' ids, in order |
| LibraryLaws.AddTracksValid | src/library.rs:731-741 | Adding tracks keeps every table's keys unique |
| LibraryLaws.AddTrackToPlaylistPosition | src/library.rs:994-1023 | An existing pair leaves the tables unchanged. A new pair appends one row whose position exceeds every position in that playlist, and is 1 in an empty one. Keys stay unique and positions stay at least 1 |
| LibraryLaws.AddTrackToPlaylistIdempotent | src/library.rs:994-1023 | Adding the same track to the same playlist twice is the same as adding it once |
| LibraryLaws.RemoveEntryKeepsOthers | src/library.rs:1026-1041 | After removal the pair is gone and every other row remains; a playlist table with unique pairs and positive positions keeps both |
| LibraryLaws.DeleteTrackRemovesRow | src/library.rs:891-898 | After deletion no row has the id, and every other row remains |
| PlayerEngine.Player.constructor | src/player.rs:142-147 | No current track, an empty queue, nothing sent |
| PlayerEngine.Player.AddTrack | src/player.rs:150-152 | The track joins the queue's tail; the current track and the commands sent are unchanged |
| PlayerEngine.Player.Play | src/player.rs:154-175 | An empty queue changes nothing. Otherwise the head becomes current and the queue becomes its tail. A `Stop` is sent exactly when a track was current, then one `Play(head)`. As a multiset, the new queue is the old one with one copy of the head removed |
| PlayerEngine.Player.Seek | src/player.rs:177-185 | `Seek(pos)` is sent only while a track is current; nothing else changes |
| PlayerEngine.Player.Pause | src/player.rs:187-191 | Exactly one `Pause` is sent; queue and current track unchanged |
| PlayerEngine.Player.SetVolume | src/player.rs:193-197 | Exactly one `SetVolume(v)` is sent; queue and current track unchanged |
| PlayerEngine.Player.SetMuted | src/player.rs:199-203 | Exactly one `SetMuted(m)` is sent; queue and current track unchanged |
| PlayerEngine.Player.ClearQueue | src/player.rs:241-247 | The queue is empty, no track is current, and exactly one `Stop` is sent |
| PlayerEngine.RunWorker | src/player.rs:48-140 | The audio thread's loop, with its locals, ends in exactly the state of applying the pure step to each pass in turn, stopping for good after a panic |
| PlayerEngine.RunStaysDead | src/player.rs:72-86 | Once the thread has panicked, on a file that does not open or decode or on a negative seek, further passes change nothing |
| PlayerEngine.StepVolume | src/player.rs:106-121 | A pass changes the volume to restore, and the saved preference, only on `SetVolume`, and then to the value set |
| PlayerEngine.VolumeIsLastSet | src/player.rs:106-121 | While the thread runs, the volume restored on unmute and the saved preference are the last volume set, or the initial ones |
| PlayerEngine.MuteRestoresLastVolume | src/player.rs:115-121 | `SetMuted(true)` silences the sink and keeps the volume to restore; `SetMuted(false)` sets the last volume set, or the initial one |
| PlayerEngine.PauseToggles | src/player.rs:91-105 | `Pause` flips the sink's paused state, so two pauses restore it; a paused sink reports `Resumed`, a playing one reports its position and then `Paused`; the thread keeps running |
| PlayerEngine.SeekPanicsOnNegative | src/player.rs:82-86 | A seek panics the thread exactly when the position it asks for, fraction times the loaded duration, is negative; otherwise the sink receives that seek |
| PlayerEngine.StopSilencesEnd | src/player.rs:87-90 | After `Stop` the sink is empty and the duration zero, and the pass reports nothing, no `End` included |
| PlayerEngine.HandleReportsNoEnd | src/player.rs:54-122 | Handling any command only adds events and never reports `End` |
| PlayerEngine.CheckReportsEnd | src/player.rs:124-138 | The end check reports one `End` exactly when the sink is empty with a duration loaded, and then zeroes the duration |
| PlayerEngine.StepEnd | src/player.rs:52-140 | A pass reports `End` at most once, exactly when the end check sees an empty sink and a loaded duration, and leaves the duration zero |
| PlayerEngine.StepLoadsOnlyOnPlay | src/player.rs:74 | Only `Play` loads a duration: any other pass keeps it or zeroes it |
| PlayerEngine.EndOncePerTrack | src/player.rs:52-140 | Over any run, the `End` events added never outnumber the `Play` commands received plus the track loaded at the start |
| App.PlayById | src/main.rs:199-221 | For a known track: it is current, the queue is empty, and `Stop` then `Play(track)` are sent. For an unknown id the player is untouched and the download path is taken |
| App.OnEnd | src/main.rs:461-470 | The queue's head becomes current and only `Play(head)` is sent, with no `Stop`. An empty queue leaves no track current and sends nothing |
| App.ToTrackInfo | src/main.rs:224-239 | Id and duration are copied. The title, album and art default to "Unknown Title", "Unknown Album" and "". Artists are joined with ", ", or "Unknown Artist" when there are none |
| App.TrackInfoArtistsInOrder | src/main.rs:226-230 | The artists line is the earlier artists' line followed by ", " and the further ones |
| App.Extension | src/main.rs:337 | A file name other than `..` has an extension exactly when its last dot follows a non-empty stem; the extension is the dot-free text after that dot |
| App.AudioPaths | src/main.rs:330-352 | A path is listed exactly when its entry was read, is a regular file, and has the extension mp3, wav, flac or ogg |
| App.ExtensionOfStem | src/main.rs:337 | `stem.ext` has extension `ext` for any non-empty stem |
| App.HiddenNameHasNoExtension | src/main.rs:337 | A name whose only dot is the leading one has no extension |
| App.AudioPathsKeepExamples | src/main.rs:336-339 | "song.mp3" and "archive.tar.flac" are kept |
| App.AudioPathsDropExamples | src/main.rs:333-350 | A directory, "song.MP3", ".mp3", "mp3" and an unreadable entry are dropped |
| PlayerPanel.NextRepeat | src/components/player.rs:294-298 | A repeat click always changes the mode |
| PlayerPanel.RepeatCycle | src/components/player.rs:294-298 | Three clicks restore the mode, passing through three distinct modes |
| PlayerPanel.Divide | src/components/player.rs:95-96 | The position ratio is a number exactly when the length is not zero, and then it times the length gives the position |
| PlayerPanel.Panel.constructor | src/components/player.rs:135-147 | Positions and duration 0, no track, no art, not seeking, not paused, repeat off, no sender |
| PlayerPanel.Panel.Connect | src/components/player.rs:75-81 | The panel gets its command sender; nothing else changes |
| PlayerPanel.Panel.OnSeekSlider | src/components/player.rs:41-58 | The slider acts only while a duration is loaded and no seek is in progress. Then the engine, if ready, is told the fraction, and the shown position becomes that fraction of the duration. `is_seeking` is back to its earlier value on return |
| PlayerPanel.Panel.OnVolumeSlider | src/components/player.rs:60-71 | The engine, if ready, is given the slider value as a fraction; nothing else changes |
| PlayerPanel.Panel.OnPauseClick | src/components/player.rs:263-267 | Exactly one `Pause` is sent when a sender is present; nothing else changes |
| PlayerPanel.Panel.OnRepeatClick | src/components/player.rs:293-304 | The mode advances in the cycle, and exactly one `SetRepeat` with the new mode is sent when a sender is present |
| PlayerPanel.Panel.UpdateTrack | src/components/player.rs:150-161 | Duration from the track, both positions 0, the album's art, and the track current; nothing else changes |
| PlayerPanel.Panel.OnEvent | src/components/player.rs:92-116 | `Progress` sets the ratio and seconds unless a seek is in progress. `TrackLoaded` is `update_track`. `End` zeroes both positions and keeps track, pause state and repeat. `Paused` and `Resumed` set only the pause flag |
| PlayerPanel.SeekingNeverObserved | src/components/player.rs:46-53 | Because the seek handler clears `is_seeking` before it returns, the flag is false whenever an event arrives, so a `Progress` report always updates the position |
| LyricsView.FirstQualifyingFrom | src/views/lyrics.rs:99-113 | The first line, from a given index on, whose timestamp has passed and whose successor's has not; `None` when there is none |
| LyricsView.FirstQualifying | src/views/lyrics.rs:99-113 | The first qualifying line over all lines; `None` exactly when no line qualifies |
| LyricsView.AscendingSomeQualifies | src/views/lyrics.rs:100-105 | With ascending timestamps, a position at or after some line's timestamp lies in some line's interval |
| LyricsView.ActiveLineAscending | src/views/lyrics.rs:99-113 | With ascending timestamps, a line is chosen exactly when its interval `[ts[i], ts[i+1])` holds the position, the last interval being open-ended. Before the first timestamp, or with no lines, the highlighted line stays |
| LyricsView.View.constructor | src/views/lyrics.rs:135-141 | No lyrics, no track, not loading, no error, line 0 |
| LyricsView.View.OnProgress | src/views/lyrics.rs:99-113 | The scan leaves the first qualifying line highlighted, or the previous one when none qualifies; nothing else changes |
| LyricsView.View.OnTrackLoaded | src/views/lyrics.rs:38-62 | The track is shown and loading starts. Lyrics and error are cleared but the highlighted line is kept. The fetch is for the first artist and the title, each "" when missing |
| LyricsView.View.OnFetchResult | src/views/lyrics.rs:63-93 | Loading stops. Found lyrics show the first set; none found is "No lyrics found"; a provider error is "Failed to fetch lyrics: …"; a task failure is "Task error: …" |
| LyricsView.FetchQuery | src/views/lyrics.rs:50-58 | The first artist, or "" with none, and the title, or "" |
| LyricsView.LoadThenFetch | src/views/lyrics.rs:38-76 | A load followed by a successful fetch shows the first set, with the track current, no error and loading over |
| YouTube.MapTrack | src/providers/youtube.rs:46-79 | Id, title and duration are copied and the artists are joined with ", ". The album defaults to "Unknown Album", and art is taken only when a cover exists. A missing duration, where the source panics, gives `None` |
| YouTube.MapTrackArtistLine | src/providers/youtube.rs:66-71 | No artists give "", one gives its name, and in general the line's length is the names' lengths plus two per ", " separator |
| YouTube.ChunkRanges | src/providers/youtube.rs:111-145 | The download loop makes ceil(total / 262144) requests. Request k covers `[k·C, min(k·C + C, total))`, is non-empty, and its header is "bytes=" start "-" end−1 |
| YouTube.ChunksPartition | src/providers/youtube.rs:114-116 | The ranges start at 0 and end at the total. Each starts where the previous ended. Each is non-empty and at most 256 KiB, and all but the last are exactly 256 KiB. There are none for an empty file |
| YouTube.ByteInOneChunk | src/providers/youtube.rs:114-116 | Every byte of the file is in exactly one range, the one numbered byte / 262144 |
| YouTube.RangeHeaderRoundTrip | src/providers/youtube.rs:122 | A `Range` header reads back as the range's first byte and its last byte, inclusive |
| YouTube.ChunkEndWrapsAsWritten | src/providers/youtube.rs:115-116 | The loop's u64 arithmetic, for a Content-Length of 2^64 − 1, gives a range that ends at 0 before it starts |
| YouTube.InsertByWidth | src/providers/youtube.rs:158 | Inserting keeps the list sorted by width, and the result is a permutation of the old list plus the new cover. A cover at least as wide as the last goes at the end, so a later cover of equal width follows an earlier one, as in a stable sort |
| YouTube.SortByWidth | src/providers/youtube.rs:158 | The covers sorted by ascending width, as a permutation of the input |
| YouTube.WidestIndex | src/providers/youtube.rs:157-159 | The index of the widest cover, the last among equally wide ones |
| YouTube.AlbumCoverIsWidest | src/providers/youtube.rs:157-159 | The cover kept is the widest, the last given among equally wide ones; there is one exactly when there are covers |
| QQ.SearchKey | src/providers/qq.rs:15 | The key is the title, one space, then the artist |
| QQ.SearchKeySplits | src/providers/qq.rs:15 | A title without spaces is everything before the key's first space |
| QQ.DecodeEntities | src/providers/qq.rs:53-60 | Decoding never lengthens the text |
| QQ.DecodeWithoutAmpersand | src/providers/qq.rs:53-60 | Text without `&` is returned unchanged |
| Strings.ReplaceAllOnce | src/providers/qq.rs:53-60 | `str::replace` on text with one occurrence of the pattern, and no other occurrence of its first character, replaces that occurrence and keeps the text on both sides |
| QQ.DecodesApos | src/providers/qq.rs:53 | `&apos;` decodes to `'` wherever it stands in text without another `&` |
| QQ.DecodesQuot | src/providers/qq.rs:54 | `&quot;` decodes to `"` wherever it stands in text without another `&` |
| QQ.DecodesAmp | src/providers/qq.rs:55 | `&amp;` decodes to `&` wherever it stands in text without another `&`, unless what follows it is `lt;`, `gt;`, `nbsp;`, `ensp;` or `emsp;`, which a later step would then decode too |
| QQ.DecodesLt | src/providers/qq.rs:56 | `&lt;` decodes to `<` wherever it stands in text without another `&` |
| QQ.DecodesGt | src/providers/qq.rs:57 | `&gt;` decodes to `>` wherever it stands in text without another `&` |
| QQ.DecodesNbsp | src/providers/qq.rs:58 | `&nbsp;` decodes to one ASCII space wherever it stands in text without another `&` |
| QQ.DecodesEnsp | src/providers/qq.rs:59 | `&ensp;` decodes to one ASCII space wherever it stands in text without another `&` |
| QQ.DecodesEmsp | src/providers/qq.rs:60 | `&emsp;` decodes to one ASCII space wherever it stands in text without another `&` |
| QQ.EscapedAmpThroughAmp | src/providers/qq.rs:53-55 | The first three replacements turn `&amp;` followed by text without `&` into `&` followed by that text |
| QQ.DecodeOrderLt | src/providers/qq.rs:53-60 | Because `&amp;` is replaced before `&lt;`, "&amp;lt;" decodes all the way to "<" |
| QQ.DecodeOrderQuot | src/providers/qq.rs:53-60 | Because `&amp;` is replaced after `&quot;`, "&amp;quot;" decodes only to "&quot;" |
| LocalProvider.SelectTag | src/providers/local.rs:18-21 | The primary tag if any, else the first tag, else none |
| LocalProvider.ArtistNamesOf | src/providers/local.rs:23-33 | The multi-value artists when there are any. Otherwise the single artist, if present. Otherwise no artists |
| LocalProvider.ReleaseYear | src/providers/local.rs:43-47 | A year exactly when the year item has at least four characters and its first four parse as an i32, and then it is that number |
| LocalProvider.MakeArtists | src/providers/local.rs:48 | One artist per name, in order, each with its fresh id |
| LocalProvider.ResolveTrack | src/providers/local.rs:8-60 | An empty path fails with "Path is empty" before any file access. A missing file fails with "File does not exist: " and the path. A probe error is passed on. The function panics exactly when there is no tag title and no file stem |
| LocalProvider.ResolvedIsLocal | src/providers/local.rs:49-57 | A resolved track is `Local` at the given path with no remote id, the file's duration and the fresh ids |
| LocalProvider.ResolvedArtists | src/providers/local.rs:23-33 | The track's artists are the tag's names, in order. The album's artists are the first of them only, so zero or one |
| LocalProvider.ResolvedFields | src/providers/local.rs:34-58 | The title, album title, art, year and track number come from the selected tag. The file stem and "Unknown Album" are the defaults, and an unparseable track number gives none |
| LocalProvider.ReleaseYearExamples | src/providers/local.rs:43-47 | "2023-05-01" gives 2023; "199", "MMXX" and a missing year give none |
| ImageFormat.DetectFormat | src/components/mod.rs:18-31 | Each format is returned exactly when its test is the first to pass. WebP needs "RIFF", more than 12 bytes and "WEBP" at 8..12. JPEG is also the fallback |
| ImageFormat.SignaturesDecide | src/components/mod.rs:18-27 | A buffer that starts with the PNG, JPEG, GIF or BMP signature gets that format, whatever follows. "RIFF", any four size bytes and "WEBP", followed by at least one more byte, is WebP |
| ImageFormat.SignaturesExclusive | src/components/mod.rs:18-27 | No buffer starts with two of the PNG, JPEG, RIFF, GIF and BMP signatures, so the order of the tests matters only for the fallback |
| ImageFormat.RiffNeedsMoreThanHeader | src/components/mod.rs:22 | A RIFF/WEBP header of exactly 12 bytes is not WebP and falls back to JPEG |
| ImageFormat.FallbackIsJpeg | src/components/mod.rs:28-31 | The empty buffer and unrecognised bytes are treated as JPEG |

## Left out

- Audio output and decoding (rodio's output stream, sink, decoder, seeking and playhead). The sink is an abstract record. A seek is recorded with the duration it scales, and the playhead fraction is an input of each pass.
- Sink clearing: `Stop` makes the sink empty. Whatever else rodio's `clear` does to the sink's state is not modelled.
- Some panics in the audio thread end it, and are modelled as the thread no longer acting (`alive` false). These are `File::open(...).unwrap()` and `Decoder::new(...).unwrap()` on `Play`, and `Duration::from_secs_f32` on a `Seek` to a negative position. A seek position too large for a `Duration` also panics in the source; it is not modelled, because reals have no upper bound here.
- Event sends from the audio thread: the model treats every send as delivered. A failed send happens only when the receiver is gone. For `TrackLoaded`, `Resumed`, `Paused` and `End`, a failure is printed and ignored. The two `Progress` sends (src/player.rs:100 and :136) `unwrap` and would panic the thread; that panic is not modelled.
- PlayerEngine.StepVolume: `SetVolume` also `expect`s that `PREFERENCES` is initialised and that its lock is not poisoned (src/player.rs:109-111). The model assumes both; the two panics are not modelled.
- Time and threads: the 100 ms sleeps and the progress throttle (`Utc::now()`) are a per-pass input. Channel mechanics, the gpui timers, the rayon pool and the semaphore-bounded parallel download are left out, and so are the broadcast receivers' `Lagged` and `Closed` handling in the panel and the lyrics view.
- Floating point: volumes, durations and positions are Dafny reals. Rounding, `f32`/`f64` conversions and `format_time` are not modelled. A quotient by zero is `NonFinite`, with no distinction between NaN and infinity.
- The SQL engine itself: the model holds no rows written before `initialize` and does not model schema creation. It does not model cascading deletes (`delete_track` removes only the track row) or the `LIKE`/`ORDER BY` queries.
- The text of a primary-key violation is the engine's. `UniqueViolation` writes one fixed message for it, prefixed as `execute` does.
- JoinedArtists returns an album's artists in link order. SQL does not fix the order of a join's rows.
- Identifiers: ULIDs are generated fresh. They are parameters of the model (the track's, album's and artists' ids in `Track`/`Album`/`Ids`).
- PlayerEngine.Player.Play: every `Player` method (`play`, `seek`, `pause`, `set_volume`, `set_muted`, `clear_queue`) panics if its command send fails (`expect`, or `panic!` for `play`'s `Stop`). A send fails only when the audio thread has ended. The model's command log accepts every send, so these panics are not modelled.
- `Player::resolve_track` in src/player.rs is a second tag-reading path for the older engine. The modelled provider, src/providers/local.rs, is the one the library uses; this one is not modelled.
- App.PlayById: the preferences lookup of the track and `yt_download` are outside the model. The lookup's answer is the `found` parameter.
- App.AudioPaths: the source collects in parallel (`par_bridge`), so its order is unspecified. The contract states membership, not order.
- File-system access: whether a path exists, probing the tags, the file stem, directory reading and `Track::load` are inputs or left out.
- LocalProvider.ResolveTrack: lofty's tag items are an abstract record. `TrackArtists`, `TrackArtist`, pictures, year, title and track number are read as the tag holds them.
- LocalProvider.ReleaseYear: Rust slices four bytes, the model four characters. They agree whenever the parse can succeed, because a non-ASCII character among the first four makes either the slice or the parse fail.
- LibraryData.FromStr: Rust's `to_lowercase` is full Unicode lower-casing, the model's ASCII only. No non-ASCII character lower-cases into the letters of "local" or "youtube", so the verdicts agree.
- Network and foreign services: rustypipe, the reqwest calls, base64, LRC parsing, and the QQ JSON navigation are left out. The cover download is the `fetchedArt` input of MapTrack, and `join_all` in `search_tracks` is not modelled.
- The QQ fetch loop pushes one lyric set per search result. It is left out with the JSON handling around it.
- `download_track_default`: only the cover choice is modelled. The `Track` it builds and the cover download are left out.
- YouTube.SortByWidth: std's `sort_by` is modelled by a stable insertion sort with the same result. The sort is in place in the source and a function here.
- Rendering, widgets, FFI and the C++ side, preferences storage, media controls and the resource bundle are not part of this model.

## Findings

| source | as written | input that shows it | evidently intended | confidence | as-written member | corrected member |
|---|---|---|---|---|---|---|
| src/providers/youtube.rs:115-116 | `start + chunk_size` is unchecked u64 addition. In a release build it wraps, and near 2^64 the computed end falls below the start, so `end - 1` underflows | A Content-Length of 18446744073709551615: at start 2^64 − 262144 the end wraps to 0 | Each range ends at `min(start + C, total)` computed without overflow | low (such a length does not occur in practice); not executed | YouTube.ChunkEndWrapsAsWritten | YouTube.ChunkRanges |
