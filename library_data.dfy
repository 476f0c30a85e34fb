/** The value side of the library (src/library.rs): the domain records, the
    `TrackSource` text form, the typed getters over database values, the
    parameter-count dispatch of the database worker, and the column encoding
    of a track row. */
module LibraryData {
  import opened Wrappers
  import opened Strings

  // ---------------------------------------------------------------------------
  // Domain records

  datatype TrackSource = Local | YouTube

  datatype Artist = Artist(id: string, name: string)

  datatype Album = Album(
    id: string,
    title: string,
    artists: seq<Artist>,
    releaseYear: Option<int32>,
    albumArt: Option<seq<byte>>)

  datatype Track = Track(
    id: string,
    title: string,
    artists: seq<Artist>,
    album: Album,
    duration: real,
    path: Option<string>,
    source: TrackSource,
    sourceId: Option<string>,
    trackNumber: Option<int32>)

  datatype LibraryEvent = TracksAdded(tracks: seq<Track>)

  // ---------------------------------------------------------------------------
  // `TrackSource::as_str` / `TrackSource::from_str`

  function AsStr(s: TrackSource): string {
    match s
    case Local => "local"
    case YouTube => "youtube"
  }

  function FromStr(s: string): Option<TrackSource> {
    var lower := ToLowerAscii(s);
    if lower == "local" then Some(Local)
    else if lower == "youtube" then Some(YouTube)
    else None
  }

  /** The stored text of a source is lower-case and reads back as that source. */
  lemma AsStrRoundTrip(s: TrackSource)
    ensures ToLowerAscii(AsStr(s)) == AsStr(s)
    ensures FromStr(AsStr(s)) == Some(s)
  {
    assert ToLowerAscii(AsStr(s)) == AsStr(s);
  }

  /** `c` is `l` or its upper-case form. */
  predicate SameLetterIgnoringCase(c: char, l: char) {
    c == l || ('a' <= l <= 'z' && c as int == l as int - 32)
  }

  /** `s` spells `word` with any mix of upper and lower case. */
  predicate EqualsIgnoringCase(s: string, word: string) {
    |s| == |word| && forall i :: 0 <= i < |s| ==> SameLetterIgnoringCase(s[i], word[i])
  }

  lemma LowerMatchesWord(s: string, word: string)
    requires forall i :: 0 <= i < |word| ==> 'a' <= word[i] <= 'z'
    ensures ToLowerAscii(s) == word <==> EqualsIgnoringCase(s, word)
  {
    if EqualsIgnoringCase(s, word) {
      assert forall i :: 0 <= i < |s| ==> ToLowerAscii(s)[i] == word[i];
    }
    if ToLowerAscii(s) == word {
      forall i | 0 <= i < |s| ensures SameLetterIgnoringCase(s[i], word[i]) {
        assert ToLowerChar(s[i]) == word[i];
      }
    }
  }

  /** Parsing ignores case, and accepts exactly the two names, in either case. */
  lemma FromStrIgnoresCase(s: string)
    ensures FromStr(s) == Some(Local) <==> EqualsIgnoringCase(s, "local")
    ensures FromStr(s) == Some(YouTube) <==> EqualsIgnoringCase(s, "youtube")
    ensures FromStr(s) == None <==> !EqualsIgnoringCase(s, "local") && !EqualsIgnoringCase(s, "youtube")
  {
    LowerMatchesWord(s, "local");
    LowerMatchesWord(s, "youtube");
  }

  lemma FromStrExamples()
    ensures FromStr("YouTube") == Some(YouTube)
    ensures FromStr("LOCAL") == Some(Local)
    ensures FromStr("Local ") == None
    ensures FromStr("") == None
  {
    FromStrIgnoresCase("YouTube");
    FromStrIgnoresCase("LOCAL");
    FromStrIgnoresCase("Local ");
  }

  // ---------------------------------------------------------------------------
  // `Track::artists_string`

  function ArtistNames(artists: seq<Artist>): (names: seq<string>)
    ensures |names| == |artists|
    ensures forall i :: 0 <= i < |artists| ==> names[i] == artists[i].name
  {
    seq(|artists|, i requires 0 <= i < |artists| => artists[i].name)
  }

  function ArtistsString(t: Track): string {
    Join(ArtistNames(t.artists), ", ")
  }

  /** The display string grows by ", name" for each further artist, and a single
      artist is shown by name alone. */
  lemma ArtistsStringAppend(t: Track, a: Artist)
    ensures |t.artists| == 0 ==> ArtistsString(t.(artists := t.artists + [a])) == a.name
    ensures |t.artists| > 0 ==>
      ArtistsString(t.(artists := t.artists + [a])) == ArtistsString(t) + ", " + a.name
  {
    var names := ArtistNames(t.artists + [a]);
    if |t.artists| == 0 {
      assert names == [a.name];
    } else {
      assert names == ArtistNames(t.artists) + [a.name];
      JoinAppend(ArtistNames(t.artists), [a.name], ", ");
    }
  }

  // ---------------------------------------------------------------------------
  // Database values and the `get_*` getters

  datatype Value = Null | Integer(i: int) | Real(r: real) | Text(s: string) | Blob(b: seq<byte>)

  function GetString(v: Value): (r: Result<string>)
    ensures r.Ok? <==> v.Text?
    ensures r.Ok? ==> r.value == v.s
    ensures r.Err? ==> r.error == "Expected text value"
  {
    match v
    case Text(s) => Ok(s)
    case _ => Err("Expected text value")
  }

  function GetOptionalString(v: Value): (r: Option<string>)
    ensures r.Some? <==> v.Text?
    ensures r.Some? ==> r.value == v.s
  {
    match v
    case Text(s) => Some(s)
    case Null => None
    case _ => None
  }

  function GetI64(v: Value): (r: Result<int>)
    ensures r.Ok? <==> v.Integer?
    ensures r.Ok? ==> r.value == v.i
    ensures r.Err? ==> r.error == "Expected integer value"
  {
    match v
    case Integer(i) => Ok(i)
    case _ => Err("Expected integer value")
  }

  function GetOptionalI64(v: Value): (r: Option<int>)
    ensures r.Some? <==> v.Integer?
    ensures r.Some? ==> r.value == v.i
  {
    match v
    case Integer(i) => Some(i)
    case Null => None
    case _ => None
  }

  function GetF64(v: Value): (r: Result<real>)
    ensures r.Ok? <==> v.Real?
    ensures r.Ok? ==> r.value == v.r
    ensures r.Err? ==> r.error == "Expected real value"
  {
    match v
    case Real(f) => Ok(f)
    case _ => Err("Expected real value")
  }

  function GetOptionalBlob(v: Value): (r: Option<seq<byte>>)
    ensures r.Some? <==> v.Blob?
    ensures r.Some? ==> r.value == v.b
  {
    match v
    case Blob(b) => Some(b)
    case Null => None
    case _ => None
  }

  // ---------------------------------------------------------------------------
  // The database worker's parameter-count dispatch

  datatype DbCommand =
    | ExecuteBatch(sql: string)
    | Cacheflush
    | Execute(sql: string, params: seq<Value>)
    | Query(sql: string, params: seq<Value>)

  /** The worker matches on the parameter count arm by arm, 0 through 8. */
  const MaxParams: nat := 8

  const TooManyParameters: string := "Too many parameters"

  /** What the worker does with one command: hand it to the connection (whose
      reply is the connection's own), or reply with an error at once. */
  datatype Handling = Forward(cmd: DbCommand) | Reject(message: string)

  predicate WithinCap(cmd: DbCommand) {
    match cmd
    case Execute(_, params) => |params| <= MaxParams
    case Query(_, params) => |params| <= MaxParams
    case _ => true
  }

  function Dispatch(cmd: DbCommand): (h: Handling)
    ensures h.Forward? <==> WithinCap(cmd)
    ensures h.Forward? ==> h.cmd == cmd
    ensures h.Reject? ==> h.message == TooManyParameters && (cmd.Execute? || cmd.Query?)
  {
    match cmd
    case Execute(_, params) => if |params| <= MaxParams then Forward(cmd) else Reject(TooManyParameters)
    case Query(_, params) => if |params| <= MaxParams then Forward(cmd) else Reject(TooManyParameters)
    case _ => Forward(cmd)
  }

  /** The commands that reach the connection, in arrival order. */
  function Forwarded(inbox: seq<DbCommand>): seq<DbCommand>
    decreases |inbox|
  {
    if |inbox| == 0 then []
    else
      var last := inbox[|inbox| - 1];
      Forwarded(inbox[..|inbox| - 1]) + (if WithinCap(last) then [last] else [])
  }

  /** Every command that reaches the connection binds at most eight parameters,
      and none is invented: each is one of the received commands. */
  lemma {:induction false} ForwardedWithinCap(inbox: seq<DbCommand>)
    ensures forall c :: c in Forwarded(inbox) ==> WithinCap(c) && c in inbox
    ensures |Forwarded(inbox)| <= |inbox|
    decreases |inbox|
  {
    if |inbox| > 0 {
      ForwardedWithinCap(inbox[..|inbox| - 1]);
    }
  }

  /** Commands that are all within the cap all reach the connection, unchanged and in order. */
  lemma {:induction false} ForwardedAllWithinCap(inbox: seq<DbCommand>)
    requires forall i :: 0 <= i < |inbox| ==> WithinCap(inbox[i])
    ensures Forwarded(inbox) == inbox
    decreases |inbox|
  {
    if |inbox| > 0 {
      ForwardedAllWithinCap(inbox[..|inbox| - 1]);
    }
  }

  /** One turn of the `db_worker` receive loop per received command: the
      connection sees exactly the commands within the cap, in order, and every
      command gets one reply, a rejection exactly when it binds more than eight. */
  method DbWorker(inbox: seq<DbCommand>) returns (connection: seq<DbCommand>, replies: seq<Handling>)
    ensures connection == Forwarded(inbox)
    ensures |replies| == |inbox|
    ensures forall i :: 0 <= i < |inbox| ==>
      (replies[i].Reject? <==> !WithinCap(inbox[i])) &&
      (replies[i].Reject? ==> replies[i].message == TooManyParameters)
  {
    connection, replies := [], [];
    var k := 0;
    while k < |inbox|
      invariant 0 <= k <= |inbox|
      invariant connection == Forwarded(inbox[..k])
      invariant |replies| == k
      invariant forall i :: 0 <= i < k ==> replies[i] == Dispatch(inbox[i])
    {
      var h := Dispatch(inbox[k]);
      if h.Forward? {
        connection := connection + [inbox[k]];
      }
      replies := replies + [h];
      assert inbox[..k + 1][..k] == inbox[..k];
      k := k + 1;
    }
    assert inbox[..k] == inbox;
  }

  // ---------------------------------------------------------------------------
  // The tracks row: what `add_track_internal` binds and what `row_to_track` reads back

  /** The eight values bound by the tracks INSERT, in column order. */
  function TrackInsertParams(t: Track, albumId: string): (ps: seq<Value>)
    ensures |ps| == 8
  {
    [ Text(t.id),
      Text(t.title),
      Text(albumId),
      Real(t.duration),
      if t.path.Some? then Text(t.path.value) else Null,
      Text(AsStr(t.source)),
      if t.sourceId.Some? then Text(t.sourceId.value) else Null,
      if t.trackNumber.Some? then Integer(t.trackNumber.value) else Null ]
  }

  /** The scalar columns of a track as `row_to_track` reads them, before the
      artists and the album are fetched by further queries. */
  datatype TrackColumns = TrackColumns(
    id: string, title: string, albumId: string, duration: real, path: Option<string>,
    source: TrackSource, sourceId: Option<string>, trackNumber: Option<int32>)

  function DecodeTrackColumns(row: seq<Value>): Result<TrackColumns>
    requires |row| == 8
  {
    var id := GetString(row[0]);
    var title := GetString(row[1]);
    var albumId := GetString(row[2]);
    var duration := GetF64(row[3]);
    var sourceStr := GetString(row[5]);
    if id.Err? then Err(id.error)
    else if title.Err? then Err(title.error)
    else if albumId.Err? then Err(albumId.error)
    else if duration.Err? then Err(duration.error)
    else if sourceStr.Err? then Err(sourceStr.error)
    else
      var trackNumber := GetOptionalI64(row[7]);
      match FromStr(sourceStr.value)
      case None => Err("Invalid track source: " + sourceStr.value)
      case Some(source) =>
        Ok(TrackColumns(id.value, title.value, albumId.value, duration.value,
                        GetOptionalString(row[4]), source, GetOptionalString(row[6]),
                        if trackNumber.Some? then Some(WrapI32(trackNumber.value)) else None))
  }

  /** A stored track reads back with every scalar field as it was written. */
  lemma TrackRowRoundTrip(t: Track, albumId: string)
    ensures DecodeTrackColumns(TrackInsertParams(t, albumId)) ==
      Ok(TrackColumns(t.id, t.title, albumId, t.duration, t.path, t.source, t.sourceId, t.trackNumber))
  {
    AsStrRoundTrip(t.source);
  }

  /** The widest statement the repository issues, the tracks INSERT, is still
      forwarded to the connection. */
  lemma TrackInsertForwarded(sql: string, t: Track, albumId: string)
    ensures Dispatch(Execute(sql, TrackInsertParams(t, albumId))) == Forward(Execute(sql, TrackInsertParams(t, albumId)))
  {
  }
}
