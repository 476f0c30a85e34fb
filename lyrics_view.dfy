/** The lyrics view (src/views/lyrics.rs): which lyric line is highlighted for a
    playback position, and how a newly loaded track and the result of fetching
    its lyrics change the view's fields. The fetch itself and rendering are not
    part of this model. */
module LyricsView {
  import opened Wrappers
  import PlayerEngine

  /** One timed line; the timestamp is in milliseconds. */
  datatype LyricLine = LyricLine(timestamp: real, text: string)

  /** What the spawned fetch produced: the lyric sets found (each a list of
      lines), an error from the provider, or a failure of the spawned job itself. */
  datatype FetchResult = Fetched(found: seq<seq<LyricLine>>) | FetchFailed(reason: string) | TaskFailed(reason: string)

  // ---------------------------------------------------------------------------
  // The active line

  /** Line `i` is current at `progress` seconds: its timestamp has passed and
      the next line's has not (the last line's interval never closes). */
  predicate Qualifies(lines: seq<LyricLine>, i: nat, progress: real)
    requires i < |lines|
  {
    progress >= lines[i].timestamp / 1000.0 &&
    (i + 1 >= |lines| || progress < lines[i + 1].timestamp / 1000.0)
  }

  /** The first qualifying index at or after `from`. */
  function FirstQualifyingFrom(lines: seq<LyricLine>, progress: real, from: nat): (r: Option<nat>)
    requires from <= |lines|
    ensures r.Some? ==> from <= r.value < |lines| && Qualifies(lines, r.value, progress)
    ensures r.Some? ==> forall j :: from <= j < r.value ==> !Qualifies(lines, j, progress)
    ensures r.None? ==> forall j :: from <= j < |lines| ==> !Qualifies(lines, j, progress)
    decreases |lines| - from
  {
    if from == |lines| then None
    else if Qualifies(lines, from, progress) then Some(from)
    else FirstQualifyingFrom(lines, progress, from + 1)
  }

  function FirstQualifying(lines: seq<LyricLine>, progress: real): (r: Option<nat>)
    ensures r.Some? ==> r.value < |lines| && Qualifies(lines, r.value, progress)
    ensures r.Some? ==> forall j :: 0 <= j < r.value ==> !Qualifies(lines, j, progress)
    ensures r.None? <==> forall j :: 0 <= j < |lines| ==> !Qualifies(lines, j, progress)
  {
    FirstQualifyingFrom(lines, progress, 0)
  }

  /** The highlighted line after a progress report: the first qualifying line,
      or the previous one when none qualifies. */
  function ActiveLine(lines: seq<LyricLine>, progress: real, previous: nat): nat {
    match FirstQualifying(lines, progress)
    case Some(i) => i
    case None => previous
  }

  predicate Ascending(lines: seq<LyricLine>) {
    forall a, b :: 0 <= a < b < |lines| ==> lines[a].timestamp <= lines[b].timestamp
  }

  /** With ascending timestamps at most one line qualifies: the one whose
      interval holds the position. */
  lemma AscendingQualifiesOnce(lines: seq<LyricLine>, progress: real, i: nat, j: nat)
    requires Ascending(lines) && i < |lines| && j < |lines|
    requires Qualifies(lines, i, progress) && Qualifies(lines, j, progress)
    ensures i == j
  {
  }

  /** With ascending timestamps, the line at or after `from` whose timestamp is
      the last one not after the position qualifies. */
  lemma {:induction false} AscendingSomeQualifies(lines: seq<LyricLine>, progress: real, from: nat)
    requires Ascending(lines) && from < |lines|
    requires progress >= lines[from].timestamp / 1000.0
    ensures exists i :: from <= i < |lines| && Qualifies(lines, i, progress)
    decreases |lines| - from
  {
    if !Qualifies(lines, from, progress) {
      AscendingSomeQualifies(lines, progress, from + 1);
    }
  }

  /** For ascending timestamps the highlighted line is exactly the one whose
      interval [ts[i], ts[i+1]) holds the position, the last interval being
      open-ended; before the first timestamp, or with no lines, nothing moves. */
  lemma ActiveLineAscending(lines: seq<LyricLine>, progress: real, previous: nat)
    requires Ascending(lines)
    ensures forall i :: 0 <= i < |lines| ==>
      (Qualifies(lines, i, progress) <==> FirstQualifying(lines, progress) == Some(i))
    ensures |lines| > 0 && progress >= lines[0].timestamp / 1000.0 ==>
      ActiveLine(lines, progress, previous) < |lines| &&
      Qualifies(lines, ActiveLine(lines, progress, previous), progress)
    ensures |lines| == 0 || progress < lines[0].timestamp / 1000.0 ==>
      ActiveLine(lines, progress, previous) == previous
  {
    var r := FirstQualifying(lines, progress);
    forall i | 0 <= i < |lines| && Qualifies(lines, i, progress)
      ensures r == Some(i)
    {
      AscendingQualifiesOnce(lines, progress, i, r.value);
    }
    if |lines| > 0 && progress >= lines[0].timestamp / 1000.0 {
      AscendingSomeQualifies(lines, progress, 0);
    }
    if |lines| > 0 && progress < lines[0].timestamp / 1000.0 {
      forall i | 0 <= i < |lines|
        ensures !Qualifies(lines, i, progress)
      {
        if i > 0 {
          assert lines[0].timestamp <= lines[i].timestamp;
        }
      }
    }
  }

  // ---------------------------------------------------------------------------
  // The view

  class View {
    var lyrics: seq<LyricLine>
    var currentTrack: Option<PlayerEngine.Track>
    var loading: bool
    var error: Option<string>
    var activeLine: nat

    /** The view as first built: no lyrics, no track, not loading, no error, line 0. */
    constructor ()
      ensures lyrics == [] && currentTrack == None && !loading && error == None && activeLine == 0
    {
      lyrics := [];
      currentTrack := None;
      loading := false;
      error := None;
      activeLine := 0;
    }

    /** A progress report of `progress` seconds: scan the lines in order and stop
        at the first one that is current. */
    method OnProgress(progress: real)
      modifies this
      ensures activeLine == ActiveLine(lyrics, progress, old(activeLine))
      ensures lyrics == old(lyrics) && currentTrack == old(currentTrack)
      ensures loading == old(loading) && error == old(error)
    {
      var i := 0;
      while i < |lyrics|
        invariant 0 <= i <= |lyrics|
        invariant FirstQualifying(lyrics, progress) == FirstQualifyingFrom(lyrics, progress, i)
        invariant activeLine == old(activeLine)
        decreases |lyrics| - i
      {
        if progress >= lyrics[i].timestamp / 1000.0 {
          if i + 1 >= |lyrics| || progress < lyrics[i + 1].timestamp / 1000.0 {
            if activeLine != i {
              activeLine := i;
            }
            return;
          }
        }
        i := i + 1;
      }
    }

    /** A new track was loaded: show it, start loading, drop the old lyrics and
        error. The highlighted line is left where it was. Returns the artist and
        title the lyrics are then fetched for. */
    method OnTrackLoaded(t: PlayerEngine.Track) returns (artist: string, title: string)
      modifies this
      ensures currentTrack == Some(t) && loading && lyrics == [] && error == None
      ensures activeLine == old(activeLine)
      ensures (artist, title) == FetchQuery(t)
    {
      currentTrack := Some(t);
      loading := true;
      lyrics := [];
      error := None;
      artist, title := FetchQuery(t).0, FetchQuery(t).1;
    }

    /** The fetch finished: stop loading; show the first lyric set found, or say
        why there is none. */
    method OnFetchResult(r: FetchResult)
      modifies this
      ensures !loading
      ensures r.Fetched? && |r.found| > 0 ==> lyrics == r.found[0] && error == old(error)
      ensures r.Fetched? && |r.found| == 0 ==> lyrics == old(lyrics) && error == Some("No lyrics found")
      ensures r.FetchFailed? ==> lyrics == old(lyrics) && error == Some("Failed to fetch lyrics: " + r.reason)
      ensures r.TaskFailed? ==> lyrics == old(lyrics) && error == Some("Task error: " + r.reason)
      ensures currentTrack == old(currentTrack) && activeLine == old(activeLine)
    {
      loading := false;
      match r
      case Fetched(found) =>
        if |found| > 0 {
          lyrics := found[0];
        } else {
          error := Some("No lyrics found");
        }
      case FetchFailed(reason) =>
        error := Some("Failed to fetch lyrics: " + reason);
      case TaskFailed(reason) =>
        error := Some("Task error: " + reason);
    }
  }

  /** The query for a track's lyrics: its first artist and its title, each "" when missing. */
  function FetchQuery(t: PlayerEngine.Track): (q: (string, string))
    ensures |t.artists| > 0 ==> q.0 == t.artists[0]
    ensures |t.artists| == 0 ==> q.0 == ""
    ensures q.1 == t.title.GetOr("")
  {
    (if |t.artists| > 0 then t.artists[0] else "", t.title.GetOr(""))
  }

  /** After a track loads and its fetch finds lyrics, the view shows the first
      set and is no longer loading, with no error. */
  method LoadThenFetch(v: View, t: PlayerEngine.Track, found: seq<seq<LyricLine>>)
    requires |found| > 0
    modifies v
    ensures v.currentTrack == Some(t) && v.lyrics == found[0] && !v.loading && v.error == None
    ensures v.activeLine == old(v.activeLine)
  {
    var artist, title := v.OnTrackLoaded(t);
    v.OnFetchResult(Fetched(found));
  }
}
