/** The player panel of the newer front end (src/components/player.rs): the
    fields it keeps about playback, how the seek and volume sliders, the pause
    and repeat buttons, and each event from the playback engine change them.

    The newer engine is reached two ways, and each is a log here: calls on the
    global engine handle (`PLAYER`, which may not be initialised yet) and
    commands on the panel's own command sender (absent until the panel has
    connected). Rendering is not part of this model. */
module PlayerPanel {
  import opened Wrappers
  import LibraryData

  datatype Repeat = Off | All | One

  /** The repeat button's cycle. */
  function NextRepeat(r: Repeat): (next: Repeat)
    ensures next != r
  {
    match r
    case Off => All
    case All => One
    case One => Off
  }

  /** Three clicks bring the mode back, and the three modes on the way are distinct. */
  lemma RepeatCycle(r: Repeat)
    ensures NextRepeat(NextRepeat(NextRepeat(r))) == r
    ensures NextRepeat(NextRepeat(r)) != r && NextRepeat(NextRepeat(r)) != NextRepeat(r)
  {
  }

  /** A floating-point quotient: a number, or the NaN or infinity that dividing by zero gives. */
  datatype Quotient = Finite(value: real) | NonFinite

  function Divide(a: real, b: real): (q: Quotient)
    ensures q.NonFinite? <==> b == 0.0
    ensures q.Finite? ==> q.value * b == a
  {
    if b == 0.0 then NonFinite else Finite(a / b)
  }

  /** Calls on the global engine handle. */
  datatype EngineCall = SeekTo(fraction: real) | SetVolumeTo(volume: real)

  /** Commands on the panel's command sender. */
  datatype PanelCommand = Pause | SetRepeat(mode: Repeat)

  /** The newer engine's events: `Progress` carries the position and the length in seconds. */
  datatype PanelEvent = Progress(position: real, length: real) | TrackLoaded(track: LibraryData.Track) | End | Paused | Resumed

  class Panel {
    var playbackPosition: Quotient
    var currentTrack: Option<LibraryData.Track>
    var playbackPositionSecs: real
    var durationSecs: real
    var isSeeking: bool
    var hasSender: bool
    var paused: bool
    var repeat: Repeat
    /** The album art bytes the cover image is rendered from. */
    var albumArt: Option<seq<Wrappers.byte>>
    var engineCalls: seq<EngineCall>
    var sent: seq<PanelCommand>

    /** The panel as first built: nothing loaded, repeat off, not paused, no sender. */
    constructor ()
      ensures playbackPosition == Finite(0.0) && playbackPositionSecs == 0.0 && durationSecs == 0.0
      ensures currentTrack == None && albumArt == None
      ensures !isSeeking && !hasSender && !paused && repeat == Off
      ensures engineCalls == [] && sent == []
    {
      playbackPosition := Finite(0.0);
      currentTrack := None;
      playbackPositionSecs := 0.0;
      durationSecs := 0.0;
      isSeeking := false;
      hasSender := false;
      paused := false;
      repeat := Off;
      albumArt := None;
      engineCalls := [];
      sent := [];
    }

    /** The background task has subscribed and handed the panel a command sender. */
    method Connect()
      modifies this
      ensures hasSender
      ensures playbackPosition == old(playbackPosition) && currentTrack == old(currentTrack)
      ensures playbackPositionSecs == old(playbackPositionSecs) && durationSecs == old(durationSecs)
      ensures isSeeking == old(isSeeking) && paused == old(paused) && repeat == old(repeat)
      ensures albumArt == old(albumArt) && engineCalls == old(engineCalls) && sent == old(sent)
    {
      hasSender := true;
    }

    /** The seek slider moved to `value` (0 to 100). Acted on only while a track
        with a duration is loaded and no seek is in progress; the engine is told
        the fraction, and the shown position becomes that fraction of the duration. */
    method OnSeekSlider(value: real, engineReady: bool)
      modifies this
      ensures var acted := old(durationSecs) > 0.0 && !old(isSeeking);
        && (acted && engineReady ==> engineCalls == old(engineCalls) + [SeekTo(value / 100.0)])
        && (!(acted && engineReady) ==> engineCalls == old(engineCalls))
        && playbackPositionSecs == (if acted then value / 100.0 * durationSecs else old(playbackPositionSecs))
      ensures isSeeking == old(isSeeking)
      ensures playbackPosition == old(playbackPosition) && currentTrack == old(currentTrack)
      ensures durationSecs == old(durationSecs) && hasSender == old(hasSender) && paused == old(paused)
      ensures repeat == old(repeat) && albumArt == old(albumArt) && sent == old(sent)
    {
      if durationSecs > 0.0 && !isSeeking {
        isSeeking := true;
        var position := value / 100.0;
        if engineReady {
          engineCalls := engineCalls + [SeekTo(position)];
        }
        playbackPositionSecs := position * durationSecs;
        isSeeking := false;
      }
    }

    /** The volume slider moved to `value` (0 to 100): the engine gets the fraction. */
    method OnVolumeSlider(value: real, engineReady: bool)
      modifies this
      ensures engineReady ==> engineCalls == old(engineCalls) + [SetVolumeTo(value / 100.0)]
      ensures !engineReady ==> engineCalls == old(engineCalls)
      ensures playbackPosition == old(playbackPosition) && currentTrack == old(currentTrack)
      ensures playbackPositionSecs == old(playbackPositionSecs) && durationSecs == old(durationSecs)
      ensures isSeeking == old(isSeeking) && hasSender == old(hasSender) && paused == old(paused)
      ensures repeat == old(repeat) && albumArt == old(albumArt) && sent == old(sent)
    {
      if engineReady {
        engineCalls := engineCalls + [SetVolumeTo(value / 100.0)];
      }
    }

    method OnPauseClick()
      modifies this
      ensures hasSender ==> sent == old(sent) + [Pause]
      ensures !hasSender ==> sent == old(sent)
      ensures playbackPosition == old(playbackPosition) && currentTrack == old(currentTrack)
      ensures playbackPositionSecs == old(playbackPositionSecs) && durationSecs == old(durationSecs)
      ensures isSeeking == old(isSeeking) && hasSender == old(hasSender) && paused == old(paused)
      ensures repeat == old(repeat) && albumArt == old(albumArt) && engineCalls == old(engineCalls)
    {
      if hasSender {
        sent := sent + [Pause];
      }
    }

    /** The repeat button: advance the mode and tell the engine the new one. */
    method OnRepeatClick()
      modifies this
      ensures repeat == NextRepeat(old(repeat))
      ensures hasSender ==> sent == old(sent) + [SetRepeat(repeat)]
      ensures !hasSender ==> sent == old(sent)
      ensures playbackPosition == old(playbackPosition) && currentTrack == old(currentTrack)
      ensures playbackPositionSecs == old(playbackPositionSecs) && durationSecs == old(durationSecs)
      ensures isSeeking == old(isSeeking) && hasSender == old(hasSender) && paused == old(paused)
      ensures albumArt == old(albumArt) && engineCalls == old(engineCalls)
    {
      repeat := NextRepeat(repeat);
      if hasSender {
        sent := sent + [SetRepeat(repeat)];
      }
    }

    /** Show a newly loaded track: its duration, both positions back at zero, its
        album's art, and the track itself. */
    method UpdateTrack(t: LibraryData.Track)
      modifies this
      ensures durationSecs == t.duration && playbackPositionSecs == 0.0 && playbackPosition == Finite(0.0)
      ensures albumArt == t.album.albumArt && currentTrack == Some(t)
      ensures isSeeking == old(isSeeking) && hasSender == old(hasSender) && paused == old(paused)
      ensures repeat == old(repeat) && engineCalls == old(engineCalls) && sent == old(sent)
    {
      durationSecs := t.duration;
      playbackPositionSecs := 0.0;
      playbackPosition := Finite(0.0);
      albumArt := t.album.albumArt;
      currentTrack := Some(t);
    }

    /** One event from the engine. */
    method OnEvent(e: PanelEvent)
      modifies this
      ensures e.Progress? && !old(isSeeking) ==>
        playbackPosition == Divide(e.position, e.length) && playbackPositionSecs == e.position
      ensures e.Progress? && old(isSeeking) ==>
        playbackPosition == old(playbackPosition) && playbackPositionSecs == old(playbackPositionSecs)
      ensures e.TrackLoaded? ==>
        && durationSecs == e.track.duration && playbackPositionSecs == 0.0 && playbackPosition == Finite(0.0)
        && albumArt == e.track.album.albumArt && currentTrack == Some(e.track)
      ensures e.End? ==> playbackPosition == Finite(0.0) && playbackPositionSecs == 0.0
      ensures e.Paused? ==> paused
      ensures e.Resumed? ==> !paused
      ensures !e.Paused? && !e.Resumed? ==> paused == old(paused)
      ensures !e.TrackLoaded? ==>
        currentTrack == old(currentTrack) && durationSecs == old(durationSecs) && albumArt == old(albumArt)
      ensures e.Paused? || e.Resumed? ==>
        playbackPosition == old(playbackPosition) && playbackPositionSecs == old(playbackPositionSecs)
      ensures isSeeking == old(isSeeking) && hasSender == old(hasSender) && repeat == old(repeat)
      ensures engineCalls == old(engineCalls) && sent == old(sent)
    {
      match e
      case Progress(position, length) =>
        if !isSeeking {
          playbackPosition := Divide(position, length);
          playbackPositionSecs := position;
        }
      case TrackLoaded(t) =>
        UpdateTrack(t);
      case End =>
        playbackPositionSecs := 0.0;
        playbackPosition := Finite(0.0);
      case Paused =>
        paused := true;
      case Resumed =>
        paused := false;
    }
  }

  /** One session: connect, move the seek slider, click repeat and pause, then
      receive an event; the flag is false and a `Progress` report is shown. The
      general fact follows from the contracts, not from this method: the
      constructor sets `isSeeking` false and every `Panel` method ensures
      `isSeeking == old(isSeeking)`, so the flag is false after any sequence of
      calls and the `Progress` guard never holds a report back. */
  method SeekingNeverObserved(value: real, engineReady: bool, e: PanelEvent) returns (p: Panel)
    ensures !p.isSeeking
    ensures e.Progress? ==> p.playbackPositionSecs == e.position
  {
    p := new Panel();
    p.Connect();
    p.OnSeekSlider(value, engineReady);
    p.OnRepeatClick();
    p.OnPauseClick();
    p.OnEvent(e);
  }
}
