/** The older playback engine (src/player.rs): the `Player` object that owns the
    queue and the current track and talks to the audio thread through a command
    channel, and the audio thread's loop, which applies one command per pass to
    an audio sink and reports events back.

    The channel is an append-only log of the commands sent. The sink is an
    abstract record: its volume, its paused flag, whether it has nothing left to
    play, and the seek requests it was given. What the audio device does on its
    own (finishing the queued audio, the playhead position, whether the file
    exists and decodes, whether the 100 ms progress throttle has elapsed) is an
    input of each pass of the loop. */
module PlayerEngine {
  import opened Wrappers

  datatype TrackSource = File(path: string)

  datatype Track = Track(
    id: string, title: Option<string>, artists: seq<string>, album: Option<string>,
    duration: real, sources: seq<TrackSource>)

  datatype Command = Play(track: Track) | Pause | Stop | Seek(fraction: real) | SetVolume(volume: real) | SetMuted(muted: bool)

  datatype Event = TrackLoaded(track: Track) | Progress(fraction: real) | Paused | Resumed | End

  // ---------------------------------------------------------------------------
  // The `Player` object

  class Player {
    var currentTrack: Option<Track>
    var queue: seq<Track>
    /** Every command sent on the channel to the audio thread, in order. */
    var sent: seq<Command>

    constructor ()
      ensures currentTrack == None && queue == [] && sent == []
    {
      currentTrack := None;
      queue := [];
      sent := [];
    }

    method AddTrack(t: Track)
      modifies this
      ensures queue == old(queue) + [t]
      ensures currentTrack == old(currentTrack) && sent == old(sent)
    {
      queue := queue + [t];
    }

    /** Start the queue's head: stop what is current (if anything), make the head
        current, take it off the queue, and send it to the audio thread. */
    method Play()
      modifies this
      ensures |old(queue)| == 0 ==>
        queue == old(queue) && currentTrack == old(currentTrack) && sent == old(sent)
      ensures |old(queue)| > 0 ==>
        && currentTrack == Some(old(queue)[0])
        && queue == old(queue)[1..]
        && sent == old(sent) + (if old(currentTrack).Some? then [Command.Stop] else []) + [Command.Play(old(queue)[0])]
      ensures |old(queue)| > 0 ==> multiset(queue) + multiset{old(queue)[0]} == multiset(old(queue))
    {
      if |queue| == 0 {
        return;
      }
      if currentTrack.None? {
        currentTrack := Some(queue[0]);
        queue := queue[1..];
      } else {
        sent := sent + [Command.Stop];
        currentTrack := Some(queue[0]);
        queue := queue[1..];
      }
      assert old(queue) == [old(queue)[0]] + queue;
      sent := sent + [Command.Play(currentTrack.value)];
    }

    method Seek(fraction: real)
      modifies this
      ensures currentTrack.Some? ==> sent == old(sent) + [Command.Seek(fraction)]
      ensures currentTrack.None? ==> sent == old(sent)
      ensures currentTrack == old(currentTrack) && queue == old(queue)
    {
      if currentTrack.Some? {
        sent := sent + [Command.Seek(fraction)];
      }
    }

    method Pause()
      modifies this
      ensures sent == old(sent) + [Command.Pause]
      ensures currentTrack == old(currentTrack) && queue == old(queue)
    {
      sent := sent + [Command.Pause];
    }

    method SetVolume(volume: real)
      modifies this
      ensures sent == old(sent) + [Command.SetVolume(volume)]
      ensures currentTrack == old(currentTrack) && queue == old(queue)
    {
      sent := sent + [Command.SetVolume(volume)];
    }

    method SetMuted(muted: bool)
      modifies this
      ensures sent == old(sent) + [Command.SetMuted(muted)]
      ensures currentTrack == old(currentTrack) && queue == old(queue)
    {
      sent := sent + [Command.SetMuted(muted)];
    }

    method ClearQueue()
      modifies this
      ensures queue == [] && currentTrack == None
      ensures sent == old(sent) + [Command.Stop]
    {
      queue := [];
      currentTrack := None;
      sent := sent + [Command.Stop];
    }
  }

  // ---------------------------------------------------------------------------
  // The audio thread

  /** A seek the sink was asked for: the requested fraction and the duration it scales. */
  datatype SeekRequest = SeekRequest(fraction: real, duration: real)

  datatype Sink = Sink(volume: real, paused: bool, empty: bool, seeks: seq<SeekRequest>)

  /** The loop's state: the sink, its local variables, the volume saved in the
      preferences, whether the thread still runs, and the events it has sent. */
  datatype Worker = Worker(
    sink: Sink, currentDuration: real, globalVolume: real, savedVolume: real,
    alive: bool, events: seq<Event>)

  /** What the outside world contributes to one pass of the loop: the command
      received (if any), whether the sink ran out of audio since the last pass,
      whether the track's file exists and opens and decodes, the decoder's total
      duration, the playhead as a fraction of the track, and whether 100 ms have
      passed since the last progress report. */
  datatype Tick = Tick(
    command: Option<Command>, drained: bool, fileExists: bool, decodes: bool,
    totalDuration: Option<real>, fraction: real, progressDue: bool)

  /** The thread as `Player::new(volume)` starts it. */
  function Init(volume: real, savedVolume: real): Worker {
    Worker(Sink(volume, false, true, []), 0.0, volume, savedVolume, true, [])
  }

  /** How handling a command ends: `Continue` skips the rest of the pass. */
  datatype Handled = Continue(w: Worker) | Proceed(w: Worker)

  function Handle(w: Worker, command: Command, t: Tick): Handled {
    match command
    case Play(track) =>
      var loaded := w.(events := w.events + [TrackLoaded(track)]);
      if |track.sources| == 0 || !t.fileExists then Continue(loaded)
      else if !t.decodes then Continue(loaded.(alive := false))
      else
        Proceed(loaded.(
          currentDuration := t.totalDuration.GetOr(0.0),
          sink := loaded.sink.(empty := false, paused := false),
          events := loaded.events + [Resumed]))
    case Seek(fraction) =>
      // `Duration::from_secs_f32` panics on a negative number of seconds.
      if fraction * w.currentDuration < 0.0 then Continue(w.(alive := false))
      else Proceed(w.(sink := w.sink.(seeks := w.sink.seeks + [SeekRequest(fraction, w.currentDuration)])))
    case Stop =>
      Proceed(w.(sink := w.sink.(empty := true), currentDuration := 0.0))
    case Pause =>
      if w.sink.paused then Proceed(w.(sink := w.sink.(paused := false), events := w.events + [Resumed]))
      else Proceed(w.(sink := w.sink.(paused := true), events := w.events + [Progress(t.fraction), Paused]))
    case SetVolume(v) =>
      Proceed(w.(sink := w.sink.(volume := v), globalVolume := v, savedVolume := v))
    case SetMuted(muted) =>
      Proceed(w.(sink := w.sink.(volume := if muted then 0.0 else w.globalVolume)))
  }

  /** The end-of-pass check: report the end once the sink has drained a loaded
      track, otherwise report progress while playing. */
  function Check(w: Worker, t: Tick): Worker {
    if w.sink.empty && w.currentDuration > 0.0 then
      w.(currentDuration := 0.0, events := w.events + [End])
    else if !w.sink.empty && !w.sink.paused && t.progressDue then
      w.(events := w.events + [Progress(t.fraction)])
    else w
  }

  /** The sink after the device has (or has not) played out its audio. */
  function Drain(w: Worker, t: Tick): Worker {
    if t.drained then w.(sink := w.sink.(empty := true)) else w
  }

  /** One pass of the loop. A thread that has panicked does nothing more. */
  function Step(w: Worker, t: Tick): Worker {
    if !w.alive then w
    else
      var w0 := Drain(w, t);
      if t.command.None? then Check(w0, t)
      else
        match Handle(w0, t.command.value, t)
        case Continue(w1) => w1
        case Proceed(w1) => Check(w1, t)
  }

  /** The passes in order. */
  function Run(w: Worker, ticks: seq<Tick>): Worker
    decreases |ticks|
  {
    if |ticks| == 0 then w else Step(Run(w, ticks[..|ticks| - 1]), ticks[|ticks| - 1])
  }

  lemma {:induction false} RunStaysDead(w: Worker, ticks: seq<Tick>, more: seq<Tick>)
    requires !Run(w, ticks).alive
    ensures Run(w, ticks + more) == Run(w, ticks)
    decreases |more|
  {
    if |more| == 0 {
      assert ticks + more == ticks;
    } else {
      var all := ticks + more;
      assert all[..|all| - 1] == ticks + more[..|more| - 1];
      RunStaysDead(w, ticks, more[..|more| - 1]);
    }
  }

  /** The thread's loop, over the passes it is given; it ends early if a track
      fails to open or decode, or a seek asks for a negative position. */
  method RunWorker(volume: real, savedVolume: real, ticks: seq<Tick>) returns (w: Worker)
    ensures w == Run(Init(volume, savedVolume), ticks)
  {
    var sink := Sink(volume, false, true, []);
    var currentDuration := 0.0;
    var globalVolume := volume;
    var saved := savedVolume;
    var alive := true;
    var events: seq<Event> := [];
    var i := 0;
    while i < |ticks| && alive
      invariant 0 <= i <= |ticks|
      invariant Worker(sink, currentDuration, globalVolume, saved, alive, events) == Run(Init(volume, savedVolume), ticks[..i])
    {
      var t := ticks[i];
      assert ticks[..i + 1][..i] == ticks[..i];
      i := i + 1;
      if t.drained {
        sink := sink.(empty := true);
      }
      if t.command.Some? {
        match t.command.value {
          case Play(track) =>
            events := events + [TrackLoaded(track)];
            if |track.sources| == 0 || !t.fileExists {
              continue;
            }
            if !t.decodes {
              alive := false;
              continue;
            }
            currentDuration := t.totalDuration.GetOr(0.0);
            sink := sink.(empty := false, paused := false);
            events := events + [Resumed];
          case Seek(fraction) =>
            if fraction * currentDuration < 0.0 {
              alive := false;
              continue;
            }
            sink := sink.(seeks := sink.seeks + [SeekRequest(fraction, currentDuration)]);
          case Stop =>
            sink := sink.(empty := true);
            currentDuration := 0.0;
          case Pause =>
            if sink.paused {
              sink := sink.(paused := false);
              events := events + [Resumed];
            } else {
              sink := sink.(paused := true);
              events := events + [Progress(t.fraction), Paused];
            }
          case SetVolume(v) =>
            sink := sink.(volume := v);
            globalVolume := v;
            saved := v;
          case SetMuted(muted) =>
            if muted {
              sink := sink.(volume := 0.0);
            } else {
              sink := sink.(volume := globalVolume);
            }
        }
      }
      if sink.empty && currentDuration > 0.0 {
        currentDuration := 0.0;
        events := events + [End];
      } else if !sink.empty && !sink.paused {
        if !t.progressDue {
          continue;
        }
        events := events + [Progress(t.fraction)];
      }
    }
    w := Worker(sink, currentDuration, globalVolume, saved, alive, events);
    if i < |ticks| {
      RunStaysDead(Init(volume, savedVolume), ticks[..i], ticks[i..]);
      assert ticks[..i] + ticks[i..] == ticks;
    } else {
      assert ticks[..i] == ticks;
    }
  }

  // ---------------------------------------------------------------------------
  // Properties of the audio thread

  /** The volume most recently set with `SetVolume` among the passes, else `initial`. */
  function LastSetVolume(ticks: seq<Tick>, initial: real): real
    decreases |ticks|
  {
    if |ticks| == 0 then initial
    else
      var last := ticks[|ticks| - 1];
      if last.command.Some? && last.command.value.SetVolume? then last.command.value.volume
      else LastSetVolume(ticks[..|ticks| - 1], initial)
  }

  /** One pass changes the volume to restore, and the saved one, only on `SetVolume`. */
  lemma StepVolume(w: Worker, t: Tick)
    requires Step(w, t).alive
    ensures w.alive
    ensures var v := if t.command.Some? && t.command.value.SetVolume? then Some(t.command.value.volume) else None;
      && Step(w, t).globalVolume == v.GetOr(w.globalVolume)
      && Step(w, t).savedVolume == v.GetOr(w.savedVolume)
  {
  }

  /** While the thread runs, the volume it restores on unmute, and the one saved in
      the preferences, are the last volume set, or the initial ones. */
  lemma {:induction false} VolumeIsLastSet(volume: real, savedVolume: real, ticks: seq<Tick>)
    requires Run(Init(volume, savedVolume), ticks).alive
    ensures Run(Init(volume, savedVolume), ticks).globalVolume == LastSetVolume(ticks, volume)
    ensures Run(Init(volume, savedVolume), ticks).savedVolume == LastSetVolume(ticks, savedVolume)
    decreases |ticks|
  {
    if |ticks| > 0 {
      var prefix := ticks[..|ticks| - 1];
      StepVolume(Run(Init(volume, savedVolume), prefix), ticks[|ticks| - 1]);
      VolumeIsLastSet(volume, savedVolume, prefix);
    }
  }

  /** `SetMuted(true)` silences the sink and keeps the volume to restore;
      `SetMuted(false)` restores the last volume set (or the initial one). */
  lemma MuteRestoresLastVolume(volume: real, savedVolume: real, ticks: seq<Tick>, t: Tick)
    requires Run(Init(volume, savedVolume), ticks).alive
    requires t.command.Some? && t.command.value.SetMuted?
    ensures var after := Step(Run(Init(volume, savedVolume), ticks), t);
      && after.alive
      && after.globalVolume == LastSetVolume(ticks, volume)
      && after.sink.volume == (if t.command.value.muted then 0.0 else LastSetVolume(ticks, volume))
  {
    VolumeIsLastSet(volume, savedVolume, ticks);
  }

  /** `Pause` toggles the sink: a paused sink resumes and reports `Resumed`; a playing
      one pauses and reports its position, then `Paused`. Two pauses restore the state. */
  lemma PauseToggles(w: Worker, t: Tick)
    requires w.alive && t.command == Some(Pause)
    ensures Step(w, t).alive
    ensures Step(w, t).sink.paused == !w.sink.paused
    ensures Step(Step(w, t), t).sink.paused == w.sink.paused
    ensures w.sink.paused ==> w.events + [Resumed] <= Step(w, t).events
    ensures !w.sink.paused ==> w.events + [Progress(t.fraction), Paused] <= Step(w, t).events
  {
  }

  /** A seek to a negative position panics the thread; any other seek reaches the sink,
      scaled by the loaded duration. */
  lemma SeekPanicsOnNegative(w: Worker, t: Tick, fraction: real)
    requires w.alive && t.command == Some(Seek(fraction))
    ensures !Step(w, t).alive <==> fraction * w.currentDuration < 0.0
    ensures Step(w, t).alive ==>
      Step(w, t).sink.seeks == w.sink.seeks + [SeekRequest(fraction, w.currentDuration)]
  {
  }

  /** `Stop` empties the sink and zeroes the duration, and the pass reports nothing. */
  lemma StopSilencesEnd(w: Worker, t: Tick)
    requires w.alive && t.command == Some(Stop)
    ensures var after := Step(w, t);
      after.currentDuration == 0.0 && after.sink.empty && after.events == w.events
  {
  }

  function CountEnd(events: seq<Event>): nat
    decreases |events|
  {
    if |events| == 0 then 0
    else CountEnd(events[..|events| - 1]) + (if events[|events| - 1].End? then 1 else 0)
  }

  lemma CountEndSnoc(events: seq<Event>, e: Event)
    ensures CountEnd(events + [e]) == CountEnd(events) + (if e.End? then 1 else 0)
  {
    assert (events + [e])[..|events|] == events;
  }

  /** Handling a command never reports `End`, and only ever adds events. */
  lemma HandleReportsNoEnd(w: Worker, c: Command, t: Tick)
    ensures w.events <= Handle(w, c, t).w.events
    ensures CountEnd(Handle(w, c, t).w.events) == CountEnd(w.events)
  {
    match c
    case Play(track) =>
      CountEndSnoc(w.events, TrackLoaded(track));
      CountEndSnoc(w.events + [TrackLoaded(track)], Resumed);
    case Pause =>
      CountEndSnoc(w.events, Resumed);
      CountEndSnoc(w.events, Progress(t.fraction));
      CountEndSnoc(w.events + [Progress(t.fraction)], Paused);
      assert w.events + [Progress(t.fraction), Paused] == w.events + [Progress(t.fraction)] + [Paused];
    case _ =>
  }

  /** The end check reports `End` exactly when the sink is empty with a duration
      loaded, and then zeroes the duration; otherwise the duration is kept. */
  lemma CheckReportsEnd(w: Worker, t: Tick)
    ensures w.events <= Check(w, t).events
    ensures CountEnd(Check(w, t).events) == CountEnd(w.events) + (if w.sink.empty && w.currentDuration > 0.0 then 1 else 0)
    ensures Check(w, t).currentDuration == (if w.sink.empty && w.currentDuration > 0.0 then 0.0 else w.currentDuration)
  {
    CountEndSnoc(w.events, End);
    CountEndSnoc(w.events, Progress(t.fraction));
  }

  /** Whether a pass reaches the end check with a drained sink and a loaded duration. */
  predicate EndDue(w: Worker, t: Tick) {
    && w.alive
    && var w0 := Drain(w, t);
       var h := if t.command.None? then Proceed(w0) else Handle(w0, t.command.value, t);
       h.Proceed? && h.w.sink.empty && h.w.currentDuration > 0.0
  }

  /** A pass reports `End` exactly when the sink is empty and a duration is loaded at
      the end check, reports it at most once, and then the duration is zero. */
  lemma StepEnd(w: Worker, t: Tick)
    ensures w.events <= Step(w, t).events
    ensures CountEnd(Step(w, t).events) == CountEnd(w.events) + (if EndDue(w, t) then 1 else 0)
    ensures EndDue(w, t) ==> Step(w, t).currentDuration == 0.0
  {
    if w.alive {
      var w0 := Drain(w, t);
      var h := if t.command.None? then Proceed(w0) else Handle(w0, t.command.value, t);
      if t.command.Some? {
        HandleReportsNoEnd(w0, t.command.value, t);
      }
      CheckReportsEnd(h.w, t);
    }
  }

  function CountPlays(ticks: seq<Tick>): nat
    decreases |ticks|
  {
    if |ticks| == 0 then 0
    else CountPlays(ticks[..|ticks| - 1]) + (if ticks[|ticks| - 1].command.Some? && ticks[|ticks| - 1].command.value.Play? then 1 else 0)
  }

  function Loaded(w: Worker): nat {
    if w.currentDuration > 0.0 then 1 else 0
  }

  /** Only `Play` loads a duration: any other pass keeps it or zeroes it, and an
      end due in such a pass finds the duration already loaded. */
  lemma StepLoadsOnlyOnPlay(w: Worker, t: Tick)
    requires !(t.command.Some? && t.command.value.Play?)
    ensures Step(w, t).currentDuration == w.currentDuration || Step(w, t).currentDuration == 0.0
    ensures EndDue(w, t) ==> w.currentDuration > 0.0
  {
    if w.alive && t.command.Some? {
      var w0 := Drain(w, t);
      assert Handle(w0, t.command.value, t).w.currentDuration == w.currentDuration ||
             Handle(w0, t.command.value, t).w.currentDuration == 0.0;
    }
  }

  /** One pass adds at most one `End`, only by unloading a loaded duration, and only
      a `Play` can load one. */
  lemma StepEndBound(w: Worker, t: Tick)
    ensures var isPlay := if t.command.Some? && t.command.value.Play? then 1 else 0;
      CountEnd(Step(w, t).events) + Loaded(Step(w, t)) <= CountEnd(w.events) + Loaded(w) + isPlay
  {
    StepEnd(w, t);
    if !(t.command.Some? && t.command.value.Play?) {
      StepLoadsOnlyOnPlay(w, t);
    }
  }

  /** `End` fires at most once per loaded track: over any run, the `End` events
      added never outnumber the track loaded at the start plus the `Play`
      commands received. In particular `End` never fires twice without a `Play`
      in between, and never after a `Stop` until the next `Play`. */
  lemma {:induction false} EndOncePerTrack(w: Worker, ticks: seq<Tick>)
    ensures CountEnd(Run(w, ticks).events) + Loaded(Run(w, ticks)) <= CountEnd(w.events) + Loaded(w) + CountPlays(ticks)
    decreases |ticks|
  {
    if |ticks| > 0 {
      EndOncePerTrack(w, ticks[..|ticks| - 1]);
      StepEndBound(Run(w, ticks[..|ticks| - 1]), ticks[|ticks| - 1]);
    }
  }
}
