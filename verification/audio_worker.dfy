/**
 * The audio worker thread: one loop iteration per atomic step. It drops
 * chunks of a stopped utterance, turns silent markers into index and
 * end-of-utterance callbacks, and feeds real audio to the wave player, whose
 * completion callback is a step of its own.
 */
module AudioWorker {
  import opened Common
  import opened Session

  /**
   * `_invoke_index_callback`: remember a non-null index as `lastindex`, and
   * pass the value (null meaning "done") to `onIndexReached` when one is set.
   */
  function InvokeIndexCallback(s: State, value: Option<int>): (r: State)
    ensures r.lastIndex == (if value.Some? then value else s.lastIndex)
    ensures r.callbacks == (if s.indexHandler then s.callbacks + [value] else s.callbacks)
    ensures r == s.(lastIndex := r.lastIndex, callbacks := r.callbacks)
  {
    s.(lastIndex := if value.Some? then value else s.lastIndex,
       callbacks := if s.indexHandler then s.callbacks + [value] else s.callbacks)
  }

  /**
   * `_schedule_idle`: unless the worker is stopping, put the player into idle
   * (when there is one) and report "done" through the index callback.
   */
  function ScheduleIdle(s: State): (r: State)
    ensures s.workerStopping ==> r == s
    ensures !s.workerStopping ==>
      && r.device == (if s.hasPlayer then s.device + [Idle] else s.device)
      && r.callbacks == (if s.indexHandler then s.callbacks + [None] else s.callbacks)
      && r.lastIndex == s.lastIndex
    ensures r == s.(device := r.device, callbacks := r.callbacks)
  {
    if s.workerStopping then s
    else
      var idled := if s.hasPlayer then s.(device := s.device + [Idle]) else s;
      InvokeIndexCallback(idled, None)
  }

  datatype Step = Step(state: State, exited: bool)

  /** The state once the head of the audio queue has been taken. */
  function Popped(s: State): State
    requires s.audioQueue != []
  {
    s.(audioQueue := s.audioQueue[1..])
  }

  /**
   * One iteration of `AudioWorker.run`. The loop ends when the worker is no
   * longer running or reads `None`; an empty queue is a poll timeout. A chunk
   * whose epoch predates the stop epoch is dropped. A silent marker, unless
   * the worker is stopping, reports its index and, when final, goes idle and
   * reports "done". Audio is fed to the player unless the worker is stopping.
   */
  function RunOnce(s: State): (r: Step)
    ensures !s.workerRunning ==> r == Step(s, true)
    ensures s.workerRunning && s.audioQueue == [] ==> r == Step(s, false)
    ensures s.workerRunning && s.audioQueue != [] ==>
      r.state.audioQueue == s.audioQueue[1..] && (r.exited <==> s.audioQueue[0].EndOfAudio?)
    // a stale chunk is dropped without any other effect
    ensures s.workerRunning && s.audioQueue != [] && s.audioQueue[0].Chunk? && s.audioQueue[0].chunk.epoch < s.sequence ==>
      r.state == Popped(s)
    // while stopping, nothing reaches the player or the index callback
    ensures s.workerStopping ==> r.state.device == s.device && r.state.callbacks == s.callbacks
    // a fresh silent marker delivered while not stopping
    ensures s.workerRunning && s.audioQueue != [] && s.audioQueue[0].Chunk? && !s.workerStopping ==>
      var c := s.audioQueue[0].chunk;
      c.epoch >= s.sequence && c.data == [] ==>
        && r.state.device == (if c.final && s.hasPlayer then s.device + [Idle] else s.device)
        && r.state.callbacks == s.callbacks
             + (if s.indexHandler && c.index.Some? then [c.index] else [])
             + (if s.indexHandler && c.final then [None] else [])
    // fresh audio delivered while not stopping goes to the player, callbacks wait for playback
    ensures s.workerRunning && s.audioQueue != [] && s.audioQueue[0].Chunk? && !s.workerStopping ==>
      var c := s.audioQueue[0].chunk;
      c.epoch >= s.sequence && c.data != [] ==>
        && r.state.device == (if s.hasPlayer then s.device + [Feed(c.data, c.index, c.final)] else s.device)
        && r.state.callbacks == s.callbacks
    ensures r.state.sequence == s.sequence && r.state.synthQueue == s.synthQueue
    ensures r.state.channel == s.channel && r.state.engine == s.engine
  {
    if !s.workerRunning then Step(s, true)
    else if s.audioQueue == [] then Step(s, false)
    else
      match s.audioQueue[0]
      case EndOfAudio => Step(Popped(s), true)
      case Chunk(c) =>
        var t := Popped(s);
        if c.epoch < s.sequence then Step(t, false)
        else if c.data == [] then
          if s.workerStopping then Step(t, false)
          else
            var indexed := if c.index.Some? then InvokeIndexCallback(t, c.index) else t;
            Step(if c.final then ScheduleIdle(indexed) else indexed, false)
        else if s.workerStopping then Step(t, false)
        else if s.hasPlayer then Step(t.(device := t.device + [Feed(c.data, c.index, c.final)]), false)
        else Step(t, false)
  }

  /**
   * The completion callback the worker hands to `feed`: report the chunk's
   * index, then, for the final chunk, go idle as `_schedule_idle` does.
   */
  function PlaybackDone(s: State, index: Option<int>, final: bool): (r: State)
    ensures r.lastIndex == (if index.Some? then index else s.lastIndex)
    ensures !final ==> r == (if index.Some? then InvokeIndexCallback(s, index) else s)
    // the chunk's own index is reported even while stopping; only the idle part checks the flag
    ensures final && s.workerStopping ==>
      && r.device == s.device
      && r.callbacks == s.callbacks + (if s.indexHandler && index.Some? then [index] else [])
    ensures final && !s.workerStopping ==>
      && r.device == (if s.hasPlayer then s.device + [Idle] else s.device)
      && r.callbacks == s.callbacks
           + (if s.indexHandler && index.Some? then [index] else [])
           + (if s.indexHandler then [None] else [])
    ensures r == s.(lastIndex := r.lastIndex, device := r.device, callbacks := r.callbacks)
  {
    var indexed := if index.Some? then InvokeIndexCallback(s, index) else s;
    if final then ScheduleIdle(indexed) else indexed
  }

  /**
   * A fed chunk's completion, outside a stop, does exactly what a silent
   * marker with the same index and finality does when the worker takes it
   * off the queue: the marker path and the playback path report alike.
   */
  lemma PlaybackDoneMatchesMarker(s: State, index: Option<int>, final: bool, epoch: nat)
    requires s.workerRunning && !s.workerStopping && epoch >= s.sequence
    requires s.audioQueue != [] && s.audioQueue[0] == Chunk(AudioChunk([], index, final, epoch))
    ensures RunOnce(s).state == PlaybackDone(Popped(s), index, final)
  {
  }

  /** `AudioWorker.stop`: flag stopping first, end the loop, and wake the worker with `None`. */
  function StopWorker(s: State): (r: State)
    ensures r.workerStopping && !r.workerRunning
    ensures r.audioQueue == s.audioQueue + [EndOfAudio]
    ensures r == s.(workerStopping := true, workerRunning := false, audioQueue := r.audioQueue)
  {
    s.(workerStopping := true, workerRunning := false, audioQueue := s.audioQueue + [EndOfAudio])
  }

  /**
   * A final silent marker delivered while not stopping makes exactly one idle
   * transition and exactly one "done" callback; the same marker delivered
   * while stopping makes neither.
   */
  lemma FinalMarkerGoesIdleOnce(s: State, epoch: nat)
    requires s.workerRunning && s.hasPlayer && s.indexHandler && epoch >= s.sequence
    requires s.audioQueue != [] && s.audioQueue[0] == Chunk(AudioChunk([], None, true, epoch))
    ensures !s.workerStopping ==>
      RunOnce(s).state.device == s.device + [Idle] && RunOnce(s).state.callbacks == s.callbacks + [None]
    ensures s.workerStopping ==>
      RunOnce(s).state.device == s.device && RunOnce(s).state.callbacks == s.callbacks
  {
  }

  lemma RunOnceValid(s: State)
    requires Valid(s)
    ensures Valid(RunOnce(s).state)
  {
    var r := RunOnce(s).state;
    if s.workerRunning && s.audioQueue != [] {
      assert forall i :: 0 <= i < |r.audioQueue| ==> r.audioQueue[i] == s.audioQueue[i + 1];
    }
  }

  lemma StopWorkerValid(s: State)
    requires Valid(s)
    ensures Valid(StopWorker(s))
  {
    var r := StopWorker(s);
    assert forall i :: 0 <= i < |s.audioQueue| ==> r.audioQueue[i] == s.audioQueue[i];
  }

  /** The audio worker run for `n` iterations, or until its loop ends. */
  function Run(s: State, n: nat): (r: State)
    ensures r.sequence == s.sequence && r.channel == s.channel
    decreases n
  {
    if n == 0 then s
    else
      var step := RunOnce(s);
      if step.exited then step.state else Run(step.state, n - 1)
  }

  /**
   * Once a stop has made every queued chunk stale, the worker plays nothing
   * and reports nothing for them, however long it runs.
   */
  lemma {:induction false} StaleAudioIsSilent(s: State, n: nat)
    requires AllQueuedStale(s)
    ensures Run(s, n).device == s.device && Run(s, n).callbacks == s.callbacks
    decreases n
  {
    if n > 0 {
      var step := RunOnce(s);
      if !step.exited && s.workerRunning && s.audioQueue != [] {
        var t := step.state;
        assert forall i :: 0 <= i < |t.audioQueue| ==> t.audioQueue[i] == s.audioQueue[i + 1];
        StaleAudioIsSilent(t, n - 1);
      } else if !step.exited {
        StaleAudioIsSilent(step.state, n - 1);
      }
    }
  }
}
