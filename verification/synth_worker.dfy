/**
 * The synthesis worker thread: it takes batches off the synthesis queue, drops
 * the ones built before the latest stop, and runs the rest one command after
 * another against the host.
 */
module SynthWorker {
  import opened Common
  import opened Rpc
  import opened VoiceParams
  import opened Session

  /**
   * The commands of a batch run in order. A command that fails is logged and
   * the next one still runs, so every command of the batch is attempted.
   */
  function RunBatch(e: Engine, host: Host, commands: seq<SynthCommand>): (r: Engine)
    ensures |r.calls| >= |e.calls| + |commands|
    ensures r.calls[..|e.calls|] == e.calls
    ensures (forall i :: 0 <= i < |commands| ==> !commands[i].VoiceCmd?) ==>
      r.voiceParams == e.voiceParams && r.params == e.params
    decreases |commands|
  {
    if commands == [] then e
    else RunBatch(Execute(e, host, commands[0]), host, commands[1..])
  }

  /** Running two batches back to back is running their concatenation. */
  lemma {:induction false} RunBatchAppend(e: Engine, host: Host, a: seq<SynthCommand>, b: seq<SynthCommand>)
    ensures RunBatch(e, host, a + b) == RunBatch(RunBatch(e, host, a), host, b)
    decreases |a|
  {
    if a != [] {
      assert (a + b)[0] == a[0];
      assert (a + b)[1..] == a[1..] + b;
      RunBatchAppend(Execute(e, host, a[0]), host, a[1..], b);
    } else {
      assert a + b == b;
    }
  }

  /** The host call each plain command makes. */
  function PlainCall(cmd: SynthCommand): Command
    requires cmd.SpeakCmd? || cmd.IndexCmd? || cmd.SynthCmd?
  {
    match cmd
    case SpeakCmd(text) => AddText(text)
    case IndexCmd(value) => InsertIndex(value)
    case SynthCmd => Synthesize
  }

  /**
   * A batch of text, index and synthesize commands makes exactly one host call
   * per command, in the batch's order, whatever the host answers.
   */
  lemma {:induction false} PlainBatchCalls(e: Engine, host: Host, commands: seq<SynthCommand>)
    requires forall i :: 0 <= i < |commands| ==> commands[i].SpeakCmd? || commands[i].IndexCmd? || commands[i].SynthCmd?
    ensures |RunBatch(e, host, commands).calls| == |e.calls| + |commands|
    ensures forall i :: 0 <= i < |commands| ==> RunBatch(e, host, commands).calls[|e.calls| + i] == PlainCall(commands[i])
    decreases |commands|
  {
    if commands != [] {
      var e1 := Execute(e, host, commands[0]);
      assert e1.calls == e.calls + [PlainCall(commands[0])];
      PlainBatchCalls(e1, host, commands[1..]);
      var r := RunBatch(e, host, commands);
      forall i | 0 <= i < |commands|
        ensures r.calls[|e.calls| + i] == PlainCall(commands[i])
      {
        if i == 0 {
          assert r.calls[..|e1.calls|] == e1.calls;
          assert r.calls[|e.calls|] == e1.calls[|e.calls|];
        } else {
          assert commands[1..][i - 1] == commands[i];
        }
      }
    }
  }

  datatype Step = Step(state: State, exited: bool)

  /**
   * One iteration of `_synth_worker_loop`. An empty queue is a poll timeout,
   * which ends the loop only when a stop was requested; `None` ends it; a
   * batch older than the stop epoch is dropped; any other batch becomes the
   * current epoch, so that the audio it produces is tagged with it, and runs.
   */
  function RunOnce(s: State, host: Host, stopRequested: bool): (r: Step)
    ensures s.synthQueue == [] ==> r == Step(s, stopRequested)
    ensures s.synthQueue != [] ==>
      r.state.synthQueue == s.synthQueue[1..] && (r.exited <==> s.synthQueue[0].EndOfSynthesis?)
    ensures s.synthQueue != [] && s.synthQueue[0].Batch? && s.synthQueue[0].epoch < s.sequence ==>
      r.state == s.(synthQueue := s.synthQueue[1..])
    ensures s.synthQueue != [] && s.synthQueue[0].Batch? && s.synthQueue[0].epoch >= s.sequence ==>
      && r.state.currentSeq == s.synthQueue[0].epoch
      && r.state.engine == RunBatch(s.engine, host, s.synthQueue[0].commands)
    ensures r.state.sequence == s.sequence && r.state.audioQueue == s.audioQueue
    ensures r.state.channel == s.channel && r.state.device == s.device && r.state.callbacks == s.callbacks
  {
    if s.synthQueue == [] then Step(s, stopRequested)
    else
      var t := s.(synthQueue := s.synthQueue[1..]);
      match s.synthQueue[0]
      case EndOfSynthesis => Step(t, true)
      case Batch(commands, epoch) =>
        if epoch < s.sequence then Step(t, false)
        else Step(t.(currentSeq := epoch, engine := RunBatch(s.engine, host, commands)), false)
  }

  lemma RunOnceValid(s: State, host: Host, stopRequested: bool)
    requires Session.Valid(s)
    ensures Session.Valid(RunOnce(s, host, stopRequested).state)
  {
    var r := RunOnce(s, host, stopRequested).state;
    if s.synthQueue != [] {
      assert forall i :: 0 <= i < |r.synthQueue| ==> r.synthQueue[i] == s.synthQueue[i + 1];
    }
  }

  /** The synthesis worker run for `n` iterations, or until its loop ends. */
  function Run(s: State, host: Host, n: nat): (r: State)
    ensures r.sequence == s.sequence && r.channel == s.channel
    decreases n
  {
    if n == 0 then s
    else
      var step := RunOnce(s, host, false);
      if step.exited then step.state else Run(step.state, host, n - 1)
  }

  /** Once every queued batch is stale, the worker makes no host call at all. */
  lemma {:induction false} StaleBatchesRunNothing(s: State, host: Host, n: nat)
    requires AllQueuedStale(s)
    ensures Run(s, host, n).engine == s.engine
    ensures Run(s, host, n).currentSeq == s.currentSeq
    decreases n
  {
    if n > 0 {
      var step := RunOnce(s, host, false);
      if !step.exited {
        var t := step.state;
        if s.synthQueue != [] {
          assert forall i :: 0 <= i < |t.synthQueue| ==> t.synthQueue[i] == s.synthQueue[i + 1];
        }
        StaleBatchesRunNothing(t, host, n - 1);
      }
    }
  }

  /**
   * An utterance queued and then stopped before the worker reaches it is
   * never spoken: however long the synthesis worker runs afterwards, the host
   * receives none of its commands, and the batch epoch stays behind the stop
   * epoch.
   */
  lemma StoppedUtteranceNeverSpeaks(s: State, host: Host, transport: Transport, commands: seq<SynthCommand>, n: nat)
    requires Session.Valid(s) && s.channel.hostStarted
    ensures var stopped := Stop(Enqueue(s, commands), transport);
      && Run(stopped, host, n).engine == s.engine
      && Run(stopped, host, n).currentSeq < stopped.sequence
  {
    EnqueueValid(s, commands);
    var stopped := Stop(Enqueue(s, commands), transport);
    StopMakesQueuedWorkStale(Enqueue(s, commands), transport);
    StaleBatchesRunNothing(stopped, host, n);
  }

  /**
   * Audio the host pushes after a stop, before the worker has started a newer
   * batch, is queued as stale, so the audio worker will drop it.
   */
  lemma LateAudioAfterStopIsStale(s: State, transport: Transport, data: seq<byte>, index: Option<int>, final: bool)
    requires EpochsBounded(s) && s.channel.hostStarted
    ensures AllQueuedStale(HandleEvent(Stop(s, transport), AudioEvent(data, index, final)))
  {
    var t := Stop(s, transport);
    StopMakesQueuedWorkStale(s, transport);
    var u := HandleEvent(t, AudioEvent(data, index, final));
    assert forall i :: 0 <= i < |t.audioQueue| ==> u.audioQueue[i] == t.audioQueue[i];
  }
}
