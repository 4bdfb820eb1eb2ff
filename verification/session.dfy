/**
 * The client's shared state as one record: the command channel, the stop epoch
 * (`_sequence`), the batch epoch (`_current_seq`), the audio and synthesis
 * queues, the mirrored engine tables, and the observable effects on the wave
 * player and the index callback. Each thread's iteration is one atomic step
 * over this record; this module holds the receiver's steps and `stop()`.
 */
module Session {
  import opened Common
  import opened Rpc
  import opened VoiceParams

  newtype byte = x: int | 0 <= x < 256

  /** `(data, index, is_final, seq)`: a chunk of audio, or with empty data a silent marker. */
  datatype AudioChunk = AudioChunk(data: seq<byte>, index: Option<int>, final: bool, epoch: nat)

  /** An audio queue item: a chunk, or the `None` that makes the audio worker exit. */
  datatype AudioItem = Chunk(chunk: AudioChunk) | EndOfAudio

  /** A synthesis queue item: a batch with the epoch it was built under, or `None`. */
  datatype SynthItem = Batch(commands: seq<SynthCommand>, epoch: nat) | EndOfSynthesis

  /** What the client does to the wave player. */
  datatype DeviceOp =
    | Feed(data: seq<byte>, index: Option<int>, final: bool)
    | Idle
    | Halt

  datatype State = State(
    channel: Channel,
    sequence: nat,                // `_sequence`: raised by one on every stop
    currentSeq: nat,              // `_current_seq`: the epoch of the batch last started
    speaking: bool,               // `_speaking`
    audioQueue: seq<AudioItem>,
    synthQueue: seq<SynthItem>,
    engine: Engine,
    hasPlayer: bool,              // the wave player exists
    workerRunning: bool,          // `AudioWorker._running`
    workerStopping: bool,         // `AudioWorker._stopping`
    device: seq<DeviceOp>,        // every operation applied to the wave player, in order
    indexHandler: bool,           // an `onIndexReached` callback is installed
    callbacks: seq<Option<int>>,  // every value passed to `onIndexReached`, in order
    lastIndex: Option<int>        // `lastindex`
  )

  /** The events the host pushes. Payload defaults (`data=b""`, `final=False`) are applied. */
  datatype HostEvent =
    | AudioEvent(data: seq<byte>, index: Option<int>, final: bool)
    | StoppedEvent
    | OtherEvent(name: string)

  /** A message the receiver reads from the connection. */
  datatype Inbound =
    | ResponseMessage(id: nat, reply: Reply)
    | EventMessage(event: HostEvent)
    | OtherMessage(kind: string)

  /**
   * `_handle_event`: an audio event becomes a chunk tagged with the batch
   * epoch and queued for the audio worker; `stopped` only clears the speaking
   * flag; anything else is dropped.
   */
  function HandleEvent(s: State, event: HostEvent): (r: State)
    ensures event.AudioEvent? ==>
      r == s.(audioQueue := s.audioQueue + [Chunk(AudioChunk(event.data, event.index, event.final, s.currentSeq))])
    ensures event.StoppedEvent? ==> r == s.(speaking := false)
    ensures event.OtherEvent? ==> r == s
  {
    match event
    case AudioEvent(data, index, final) =>
      s.(audioQueue := s.audioQueue + [Chunk(AudioChunk(data, index, final, s.currentSeq))])
    case StoppedEvent => s.(speaking := false)
    case OtherEvent(_) => s
  }

  /**
   * One iteration of `_receiver_loop` after a successful read: responses go to
   * the pending table, events to the dispatcher, anything else is ignored.
   */
  function Receive(s: State, message: Inbound): (r: State)
    ensures message.ResponseMessage? ==> r == s.(channel := Deliver(s.channel, message.id, message.reply))
    ensures message.ResponseMessage? && message.id !in s.channel.pending ==> r == s
    ensures message.EventMessage? ==> r == HandleEvent(s, message.event)
    ensures message.OtherMessage? ==> r == s
  {
    match message
    case ResponseMessage(id, reply) => s.(channel := Deliver(s.channel, id, reply))
    case EventMessage(event) => HandleEvent(s, event)
    case OtherMessage(_) => s
  }

  /**
   * The last iteration of `_receiver_loop`: the read failed. A closed
   * connection (EOFError, ConnectionAbortedError, OSError) stores
   * "connectionClosed", any other exception "receiverException"; either way
   * every pending waiter is resolved and the table cleared.
   */
  function ReceiveFailed(s: State, connectionClosed: bool): (r: State)
    ensures r.channel.pending == []
    ensures var error := if connectionClosed then ConnectionClosed else ReceiverException;
      forall x :: x in s.channel.pending ==> x in r.channel.responses && r.channel.responses[x] == FailureReply(error)
    ensures r.channel.signals == s.channel.signals + multiset(s.channel.pending)
    ensures r == s.(channel := r.channel)
  {
    s.(channel := FailAll(s.channel, if connectionClosed then ConnectionClosed else ReceiverException))
  }

  /**
   * `stop()`: nothing happens when no host exists. Otherwise the stop epoch is
   * raised by exactly one, the player is stopped, and `stop` is sent without
   * waiting (whatever that send raises is ignored).
   */
  function Stop(s: State, transport: Transport): (r: State)
    ensures !s.channel.hostStarted ==> r == s
    ensures s.channel.hostStarted ==>
      && r.sequence == s.sequence + 1
      && r.device == (if s.hasPlayer then s.device + [Halt] else s.device)
      && r.channel.pending == s.channel.pending
      && r.channel.responses == s.channel.responses
      && r.channel.wire == (if transport == Written then s.channel.wire + [Outbound(s.channel.nextId, StopSynthesis)] else s.channel.wire)
    ensures r.audioQueue == s.audioQueue && r.synthQueue == s.synthQueue && r.currentSeq == s.currentSeq
    ensures r.engine == s.engine && r.callbacks == s.callbacks
  {
    if !s.channel.hostStarted then s
    else
      var halted := if s.hasPlayer then s.device + [Halt] else s.device;
      var sent := BeginSend(s.channel, StopSynthesis, false, transport);
      s.(sequence := s.sequence + 1, device := halted, channel := sent.channel)
  }

  /** `synth_queue.put((outlist, _client._sequence))` at the end of `speak`. */
  function Enqueue(s: State, commands: seq<SynthCommand>): (r: State)
    ensures r.synthQueue == s.synthQueue + [Batch(commands, s.sequence)]
    ensures r == s.(synthQueue := r.synthQueue)
  {
    s.(synthQueue := s.synthQueue + [Batch(commands, s.sequence)])
  }

  /** No queued chunk or batch carries an epoch later than the stop epoch. */
  ghost predicate EpochsBounded(s: State) {
    && s.currentSeq <= s.sequence
    && (forall i :: 0 <= i < |s.audioQueue| && s.audioQueue[i].Chunk? ==> s.audioQueue[i].chunk.epoch <= s.sequence)
    && (forall i :: 0 <= i < |s.synthQueue| && s.synthQueue[i].Batch? ==> s.synthQueue[i].epoch <= s.sequence)
  }

  /** Every queued chunk and batch predates the stop epoch: the workers will drop all of them. */
  ghost predicate AllQueuedStale(s: State) {
    && (forall i :: 0 <= i < |s.audioQueue| && s.audioQueue[i].Chunk? ==> s.audioQueue[i].chunk.epoch < s.sequence)
    && (forall i :: 0 <= i < |s.synthQueue| && s.synthQueue[i].Batch? ==> s.synthQueue[i].epoch < s.sequence)
  }

  ghost predicate Valid(s: State) {
    Rpc.Valid(s.channel) && EpochsBounded(s)
  }

  const Initial := State(
    Rpc.Initial, 0, 0, false, [], [], Engine(map[], map[], "enu", []),
    false, false, false, [], false, [], None)

  lemma InitialValid()
    ensures Valid(Initial)
  {
    Rpc.InitialValid();
  }

  lemma ReceiveValid(s: State, message: Inbound)
    requires Valid(s)
    ensures Valid(Receive(s, message))
  {
    if message.ResponseMessage? {
      DeliverValid(s.channel, message.id, message.reply);
    } else if message.EventMessage? {
      HandleEventValid(s, message.event);
    }
  }

  lemma HandleEventValid(s: State, event: HostEvent)
    requires Valid(s)
    ensures Valid(HandleEvent(s, event))
  {
    if event.AudioEvent? {
      var r := HandleEvent(s, event);
      assert forall i :: 0 <= i < |s.audioQueue| ==> r.audioQueue[i] == s.audioQueue[i];
      assert r.audioQueue[|s.audioQueue|].chunk.epoch == s.currentSeq;
    }
  }

  lemma ReceiveFailedValid(s: State, connectionClosed: bool)
    requires Valid(s)
    ensures Valid(ReceiveFailed(s, connectionClosed))
  {
    FailAllValid(s.channel, if connectionClosed then ConnectionClosed else ReceiverException);
  }

  lemma StopValid(s: State, transport: Transport)
    requires Valid(s)
    ensures Valid(Stop(s, transport))
  {
    BeginSendValid(s.channel, StopSynthesis, false, transport);
  }

  lemma EnqueueValid(s: State, commands: seq<SynthCommand>)
    requires Valid(s)
    ensures Valid(Enqueue(s, commands))
  {
    var r := Enqueue(s, commands);
    assert forall i :: 0 <= i < |s.synthQueue| ==> r.synthQueue[i] == s.synthQueue[i];
  }

  /**
   * Every chunk and batch queued before a stop, and not yet consumed, is stale
   * once the stop has raised the epoch.
   */
  lemma StopMakesQueuedWorkStale(s: State, transport: Transport)
    requires EpochsBounded(s) && s.channel.hostStarted
    ensures AllQueuedStale(Stop(s, transport))
    ensures Stop(s, transport).currentSeq < Stop(s, transport).sequence
  {
  }

  /** `stop()` applied once per element of `transports`. */
  function Stops(s: State, transports: seq<Transport>): (r: State)
    ensures r.channel.hostStarted == s.channel.hostStarted
    decreases |transports|
  {
    if transports == [] then s else Stops(Stop(s, transports[0]), transports[1..])
  }

  /** After N stops the epoch has risen by exactly N. */
  lemma {:induction false} StopsRaiseEpochByCount(s: State, transports: seq<Transport>)
    requires s.channel.hostStarted
    ensures Stops(s, transports).sequence == s.sequence + |transports|
    ensures Stops(s, transports).channel.pending == s.channel.pending
    decreases |transports|
  {
    if transports != [] {
      StopsRaiseEpochByCount(Stop(s, transports[0]), transports[1..]);
    }
  }

  /** Without a host, stopping changes nothing at all. */
  lemma {:induction false} StopsWithoutHostDoNothing(s: State, transports: seq<Transport>)
    requires !s.channel.hostStarted
    ensures Stops(s, transports) == s
    decreases |transports|
  {
    if transports != [] {
      StopsWithoutHostDoNothing(Stop(s, transports[0]), transports[1..]);
    }
  }
}
