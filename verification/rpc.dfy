/**
 * The command channel of the host client: request ids, the pending-request
 * table, the response table and the waiters' completion signals.
 *
 * `send_command` holds the command lock while it allocates an id, registers
 * a waiter, writes the message and waits. The receiver thread runs beside it.
 * The model splits a send into two atomic steps, `BeginSend` (up to and
 * including the write) and `AwaitReply` (the moment the waiter wakes, either
 * signalled or timed out), so that receiver steps (`Deliver`, `FailAll`) can
 * be interleaved between them.
 */
module Rpc {
  import opened Common

  /** The commands the client sends to the engine host. */
  datatype Command =
    | AddText(text: string)
    | InsertIndex(value: int)
    | Synthesize
    | StopSynthesis
    | SetParam(paramId: int, value: int)
    | SetVoiceParam(paramId: int, value: int, temporary: bool)
    | CopyVoice(variant: int)
    | DeleteEngine

  /**
   * The part of a response payload the client reads: the `params` and
   * `voiceParams` tables. A key missing from the payload reads as an empty table.
   */
  datatype Payload = Payload(params: map<int, int>, voiceParams: map<int, int>)

  const EmptyPayload := Payload(map[], map[])

  /** A response message: its payload, and the `error` field when present. */
  datatype Reply = Reply(payload: Payload, error: Option<string>)

  /** The failures `send_command` raises to its caller. */
  datatype ClientError =
    | HostNotStarted
    | SendFailed                // an unexpected exception from the connection, re-raised
    | Timeout(command: Command) // no signal within the 5-second window
    | RemoteError(message: string)

  /** What a call of `send_command` returns or raises. */
  datatype SendResult = Returned(payload: Payload) | Raised(error: ClientError)

  /** The outcome of writing one message to the connection. */
  datatype Transport =
    | Written
    | PeerGone    // any OSError, ConnectionResetError and BrokenPipeError included
    | SendCrashed // any other exception

  /** A message the client has written to the connection. */
  datatype Outbound = Outbound(id: nat, command: Command)

  datatype Channel = Channel(
    hostStarted: bool,
    nextId: nat,                // next value of the id counter, which starts at 1
    pending: seq<nat>,          // ids with a registered waiter, in registration order
    signals: multiset<nat>,     // how many times each id's waiter has been set
    responses: map<nat, Reply>, // responses stored for woken waiters
    wire: seq<Outbound>         // every message written, in order
  )

  /** A client whose host has not been launched yet. */
  const Initial := Channel(false, 1, [], multiset{}, map[], [])

  /** `ensure_started`: the process launch and the accepted connection are abstract. */
  function Start(c: Channel): (r: Channel)
    ensures r.hostStarted
    ensures r.(hostStarted := c.hostStarted) == c
  {
    c.(hostStarted := true)
  }

  /** The reply stored for every waiter still pending when the receiver gives up. */
  function FailureReply(error: string): Reply {
    Reply(EmptyPayload, Some(error))
  }

  /** The error texts the receiver stores: connection closed, or any other exception. */
  const ConnectionClosed := "connectionClosed"
  const ReceiverException := "receiverException"

  /** The first half of `send_command`. */
  datatype Begin =
    | Finished(channel: Channel, result: SendResult) // returned or raised without waiting
    | Waiting(channel: Channel, id: nat)             // the caller now waits for `id`

  /**
   * Allocate an id, register a waiter when `wait` holds, and write the command.
   * A transport failure unregisters the waiter and returns an empty result; any
   * other failure unregisters it and raises; without `wait` the call returns an
   * empty result at once.
   */
  function BeginSend(c: Channel, cmd: Command, wait: bool, transport: Transport): (r: Begin)
    ensures !c.hostStarted ==> r == Finished(c, Raised(HostNotStarted))
    ensures c.hostStarted ==> r.channel.nextId == c.nextId + 1
    // a send that did not go on to wait leaves no waiter registered
    ensures !wait ==> r.channel.pending == c.pending
    ensures c.hostStarted && r.Finished? && wait ==> forall x :: x in r.channel.pending <==> x in c.pending && x != c.nextId
    ensures r.Waiting? <==> c.hostStarted && wait && transport == Written
    ensures r.Waiting? ==> r.id == c.nextId && r.channel.pending == c.pending + [c.nextId]
    ensures c.hostStarted && !wait && transport != SendCrashed ==> r.Finished? && r.result == Returned(EmptyPayload)
    ensures c.hostStarted && transport == PeerGone ==> r.Finished? && r.result == Returned(EmptyPayload)
    ensures c.hostStarted && transport == SendCrashed ==> r.Finished? && r.result == Raised(SendFailed)
    ensures r.channel.wire == if c.hostStarted && transport == Written then c.wire + [Outbound(c.nextId, cmd)] else c.wire
    ensures r.channel.signals == c.signals && r.channel.responses == c.responses
    ensures r.channel.hostStarted == c.hostStarted
  {
    if !c.hostStarted then Finished(c, Raised(HostNotStarted))
    else
      var id := c.nextId;
      var registered := c.(nextId := id + 1, pending := if wait then c.pending + [id] else c.pending);
      var unregistered := registered.(pending := if wait then Without(registered.pending, id) else registered.pending);
      match transport
      case Written =>
        var sent := registered.(wire := c.wire + [Outbound(id, cmd)]);
        if wait then Waiting(sent, id) else Finished(sent, Returned(EmptyPayload))
      case PeerGone =>
        Finished(unregistered, Returned(EmptyPayload))
      case SendCrashed =>
        Finished(unregistered, Raised(SendFailed))
  }

  /** The second half of `send_command`, taken when the waiter wakes. */
  datatype Await = Await(channel: Channel, result: SendResult)

  /**
   * A waiter that was never signalled has timed out: its id is unregistered and
   * `Timeout` is raised. A signalled waiter takes its stored response (or a
   * "no response received" error when none was stored) and returns the payload,
   * or raises `RemoteError` when the response carries an error.
   */
  function AwaitReply(c: Channel, id: nat, cmd: Command): (r: Await)
    ensures id !in c.signals ==>
      && r.result == Raised(Timeout(cmd))
      && (forall x :: x in r.channel.pending <==> x in c.pending && x != id)
      && r.channel.responses == c.responses
    ensures id in c.signals ==>
      && r.channel.pending == c.pending
      && r.channel.responses == c.responses - {id}
      && (id !in c.responses ==> r.result == Raised(RemoteError("no response received")))
      && (id in c.responses && c.responses[id].error.Some? ==> r.result == Raised(RemoteError(c.responses[id].error.value)))
      && (id in c.responses && c.responses[id].error.None? ==> r.result == Returned(c.responses[id].payload))
    ensures r.channel.signals == c.signals && r.channel.nextId == c.nextId && r.channel.wire == c.wire
    ensures r.channel.hostStarted == c.hostStarted
  {
    if id in c.signals then
      var reply := if id in c.responses then c.responses[id] else Reply(EmptyPayload, Some("no response received"));
      var result := if reply.error.Some? then Raised(RemoteError(reply.error.value)) else Returned(reply.payload);
      Await(c.(responses := c.responses - {id}), result)
    else
      Await(c.(pending := Without(c.pending, id)), Raised(Timeout(cmd)))
  }

  /**
   * The receiver reads a response for `id`. It is stored and the waiter set
   * only when `id` is pending, and `id` is then unregistered; a response nobody
   * waits for is dropped.
   */
  function Deliver(c: Channel, id: nat, reply: Reply): (r: Channel)
    ensures id in c.pending ==>
      && r.responses == c.responses[id := reply]
      && r.signals == c.signals + multiset{id}
      && (forall x :: x in r.pending <==> x in c.pending && x != id)
    ensures id !in c.pending ==> r == c
    ensures r.nextId == c.nextId && r.wire == c.wire && r.hostStarted == c.hostStarted
  {
    if id in c.pending then
      c.(pending := Without(c.pending, id), responses := c.responses[id := reply], signals := c.signals + multiset{id})
    else c
  }

  /** Store `reply` for each of `ids` and set each one's waiter, in order. */
  function Resolve(c: Channel, ids: seq<nat>, reply: Reply): (r: Channel)
    ensures r.signals == c.signals + multiset(ids)
    ensures forall x :: x in r.responses <==> x in c.responses || x in ids
    ensures forall x :: x in ids ==> r.responses[x] == reply
    ensures forall x :: x in c.responses && x !in ids ==> r.responses[x] == c.responses[x]
    ensures r.pending == c.pending && r.nextId == c.nextId && r.wire == c.wire && r.hostStarted == c.hostStarted
    decreases |ids|
  {
    if ids == [] then c
    else
      var next := c.(responses := c.responses[ids[0] := reply], signals := c.signals + multiset{ids[0]});
      assert multiset(ids) == multiset{ids[0]} + multiset(ids[1..]) by {
        assert ids == [ids[0]] + ids[1..];
      }
      Resolve(next, ids[1..], reply)
  }

  /**
   * The receiver's read failed (the connection closed, or any other exception):
   * every pending waiter gets the error response and is set, and the pending
   * table is cleared.
   */
  function FailAll(c: Channel, error: string): (r: Channel)
    ensures r.pending == []
    ensures r.signals == c.signals + multiset(c.pending)
    ensures forall x :: x in r.responses <==> x in c.responses || x in c.pending
    ensures forall x :: x in c.pending ==> r.responses[x] == FailureReply(error)
    ensures forall x :: x in c.responses && x !in c.pending ==> r.responses[x] == c.responses[x]
    ensures r.nextId == c.nextId && r.wire == c.wire && r.hostStarted == c.hostStarted
  {
    Resolve(c, c.pending, FailureReply(error)).(pending := [])
  }

  /** The bookkeeping invariant every reachable channel keeps. */
  ghost predicate Valid(c: Channel) {
    && c.nextId >= 1
    && Increasing(c.pending)
    && (forall x :: x in c.pending ==> x < c.nextId && c.signals[x] == 0)
    && (forall x :: x in c.signals ==> x < c.nextId && c.signals[x] == 1)
    && (forall x :: x in c.responses ==> x in c.signals)
    && (forall k :: 0 <= k < |c.wire| ==> 1 <= c.wire[k].id < c.nextId)
  }

  lemma InitialValid()
    ensures Valid(Initial) && Valid(Start(Initial))
  {
  }

  lemma {:induction false} IncreasingCountsOnce(s: seq<nat>, x: nat)
    requires Increasing(s)
    ensures multiset(s)[x] == if x in s then 1 else 0
  {
    if s != [] {
      assert s == [s[0]] + s[1..];
      assert Increasing(s[1..]);
      IncreasingCountsOnce(s[1..], x);
      if x == s[0] {
        assert x !in s[1..];
      }
    }
  }

  lemma BeginSendValid(c: Channel, cmd: Command, wait: bool, transport: Transport)
    requires Valid(c)
    ensures Valid(BeginSend(c, cmd, wait, transport).channel)
  {
    var r := BeginSend(c, cmd, wait, transport);
    if c.hostStarted {
      var s := c.pending + [c.nextId];
      forall i, j | 0 <= i < j < |s|
        ensures s[i] < s[j]
      {
        if j < |c.pending| {
          assert s[i] == c.pending[i] && s[j] == c.pending[j];
        } else {
          assert s[i] == c.pending[i] && c.pending[i] in c.pending;
        }
      }
      WithoutKeepsIncreasing(s, c.nextId);
      if r.Finished? && wait {
        assert r.channel.pending == Without(s, c.nextId);
      }
    }
  }

  lemma AwaitReplyValid(c: Channel, id: nat, cmd: Command)
    requires Valid(c)
    ensures Valid(AwaitReply(c, id, cmd).channel)
  {
    if id !in c.signals {
      WithoutKeepsIncreasing(c.pending, id);
    }
  }

  lemma DeliverValid(c: Channel, id: nat, reply: Reply)
    requires Valid(c)
    ensures Valid(Deliver(c, id, reply))
  {
    WithoutKeepsIncreasing(c.pending, id);
  }

  lemma FailAllValid(c: Channel, error: string)
    requires Valid(c)
    ensures Valid(FailAll(c, error))
  {
    var r := FailAll(c, error);
    forall x | x in r.signals
      ensures x < r.nextId && r.signals[x] == 1
    {
      IncreasingCountsOnce(c.pending, x);
    }
  }

  /**
   * When the receiver gives up, each waiter that was pending is set exactly
   * once and receives the error response; none is left unset.
   */
  lemma FailAllSignalsEachOnce(c: Channel, error: string)
    requires Valid(c)
    ensures forall x :: x in c.pending ==> FailAll(c, error).signals[x] == 1
    ensures forall x :: x in c.pending ==> FailAll(c, error).responses[x] == FailureReply(error)
    ensures FailAll(c, error).pending == []
  {
    forall x | x in c.pending
      ensures FailAll(c, error).signals[x] == 1
    {
      IncreasingCountsOnce(c.pending, x);
    }
  }

  /** One step of the receiver thread that touches the channel. */
  datatype ReceiverStep = ReadResponse(id: nat, reply: Reply) | ReadFailed(error: string)

  function ReceiverRuns(c: Channel, steps: seq<ReceiverStep>): (r: Channel)
    ensures forall x :: x in r.pending ==> x in c.pending
    ensures r.nextId == c.nextId && r.hostStarted == c.hostStarted && r.wire == c.wire
    decreases |steps|
  {
    if steps == [] then c
    else
      var next := match steps[0]
        case ReadResponse(id, reply) => Deliver(c, id, reply)
        case ReadFailed(error) => FailAll(c, error);
      ReceiverRuns(next, steps[1..])
  }

  lemma {:induction false} ReceiverRunsValid(c: Channel, steps: seq<ReceiverStep>)
    requires Valid(c)
    ensures Valid(ReceiverRuns(c, steps))
    decreases |steps|
  {
    if steps != [] {
      match steps[0]
      case ReadResponse(id, reply) =>
        DeliverValid(c, id, reply);
        ReceiverRunsValid(Deliver(c, id, reply), steps[1..]);
      case ReadFailed(error) =>
        FailAllValid(c, error);
        ReceiverRunsValid(FailAll(c, error), steps[1..]);
    }
  }

  /**
   * No send path leaks a pending entry: whatever the transport does and
   * whatever the receiver reads while the caller waits, once `send_command`
   * has returned or raised, the pending table holds nothing it did not hold
   * before the call.
   */
  lemma SendCommandLeavesNoPendingEntry(c: Channel, cmd: Command, wait: bool, transport: Transport, during: seq<ReceiverStep>)
    requires Valid(c)
    ensures var b := BeginSend(c, cmd, wait, transport);
      && (b.Finished? ==> forall x :: x in b.channel.pending ==> x in c.pending)
      && (b.Waiting? ==>
            var woken := AwaitReply(ReceiverRuns(b.channel, during), b.id, cmd).channel;
            forall x :: x in woken.pending ==> x in c.pending)
  {
    var b := BeginSend(c, cmd, wait, transport);
    BeginSendValid(c, cmd, wait, transport);
    if b.Waiting? {
      var mid := ReceiverRuns(b.channel, during);
      ReceiverRunsValid(b.channel, during);
      var woken := AwaitReply(mid, b.id, cmd).channel;
      forall x | x in woken.pending
        ensures x in c.pending
      {
        assert x in mid.pending && x in b.channel.pending;
        assert x != b.id;
      }
    }
  }
}
