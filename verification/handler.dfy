/**
 The event-handler capability of internal/monitor/handler.go.

 The only model state a handler can touch is the events channel shared with the
 broadcast loop; it is an unbounded FIFO queue here (its capacity and blocking
 are not modelled). Logging is I/O and leaves the state alone.
 */
module Handler {
  import opened Wrappers

  /** EventMessage: the JSON object `{event, path}` sent to subscribers. */
  datatype EventMessage = EventMessage(event: string, path: string)

  /** The two implementations of the EventHandler interface. */
  datatype EventHandler = LogHandler | WebSocketHandler

  /** Handle: LogHandler only writes a log line; WebSocketHandler sends one message on the channel. */
  function Handle(h: EventHandler, queue: seq<EventMessage>, event: string, path: string): (q: seq<EventMessage>)
    ensures h.LogHandler? ==> q == queue
    ensures h.WebSocketHandler? ==> |q| == |queue| + 1
    ensures h.WebSocketHandler? ==> q[..|queue|] == queue && q[|queue|].event == event && q[|queue|].path == path
  {
    match h
    case LogHandler => queue
    case WebSocketHandler => queue + [EventMessage(event, path)]
  }

  /** A run of Handle calls, each an `(event, path)` pair, in call order. */
  function HandleAll(h: EventHandler, queue: seq<EventMessage>, calls: seq<(string, string)>): seq<EventMessage>
    decreases |calls|
  {
    if |calls| == 0 then queue else HandleAll(h, Handle(h, queue, calls[0].0, calls[0].1), calls[1..])
  }

  /** The messages of a run of calls, one per call. */
  function Messages(calls: seq<(string, string)>): seq<EventMessage> {
    seq(|calls|, i requires 0 <= i < |calls| => EventMessage(calls[i].0, calls[i].1))
  }

  /** The channel delivers in call order: what was queued stays ahead, then one message per call. */
  lemma {:induction false} HandleAllIsFifo(queue: seq<EventMessage>, calls: seq<(string, string)>)
    ensures HandleAll(WebSocketHandler, queue, calls) == queue + Messages(calls)
    decreases |calls|
  {
    if |calls| > 0 {
      var m := EventMessage(calls[0].0, calls[0].1);
      var next := queue + [m];
      assert HandleAll(WebSocketHandler, queue, calls) == HandleAll(WebSocketHandler, next, calls[1..]);
      HandleAllIsFifo(next, calls[1..]);
      MessagesCons(calls);
      assert next + Messages(calls[1..]) == queue + ([m] + Messages(calls[1..]));
    }
  }

  /** The messages of a non-empty run: the first call's message, then the rest. */
  lemma MessagesCons(calls: seq<(string, string)>)
    requires |calls| > 0
    ensures Messages(calls) == [EventMessage(calls[0].0, calls[0].1)] + Messages(calls[1..])
  {
  }

  /** A run of LogHandler calls leaves the channel as it was. */
  lemma {:induction false} LogHandlerLeavesQueue(queue: seq<EventMessage>, calls: seq<(string, string)>)
    ensures HandleAll(LogHandler, queue, calls) == queue
    decreases |calls|
  {
    if |calls| > 0 {
      LogHandlerLeavesQueue(queue, calls[1..]);
    }
  }

  /** The receiving side of the channel: the oldest message and what remains. */
  function Receive(queue: seq<EventMessage>): Option<(EventMessage, seq<EventMessage>)> {
    if |queue| == 0 then None else Some((queue[0], queue[1..]))
  }

  /** Receiving after a send on an empty channel yields exactly the message sent and leaves the channel empty. */
  lemma ReceiveAfterHandle(event: string, path: string)
    ensures Receive(Handle(WebSocketHandler, [], event, path)) == Some((EventMessage(event, path), []))
  {
  }

  /** A send never overtakes: on a non-empty channel the receiver still gets the oldest message first. */
  lemma HandleKeepsHead(queue: seq<EventMessage>, event: string, path: string)
    requires |queue| > 0
    ensures Receive(Handle(WebSocketHandler, queue, event, path))
            == Some((queue[0], queue[1..] + [EventMessage(event, path)]))
  {
    var q := Handle(WebSocketHandler, queue, event, path);
    assert q[1..] == queue[1..] + [EventMessage(event, path)];
  }
}
