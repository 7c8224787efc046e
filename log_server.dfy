/**
 * web/WebSocketServer.kt: the log hub. It keeps the history of every log
 * message emitted, sends each new message to every browser in its client list, replays
 * the whole history to a browser that connects, and forgets one source's
 * messages on request. Browsers are identified by number; every `send` is
 * recorded, in order, in `sent`.
 */
module LogServer {

  import opened WebMessages

  /** A browser, as the web server's client list holds it. */
  type ClientId = nat

  /** One `client.send(message)`. */
  datatype Delivery = Delivery(client: ClientId, message: LogMessage)

  /** The sends of `clients.forEach { it.send(m) }`: `m` once to each client, in list order. */
  function Fanout(clients: seq<ClientId>, m: LogMessage): (r: seq<Delivery>)
    ensures |r| == |clients|
    ensures forall i :: 0 <= i < |clients| ==> r[i] == Delivery(clients[i], m)
  {
    if clients == [] then [] else [Delivery(clients[0], m)] + Fanout(clients[1..], m)
  }

  /** The sends of `messages.forEach { client.send(it) }`: the history, in order, to one client. */
  function Replay(client: ClientId, history: seq<LogMessage>): (r: seq<Delivery>)
    ensures |r| == |history|
    ensures forall i :: 0 <= i < |history| ==> r[i] == Delivery(client, history[i])
  {
    if history == [] then [] else [Delivery(client, history[0])] + Replay(client, history[1..])
  }

  /** `removeAll { it.source == source }`: the history without the messages of `source`. */
  function Without(history: seq<LogMessage>, source: LogSource): (r: seq<LogMessage>)
    ensures |r| <= |history|
    ensures forall m :: m in r ==> m in history && m.source != source
    ensures forall m :: m in history && m.source != source ==> m in r
  {
    if history == [] then []
    else if history[0].source == source then Without(history[1..], source)
    else [history[0]] + Without(history[1..], source)
  }

  /** The messages of one source, in history order. */
  function OfSource(history: seq<LogMessage>, source: LogSource): (r: seq<LogMessage>)
    ensures |r| <= |history|
    ensures forall m :: m in r <==> m in history && m.source == source
  {
    if history == [] then []
    else if history[0].source == source then [history[0]] + OfSource(history[1..], source)
    else OfSource(history[1..], source)
  }

  /** Removing works message by message: the order of what is kept is the history's order. */
  lemma {:induction false} WithoutAppend(a: seq<LogMessage>, b: seq<LogMessage>, source: LogSource)
    ensures Without(a + b, source) == Without(a, source) + Without(b, source)
  {
    if a == [] {
      assert a + b == b;
    } else {
      assert (a + b)[1..] == a[1..] + b;
      WithoutAppend(a[1..], b, source);
    }
  }

  /** Clearing a source twice is clearing it once. */
  lemma {:induction false} WithoutIdempotent(history: seq<LogMessage>, source: LogSource)
    ensures Without(Without(history, source), source) == Without(history, source)
  {
    if history != [] {
      WithoutIdempotent(history[1..], source);
    }
  }

  /** Clearing a source removes all of its messages and leaves every other source's
      messages exactly as they were, contents and order. */
  lemma {:induction false} WithoutBySource(history: seq<LogMessage>, source: LogSource, other: LogSource)
    ensures OfSource(Without(history, source), source) == []
    ensures other != source ==> OfSource(Without(history, source), other) == OfSource(history, other)
  {
    if history != [] {
      WithoutBySource(history[1..], source, other);
    }
  }

  /** Filtering by source works message by message. */
  lemma {:induction false} OfSourceAppend(a: seq<LogMessage>, b: seq<LogMessage>, source: LogSource)
    ensures OfSource(a + b, source) == OfSource(a, source) + OfSource(b, source)
  {
    if a == [] {
      assert a + b == b;
    } else {
      assert (a + b)[1..] == a[1..] + b;
      OfSourceAppend(a[1..], b, source);
    }
  }

  /** The calls that change the history, in the order they were made. */
  datatype HubCall = EmitCall(message: LogMessage) | ClearCall(source: LogSource)

  /** The history after a series of calls on a fresh hub. */
  function HistoryAfter(calls: seq<HubCall>): seq<LogMessage>
  {
    if calls == [] then []
    else
      var before := HistoryAfter(calls[..|calls| - 1]);
      match calls[|calls| - 1]
      case EmitCall(m) => before + [m]
      case ClearCall(s) => Without(before, s)
  }

  /** Per source, what a fresh client should be given: the messages of that source
      emitted since that source was last cleared, in emission order. */
  function EmittedSinceClear(calls: seq<HubCall>, source: LogSource): seq<LogMessage>
  {
    if calls == [] then []
    else
      var before := EmittedSinceClear(calls[..|calls| - 1], source);
      match calls[|calls| - 1]
      case EmitCall(m) => if m.source == source then before + [m] else before
      case ClearCall(s) => if s == source then [] else before
  }

  /** The history, read one source at a time, is exactly what that source emitted
      since its last clear: a clear of one source never touches another. */
  lemma {:induction false} HistoryBySource(calls: seq<HubCall>, source: LogSource)
    ensures OfSource(HistoryAfter(calls), source) == EmittedSinceClear(calls, source)
  {
    if calls != [] {
      var prefix := calls[..|calls| - 1];
      HistoryBySource(prefix, source);
      match calls[|calls| - 1]
      case EmitCall(m) =>
        OfSourceAppend(HistoryAfter(prefix), [m], source);
      case ClearCall(s) =>
        WithoutBySource(HistoryAfter(prefix), s, source);
    }
  }

  /** The hub; `clients` stands for the web server's client list, which gains every
      browser that connects and never loses one, so it may hold closed sessions. */
  class WebSocketServer {
    var messages: seq<LogMessage>
    var clients: seq<ClientId>
    var sent: seq<Delivery>
    /** Every `emit` and `clear` made so far. */
    ghost var calls: seq<HubCall>

    /** The history is what those calls leave. */
    ghost predicate Valid()
      reads this
    {
      messages == HistoryAfter(calls)
    }

    /** A hub with no history, over the given client list. */
    constructor (clients: seq<ClientId>)
      ensures Valid()
      ensures messages == [] && this.clients == clients && sent == [] && calls == []
    {
      messages := [];
      this.clients := clients;
      sent := [];
      calls := [];
    }

    /** `client.send(message)`. */
    method Send(client: ClientId, message: LogMessage)
      modifies this
      ensures sent == old(sent) + [Delivery(client, message)]
      ensures messages == old(messages) && clients == old(clients) && calls == old(calls)
    {
      sent := sent + [Delivery(client, message)];
    }

    /** `emit(message)`: record the message at the end of the history, then send it
        once to every browser in the client list, in list order. */
    method Emit(message: LogMessage)
      requires Valid()
      modifies this
      ensures Valid() && calls == old(calls) + [EmitCall(message)]
      ensures messages == old(messages) + [message]
      ensures clients == old(clients)
      ensures sent == old(sent) + Fanout(clients, message)
    {
      messages := messages + [message];
      calls := calls + [EmitCall(message)];
      assert calls[..|calls| - 1] == old(calls);
      for i := 0 to |clients|
        invariant Valid() && calls == old(calls) + [EmitCall(message)]
        invariant messages == old(messages) + [message] && clients == old(clients)
        invariant sent == old(sent) + Fanout(clients[..i], message)
      {
        Send(clients[i], message);
      }
      assert clients[..|clients|] == clients;
    }

    /** `clear(source)`: drop that source's messages from the history. Nothing is sent. */
    method Clear(source: LogSource)
      requires Valid()
      modifies this
      ensures Valid() && calls == old(calls) + [ClearCall(source)]
      ensures messages == Without(old(messages), source)
      ensures clients == old(clients) && sent == old(sent)
    {
      messages := Without(messages, source);
      calls := calls + [ClearCall(source)];
      assert calls[..|calls| - 1] == old(calls);
    }

    /** A browser connects: the web server adds it to its clients and announces it,
        and the hub's `clientFlow` handler sends it the whole history, in order. */
    method Join(client: ClientId)
      requires Valid()
      modifies this
      ensures Valid() && calls == old(calls)
      ensures clients == old(clients) + [client]
      ensures messages == old(messages)
      ensures sent == old(sent) + Replay(client, messages)
      ensures forall s :: OfSource(messages, s) == EmittedSinceClear(calls, s)
    {
      clients := clients + [client];
      for i := 0 to |messages|
        invariant calls == old(calls) && clients == old(clients) + [client] && messages == old(messages)
        invariant sent == old(sent) + Replay(client, messages[..i])
      {
        Send(client, messages[i]);
      }
      assert messages[..|messages|] == messages;
      forall s ensures OfSource(messages, s) == EmittedSinceClear(calls, s) {
        HistoryBySource(calls, s);
      }
    }
  }
}
