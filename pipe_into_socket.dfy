/**
 * Sending an outgoing stream to a WebSocket (src/shared/sockets/pipeStreamIntoSocket.ts):
 * the default send, the default send-error handler and the send loop with its close policy.
 *
 * The socket is a class whose methods record what reaches it. Its `readyState` and the
 * error its `send` callback reports are oracles indexed by the number of `send` calls so
 * far; `JSON.stringify` is an oracle too. Log lines and `registerError` are recorded as
 * reports. Each send settles before the next stream event.
 */
module PipeIntoSocket {
  import opened JsValues
  import opened Streams
  import SocketFrames
  import SocketRegistryState

  /** The message of the error the default send rejects with on a socket that is not open. */
  const SocketClosed: string := "Trying to send data while socket already closed"

  /** An item of the outgoing stream: a Buffer or an action. */
  datatype Outgoing = BufferData(bytes: seq<SocketFrames.byte>) | ActionData(action: Value)

  /** A message handed to `socket.send`. */
  datatype Wire = BinaryMessage(bytes: seq<SocketFrames.byte>) | TextMessage(text: string)

  /** What `defaultSendToSocket` hands to `socket.send`: a Buffer as it is, anything else JSON-encoded. */
  function Payload(d: Outgoing, stringify: Value -> string): (r: Wire)
    ensures r.BinaryMessage? <==> d.BufferData?
    ensures d.BufferData? ==> r.bytes == d.bytes
    ensures d.ActionData? ==> r.text == stringify(d.action)
  {
    match d
    case BufferData(bytes) => BinaryMessage(bytes)
    case ActionData(action) => TextMessage(stringify(action))
  }

  /** `new Error(SOCKET_CLOSED)`. */
  function SocketClosedError(): Value {
    Err(ErrorOf("Error", SocketClosed))
  }

  /** How the promise of one send settles. */
  datatype SendResult = Sent | SendFailed(error: Value)

  /**
   * `defaultSendToSocket` on the `k`-th send call: a socket that is not open rejects with
   * the socket-closed error; an open one rejects with the callback's error when it is truthy
   * and resolves otherwise.
   */
  function SendOutcome(k: nat, openAt: nat -> bool, callbackError: nat -> Value): (r: SendResult)
    ensures !openAt(k) ==> r == SendFailed(SocketClosedError())
    ensures openAt(k) ==> (r == Sent <==> !Truthy(callbackError(k)))
    ensures openAt(k) && r.SendFailed? ==> r.error == callbackError(k)
  {
    if !openAt(k) then SendFailed(SocketClosedError())
    else if Truthy(callbackError(k)) then SendFailed(callbackError(k))
    else Sent
  }

  /** A WebSocket as the send loop sees it. */
  class OutgoingSocket {
    /** Whether `readyState === OPEN` at the `k`-th send call. */
    const openAt: nat -> bool
    /** The error `send` reports to its callback for the `k`-th call that reaches it. */
    const callbackError: nat -> Value
    /** The number of send calls so far. */
    var calls: nat
    /** The messages handed to `socket.send`, in order. */
    var sent: seq<Wire>
    /** The codes of the `socket.close(code)` calls, in order. */
    var closeCodes: seq<nat>

    constructor (openAt: nat -> bool, callbackError: nat -> Value)
      ensures this.openAt == openAt && this.callbackError == callbackError
      ensures calls == 0 && sent == [] && closeCodes == []
    {
      this.openAt := openAt;
      this.callbackError := callbackError;
      calls := 0;
      sent := [];
      closeCodes := [];
    }

    /** `defaultSendToSocket(socket, data)`: only an open socket is handed the payload. */
    method Send(d: Outgoing, stringify: Value -> string) returns (r: SendResult)
      modifies this
      ensures r == SendOutcome(old(calls), openAt, callbackError)
      ensures calls == old(calls) + 1
      ensures sent == old(sent) + (if openAt(old(calls)) then [Payload(d, stringify)] else [])
      ensures closeCodes == old(closeCodes)
    {
      if openAt(calls) {
        sent := sent + [Payload(d, stringify)];
      }
      r := SendOutcome(calls, openAt, callbackError);
      calls := calls + 1;
    }

    /** `defaultCloseSocket(socket, code)`. */
    method Close(code: nat)
      modifies this
      ensures closeCodes == old(closeCodes) + [code]
      ensures calls == old(calls) && sent == old(sent)
    {
      closeCodes := closeCodes + [code];
    }
  }

  // ---------------------------------------------------------------------------
  // Specification of the send loop
  // ---------------------------------------------------------------------------

  /** How far the sequential sends get: how many were attempted and the error that stopped them. */
  datatype Delivery = Delivery(attempted: nat, failure: Option<Value>)

  /** The number of sends that succeeded. */
  function Succeeded(d: Delivery): nat {
    if d.failure.Some? && d.attempted > 0 then d.attempted - 1 else d.attempted
  }

  /**
   * `concatMap` over the sends, starting at send call `k`: the items are sent one at a time in
   * order, and the first failed send ends the loop with its error.
   */
  function Deliver(items: seq<Outgoing>, k: nat, openAt: nat -> bool, callbackError: nat -> Value): (r: Delivery)
    ensures r.attempted <= |items|
    ensures r.failure.None? ==> r.attempted == |items|
    ensures r.failure.Some? ==> 1 <= r.attempted
                                && SendOutcome(k + r.attempted - 1, openAt, callbackError) == SendFailed(r.failure.value)
    ensures forall j :: k <= j < k + Succeeded(r) ==> SendOutcome(j, openAt, callbackError) == Sent
    decreases |items|
  {
    if items == [] then Delivery(0, None)
    else
      var p := Deliver(items[..|items| - 1], k, openAt, callbackError);
      if p.failure.Some? then p
      else
        match SendOutcome(k + |items| - 1, openAt, callbackError)
        case Sent => Delivery(|items|, None)
        case SendFailed(e) => Delivery(|items|, Some(e))
  }

  /** The messages that reach `socket.send` when `items` are sent from send call `k` on. */
  function SentWire(items: seq<Outgoing>, k: nat, openAt: nat -> bool, stringify: Value -> string): (r: seq<Wire>)
    ensures |r| <= |items|
    decreases |items|
  {
    if items == [] then []
    else
      SentWire(items[..|items| - 1], k, openAt, stringify)
      + (if openAt(k + |items| - 1) then [Payload(items[|items| - 1], stringify)] else [])
  }

  /** The payloads of all items, in order. */
  function Payloads(items: seq<Outgoing>, stringify: Value -> string): (r: seq<Wire>)
    ensures |r| == |items|
  {
    seq(|items|, i requires 0 <= i < |items| => Payload(items[i], stringify))
  }

  /** How the piped stream ends: with the failed send's error, or as the outgoing stream ends. */
  function Terminal(end: End, d: Delivery): End {
    if d.failure.Some? then Failed(d.failure.value) else end
  }

  /** The close calls the subscriber makes: at most one, 1011 on error and 1000 on completion. */
  function CloseCodes(end: End, closeOnError: bool, closeOnComplete: bool): (r: seq<nat>)
    ensures |r| <= 1
    ensures r == [1011] <==> end.Failed? && closeOnError
    ensures r == [1000] <==> end == Complete && closeOnComplete
    ensures end == Open ==> r == []
  {
    match end
    case Failed(_) => if closeOnError then [SocketRegistryState.InternalError] else []
    case Complete => if closeOnComplete then [SocketRegistryState.NormalClosure] else []
    case Open => []
  }

  /** An absent `closeOnError` / `closeOnComplete` option means `true`. */
  function CloseFlag(raw: Option<bool>): (b: bool)
    ensures raw.None? ==> b
    ensures raw.Some? ==> b == raw.value
  {
    raw.GetOr(true)
  }

  /** What the loop reports: log lines, and errors handed to `registerError`. */
  datatype Report =
    | SocketClosedWarning(data: Outgoing)
    | SendErrorRegistered(data: Outgoing, error: Value)
    | OutgoingStreamError(error: Value)

  /** `defaultSendToSocketErrorHandler`: a socket-closed error is only warned about, any other is registered. */
  function OnSendError(data: Outgoing, error: Value): (r: seq<Report>)
    ensures |r| == 1
    ensures r[0].SocketClosedWarning? <==> MessageProp(error) == Str(SocketClosed)
    ensures r[0].SocketClosedWarning? ==> r[0] == SocketClosedWarning(data)
    ensures !r[0].SocketClosedWarning? ==> r[0] == SendErrorRegistered(data, error)
  {
    if MessageProp(error) == Str(SocketClosed) then [SocketClosedWarning(data)]
    else [SendErrorRegistered(data, error)]
  }

  /** The subscriber's error handler logs every error except an `Error` carrying the socket-closed message. */
  function SubscriberError(error: Value): (r: seq<Report>)
    ensures r == [] <==> error.Err? && error.err.message == SocketClosed
    ensures r != [] ==> r == [OutgoingStreamError(error)]
  {
    if error.Err? && error.err.message == SocketClosed then [] else [OutgoingStreamError(error)]
  }

  /** Everything the loop reports, in order: the send-error handler first, then the subscriber. */
  function Reports(items: seq<Outgoing>, end: End, d: Delivery): seq<Report>
    requires d.failure.Some? ==> 1 <= d.attempted <= |items|
  {
    (if d.failure.Some? then OnSendError(items[d.attempted - 1], d.failure.value) else [])
    + (match Terminal(end, d) case Failed(e) => SubscriberError(e) case _ => [])
  }

  // ---------------------------------------------------------------------------
  // The send loop
  // ---------------------------------------------------------------------------

  /**
   * The `concatMap` loop: sends the items one at a time until one fails, and runs the
   * send-error handler on the failed one.
   */
  method SendInOrder(items: seq<Outgoing>, socket: OutgoingSocket, stringify: Value -> string)
    returns (d: Delivery, reports: seq<Report>)
    modifies socket
    ensures d == Deliver(items, old(socket.calls), socket.openAt, socket.callbackError)
    ensures socket.calls == old(socket.calls) + d.attempted
    ensures socket.sent == old(socket.sent) + SentWire(items[..d.attempted], old(socket.calls), socket.openAt, stringify)
    ensures socket.closeCodes == old(socket.closeCodes)
    ensures reports == (if d.failure.Some? then OnSendError(items[d.attempted - 1], d.failure.value) else [])
  {
    ghost var k0 := socket.calls;
    ghost var sent0 := socket.sent;
    var i := 0;
    var failure: Option<Value> := None;
    reports := [];
    while i < |items| && failure.None?
      invariant 0 <= i <= |items|
      invariant socket.calls == k0 + i
      invariant socket.sent == sent0 + SentWire(items[..i], k0, socket.openAt, stringify)
      invariant socket.closeCodes == old(socket.closeCodes)
      invariant Deliver(items[..i], k0, socket.openAt, socket.callbackError) == Delivery(i, failure)
      invariant failure.Some? ==> 1 <= i && reports == OnSendError(items[i - 1], failure.value)
      invariant failure.None? ==> reports == []
    {
      var r := socket.Send(items[i], stringify);
      assert items[..i + 1][..i] == items[..i];
      if r.SendFailed? {
        reports := OnSendError(items[i], r.error);
        failure := Some(r.error);
      }
      i := i + 1;
    }
    if failure.Some? {
      DeliverStopsAtFailure(items, i, k0, socket.openAt, socket.callbackError);
    } else {
      assert items[..i] == items;
    }
    d := Delivery(i, failure);
  }

  /** The subscriber: the error handler logs and closes with 1011, the completion handler closes with 1000. */
  method Settle(end: End, socket: OutgoingSocket, closeOnError: bool, closeOnComplete: bool)
    returns (reports: seq<Report>)
    modifies socket
    ensures socket.closeCodes == old(socket.closeCodes) + CloseCodes(end, closeOnError, closeOnComplete)
    ensures socket.calls == old(socket.calls) && socket.sent == old(socket.sent)
    ensures reports == (match end case Failed(e) => SubscriberError(e) case _ => [])
  {
    reports := [];
    match end
    case Failed(e) =>
      reports := SubscriberError(e);
      if closeOnError {
        socket.Close(SocketRegistryState.InternalError);
      }
    case Complete =>
      if closeOnComplete {
        socket.Close(SocketRegistryState.NormalClosure);
      }
    case Open =>
  }

  /**
   * `pipeStreamIntoSocket(stream, socket, opts)` with the default send, close and error handler,
   * run until the outgoing stream has ended (or up to its last item when it stays open).
   */
  method PipeStreamIntoSocket(stream: Stream<Outgoing>, socket: OutgoingSocket, stringify: Value -> string,
                              closeOnErrorRaw: Option<bool>, closeOnCompleteRaw: Option<bool>)
    returns (reports: seq<Report>)
    modifies socket
    ensures var d := Deliver(stream.items, old(socket.calls), socket.openAt, socket.callbackError);
            && socket.calls == old(socket.calls) + d.attempted
            && socket.sent == old(socket.sent) + SentWire(stream.items[..d.attempted], old(socket.calls), socket.openAt, stringify)
            && socket.closeCodes == old(socket.closeCodes)
                                    + CloseCodes(Terminal(stream.end, d), CloseFlag(closeOnErrorRaw), CloseFlag(closeOnCompleteRaw))
            && reports == Reports(stream.items, stream.end, d)
  {
    var d, sendReports := SendInOrder(stream.items, socket, stringify);
    var terminal := if d.failure.Some? then Failed(d.failure.value) else stream.end;
    var endReports := Settle(terminal, socket, CloseFlag(closeOnErrorRaw), CloseFlag(closeOnCompleteRaw));
    reports := sendReports + endReports;
  }

  // ---------------------------------------------------------------------------
  // Properties
  // ---------------------------------------------------------------------------

  /** Once a send has failed, later items change nothing: they are never sent. */
  lemma {:induction false} DeliverStopsAtFailure(items: seq<Outgoing>, i: nat, k: nat,
                                                 openAt: nat -> bool, callbackError: nat -> Value)
    requires i <= |items|
    requires Deliver(items[..i], k, openAt, callbackError).failure.Some?
    ensures Deliver(items, k, openAt, callbackError) == Deliver(items[..i], k, openAt, callbackError)
    decreases |items|
  {
    if i < |items| {
      var init := items[..|items| - 1];
      assert init[..i] == items[..i];
      DeliverStopsAtFailure(init, i, k, openAt, callbackError);
    } else {
      assert items[..i] == items;
    }
  }

  /** When no send fails, every item reaches the socket, in order, as its payload. */
  lemma {:induction false} NoFailureSendsEverything(items: seq<Outgoing>, k: nat, openAt: nat -> bool,
                                                    callbackError: nat -> Value, stringify: Value -> string)
    requires Deliver(items, k, openAt, callbackError).failure.None?
    ensures SentWire(items, k, openAt, stringify) == Payloads(items, stringify)
    decreases |items|
  {
    if items != [] {
      var init := items[..|items| - 1];
      var p := Deliver(init, k, openAt, callbackError);
      assert p.failure.None?;
      assert SendOutcome(k + |items| - 1, openAt, callbackError) == Sent;
      NoFailureSendsEverything(init, k, openAt, callbackError, stringify);
      assert Payloads(items, stringify) == Payloads(init, stringify) + [Payload(items[|items| - 1], stringify)];
    }
  }

  /** The socket-closed error is only warned about: never registered, never logged as a stream error. */
  lemma SocketClosedOnlyWarned(items: seq<Outgoing>, end: End, d: Delivery)
    requires 1 <= d.attempted <= |items| && d.failure == Some(SocketClosedError())
    ensures Reports(items, end, d) == [SocketClosedWarning(items[d.attempted - 1])]
  {
  }

  /**
   * An outgoing stream piped into a socket that is already closed: the first send fails with
   * the socket-closed error, nothing reaches the socket, the failure is only warned about,
   * and the socket is closed with 1011 under the default options.
   */
  lemma {:induction false} PipeIntoClosedSocket(items: seq<Outgoing>, end: End, k: nat,
                                                openAt: nat -> bool, callbackError: nat -> Value,
                                                stringify: Value -> string)
    requires items != [] && !openAt(k)
    ensures var d := Deliver(items, k, openAt, callbackError);
            && d == Delivery(1, Some(SocketClosedError()))
            && SentWire(items[..d.attempted], k, openAt, stringify) == []
            && Reports(items, end, d) == [SocketClosedWarning(items[0])]
            && CloseCodes(Terminal(end, d), CloseFlag(None), CloseFlag(None)) == [1011]
  {
    var first := items[..1];
    assert first[..0] == [];
    assert Deliver(first, k, openAt, callbackError) == Delivery(1, Some(SocketClosedError()));
    DeliverStopsAtFailure(items, 1, k, openAt, callbackError);
  }

  /** A stream whose sends all succeed and which completes is sent whole and closed with 1000 by default. */
  lemma CompletedStreamSentWhole(items: seq<Outgoing>, k: nat, openAt: nat -> bool,
                                 callbackError: nat -> Value, stringify: Value -> string)
    requires Deliver(items, k, openAt, callbackError).failure.None?
    ensures var d := Deliver(items, k, openAt, callbackError);
            && SentWire(items[..d.attempted], k, openAt, stringify) == Payloads(items, stringify)
            && Reports(items, Complete, d) == []
            && CloseCodes(Terminal(Complete, d), CloseFlag(None), CloseFlag(None)) == [1000]
  {
    NoFailureSendsEverything(items, k, openAt, callbackError, stringify);
    assert items[..|items|] == items;
  }
}
