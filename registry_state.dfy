/**
 * The connection table of the socket registry (src/shared/sockets/socketRegistryState.ts).
 *
 * The table maps a connection id to its record. JavaScript's `Map` iterates in
 * insertion order, so the class keeps that order as a sequence of ids next to the
 * map; `set` on a present key keeps its position and `delete` removes it.
 * Subscriptions are handles; cancelling one appends it to a log, so "the
 * subscription was cancelled" is a statement about that log.
 *
 * A record refers to its WebSocket object, and the kit assigns `closingByKit` on
 * that object. The model keeps the WebSocket's state inside the record, so a close
 * updates the record that the table holds.
 */
module SocketRegistryState {
  import opened JsValues
  import opened Completion

  /** A handle on an Rx subscription. */
  type SubId = nat

  /** `WatchModeDetachBehavior`. */
  datatype DetachPolicy = Unsubscribe | Disconnect

  /**
   * The state of a WebSocket that the registry reads and writes: its `id` property
   * (absent until the upgrade assigns it), the `closingByKit` flag, the code of the
   * last `close` call, and whether the registry's close handler is listening on it.
   */
  datatype Ws = Ws(id: Option<string>, closingByKit: bool, lastCloseCode: Option<nat>, closeHandlerRegistered: bool)

  /**
   * The upgrade request: its `id` property, its `url` (absent or empty is falsy)
   * and the `pathname` that `url.parse` yields for that url (`null` is `None`).
   */
  datatype Request = Request(id: Option<string>, url: Option<string>, pathname: Option<string>)

  /** The fields of a socket epic the registry consults. */
  datatype Epic = Epic(name: string, watchModeDetachBehaviour: Option<DetachPolicy>)

  /**
   * `IConnectedSocket`. `waitForCompletion` is the outcome the epic's wait function
   * settles with when it is called.
   */
  datatype ConnectedSocket = ConnectedSocket(
    id: string,
    pathname: string,
    ws: Ws,
    request: Request,
    subscription: Option<SubId>,
    waitForCompletion: Option<WaitOutcome>,
    onDetach: DetachPolicy)

  /** Close codes of section 7.4.1 of RFC 6455, and 1012 from the IANA WebSocket close code registry. */
  const NormalClosure: nat := 1000
  const InternalError: nat := 1011
  const ServiceRestart: nat := 1012

  predicate Distinct(s: seq<string>) {
    forall i, j :: 0 <= i < j < |s| ==> s[i] != s[j]
  }

  /** In a duplicate-free sequence, no element occurs before its own position. */
  lemma NotBefore(s: seq<string>, i: nat)
    requires Distinct(s) && i < |s|
    ensures s[i] !in s[..i]
  {
  }

  /** The sequence without any occurrence of `k`. */
  function RemoveKey(s: seq<string>, k: string): (r: seq<string>)
    ensures forall x :: x in r <==> x in s && x != k
    ensures Distinct(s) ==> Distinct(r)
    ensures k !in s ==> r == s
  {
    if s == [] then []
    else if s[0] == k then RemoveKey(s[1..], k)
    else
      var rest := RemoveKey(s[1..], k);
      assert Distinct(s) ==> s[0] !in s[1..];
      [s[0]] + rest
  }

  lemma RemoveKeyHead(s: seq<string>)
    requires s != [] && Distinct(s)
    ensures RemoveKey(s, s[0]) == s[1..]
  {
    assert s[0] !in s[1..];
  }

  /** Deleting the first key of the table keeps the key order and the key set in step. */
  lemma DropFirstKey(order: seq<string>, sockets: map<string, ConnectedSocket>)
    requires order != [] && Distinct(order) && forall k :: k in sockets <==> k in order
    ensures RemoveKey(order, order[0]) == order[1..] && Distinct(order[1..])
    ensures forall k :: k in sockets - {order[0]} <==> k in order[1..]
  {
    RemoveKeyHead(order);
  }

  /** A table whose key order is empty holds no entry. */
  lemma EmptyTable(order: seq<string>, sockets: map<string, ConnectedSocket>)
    requires order == [] && forall k :: k in sockets <==> k in order
    ensures sockets == map[]
  {
    assert forall k :: k !in sockets;
  }

  /** The subscription a record holds, as a sequence of zero or one handle. */
  function SubOf(s: ConnectedSocket): (r: seq<SubId>)
    ensures |r| <= 1
    ensures r != [] <==> s.subscription.Some?
    ensures r != [] ==> r[0] == s.subscription.value
  {
    if s.subscription.Some? then [s.subscription.value] else []
  }

  /** The subscriptions of the records, in order. */
  function SubsOf(all: seq<ConnectedSocket>): (r: seq<SubId>)
    ensures |r| <= |all|
  {
    if all == [] then []
    else
      SubsOf(all[..|all| - 1]) + SubOf(all[|all| - 1])
  }

  lemma SubsOfSnoc(all: seq<ConnectedSocket>, i: nat)
    requires i < |all|
    ensures SubsOf(all[..i + 1]) == SubsOf(all[..i]) + SubOf(all[i])
  {
    assert all[..i + 1][..i] == all[..i];
  }

  /** Releasing one more record appends its subscription to the handles released so far. */
  lemma ReleasedSnoc(before: seq<SubId>, all: seq<ConnectedSocket>, i: nat)
    requires i < |all|
    ensures before + SubsOf(all[..i]) + SubOf(all[i]) == before + SubsOf(all[..i + 1])
  {
    SubsOfSnoc(all, i);
  }

  /** The records of the table, in iteration order (`[...state.sockets.values()]`). */
  function Entries(order: seq<string>, sockets: map<string, ConnectedSocket>): (all: seq<ConnectedSocket>)
    requires forall i :: 0 <= i < |order| ==> order[i] in sockets
    ensures |all| == |order|
    ensures forall i :: 0 <= i < |order| ==> all[i] == sockets[order[i]]
  {
    seq(|order|, i requires 0 <= i < |order| => sockets[order[i]])
  }

  /**
   * `closeSocketCore(socketState, code)` on the record: the WebSocket is marked as being
   * closed by the kit, and only then closed with `code`.
   */
  function CloseSocketCore(s: ConnectedSocket, code: nat): (r: ConnectedSocket)
    ensures r.ws.closingByKit && r.ws.lastCloseCode == Some(code)
    ensures r.ws.id == s.ws.id && r.ws.closeHandlerRegistered == s.ws.closeHandlerRegistered
    ensures r.(ws := s.ws) == s
  {
    s.(ws := s.ws.(closingByKit := true, lastCloseCode := Some(code)))
  }

  /** Every record of the table closed by the kit with `code`. */
  function CloseAll(sockets: map<string, ConnectedSocket>, code: nat): (r: map<string, ConnectedSocket>)
    ensures r.Keys == sockets.Keys
    ensures forall k :: k in r ==> r[k] == CloseSocketCore(sockets[k], code)
  {
    map k | k in sockets :: CloseSocketCore(sockets[k], code)
  }

  /**
   * What detaching in watch mode makes of a record: nothing without a subscription;
   * otherwise the subscription and the wait function are dropped, and the socket is
   * closed with 1012 when its policy is to disconnect.
   */
  function DetachEntry(s: ConnectedSocket): (r: ConnectedSocket)
    ensures s.subscription.None? ==> r == s
    ensures s.subscription.Some? ==> r.subscription.None? && r.waitForCompletion.None?
    ensures r.id == s.id && r.pathname == s.pathname && r.request == s.request && r.onDetach == s.onDetach
    ensures s.subscription.Some? && s.onDetach == Disconnect ==>
              r.ws.closingByKit && r.ws.lastCloseCode == Some(ServiceRestart)
    ensures !(s.subscription.Some? && s.onDetach == Disconnect) ==> r.ws == s.ws
  {
    if s.subscription.None? then s
    else
      var rest := s.(subscription := None, waitForCompletion := None);
      if rest.onDetach == Disconnect then CloseSocketCore(rest, ServiceRestart) else rest
  }

  /** Does the record's wait function reject when called? A missing one resolves with `'completed'`. */
  predicate WaitRejects(s: ConnectedSocket) {
    s.waitForCompletion.Some? && s.waitForCompletion.value.Rejected?
  }

  /**
   * The outcome of chaining the wait functions one after the other: the error of the
   * first one that rejects, or `None` when every one of them resolves.
   */
  function FirstRejection(all: seq<ConnectedSocket>): (r: Option<Value>)
    ensures r.None? <==> forall j :: 0 <= j < |all| ==> !WaitRejects(all[j])
    ensures r.Some? ==> exists j :: 0 <= j < |all| && all[j].waitForCompletion == Some(Rejected(r.value))
                                    && forall i :: 0 <= i < j ==> !WaitRejects(all[i])
  {
    if all == [] then None
    else if WaitRejects(all[0]) then Some(all[0].waitForCompletion.value.error)
    else
      var r := FirstRejection(all[1..]);
      assert forall j :: 1 <= j < |all| ==> all[j] == all[1..][j - 1];
      r
  }

  /** The first rejecting wait decides the outcome of the chain. */
  lemma {:induction false} FirstRejectionAt(all: seq<ConnectedSocket>, i: nat)
    requires i < |all| && WaitRejects(all[i])
    requires forall j :: 0 <= j < i ==> !WaitRejects(all[j])
    ensures FirstRejection(all) == Some(all[i].waitForCompletion.value.error)
    decreases i
  {
    if i > 0 {
      FirstRejectionAt(all[1..], i - 1);
    }
  }

  /**
   * `waitForAllToComplete(all)`: each wait function is called only after the previous
   * one resolved; the first rejection rejects the whole chain.
   */
  method WaitForAllToComplete(all: seq<ConnectedSocket>) returns (rejection: Option<Value>)
    ensures rejection == FirstRejection(all)
  {
    var i := 0;
    while i < |all|
      invariant 0 <= i <= |all|
      invariant forall j :: 0 <= j < i ==> !WaitRejects(all[j])
    {
      if WaitRejects(all[i]) {
        FirstRejectionAt(all, i);
        return Some(all[i].waitForCompletion.value.error);
      }
      i := i + 1;
    }
    return None;
  }

  /** The registry's mutable state (`ISocketRegistryState`) and the operations of its API. */
  class SocketRegistryState {
    var epicsByPath: map<string, Epic>
    var sockets: map<string, ConnectedSocket>
    /** The keys of `sockets` in insertion order. */
    var order: seq<string>
    /** Every subscription cancelled so far, in the order of the `unsubscribe` calls. */
    var cancelled: seq<SubId>

    ghost predicate Valid()
      reads this
    {
      Distinct(order)
      && (forall k :: k in sockets <==> k in order)
      && (forall k :: k in sockets ==> sockets[k].id == k)
    }

    /** The state `createSocketRegistry` starts with: the given paths and no connection. */
    constructor (epicsByPath: map<string, Epic>)
      ensures Valid()
      ensures this.epicsByPath == epicsByPath && sockets == map[] && order == [] && cancelled == []
    {
      this.epicsByPath := epicsByPath;
      sockets := map[];
      order := [];
      cancelled := [];
    }

    /**
     * `addSocket(socketState)`: registers the close handler on the WebSocket and stores
     * the record under its id, replacing (and reporting) an existing entry for that id.
     */
    method AddSocket(s: ConnectedSocket) returns (replaced: bool)
      requires Valid()
      modifies this
      ensures Valid()
      ensures replaced == (s.id in old(sockets))
      ensures sockets == old(sockets)[s.id := s.(ws := s.ws.(closeHandlerRegistered := true))]
      ensures order == if replaced then old(order) else old(order) + [s.id]
      ensures epicsByPath == old(epicsByPath) && cancelled == old(cancelled)
    {
      replaced := s.id in sockets;
      var registered := s.(ws := s.ws.(closeHandlerRegistered := true));
      sockets := sockets[s.id := registered];
      if !replaced {
        order := order + [s.id];
      }
    }

    /**
     * `attachToSocket(id, subscription, waitForCompletion, onDetach)`: on a known id the
     * three fields are set and the rest of the record is kept; an unknown id is ignored.
     */
    method AttachToSocket(id: string, subscription: SubId, wait: WaitOutcome, onDetach: DetachPolicy)
      requires Valid()
      modifies this
      ensures Valid()
      ensures id !in old(sockets) ==> sockets == old(sockets)
      ensures id in old(sockets) ==>
                sockets == old(sockets)[id := old(sockets)[id].(subscription := Some(subscription),
                                                                waitForCompletion := Some(wait),
                                                                onDetach := onDetach)]
      ensures order == old(order) && epicsByPath == old(epicsByPath) && cancelled == old(cancelled)
    {
      if id in sockets {
        var s := sockets[id];
        sockets := sockets[id := s.(subscription := Some(subscription), waitForCompletion := Some(wait),
                                    onDetach := onDetach)];
      }
    }

    /**
     * `detachFromSocketInWatchMode(id)`: the entry stays, without its subscription and
     * wait function; the subscription is cancelled. Nothing happens without an entry
     * or without a subscription.
     */
    method DetachFromSocketInWatchMode(id: string)
      requires Valid()
      modifies this
      ensures Valid()
      ensures id !in old(sockets) ==> sockets == old(sockets) && cancelled == old(cancelled)
      ensures id in old(sockets) ==>
                sockets == old(sockets)[id := DetachEntry(old(sockets)[id])]
                && cancelled == old(cancelled) + SubOf(old(sockets)[id])
      ensures order == old(order) && epicsByPath == old(epicsByPath)
    {
      if id !in sockets {
        return;
      }
      var socketState := sockets[id];
      if socketState.subscription.None? {
        return;
      }
      var rest := socketState.(subscription := None, waitForCompletion := None);
      sockets := sockets[id := rest];
      cancelled := cancelled + [socketState.subscription.value];
      if rest.onDetach == Disconnect {
        // the WebSocket object is shared by both records, so the stored one sees the close
        sockets := sockets[id := CloseSocketCore(rest, ServiceRestart)];
      }
    }

    /** The teardown `buildTeardown(state, id)` returns: cancel the subscription, if any, and delete the entry. */
    method Teardown(id: string)
      requires Valid()
      modifies this
      ensures Valid()
      ensures id !in old(sockets) ==>
                sockets == old(sockets) && order == old(order) && cancelled == old(cancelled)
      ensures id in old(sockets) ==>
                sockets == old(sockets) - {id} && order == RemoveKey(old(order), id)
                && cancelled == old(cancelled) + SubOf(old(sockets)[id])
      ensures epicsByPath == old(epicsByPath)
    {
      if id !in sockets {
        return;
      }
      var socketState := sockets[id];
      if socketState.subscription.Some? {
        cancelled := cancelled + [socketState.subscription.value];
      }
      sockets := sockets - {socketState.id};
      order := RemoveKey(order, socketState.id);
    }

    /**
     * `waitForCompletionThenTeardown(wait, teardown)`: the teardown runs whether the wait
     * resolves or rejects; a rejection is also logged, which is what `loggedError` reports.
     */
    method WaitForCompletionThenTeardown(wait: WaitOutcome, id: string) returns (loggedError: bool)
      requires Valid()
      modifies this
      ensures Valid()
      ensures loggedError == wait.Rejected?
      ensures id !in old(sockets) ==>
                sockets == old(sockets) && order == old(order) && cancelled == old(cancelled)
      ensures id in old(sockets) ==>
                sockets == old(sockets) - {id} && order == RemoveKey(old(order), id)
                && cancelled == old(cancelled) + SubOf(old(sockets)[id])
      ensures epicsByPath == old(epicsByPath)
    {
      loggedError := wait.Rejected?;
      Teardown(id);
    }

    /**
     * The handler `addSocket` registers for the WebSocket's `close` event. A socket the
     * kit is closing keeps its entry; otherwise the entry is torn down, after the epic's
     * wait function settles when there is one.
     */
    method ClientSideCloseHandler(id: string) returns (loggedError: bool)
      requires Valid()
      modifies this
      ensures Valid()
      ensures (id !in old(sockets) || old(sockets)[id].ws.closingByKit) ==>
                sockets == old(sockets) && order == old(order) && cancelled == old(cancelled) && !loggedError
      ensures id in old(sockets) && !old(sockets)[id].ws.closingByKit ==>
                sockets == old(sockets) - {id} && order == RemoveKey(old(order), id)
                && cancelled == old(cancelled) + SubOf(old(sockets)[id])
                && loggedError == WaitRejects(old(sockets)[id])
      ensures epicsByPath == old(epicsByPath)
    {
      loggedError := false;
      if id !in sockets {
        return;
      }
      var socketState := sockets[id];
      if socketState.ws.closingByKit {
        return;
      }
      if socketState.waitForCompletion.Some? {
        loggedError := WaitForCompletionThenTeardown(socketState.waitForCompletion.value, id);
      } else {
        Teardown(id);
      }
    }

    /** `closeSocket(id, code)`: `closeSocketCore` on the entry; an unknown id is ignored. */
    method CloseSocket(id: string, code: nat)
      requires Valid()
      modifies this
      ensures Valid()
      ensures id !in old(sockets) ==> sockets == old(sockets)
      ensures id in old(sockets) ==> sockets == old(sockets)[id := CloseSocketCore(old(sockets)[id], code)]
      ensures order == old(order) && epicsByPath == old(epicsByPath) && cancelled == old(cancelled)
    {
      if id in sockets {
        sockets := sockets[id := CloseSocketCore(sockets[id], code)];
      }
    }

    /** The first loop of `onServerClose`: every entry is closed by the kit with `code`. */
    method CloseEverySocket(code: nat)
      requires Valid()
      modifies this
      ensures Valid()
      ensures sockets == CloseAll(old(sockets), code)
      ensures order == old(order) && cancelled == old(cancelled) && epicsByPath == old(epicsByPath)
    {
      ghost var closed := CloseAll(sockets, code);
      var i := 0;
      while i < |order|
        invariant 0 <= i <= |order|
        invariant order == old(order) && cancelled == old(cancelled) && epicsByPath == old(epicsByPath)
        invariant sockets.Keys == old(sockets).Keys
        invariant forall k :: k in sockets ==>
                    sockets[k] == if k in order[..i] then closed[k] else old(sockets)[k]
      {
        var id := order[i];
        assert order[..i + 1] == order[..i] + [id];
        sockets := sockets[id := CloseSocketCore(sockets[id], code)];
        i := i + 1;
      }
      assert order[..i] == order;
    }

    /**
     * The last loop of `onServerClose` over the snapshot `all`, one record per entry in
     * table order: cancel each record's subscription and delete its entry.
     */
    method ReleaseSnapshot(all: seq<ConnectedSocket>)
      requires Valid()
      requires |all| == |order| && forall i :: 0 <= i < |all| ==> all[i].id == order[i]
      modifies this
      ensures Valid()
      ensures sockets == map[] && order == [] && cancelled == old(cancelled) + SubsOf(all)
      ensures epicsByPath == old(epicsByPath)
    {
      var ids, table, released := order, sockets, cancelled;
      var j := 0;
      while j < |all|
        invariant 0 <= j <= |all|
        invariant unchanged(this)
        invariant Distinct(ids) && forall k :: k in table <==> k in ids
        invariant ids == order[j..]
        invariant released == cancelled + SubsOf(all[..j])
      {
        var socketState := all[j];
        assert socketState.id == ids[0];
        assert ids[1..] == order[j + 1..];
        ReleasedSnoc(cancelled, all, j);
        DropFirstKey(ids, table);
        released := released + SubOf(socketState);
        table := table - {socketState.id};
        ids := RemoveKey(ids, socketState.id);
        j := j + 1;
      }
      assert all[..j] == all;
      EmptyTable(ids, table);
      order, sockets, cancelled := ids, table, released;
    }

    /**
     * `onServerClose()`: on a snapshot of the table, close every socket with 1012, wait
     * for every epic one at a time in table order, then cancel and delete exactly the
     * snapshot's entries. A rejected wait rejects the whole call before the cleanup.
     */
    method OnServerClose() returns (rejection: Option<Value>)
      requires Valid()
      modifies this
      ensures Valid()
      ensures rejection == FirstRejection(Entries(old(order), old(sockets)))
      ensures rejection.Some? ==>
                sockets == CloseAll(old(sockets), ServiceRestart) && order == old(order)
                && cancelled == old(cancelled)
      ensures rejection.None? ==>
                sockets == map[] && order == []
                && cancelled == old(cancelled) + SubsOf(Entries(old(order), old(sockets)))
      ensures epicsByPath == old(epicsByPath)
    {
      var all := Entries(order, sockets);
      CloseEverySocket(ServiceRestart);
      rejection := WaitForAllToComplete(all);
      if rejection.Some? {
        return;
      }
      ReleaseSnapshot(all);
    }
  }
}
