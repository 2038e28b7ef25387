/**
 * The socket registry around the connection table: the server's upgrade listener
 * (src/shared/sockets/buildServerUpgradeListener.ts), the `connection` listener that
 * binds an epic to a socket (src/shared/sockets/buildOnConnectionListener.ts), and the
 * registry's `initialize`, `deinitialize` and `destroy` with its per-server memoisation
 * (src/shared/sockets/socketRegistry.ts).
 *
 * Spinning up an epic for a socket (src/shared/sockets/spinUpSocketEpic.ts) is an
 * oracle: it hands back the subscription and the outcome of the wait function.
 */
module SocketRegistry {
  import opened JsValues
  import opened Completion
  import opened SocketRegistryState

  /** What `spinUpSocketEpic` returns for a socket. */
  datatype SpunUp = SpunUp(subscription: SubId, wait: WaitOutcome)

  /** How an upgrade request ends. */
  datatype UpgradeOutcome =
    | TransportDestroyed       // `socket.destroy()` and no entry
    | UpgradeThrew(error: Value)
    | Accepted(id: string)

  /** `!request.url`. */
  predicate NoUrl(request: Request) {
    request.url.None? || request.url.value == ""
  }

  /** The detach policy of an epic: `epic.watchModeDetachBehaviour || 'disconnect'`. */
  function PolicyOf(epic: Epic): (p: DetachPolicy)
    ensures epic.watchModeDetachBehaviour.Some? ==> p == epic.watchModeDetachBehaviour.value
    ensures epic.watchModeDetachBehaviour.None? ==> p == Disconnect
  {
    epic.watchModeDetachBehaviour.GetOr(Disconnect)
  }

  /**
   * What the `connection` listener makes of the record of its socket: nothing without
   * a url or a pathname; a close with 1000 when the current path map has no epic for
   * the pathname; otherwise the epic's subscription and wait function are attached
   * with the epic's detach policy.
   */
  function Bind(epics: map<string, Epic>, s: ConnectedSocket, request: Request, spun: SpunUp): (r: ConnectedSocket)
    ensures NoUrl(request) || request.pathname.None? ==> r == s
    ensures !NoUrl(request) && request.pathname.Some? && request.pathname.value !in epics ==>
              r == CloseSocketCore(s, NormalClosure)
    ensures !NoUrl(request) && request.pathname.Some? && request.pathname.value in epics ==>
              r == s.(subscription := Some(spun.subscription), waitForCompletion := Some(spun.wait),
                      onDetach := PolicyOf(epics[request.pathname.value]))
    ensures r.id == s.id && r.pathname == s.pathname && r.request == s.request && r.ws.id == s.ws.id
  {
    if NoUrl(request) || request.pathname.None? then s
    else if request.pathname.value !in epics then CloseSocketCore(s, NormalClosure)
    else s.(subscription := Some(spun.subscription), waitForCompletion := Some(spun.wait),
            onDetach := PolicyOf(epics[request.pathname.value]))
  }

  /**
   * The `connection` listener's effect on the table for a WebSocket whose `id` is
   * `wsId`: only that entry can change, and an unknown id changes nothing.
   */
  function ConnectionEffect(epics: map<string, Epic>, sockets: map<string, ConnectedSocket>,
                            wsId: Option<string>, request: Request, spun: SpunUp): (r: map<string, ConnectedSocket>)
    ensures r.Keys == sockets.Keys
    ensures forall k :: k in sockets && wsId != Some(k) ==> r[k] == sockets[k]
    ensures wsId.Some? && wsId.value in sockets ==> r[wsId.value] == Bind(epics, sockets[wsId.value], request, spun)
  {
    if wsId.None? || wsId.value !in sockets then sockets
    else sockets[wsId.value := Bind(epics, sockets[wsId.value], request, spun)]
  }

  /** The `connection` listener on an entry just added under its own id binds that entry. */
  lemma ConnectAdded(epics: map<string, Epic>, sockets: map<string, ConnectedSocket>, added: ConnectedSocket,
                     request: Request, spun: SpunUp)
    ensures ConnectionEffect(epics, sockets[added.id := added], Some(added.id), request, spun)
            == sockets[added.id := Bind(epics, added, request, spun)]
  {
  }

  /**
   * The table after `initialize` has run the `connection` listener, in table order, on
   * the entries `ids`: each step binds the entry the record's WebSocket id names.
   */
  function InitializeTable(epics: map<string, Epic>, sockets: map<string, ConnectedSocket>,
                           ids: seq<string>, spinUp: string -> SpunUp): (r: map<string, ConnectedSocket>)
    ensures r.Keys == sockets.Keys
    decreases |ids|
  {
    if ids == [] then sockets
    else
      var before := InitializeTable(epics, sockets, ids[..|ids| - 1], spinUp);
      var id := ids[|ids| - 1];
      if id !in before then before
      else ConnectionEffect(epics, before, before[id].ws.id, before[id].request, spinUp(id))
  }

  /** Each record's WebSocket carries the id the record is stored under, as the upgrade arranges. */
  predicate SelfIdentified(sockets: map<string, ConnectedSocket>) {
    forall k :: k in sockets ==> sockets[k].ws.id == Some(k)
  }

  /**
   * When every WebSocket carries its own entry's id, `initialize` binds every entry it
   * visits exactly once, to its own request and the epic the new path map gives, and
   * leaves the others alone.
   */
  lemma {:induction false} InitializeBindsEachEntry(epics: map<string, Epic>, sockets: map<string, ConnectedSocket>,
                                                    ids: seq<string>, spinUp: string -> SpunUp, k: string)
    requires SelfIdentified(sockets) && Distinct(ids) && k in sockets
    ensures var r := InitializeTable(epics, sockets, ids, spinUp);
            SelfIdentified(r)
            && r[k] == if k in ids then Bind(epics, sockets[k], sockets[k].request, spinUp(k)) else sockets[k]
    decreases |ids|
  {
    if ids != [] {
      var init := ids[..|ids| - 1];
      var id := ids[|ids| - 1];
      assert Distinct(init);
      var before := InitializeTable(epics, sockets, init, spinUp);
      forall j | j in sockets
        ensures before[j] == if j in init then Bind(epics, sockets[j], sockets[j].request, spinUp(j)) else sockets[j]
        ensures before[j].ws.id == Some(j)
      {
        InitializeBindsEachEntry(epics, sockets, init, spinUp, j);
      }
      assert ids == init + [id];
      if id in before {
        assert id !in init;
        assert before[id] == sockets[id];
      }
    }
  }

  /** The table after detaching the entries of `ids` one after the other (absent ids are skipped). */
  ghost function DetachKeys(m: map<string, ConnectedSocket>, ids: seq<string>): map<string, ConnectedSocket>
  {
    if ids == [] then m
    else
      var before := DetachKeys(m, ids[..|ids| - 1]);
      var id := ids[|ids| - 1];
      if id in before then before[id := DetachEntry(before[id])] else before
  }

  /** One more step of `DetachKeys`: the next id is detached in the table so far, when present. */
  lemma DetachKeysSnoc(m: map<string, ConnectedSocket>, ids: seq<string>, i: nat)
    requires i < |ids|
    ensures var before := DetachKeys(m, ids[..i]);
            DetachKeys(m, ids[..i + 1])
            == if ids[i] in before then before[ids[i] := DetachEntry(before[ids[i]])] else before
  {
    assert ids[..i + 1][..i] == ids[..i];
  }

  /** Detaching a run of ids leaves the key set and every entry outside the run as they were. */
  lemma {:induction false} DetachKeysElsewhere(m: map<string, ConnectedSocket>, ids: seq<string>, k: string)
    requires k !in ids
    ensures DetachKeys(m, ids).Keys == m.Keys
    ensures k in m ==> DetachKeys(m, ids)[k] == m[k]
  {
    if ids != [] {
      DetachKeysElsewhere(m, ids[..|ids| - 1], k);
    }
  }

  /** Detaching a duplicate-free run of ids detaches exactly those entries, each once. */
  lemma {:induction false} DetachKeysSpec(m: map<string, ConnectedSocket>, ids: seq<string>)
    requires Distinct(ids)
    ensures DetachKeys(m, ids).Keys == m.Keys
    ensures forall k :: k in m ==> DetachKeys(m, ids)[k] == if k in ids then DetachEntry(m[k]) else m[k]
  {
    if ids != [] {
      var front, last := ids[..|ids| - 1], ids[|ids| - 1];
      assert ids == front + [last];
      DetachKeysSpec(m, front);
      forall k | k in m
        ensures DetachKeys(m, ids)[k] == if k in ids then DetachEntry(m[k]) else m[k]
      {
        if k != last {
          assert k in ids <==> k in front;
        } else {
          DetachKeysElsewhere(m, front, last);
        }
      }
    }
  }

  /** The registry `createSocketRegistry` returns, with the state its closures share. */
  class SocketRegistry {
    const state: SocketRegistryState
    /** Whether the upgrade listener is attached to the server. */
    var upgradeListenerAttached: bool

    ghost predicate Valid()
      reads this, state
    {
      state.Valid()
    }

    /** `createSocketRegistry(server, epicsByPath)`: an empty table and a listening upgrade handler. */
    constructor (epicsByPath: map<string, Epic>)
      ensures Valid() && fresh(state)
      ensures state.epicsByPath == epicsByPath && state.sockets == map[] && state.order == []
      ensures state.cancelled == []
      ensures upgradeListenerAttached
    {
      state := new SocketRegistryState(epicsByPath);
      upgradeListenerAttached := true;
    }

    /**
     * The `connection` listener for WebSocket id `wsId` and its request. It reads the
     * path map at call time, so a map installed by `initialize` is the one consulted.
     */
    method OnConnection(wsId: Option<string>, request: Request, spun: SpunUp)
      requires Valid()
      modifies state
      ensures Valid()
      ensures state.sockets == ConnectionEffect(old(state.epicsByPath), old(state.sockets), wsId, request, spun)
      ensures state.order == old(state.order) && state.cancelled == old(state.cancelled)
      ensures state.epicsByPath == old(state.epicsByPath)
    {
      if NoUrl(request) {
        return;
      }
      var pathname := request.pathname;
      if pathname.None? {
        return;
      }
      if wsId.None? {
        // `closeSocket(undefined)` and `attachToSocket(undefined)` find no entry
        return;
      }
      if pathname.value !in state.epicsByPath {
        state.CloseSocket(wsId.value, NormalClosure);
        return;
      }
      var epic := state.epicsByPath[pathname.value];
      state.AttachToSocket(wsId.value, spun.subscription, spun.wait, PolicyOf(epic));
    }

    /**
     * The upgrade listener. A request without a url, or whose pathname is not a path of
     * the map, has its transport destroyed. Otherwise the WebSocket and the request get
     * the same fresh id (it is an error for either to carry one already), an entry with
     * policy `'disconnect'` is added, and the `connection` listener runs on it.
     */
    method Upgrade(request: Request, ws: Ws, freshId: string, spun: SpunUp) returns (outcome: UpgradeOutcome)
      requires Valid()
      modifies state
      ensures Valid()
      ensures NoUrl(request) || request.pathname.None? || request.pathname.value !in old(state.epicsByPath) ==>
                outcome == TransportDestroyed
      ensures !outcome.Accepted? ==>
                state.sockets == old(state.sockets) && state.order == old(state.order)
      ensures outcome.UpgradeThrew? <==>
                !NoUrl(request) && request.pathname.Some? && request.pathname.value in old(state.epicsByPath)
                && (ws.id.Some? || request.id.Some?)
      ensures outcome.UpgradeThrew? && ws.id.Some? ==>
                outcome.error == Err(ErrorOf("Error", "id already exists in socket"))
      ensures outcome.UpgradeThrew? && ws.id.None? ==>
                outcome.error == Err(ErrorOf("Error", "id already exists in request"))
      ensures outcome.Accepted? ==>
                outcome.id == freshId
                && var added := ConnectedSocket(freshId, request.pathname.value,
                                                ws.(id := Some(freshId), closeHandlerRegistered := true),
                                                request.(id := Some(freshId)), None, None, Disconnect);
                state.sockets == old(state.sockets)[freshId := Bind(old(state.epicsByPath), added,
                                                                    request.(id := Some(freshId)), spun)]
                && state.order == if freshId in old(state.sockets) then old(state.order)
                                  else old(state.order) + [freshId]
      ensures state.cancelled == old(state.cancelled) && state.epicsByPath == old(state.epicsByPath)
    {
      if NoUrl(request) {
        return TransportDestroyed;
      }
      var pathname := request.pathname;
      if pathname.None? || pathname.value !in state.epicsByPath {
        return TransportDestroyed;
      }
      if ws.id.Some? {
        return UpgradeThrew(Err(ErrorOf("Error", "id already exists in socket")));
      }
      if request.id.Some? {
        return UpgradeThrew(Err(ErrorOf("Error", "id already exists in request")));
      }
      var ws' := ws.(id := Some(freshId));
      var request' := request.(id := Some(freshId));
      var entry := ConnectedSocket(freshId, pathname.value, ws', request', None, None, Disconnect);
      var _ := state.AddSocket(entry);
      ConnectAdded(state.epicsByPath, old(state.sockets), entry.(ws := ws'.(closeHandlerRegistered := true)), request', spun);
      OnConnection(ws'.id, request', spun);
      return Accepted(freshId);
    }

    /**
     * `initialize(newEpicsByPath)`: installs the new path map, then runs the `connection`
     * listener on every entry of the table, in table order.
     */
    method Initialize(newEpicsByPath: map<string, Epic>, spinUp: string -> SpunUp)
      requires Valid()
      modifies state
      ensures Valid()
      ensures state.epicsByPath == newEpicsByPath
      ensures state.sockets == InitializeTable(newEpicsByPath, old(state.sockets), old(state.order), spinUp)
      ensures state.order == old(state.order) && state.cancelled == old(state.cancelled)
    {
      state.epicsByPath := newEpicsByPath;
      var ids := state.order;
      var i := 0;
      while i < |ids|
        invariant 0 <= i <= |ids|
        invariant Valid()
        invariant state.order == ids && state.cancelled == old(state.cancelled)
        invariant state.epicsByPath == newEpicsByPath
        invariant state.sockets == InitializeTable(newEpicsByPath, old(state.sockets), ids[..i], spinUp)
      {
        var id := ids[i];
        assert ids[..i + 1][..i] == ids[..i];
        var socketState := state.sockets[id];
        OnConnection(socketState.ws.id, socketState.request, spinUp(id));
        i := i + 1;
      }
      assert ids[..i] == ids;
    }

    /** `deinitialize()`: detaches every entry of the table in watch mode, in table order. */
    method Deinitialize()
      requires Valid()
      modifies state
      ensures Valid()
      ensures state.sockets.Keys == old(state.sockets).Keys
      ensures forall k :: k in state.sockets ==> state.sockets[k] == DetachEntry(old(state.sockets)[k])
      ensures state.cancelled == old(state.cancelled) + SubsOf(Entries(old(state.order), old(state.sockets)))
      ensures state.order == old(state.order) && state.epicsByPath == old(state.epicsByPath)
    {
      var ids := state.order;
      ghost var m0 := state.sockets;
      ghost var c0 := state.cancelled;
      ghost var all := Entries(ids, m0);
      var i := 0;
      while i < |ids|
        invariant 0 <= i <= |ids|
        invariant Valid()
        invariant state.order == ids && state.epicsByPath == old(state.epicsByPath)
        invariant state.sockets == DetachKeys(m0, ids[..i])
        invariant state.cancelled == c0 + SubsOf(all[..i])
      {
        var id := ids[i];
        DetachKeysSnoc(m0, ids, i);
        NotBefore(ids, i);
        DetachKeysElsewhere(m0, ids[..i], id);
        ReleasedSnoc(c0, all, i);
        state.DetachFromSocketInWatchMode(id);
        i := i + 1;
      }
      assert all[..i] == all;
      assert ids[..i] == ids;
      DetachKeysSpec(m0, ids);
    }

    /** `destroy()`: the upgrade listener is removed first, then the server-close teardown runs. */
    method Destroy() returns (rejection: Option<Value>)
      requires Valid()
      modifies this, state
      ensures Valid()
      ensures !upgradeListenerAttached
      ensures rejection == FirstRejection(Entries(old(state.order), old(state.sockets)))
      ensures rejection.Some? ==>
                state.sockets == CloseAll(old(state.sockets), ServiceRestart) && state.order == old(state.order)
                && state.cancelled == old(state.cancelled)
      ensures rejection.None? ==>
                state.sockets == map[] && state.order == []
                && state.cancelled == old(state.cancelled) + SubsOf(Entries(old(state.order), old(state.sockets)))
      ensures state.epicsByPath == old(state.epicsByPath)
    {
      upgradeListenerAttached := false;
      rejection := state.OnServerClose();
    }
  }

  /** An HTTP server, with the registry `getRegistry` caches on it. */
  class Server {
    var registry: SocketRegistry?

    constructor ()
      ensures registry == null
    {
      registry := null;
    }
  }

  /**
   * `getRegistry(server, epicsByPath)`: the first call creates the server's registry;
   * later calls return that same registry and ignore the path map they are given.
   */
  method GetRegistry(server: Server, epicsByPath: map<string, Epic>) returns (r: SocketRegistry)
    modifies server
    ensures server.registry == r
    ensures old(server.registry) != null ==> r == old(server.registry)
    ensures old(server.registry) == null ==>
              fresh(r) && fresh(r.state) && r.Valid() && r.state.epicsByPath == epicsByPath && r.state.sockets == map[]
              && r.upgradeListenerAttached
  {
    if server.registry != null {
      return server.registry;
    }
    r := new SocketRegistry(epicsByPath);
    server.registry := r;
  }
}
