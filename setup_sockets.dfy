/**
 * `setupSockets`: the service's WebSocket endpoints. The default pipelines and
 * the configured ones are merged into one path map, the server's registry is
 * fetched and initialised with it, and the returned teardown either destroys
 * the registry or only deinitialises it.
 */
module SetupSockets {
  import opened JsValues
  import opened SocketRegistryState
  import opened SocketRegistry

  /**
   * The parts of the service configuration read here: `shouldUseDefaultEndpoints` as given,
   * and the path map `config.sockets(sharedDeps)` resolves to (`None` when there is no `sockets`).
   */
  datatype Config = Config(shouldUseDefaultEndpoints: Value, sockets: Option<map<string, Epic>>)

  /** `typeof config.shouldUseDefaultEndpoints !== 'boolean' || config.shouldUseDefaultEndpoints`. */
  predicate UsesDefaults(config: Config) {
    !config.shouldUseDefaultEndpoints.Bool? || config.shouldUseDefaultEndpoints.b
  }

  /** `{ ...defaultPipelines, ...configPipelines }`: the configured pipelines override the defaults on the same path. */
  function Pipelines(config: Config, defaults: map<string, Epic>): (m: map<string, Epic>)
    ensures forall p :: p in m <==> (config.sockets.Some? && p in config.sockets.value) || (UsesDefaults(config) && p in defaults)
    ensures forall p :: config.sockets.Some? && p in config.sockets.value ==> m[p] == config.sockets.value[p]
    ensures forall p :: UsesDefaults(config) && p in defaults && !(config.sockets.Some? && p in config.sockets.value)
                        ==> m[p] == defaults[p]
  {
    (if UsesDefaults(config) then defaults else map[]) + config.sockets.GetOr(map[])
  }

  /** Without defaults and without configured sockets the path map is empty, as the test of `setupSockets` expects. */
  lemma NoPipelines(defaults: map<string, Epic>)
    ensures Pipelines(Config(Bool(false), None), defaults) == map[]
  {
  }

  /** Only `false` turns the defaults off; an absent or non-boolean option keeps them. */
  lemma DefaultsUnlessFalse(config: Config)
    ensures !UsesDefaults(config) <==> config.shouldUseDefaultEndpoints == Bool(false)
  {
  }

  /** The registry state `getRegistry` may hand back, which `initialize` then changes. */
  function ExistingState(server: Server): set<object>
    reads server
  {
    if server.registry == null then {} else {server.registry.state}
  }

  /**
   * `setupSockets(server, config, sharedDeps)`: the registry is fetched once, with the merged
   * map, and initialised once, with the same map. An existing registry keeps its table and its
   * entries are bound afresh; a new one starts empty.
   */
  method Setup(server: Server, config: Config, defaults: map<string, Epic>, spinUp: string -> SpunUp)
    returns (registry: SocketRegistry)
    requires server.registry != null ==> server.registry.Valid()
    modifies server, ExistingState(server)
    ensures registry == server.registry && registry.Valid()
    ensures registry.state.epicsByPath == Pipelines(config, defaults)
    ensures old(server.registry) != null ==>
              registry == old(server.registry)
              && registry.state.sockets == InitializeTable(Pipelines(config, defaults), old(server.registry.state.sockets),
                                                           old(server.registry.state.order), spinUp)
    ensures old(server.registry) == null ==> fresh(registry) && registry.state.sockets == map[]
  {
    var epicsByPath := Pipelines(config, defaults);
    registry := GetRegistry(server, epicsByPath);
    registry.Initialize(epicsByPath, spinUp);
  }

  /** The teardown's mode: `'destroy'` for a full shutdown; anything else, such as `'watch'`, keeps the server running. */
  method Teardown(registry: SocketRegistry, mode: Value) returns (rejection: Option<Value>)
    requires registry.Valid()
    modifies registry, registry.state
    ensures registry.Valid()
    ensures mode == Str("destroy") ==>
              !registry.upgradeListenerAttached
              && rejection == FirstRejection(Entries(old(registry.state.order), old(registry.state.sockets)))
    ensures mode == Str("destroy") && rejection.None? ==> registry.state.sockets == map[]
    ensures mode != Str("destroy") ==>
              rejection.None? && registry.upgradeListenerAttached == old(registry.upgradeListenerAttached)
              && registry.state.sockets.Keys == old(registry.state.sockets).Keys
              && (forall k :: k in registry.state.sockets ==> registry.state.sockets[k] == DetachEntry(old(registry.state.sockets)[k]))
  {
    if mode == Str("destroy") {
      rejection := registry.Destroy();
    } else {
      registry.Deinitialize();
      rejection := None;
    }
  }
}
