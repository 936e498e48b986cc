/**
 * ShinyPluginManager: the registry of loaded plugins, keyed by id (`plugins`) and by
 * object identity (`instanceMap`), and loadPlugins, which scans a listing of the plugins
 * directory, hands the archive URLs to the loader and registers what comes back.
 * Dafny compares class references by identity, as the source's IdentityHashMap does.
 */
module PluginManager {
  import opened Wrappers
  import opened PluginFiles
  import opened Registry

  /** The event manager, as far as the plugin manager uses it: the record of
      register(owner, listener) calls, in call order. */
  class EventManager {
    var registrations: seq<(object, object)>

    constructor ()
      ensures registrations == []
    {
      registrations := [];
    }

    method Register(owner: object, listener: object)
      modifies this
      ensures registrations == old(registrations) + [(owner, listener)]
    {
      registrations := registrations + [(owner, listener)];
    }
  }

  /** The containers the registration loop walks: what the loader returns for the URLs,
      or nothing when no name in the listing is an archive (the loader is then not called). */
  function LoadedBatch(listing: seq<string>, toUrl: string -> Option<Url>, load: seq<Url> -> seq<Container>): (batch: seq<Container>)
    ensures (forall f :: f in listing ==> !IsJarName(f)) ==> batch == []
  {
    var jars := JarFiles(listing);
    if jars == [] then [] else load(Resolve(jars, toUrl))
  }

  class ShinyPluginManager {
    const events: EventManager
    var plugins: map<string, Container>
    var instanceMap: map<object, Container>

    /** The manager's state as a Registry value. */
    ghost function Snapshot(): State
      reads this, events
    {
      State(plugins, instanceMap, events.registrations)
    }

    /** The two maps in lockstep, every stored plugin registered as its own listener. */
    ghost predicate Valid()
      reads this, events
    {
      Registry.Valid(Snapshot())
    }

    constructor (events: EventManager)
      ensures this.events == events && plugins == map[] && instanceMap == map[]
      ensures Valid()
    {
      this.events := events;
      plugins := map[];
      instanceMap := map[];
    }

    /** The container owning exactly this object, if any; a different object never matches. */
    function FromInstance(instance: object): (r: Option<Container>)
      reads this
      ensures r.Some? <==> instance in instanceMap
      ensures r.Some? ==> r.value == instanceMap[instance]
      ensures Lockstep(plugins, instanceMap) && r.Some? ==>
                r.value.instance == instance && r.value.id in plugins && plugins[r.value.id] == r.value
    {
      if instance in instanceMap then Some(instanceMap[instance]) else None
    }

    /** The container stored under an id, or None for an id never stored. */
    function GetPlugin(id: string): (r: Option<Container>)
      reads this
      ensures r.Some? <==> id in plugins
      ensures r.Some? ==> r.value == plugins[id]
      ensures Lockstep(plugins, instanceMap) && r.Some? ==>
                r.value.id == id && FromInstance(r.value.instance) == r
    {
      if id in plugins then Some(plugins[id]) else None
    }

    /** All stored containers (the map's values, in no particular order). */
    function GetPlugins(): (r: set<Container>)
      reads this
      ensures forall id :: id in plugins ==> plugins[id] in r
      ensures forall c :: c in r ==> exists id :: id in plugins && plugins[id] == c
      ensures Lockstep(plugins, instanceMap) ==>
                forall c :: c in r ==> GetPlugin(c.id) == Some(c) && FromInstance(c.instance) == Some(c)
    {
      plugins.Values
    }

    /** Whether a plugin with this id is stored. */
    function IsLoaded(id: string): (r: bool)
      reads this
      ensures r <==> GetPlugin(id).Some?
    {
      id in plugins
    }

    /** In a valid manager, getPlugins() has one container per id and per instance. */
    lemma SizesAgree()
      requires Valid()
      ensures |GetPlugins()| == |plugins| == |instanceMap|
    {
      LockstepSizes(plugins, instanceMap);
    }

    /** loadPlugins over a listing of the plugins directory. It returns the URLs it handed to
        the loader (the attempted locations, not the registered ones), and registers each
        container the loader returns unless its id is already stored. */
    method LoadPlugins(listing: seq<string>, toUrl: string -> Option<Url>, load: seq<Url> -> seq<Container>)
      returns (urls: seq<Url>)
      modifies this, events
      ensures urls == (if JarFiles(listing) == [] then [] else Resolve(JarFiles(listing), toUrl))
      ensures |urls| <= |listing|
      ensures Snapshot() == StoreAll(old(Snapshot()), LoadedBatch(listing, toUrl, load))
      ensures JarFiles(listing) == [] ==> Snapshot() == old(Snapshot())
      ensures plugins.Keys == old(plugins).Keys + Ids(LoadedBatch(listing, toUrl, load))
      ensures forall id :: id in old(plugins) ==> plugins[id] == old(plugins)[id]
      ensures old(instanceMap).Keys <= instanceMap.Keys
      ensures events.registrations ==
                old(events.registrations) + SelfPairs(Accepted(old(plugins).Keys, LoadedBatch(listing, toUrl, load)))
      ensures old(Valid()) && OneDescriptorPerInstance(old(instanceMap), LoadedBatch(listing, toUrl, load)) ==>
                Valid()
    {
      ghost var s0 := Snapshot();
      var jars := JarFiles(listing);
      if |jars| == 0 {
        assert LoadedBatch(listing, toUrl, load) == [];
        StoreAllSummary(s0, []);
        return [];
      }
      urls := CollectUrls(jars, toUrl);
      var containers := load(urls);
      for i := 0 to |containers|
        invariant Snapshot() == StoreAll(s0, containers[..i])
      {
        var c := containers[i];
        assert containers[..i + 1][..i] == containers[..i];
        if c.id in plugins {
          continue;
        }
        plugins := plugins[c.id := c];
        instanceMap := instanceMap[c.instance := c];
        events.Register(c.instance, c.instance);
      }
      assert containers[..|containers|] == containers;
      assert containers == LoadedBatch(listing, toUrl, load);
      StoreAllSummary(s0, containers);
    }
  }
}
