# Bukkit2Sponge plugin registry, modelled in Dafny

This project models the plugin registry of Bukkit2Sponge's `ShinyPluginManager`, the
SpongeAPI `PluginManager` implementation. The manager keeps two maps that must stay in step.
`plugins` maps each plugin id to its `PluginContainer`. `instanceMap` is an `IdentityHashMap`
from the plugin's live object to the same container. `loadPlugins` lists the plugins
directory and keeps the names matching `.+\.jar`. It turns each of those files into a URL,
skipping any file whose conversion throws `MalformedURLException`. It passes the URLs to the
plugin loader, then walks the returned containers in order. A container whose id is already
stored is skipped as a duplicate, so the first one seen wins. Any other container is put into
both maps, and its instance is registered with the game's event manager as both owner and
listener. The lookups `fromInstance`, `getPlugin`, `isLoaded` and `getPlugins` only read the
maps.

Files:

- `wrappers.dfy`: `Option`, which stands for Guava's `Optional`.
- `plugin_files.dfy` (module `PluginFiles`): the `.+\.jar` name filter (`IsJarName`,
  `JarFiles`) and the URL-collection loop. `CollectUrls` is the loop. `Resolve` is its
  specification.
- `registry.dfy` (module `Registry`): the manager's state as a value (`State`: the two maps
  and the log of `register` calls). `Store` is one pass of the registration loop and
  `StoreAll` is the whole loop. `Accepted` defines first-seen-wins on its own terms. The
  lemmas connect `StoreAll` to `Accepted`.
- `plugin_manager.dfy` (module `PluginManager`): the class `ShinyPluginManager`, with the
  fields `plugins` and `instanceMap`, the lookups as functions that read those fields, and
  `LoadPlugins` as a method with the registration loop. The class `EventManager` records
  `register(owner, listener)` calls.

Dafny class references compare by identity, which is the `IdentityHashMap` behaviour. So
`map<object, Container>` is keyed the way `instanceMap` is.

The model takes three things as inputs. The directory listing is a `seq<string>` of file
names. `File.toURI().toURL()` is a function `string -> Option<Url>`, where `None` stands for
`MalformedURLException`. `PluginLoader.loadPlugins` is a function `seq<Url> -> seq<Container>`.
As in the source, the loader is called only when at least one name matched the pattern.

The two maps stay in lockstep only if the loader keeps its own contract: one container per
distinct instance, both within the batch and against the containers already stored. The
source does not check this. If the loader breaks it, the `put` at
`ShinyPluginManager.java:99` overwrites the `instanceMap` entry of another plugin.
`LoadPlugins` therefore has no precondition. It promises that the manager stays `Valid()` when
the loader keeps that contract (`OneDescriptorPerInstance`). `StoreAllValid` proves the same
thing on values.

The loader receives the URLs as an ordered list, and `loadPlugins` returns that list. The
model follows the code here and uses sequences, where a set-based description would lose the
order. The returned URLs are the attempted locations, not the registered plugins. A URL whose
archive produced no plugin is still in the list.

## Model

| member | source | states |
|---|---|---|
| PluginFiles.IsJarName | src/main/java/io/github/deathcap/bukkit2sponge/plugin/ShinyPluginManager.java:77 | the full-name match of `.+\.jar`: every accepted name is at least five characters long, and what precedes ".jar" is a base that `.+` matches |
| PluginFiles.JarNameOfBase | src/main/java/io/github/deathcap/bukkit2sponge/plugin/ShinyPluginManager.java:77 | a base followed by ".jar" matches `.+\.jar` exactly when the base is non-empty and has no line terminator (Java's `.` without DOTALL) |
| PluginFiles.JarNameHasBase | src/main/java/io/github/deathcap/bukkit2sponge/plugin/ShinyPluginManager.java:77 | every matching name is such a base followed by the literal suffix ".jar" |
| PluginFiles.JarNameAccepted | src/main/java/io/github/deathcap/bukkit2sponge/plugin/ShinyPluginManager.java:77 | "plugin.jar" matches the pattern |
| PluginFiles.JarNameCaseSensitive | src/main/java/io/github/deathcap/bukkit2sponge/plugin/ShinyPluginManager.java:77 | the suffix is case-sensitive: "plugin.JAR" does not match |
| PluginFiles.JarNameNeedsBase | src/main/java/io/github/deathcap/bukkit2sponge/plugin/ShinyPluginManager.java:77 | `.+` needs a non-empty base: ".jar" does not match |
| PluginFiles.JarNameWholeName | src/main/java/io/github/deathcap/bukkit2sponge/plugin/ShinyPluginManager.java:77 | the whole name must match: "plugin.jar.bak" does not |
| PluginFiles.JarNameNoNewline | src/main/java/io/github/deathcap/bukkit2sponge/plugin/ShinyPluginManager.java:77 | Java's `.` rejects a line terminator: "plugin\n.jar" does not match |
| PluginFiles.JarFiles | src/main/java/io/github/deathcap/bukkit2sponge/plugin/ShinyPluginManager.java:77-78 | the kept names are exactly the listed names that match, never more than listed; the result is empty iff no name matches |
| PluginFiles.Resolve | src/main/java/io/github/deathcap/bukkit2sponge/plugin/ShinyPluginManager.java:82-89 | the URL list is never longer than the file list |
| PluginFiles.ResolveMembers | src/main/java/io/github/deathcap/bukkit2sponge/plugin/ShinyPluginManager.java:82-89 | a URL is collected iff some file converts to it |
| PluginFiles.CollectUrls | src/main/java/io/github/deathcap/bukkit2sponge/plugin/ShinyPluginManager.java:82-89 | the loop's list equals `Resolve` of the files: file order kept, failed conversions skipped |
| PluginFiles.ResolveAppend | src/main/java/io/github/deathcap/bukkit2sponge/plugin/ShinyPluginManager.java:83-89 | resolving a concatenation of file lists is the concatenation of their resolutions |
| PluginFiles.ResolveSkipsFailure | src/main/java/io/github/deathcap/bukkit2sponge/plugin/ShinyPluginManager.java:84-88 | a file whose conversion fails leaves the URLs of the files before and after it unchanged and in order |
| PluginFiles.ResolveAllSucceed | src/main/java/io/github/deathcap/bukkit2sponge/plugin/ShinyPluginManager.java:83-86 | when every conversion succeeds there is one URL per file, position by position |
| Registry.Store | src/main/java/io/github/deathcap/bukkit2sponge/plugin/ShinyPluginManager.java:93-100 | after one container the id is stored; no stored id is removed or rebound; no instance key is removed; the register log is only appended to |
| Registry.StoreAll | src/main/java/io/github/deathcap/bukkit2sponge/plugin/ShinyPluginManager.java:92-101 | the registration loop over the loader's containers, in order; each container adds at most one `register` call and the old log is kept |
| Registry.Accepted | src/main/java/io/github/deathcap/bukkit2sponge/plugin/ShinyPluginManager.java:93-95 | first-seen wins, defined on its own: the kept containers are those whose id was not stored before and not carried by an earlier container of the batch, in batch order, never more than the batch |
| Registry.StoreAllKeys | src/main/java/io/github/deathcap/bukkit2sponge/plugin/ShinyPluginManager.java:92-101 | after the loop the ids in `plugins` are the old ids plus every id the loader returned |
| Registry.StoreAllGrows | src/main/java/io/github/deathcap/bukkit2sponge/plugin/ShinyPluginManager.java:92-101 | the maps only grow: every old id keeps its container, no instance key is lost, the old register log is a prefix of the new one |
| Registry.StoreAllFirstSeen | src/main/java/io/github/deathcap/bukkit2sponge/plugin/ShinyPluginManager.java:93-98 | within a batch, the first container carrying a new id is the one stored under it |
| Registry.LookupAfterStoreAll | src/main/java/io/github/deathcap/bukkit2sponge/plugin/ShinyPluginManager.java:92-101 | after the loop an id is present iff it was stored before or the loader returned it; an old id keeps its container; a new id maps to the first container of the batch carrying it |
| Registry.StoreAllRegistered | src/main/java/io/github/deathcap/bukkit2sponge/plugin/ShinyPluginManager.java:93-100 | `register(inst, inst)` is called exactly once per kept container, in batch order, with the same instance as both arguments, and for nothing else |
| Registry.StoreAllInstanceKeys | src/main/java/io/github/deathcap/bukkit2sponge/plugin/ShinyPluginManager.java:93-99 | the new keys of `instanceMap` are exactly the instances of the kept containers |
| Registry.RejectedNeverRegistered | src/main/java/io/github/deathcap/bukkit2sponge/plugin/ShinyPluginManager.java:93-100 | the instance of a rejected duplicate is never put into `instanceMap` and never passed to `register` |
| Registry.AcceptedCount | src/main/java/io/github/deathcap/bukkit2sponge/plugin/ShinyPluginManager.java:92-101 | the number of kept containers equals the number of distinct ids in the batch that were not stored before |
| Registry.StoreValid | src/main/java/io/github/deathcap/bukkit2sponge/plugin/ShinyPluginManager.java:93-100 | one pass of the loop keeps the registry valid when the container's instance is unknown or already owned by that same container |
| Registry.StoreAllValid | src/main/java/io/github/deathcap/bukkit2sponge/plugin/ShinyPluginManager.java:98-100 | if the loader returns one container per distinct instance, the loop keeps both maps in lockstep and every stored plugin registered as its own listener |
| Registry.LockstepSizes | src/main/java/io/github/deathcap/bukkit2sponge/plugin/ShinyPluginManager.java:30-31 | when the maps are in lockstep, `plugins`, its values and `instanceMap` have the same size |
| Registry.EntriesAfterFirstLoad | src/main/java/io/github/deathcap/bukkit2sponge/plugin/ShinyPluginManager.java:92-101 | starting from an empty registry, whatever the loader returns, `plugins` holds one entry per distinct returned id and there is one `register` call per distinct id; under the loader's one-container-per-instance contract, `instanceMap` holds as many entries |
| Registry.DuplicateCore | src/main/java/io/github/deathcap/bukkit2sponge/plugin/ShinyPluginManager.java:93-100 | given two containers with id "core", the first is stored and registered; the second's instance is neither stored nor registered |
| PluginManager.LoadedBatch | src/main/java/io/github/deathcap/bukkit2sponge/plugin/ShinyPluginManager.java:78-91 | the containers the loop walks: when no listed name matches the pattern, the loader is not consulted and the batch is empty; otherwise it is the loader's result for the collected URLs (line 91) |
| PluginManager.EventManager.Register | src/main/java/io/github/deathcap/bukkit2sponge/plugin/ShinyPluginManager.java:100 | each call is recorded as an (owner, listener) pair at the end of the log |
| PluginManager.ShinyPluginManager.constructor | src/main/java/io/github/deathcap/bukkit2sponge/plugin/ShinyPluginManager.java:30-37 | a new manager has both maps empty, uses the game's event manager, and is valid |
| PluginManager.ShinyPluginManager.FromInstance | src/main/java/io/github/deathcap/bukkit2sponge/plugin/ShinyPluginManager.java:40-42 | returns a result iff that exact object is a key, and then its entry; in lockstep, that entry owns this object and is stored under its own id |
| PluginManager.ShinyPluginManager.GetPlugin | src/main/java/io/github/deathcap/bukkit2sponge/plugin/ShinyPluginManager.java:45-47 | absent iff the id is not stored, otherwise the stored container; in lockstep, that container carries the id and `fromInstance` of its instance returns it |
| PluginManager.ShinyPluginManager.GetPlugins | src/main/java/io/github/deathcap/bukkit2sponge/plugin/ShinyPluginManager.java:55-57 | every stored container is in the result, and nothing else; in lockstep, each one is what `getPlugin` and `fromInstance` return for it |
| PluginManager.ShinyPluginManager.IsLoaded | src/main/java/io/github/deathcap/bukkit2sponge/plugin/ShinyPluginManager.java:60-62 | true exactly when `getPlugin` finds the id |
| PluginManager.ShinyPluginManager.SizesAgree | src/main/java/io/github/deathcap/bukkit2sponge/plugin/ShinyPluginManager.java:55-57 | in a valid manager, `getPlugins()` has as many containers as there are ids and instances |
| PluginManager.ShinyPluginManager.LoadPlugins | src/main/java/io/github/deathcap/bukkit2sponge/plugin/ShinyPluginManager.java:70-104 | returns the converted URLs of the matching files, or none (with nothing registered) when no name matches; the new state is `StoreAll` of the old one over the loader's containers; the id set grows by exactly the returned ids, old entries kept; registrations are exactly the kept containers' self-pairs; it stays valid under the loader's one-container-per-instance contract |

## Left out

- Filesystem access is not modelled: `getPluginsDirectory`, `exists`/`mkdirs` and `listFiles`. The directory listing is an input sequence of names, in listing order. `listFiles` reports an I/O error by returning `null`, which the model treats as an empty listing.
- The `IOException` declared by `loadPlugins` (line 70) is not modelled. It can only come from `getPluginsDirectory` (line 71) or from `loader.loadPlugins` (line 91). The loader is a total function here, so the model has no path on which `loadPlugins` throws and leaves the registry unchanged.
- `File.toURI().toURL()` is a foreign call. It becomes the parameter `toUrl`, with `None` standing for `MalformedURLException`.
- `PluginLoader` and its reflective class loading are not part of this model. The loader is the parameter `load`, a pure function, so it cannot allocate fresh plugin objects. The `loader` field built in the constructor is therefore absent.
- The event manager's dispatch internals are not modelled. Only the record of `register` calls is kept, and the manager is a constant field where the source calls `game.getEventManager()`.
- Logging is not modelled (`getLogger` at lines 49-52 and the warnings and info lines), because it has no behavioural content.
- Guice injection and `@Singleton` are not modelled. Guava's `Optional` becomes `Option`.
- Concurrent readers are not modelled, because the source is single-threaded.
- PluginManager.ShinyPluginManager.GetPlugins: returns the stored containers as a set snapshot, not Java's live `values()` view. A set carries no multiplicities, but under lockstep every container occurs once, and `SizesAgree` shows the sizes agree.
