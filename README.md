# syplugin plugin registry, modelled in Dafny

This project models the plugin registry of Singularity's `syplugin` package
(`src/pkg/syplugin/load.go`). The package keeps one process-wide map,
`registeredPlugins`, from the absolute path of a plugin to its
`GenericInitializer`. The map is created empty by the package's `init()`.

- `Load(path)` turns a logical plugin name into an absolute path, the cleaned
  join of the plugin directory and the name
  (`filepath.Join(LIBEXECDIR, "/singularity/lib/plugins", path)`), and calls
  `load`. The name is not confined to the plugin directory: cleaning resolves
  ".." elements, so a name such as "../x.so" names a file outside it.
- `load(abspath)` opens the plugin and looks up the symbol `SyPlugin`. It then
  requires that symbol to satisfy `GenericInitializer` (a method `Init()`). On
  success it stores the symbol under the path, replacing any earlier entry, and
  calls `Init()` on the stored handle.
- `GetByName(path)` computes the same absolute path. `getByName` returns the
  stored handle, or the error "plugin … not registered".

Files:

- `filepath.dfy`, module `FilePath`: `filepath.Join` and `filepath.Clean` as Go
  defines them on Unix. `Load` and `GetByName` both go through this to build
  the registry key.
- `syplugin.dfy`, module `SyPlugin`: the data model and the specification
  functions. `Resolve` covers the three checks of `load`. `Commit` covers what
  `load` does with their outcome. `Replay` gives the state after a sequence of
  loads. The class `Registry` holds the package state. Its fields are the map
  `registeredPlugins`, a ghost record `initCalls` of the `Init()` calls, and a
  ghost record `loads` of the `load` calls. Its methods are `Load` and
  `LoadAbs` (the package's `load`). Its read-only functions are `GetByName` and
  `GetByAbs` (the package's `getByName`). `Valid()` ties the state to
  `Replay(loads)`.
- `history.dfy`, module `History`: lemmas about any history of `load` calls.
  It also has a client method that plays out a load, a lookup and a reload of
  one plugin.

How the model represents things:

- `plugin.Open` is an oracle `Opener = string -> Opening`. For each path it
  gives either the opened unit (the symbols the unit exports, by name) or
  `plugin.Open`'s own error.
- `p.Lookup(MainSymbolName)` is a lookup in the unit's export map.
- The type assertion `mainSymbol.(GenericInitializer)` checks whether the
  symbol's method set contains `Init()`. `Initializer` is the subset type of
  symbols for which it does.
- Go's `error` result is `Option<Error>`, with `None` standing for nil.
  `(GenericInitializer, error)` is `Result<Initializer>`.

The package defines one capability, `GenericInitializer` (load.go:24-26), and
one registry. A `SyPlugin` symbol without `Init()` makes `load` fail
(load.go:59-63); the model has that one registry and that error.

## Model

| member | source | states |
|---|---|---|
| FilePath.Clean | src/pkg/syplugin/load.go:37 | The cleaned path is never empty. It is absolute exactly when the input is. |
| FilePath.CleanIdempotent | src/pkg/syplugin/load.go:37 | Cleaning an already cleaned path changes nothing. The proof uses split/glue round trips and an invariant on the kept elements: none empty, none ".", ".." only at the front and never in a rooted path. |
| FilePath.GlueSplit | src/pkg/syplugin/load.go:37 | Splitting a path at its separators and gluing the pieces back with one separator between neighbours gives the path back, for every path. This round trip partners `Split`, on which `Clean` and `Join` are built. |
| FilePath.Join | src/pkg/syplugin/load.go:37 | The result is "" exactly when every element is empty. Otherwise it is a clean path, and it is absolute exactly when the first non-empty element is; in particular, when the first element is non-empty, exactly when that element is. |
| FilePath.JoinIgnoresEmpty | src/pkg/syplugin/load.go:37 | Empty elements are ignored wherever they stand: joining the elements gives the same path as joining only the non-empty ones. |
| SyPlugin.PluginPath | src/pkg/syplugin/load.go:94 | `Load` and `GetByName` share this one path convention. Every plugin path is absolute and clean. |
| SyPlugin.Message | src/pkg/syplugin/load.go:52-104 | The three texts of the package, formatted at load.go:55, :62 and :104. The "does not export" and "does not satisfy GenericInitializer" errors both name the plugin path and the symbol `SyPlugin`. The "not registered" error names the path. An open error is passed through unchanged. |
| SyPlugin.Resolve | src/pkg/syplugin/load.go:43-63 | The three exits of `load`, in order. If the open fails, its error is returned. If the unit lacks `SyPlugin`, the error is SymbolNotExported(path, "SyPlugin"). If the symbol lacks `Init()`, the error is NotGenericInitializer(path, "SyPlugin"). Success holds exactly when all three checks pass, and the handle is then the exported symbol. |
| SyPlugin.Commit | src/pkg/syplugin/load.go:87-89 | On an error, the state is unchanged and the error is returned. On success, the path maps to the resolved handle (last write wins) and no other key changes. Keys are only ever added. Exactly one `Init()` call is appended, on the handle now stored under the path. |
| SyPlugin.Registry.constructor | src/pkg/syplugin/load.go:107-110 | `init()` starts with an empty registry and no `Init()` calls. `GetByName` of any name then returns "not registered". |
| SyPlugin.Registry.InvokeInit | src/pkg/syplugin/load.go:88 | `Init()` is called on the handle read back from the map. So it can only be called on a registered path, which means after the store. |
| SyPlugin.Registry.LoadAbs | src/pkg/syplugin/load.go:43-90 | The new map, the `Init()` record and the returned error are those of `Commit` applied to `Resolve`. Any error leaves the map and the `Init()` record untouched. After success `getByName(abspath)` returns the resolved handle. The state stays `Replay` of the calls made. |
| SyPlugin.Registry.Load | src/pkg/syplugin/load.go:36-41 | The same as `load` on `PluginPath(name)`. After success, `GetByName(name)` returns the handle just loaded. |
| SyPlugin.Registry.GetByAbs | src/pkg/syplugin/load.go:99-105 | Returns the handle exactly when the path is a key, and that handle is the stored one. Otherwise it returns NotRegistered(path). It is a function of the state, so it changes nothing and loads nothing. |
| SyPlugin.Registry.GetByName | src/pkg/syplugin/load.go:93-97 | Looks up the path `PluginPath(name)`, the same one `Load(name)` stores under: the stored handle exactly when that path is a key, otherwise NotRegistered(PluginPath(name)). |
| History.RegistryHoldsLastStore | src/pkg/syplugin/load.go:87-105 | After any history of loads, a path is registered exactly when some load of it succeeded. Its handle is the one from the last such load. With no successful load, every lookup is "not registered". |
| History.RegistryNeverShrinks | src/pkg/syplugin/load.go:87 | A path registered after a prefix of a history stays registered after the whole history. |
| History.InitOncePerLoad | src/pkg/syplugin/load.go:87-88 | For every path, the number of `Init()` calls on it equals the number of successful loads of it. So a reload calls `Init()` again. |
| History.InitOnlyOnStoredHandles | src/pkg/syplugin/load.go:59-88 | Every recorded `Init()` call was made on a handle that a successful load stored under that path. That handle satisfies `GenericInitializer`; this part holds by the type `Initializer` alone. |
| History.FailuresLeaveNoTrace | src/pkg/syplugin/load.go:43-63 | Any history ends in the same state (map and `Init()` record) as its successful loads alone. |

## Left out

- Dynamic loading itself (`plugin.Open`, `p.Lookup`): an oracle stands in for it. Go returns the cached plugin when a path is opened again. The model lets each call see its own outcome, which is more general.
- The text of `plugin.Open`'s errors is not modelled. `OpenFailed` carries it unchanged.
- What `Init()` does is not modelled, and neither is a panic inside it. Such a panic is not recovered by the package. The model records only that the call was made, on which handle, and for which path.
- The `sylog.Debugf` calls: they only write log output and have no effect on control flow.
- `buildcfg.LIBEXECDIR` is set at build time. The model uses the representative value "/usr/local/libexec", and the proofs rely only on it being absolute.
- `filepath.Join` and `filepath.Clean` are modelled for Unix only. Windows volume names and separators are not.
- The commented-out block in `load`, the unused variables `splgExec` and `splgInit`, and the empty interface `Symbol` have no behaviour.
- Concurrent use of the map: the package has no locking, and the model is single-threaded.
- The map is nil until the package's `init()` runs. Go runs `init()` before any other call, so the model starts from the constructor.
- internal/app/singularity/startvm_linux.go and startvm_darwin.go (starting a hypervisor process) are not part of this model.
- cmd/internal/cli/plugin_compile_linux.go (the command line of plugin compilation) is not part of this model.
