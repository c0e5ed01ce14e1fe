/** The plugin registry of package syplugin: a process-wide map from the absolute
    path of a plugin to its GenericInitializer, filled by `Load` and read by
    `GetByName`. Opening a plugin and looking a symbol up in it are Go runtime
    dynamic loading; here they are an oracle, `Opener`, that says what
    `plugin.Open` returns for a path and which symbols the opened unit exports. */
module SyPlugin {
  import FilePath

  /** The one symbol `load` looks up in every plugin. */
  const MainSymbolName: string := "SyPlugin"

  /** `buildcfg.LIBEXECDIR`, fixed when the program is built. Only the fact that it
      is an absolute path matters below. */
  const LibexecDir: string := "/usr/local/libexec"

  /** The plugin directory below LIBEXECDIR, as `Load` and `GetByName` spell it. */
  const PluginSubdir: string := "/singularity/lib/plugins"

  /** The absolute path both `Load` and `GetByName` compute for a logical plugin
      name: the plugin directory joined with the name, then cleaned. */
  function PluginPath(name: string): (abspath: string)
    ensures abspath != "" && abspath[0] == FilePath.Separator
    ensures FilePath.Clean(abspath) == abspath
  {
    FilePath.Join([LibexecDir, PluginSubdir, name])
  }

  /** The signature GenericInitializer asks for: a method `Init` with no
      arguments and no results. */
  const InitMethod: string := "Init()"

  /** A value exported by a plugin: an identity (the address the symbol stands
      for) and the method set of its dynamic type, one signature per method. */
  datatype Symbol = Symbol(id: nat, methods: set<string>)

  /** The type assertion `mainSymbol.(GenericInitializer)`: does the symbol's
      dynamic type have the method `Init()`? */
  predicate SatisfiesGenericInitializer(s: Symbol)
  {
    InitMethod in s.methods
  }

  /** A GenericInitializer: a symbol whose dynamic type has `Init()`. */
  type Initializer = s: Symbol | SatisfiesGenericInitializer(s) witness Symbol(0, {InitMethod})

  /** An opened plugin: the symbols it exports by name (what `p.Lookup` searches). */
  datatype Unit = Unit(exports: map<string, Symbol>)

  /** What `plugin.Open` reports for one path: the opened unit or its own error. */
  datatype Opening = Opened(unit: Unit) | OpenError(cause: string)

  /** `plugin.Open` as an oracle from paths to outcomes. */
  type Opener = string -> Opening

  /** The errors of this package; `OpenFailed` carries `plugin.Open`'s error. */
  datatype Error =
    | OpenFailed(cause: string)
    | SymbolNotExported(path: string, symbol: string)
    | NotGenericInitializer(path: string, symbol: string)
    | NotRegistered(path: string)

  datatype Option<+T> = None | Some(value: T)

  /** A Go pair `(value, error)` where exactly one side is meaningful. */
  datatype Result<+T> = Ok(value: T) | Err(error: Error)

  /** `part` occurs in `s` starting at index `i`. */
  predicate OccursAt(s: string, part: string, i: int)
  {
    0 <= i <= |s| - |part| && s[i..i + |part|] == part
  }

  /** `part` occurs in `s` as a contiguous piece. */
  predicate Contains(s: string, part: string)
  {
    exists i | 0 <= i <= |s| :: OccursAt(s, part, i)
  }

  lemma ContainsMiddle(s: string, a: string, b: string, c: string)
    requires s == a + b + c
    ensures Contains(s, b)
  {
    assert OccursAt(s, b, |a|);
  }

  /** The text of an error, as `err.Error()` gives it. */
  function Message(e: Error): (m: string)
    ensures e.OpenFailed? ==> m == e.cause
    ensures e.SymbolNotExported? || e.NotGenericInitializer? ==> Contains(m, e.path) && Contains(m, e.symbol)
    ensures e.NotRegistered? ==> Contains(m, e.path)
  {
    match e
    case OpenFailed(cause) => cause
    case SymbolNotExported(path, symbol) =>
      var m := "plugin " + path + " does not export " + symbol + " symbol";
      ContainsMiddle(m, "plugin ", path, " does not export " + symbol + " symbol");
      ContainsMiddle(m, "plugin " + path + " does not export ", symbol, " symbol");
      m
    case NotGenericInitializer(path, symbol) =>
      var m := "symbol " + symbol + " of plugin " + path + " does not satisfy GenericInitializer";
      ContainsMiddle(m, "symbol ", symbol, " of plugin " + path + " does not satisfy GenericInitializer");
      ContainsMiddle(m, "symbol " + symbol + " of plugin ", path, " does not satisfy GenericInitializer");
      m
    case NotRegistered(path) =>
      var m := "plugin " + path + " not registered";
      ContainsMiddle(m, "plugin ", path, " not registered");
      m
  }

  /** The checks `load` makes before it touches the registry, in order: open the
      unit, look up `SyPlugin`, assert that it is a GenericInitializer. The first
      check that fails decides the error. */
  function Resolve(open: Opener, abspath: string): (r: Result<Initializer>)
    ensures open(abspath).OpenError? ==> r == Err(OpenFailed(open(abspath).cause))
    ensures open(abspath).Opened? && MainSymbolName !in open(abspath).unit.exports ==>
              r == Err(SymbolNotExported(abspath, MainSymbolName))
    ensures open(abspath).Opened? && MainSymbolName in open(abspath).unit.exports &&
            !SatisfiesGenericInitializer(open(abspath).unit.exports[MainSymbolName]) ==>
              r == Err(NotGenericInitializer(abspath, MainSymbolName))
    ensures r.Ok? <==> open(abspath).Opened? && MainSymbolName in open(abspath).unit.exports &&
                       SatisfiesGenericInitializer(open(abspath).unit.exports[MainSymbolName])
    ensures r.Ok? ==> r.value == open(abspath).unit.exports[MainSymbolName]
  {
    match open(abspath)
    case OpenError(cause) => Err(OpenFailed(cause))
    case Opened(unit) =>
      if MainSymbolName !in unit.exports then Err(SymbolNotExported(abspath, MainSymbolName))
      else
        var mainSymbol := unit.exports[MainSymbolName];
        if !SatisfiesGenericInitializer(mainSymbol) then Err(NotGenericInitializer(abspath, MainSymbolName))
        else Ok(mainSymbol)
  }

  /** One call of `Init()`: the path it was made for and the handle it was made on. */
  datatype InitCall = InitCall(path: string, handle: Initializer)

  /** The registry and the `Init()` calls made so far, oldest first. */
  datatype State = State(registry: map<string, Initializer>, inits: seq<InitCall>)

  /** The state after a `load` call, and the error it returned (None for nil). */
  datatype Outcome = Outcome(next: State, err: Option<Error>)

  /** What `load` does once `Resolve` has decided: on an error, return it and change
      nothing; on success, store the initializer under the path (replacing an
      earlier entry) and then call `Init()` once on the stored handle. */
  function Commit(s: State, abspath: string, resolved: Result<Initializer>): (o: Outcome)
    ensures resolved.Err? ==> o.next == s && o.err == Some(resolved.error)
    ensures resolved.Ok? ==> o.err == None
    ensures resolved.Ok? ==> abspath in o.next.registry && o.next.registry[abspath] == resolved.value
    ensures o.next.registry.Keys == s.registry.Keys + (if resolved.Ok? then {abspath} else {})
    ensures forall p | p in s.registry && p != abspath :: o.next.registry[p] == s.registry[p]
    ensures resolved.Ok? ==> o.next.inits == s.inits + [InitCall(abspath, o.next.registry[abspath])]
  {
    match resolved
    case Err(e) => Outcome(s, Some(e))
    case Ok(initializer) =>
      var registry := s.registry[abspath := initializer];
      Outcome(State(registry, s.inits + [InitCall(abspath, registry[abspath])]), None)
  }

  /** One call of `load(abspath)` and what `Resolve` decided for it. */
  datatype Attempt = Attempt(path: string, resolved: Result<Initializer>)

  /** The package state after the `load` calls, in order, starting from the empty
      registry of `init()`. */
  function Replay(t: seq<Attempt>): State
    decreases |t|
  {
    if t == [] then State(map[], [])
    else
      var a := t[|t| - 1];
      Commit(Replay(t[..|t| - 1]), a.path, a.resolved).next
  }

  /** The package state of syplugin: `registeredPlugins`, a record of the
      `Init()` calls `load` has made, and the `load` calls made so far. */
  class Registry {
    var registeredPlugins: map<string, Initializer>
    ghost var initCalls: seq<InitCall>
    ghost var loads: seq<Attempt>

    ghost function Snapshot(): State
      reads this
    {
      State(registeredPlugins, initCalls)
    }

    /** The state is the one the `load` calls so far produce from `init()`. */
    ghost predicate Valid()
      reads this
    {
      Snapshot() == Replay(loads)
    }

    /** The package's `init()`: an empty registry, before any load. */
    constructor ()
      ensures Valid() && loads == []
      ensures registeredPlugins == map[] && initCalls == []
      ensures forall name :: GetByName(name) == Err(NotRegistered(PluginPath(name)))
    {
      registeredPlugins := map[];
      initCalls := [];
      loads := [];
    }

    /** `registeredPlugins[abspath].Init()`: the handle is read back from the map,
        so the call can only be made on a path that is registered. */
    method InvokeInit(abspath: string)
      requires abspath in registeredPlugins
      modifies this`initCalls
      ensures initCalls == old(initCalls) + [InitCall(abspath, registeredPlugins[abspath])]
    {
      initCalls := initCalls + [InitCall(abspath, registeredPlugins[abspath])];
    }

    /** `load(abspath)`: open, look up, assert, then register and initialize. */
    method LoadAbs(open: Opener, abspath: string) returns (err: Option<Error>)
      requires Valid()
      modifies this
      ensures Valid() && loads == old(loads) + [Attempt(abspath, Resolve(open, abspath))]
      ensures Outcome(Snapshot(), err) == Commit(old(Snapshot()), abspath, Resolve(open, abspath))
      ensures err.Some? ==> registeredPlugins == old(registeredPlugins) && initCalls == old(initCalls)
      ensures err.None? ==> GetByAbs(abspath) == Resolve(open, abspath)
    {
      ghost var attempt := Attempt(abspath, Resolve(open, abspath));
      assert (loads + [attempt])[..|loads|] == loads;
      loads := loads + [attempt];
      match open(abspath) {
        case OpenError(cause) =>
          return Some(OpenFailed(cause));
        case Opened(p) =>
          if MainSymbolName !in p.exports {
            return Some(SymbolNotExported(abspath, MainSymbolName));
          }
          var mainSymbol := p.exports[MainSymbolName];
          if !SatisfiesGenericInitializer(mainSymbol) {
            return Some(NotGenericInitializer(abspath, MainSymbolName));
          }
          var initializer: Initializer := mainSymbol;
          registeredPlugins := registeredPlugins[abspath := initializer];
          InvokeInit(abspath);
          return None;
      }
    }

    /** `Load(path)`: load the plugin at the absolute path of a logical name. */
    method Load(open: Opener, name: string) returns (err: Option<Error>)
      requires Valid()
      modifies this
      ensures Valid() && loads == old(loads) + [Attempt(PluginPath(name), Resolve(open, PluginPath(name)))]
      ensures Outcome(Snapshot(), err) == Commit(old(Snapshot()), PluginPath(name), Resolve(open, PluginPath(name)))
      ensures err.None? ==> GetByName(name) == Resolve(open, PluginPath(name))
    {
      err := LoadAbs(open, PluginPath(name));
    }

    /** `getByName(abspath)`: the handle stored under the path, or "not registered". */
    function GetByAbs(abspath: string): (r: Result<Initializer>)
      reads this
      ensures r.Ok? <==> abspath in registeredPlugins
      ensures r.Ok? ==> r.value == registeredPlugins[abspath]
      ensures r.Err? ==> r.error == NotRegistered(abspath)
    {
      if abspath in registeredPlugins then Ok(registeredPlugins[abspath])
      else Err(NotRegistered(abspath))
    }

    /** `GetByName(path)`: look up the absolute path `Load` uses for the same name. */
    function GetByName(name: string): (r: Result<Initializer>)
      reads this
      ensures r.Ok? <==> PluginPath(name) in registeredPlugins
      ensures r.Ok? ==> r.value == registeredPlugins[PluginPath(name)]
      ensures r.Err? ==> r.error == NotRegistered(PluginPath(name))
    {
      GetByAbs(PluginPath(name))
    }
  }
}
