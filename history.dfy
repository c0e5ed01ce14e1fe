/** What any history of `load` calls leaves behind. `Registry.Valid()` says that
    the package state is `Replay` of the calls made so far, each recorded with its
    path and what the checks of `load` found for it at that moment (the handle or
    the error); the lemmas below say what the registry, and so `GetByName`, and the
    record of `Init()` calls hold after any such history. */
module History {
  import opened SyPlugin

  /** The call stored a handle under `p`: it was a call for `p` and it succeeded. */
  predicate Stores(a: Attempt, p: string)
  {
    a.path == p && a.resolved.Ok?
  }

  /** The index of the last call that stored a handle under `p`, if any. */
  function LastStore(t: seq<Attempt>, p: string): (k: Option<nat>)
    ensures k.Some? ==> k.value < |t| && Stores(t[k.value], p)
    ensures k.Some? ==> forall j | k.value < j < |t| :: !Stores(t[j], p)
    ensures k.None? ==> forall j | 0 <= j < |t| :: !Stores(t[j], p)
    decreases |t|
  {
    if t == [] then None
    else if Stores(t[|t| - 1], p) then Some(|t| - 1)
    else LastStore(t[..|t| - 1], p)
  }

  /** What the registry holds after a history: a path is registered exactly when
      some call stored a handle under it, and then it holds the handle of the LAST
      such call (last write wins; failed calls leave no trace). In particular,
      before any successful load every lookup is "not registered". */
  lemma {:induction false} RegistryHoldsLastStore(t: seq<Attempt>, p: string)
    ensures p in Replay(t).registry <==> LastStore(t, p).Some?
    ensures p in Replay(t).registry ==> Replay(t).registry[p] == t[LastStore(t, p).value].resolved.value
    decreases |t|
  {
    if t != [] {
      var prefix, a := t[..|t| - 1], t[|t| - 1];
      RegistryHoldsLastStore(prefix, p);
      if !Stores(a, p) {
        var k := LastStore(prefix, p);
        if k.Some? {
          assert t[k.value] == prefix[k.value];
        }
      }
    }
  }

  /** A path that is registered stays registered: the registry never shrinks. */
  lemma {:induction false} RegistryNeverShrinks(t: seq<Attempt>, n: nat)
    requires n <= |t|
    ensures Replay(t[..n]).registry.Keys <= Replay(t).registry.Keys
    decreases |t| - n
  {
    if n < |t| {
      RegistryNeverShrinks(t, n + 1);
      var prefix := t[..n + 1];
      assert prefix[..|prefix| - 1] == t[..n];
      var a := prefix[|prefix| - 1];
      assert Replay(prefix) == Commit(Replay(t[..n]), a.path, a.resolved).next;
    } else {
      assert t[..n] == t;
    }
  }

  /** The number of `Init()` calls recorded for the path `p`. */
  function InitsOn(calls: seq<InitCall>, p: string): nat
    decreases |calls|
  {
    if calls == [] then 0
    else InitsOn(calls[..|calls| - 1], p) + (if calls[|calls| - 1].path == p then 1 else 0)
  }

  /** The number of calls that stored a handle under `p`. */
  function StoresOf(t: seq<Attempt>, p: string): nat
    decreases |t|
  {
    if t == [] then 0
    else StoresOf(t[..|t| - 1], p) + (if Stores(t[|t| - 1], p) then 1 else 0)
  }

  /** `Init()` is called once per successful load of a path, and again on every
      reload: the number of calls on `p` equals the number of loads that stored `p`. */
  lemma {:induction false} InitOncePerLoad(t: seq<Attempt>, p: string)
    ensures InitsOn(Replay(t).inits, p) == StoresOf(t, p)
    decreases |t|
  {
    if t != [] {
      var prefix, a := t[..|t| - 1], t[|t| - 1];
      InitOncePerLoad(prefix, p);
      var before := Replay(prefix);
      if a.resolved.Ok? {
        var calls := Replay(t).inits;
        assert calls == before.inits + [calls[|calls| - 1]];
        assert calls[..|calls| - 1] == before.inits;
        assert calls[|calls| - 1].path == a.path;
      }
    }
  }

  /** Every recorded `Init()` call was made on a handle that a call of the
      history stored under that path, and the handle satisfies GenericInitializer. */
  lemma {:induction false} InitOnlyOnStoredHandles(t: seq<Attempt>, i: nat)
    requires i < |Replay(t).inits|
    ensures exists j | 0 <= j < |t| :: Stores(t[j], Replay(t).inits[i].path) &&
                                       t[j].resolved.value == Replay(t).inits[i].handle
    ensures SatisfiesGenericInitializer(Replay(t).inits[i].handle)
    decreases |t|
  {
    var prefix, a := t[..|t| - 1], t[|t| - 1];
    var before := Replay(prefix);
    var call := Replay(t).inits[i];
    if i < |before.inits| {
      assert Replay(t).inits[i] == before.inits[i];
      InitOnlyOnStoredHandles(prefix, i);
      var j :| 0 <= j < |prefix| && Stores(prefix[j], call.path) && prefix[j].resolved.value == call.handle;
      assert t[j] == prefix[j];
    } else {
      assert Stores(t[|t| - 1], call.path) && t[|t| - 1].resolved.value == call.handle;
    }
  }

  /** The calls that succeeded, in order. */
  function Successes(t: seq<Attempt>): (s: seq<Attempt>)
    ensures forall i | 0 <= i < |s| :: s[i].resolved.Ok?
    decreases |t|
  {
    if t == [] then []
    else Successes(t[..|t| - 1]) + (if t[|t| - 1].resolved.Ok? then [t[|t| - 1]] else [])
  }

  /** A failed load leaves no trace at all: a history ends in the same state as
      the history of its successful calls alone. */
  lemma {:induction false} FailuresLeaveNoTrace(t: seq<Attempt>)
    ensures Replay(t) == Replay(Successes(t))
    decreases |t|
  {
    if t != [] {
      var prefix, a := t[..|t| - 1], t[|t| - 1];
      FailuresLeaveNoTrace(prefix);
      assert Replay(t) == Commit(Replay(prefix), a.path, a.resolved).next;
      if a.resolved.Ok? {
        var s := Successes(t);
        assert s == Successes(prefix) + [a];
        assert s[..|s| - 1] == Successes(prefix) && s[|s| - 1] == a;
        assert Replay(s) == Commit(Replay(Successes(prefix)), a.path, a.resolved).next;
      } else {
        assert Successes(t) == Successes(prefix) + [] == Successes(prefix);
        assert Replay(t) == Replay(prefix);
      }
    }
  }

  /** A caller's view: a plugin "echo.so" that exports a GenericInitializer. Before
      any load it is not registered; after a load it is, and its `Init()` has run
      once; a second load runs `Init()` again. */
  method EchoScenario()
  {
    var echo: Initializer := Symbol(1, {InitMethod});
    var open: Opener := path =>
      if path == PluginPath("echo.so") then Opened(Unit(map[MainSymbolName := echo]))
      else OpenError("cannot open shared object file");
    var registry := new Registry();
    assert registry.GetByName("echo.so") == Err(NotRegistered(PluginPath("echo.so")));

    var err := registry.Load(open, "echo.so");
    assert err == None;
    assert registry.GetByName("echo.so") == Ok(echo);
    assert registry.initCalls == [InitCall(PluginPath("echo.so"), echo)];

    err := registry.Load(open, "echo.so");
    assert err == None && registry.GetByName("echo.so") == Ok(echo);
    var loaded := Attempt(PluginPath("echo.so"), Ok(echo));
    assert registry.loads == [loaded, loaded];
    assert [loaded, loaded][..1] == [loaded] && [loaded][..0] == [];
    assert StoresOf([loaded], PluginPath("echo.so")) == 1;
    assert StoresOf([loaded, loaded], PluginPath("echo.so")) == 2;
    InitOncePerLoad(registry.loads, PluginPath("echo.so"));
    assert InitsOn(registry.initCalls, PluginPath("echo.so")) == 2;
  }
}
