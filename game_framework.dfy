/** The module registry of Assets/Game/Scripts/Core/GameFramework.cs. Modules and
    framework objects are opaque references; each module has a runtime type, the
    key it is registered under. The static `Instance` is a value that `Awake` and
    `OnDestroy` take and return. Every call the framework makes on a module is
    recorded, in order, in a trace. Dictionary enumeration follows registration
    order. */
module Framework {
  import opened Wrappers
  import opened Sequences

  type ModuleRef(==, !new)
  type ModuleType(==, !new)
  type FrameworkRef(==, !new)

  /** An `IModule`: the object and its `GetType()`. */
  datatype Module = Module(ref: ModuleRef, kind: ModuleType)

  /** The lifecycle hooks of `IModule` that the framework calls on every module. */
  datatype Phase = Initialize | Update | FixedUpdate | LateUpdate | Shutdown

  /** One call on a module: `SetGameFramework(fw)`, or a lifecycle hook. */
  datatype Call = Attached(m: ModuleRef, fw: FrameworkRef) | Called(m: ModuleRef, phase: Phase)

  /** `_modules` with its enumeration order, and the calls made on modules so far. */
  datatype Registry = Registry(modules: map<ModuleType, ModuleRef>, order: seq<ModuleType>, trace: seq<Call>)

  /** `order` lists each key exactly once. */
  ghost predicate Valid(s: Registry) {
    Distinct(s.order) && forall t :: t in s.modules <==> t in s.order
  }

  /** `RegisterModule(module)` on the framework object `self`. */
  function Register(s: Registry, self: FrameworkRef, m: Module): Registry {
    if m.kind in s.modules then s
    else Registry(s.modules[m.kind := m.ref], s.order + [m.kind], s.trace + [Attached(m.ref, self)])
  }

  /** `GetModule<T>()`: the module registered for `t`, or null. */
  function Lookup(s: Registry, t: ModuleType): (r: Option<ModuleRef>)
    ensures r.Some? <==> t in s.modules
    ensures r.Some? ==> r.value == s.modules[t]
  {
    if t in s.modules then Some(s.modules[t]) else None
  }

  /** One `phase` call on each module, in enumeration order. */
  function Each(modules: map<ModuleType, ModuleRef>, ts: seq<ModuleType>, phase: Phase): (r: seq<Call>)
    requires forall i :: 0 <= i < |ts| ==> ts[i] in modules
    ensures |r| == |ts|
    decreases |ts|
  {
    if ts == [] then [] else Each(modules, ts[..|ts| - 1], phase) + [Called(modules[ts[|ts| - 1]], phase)]
  }

  /** `Each` over a prefix one longer. */
  lemma EachPush(modules: map<ModuleType, ModuleRef>, ts: seq<ModuleType>, i: int, phase: Phase)
    requires forall k :: 0 <= k < |ts| ==> ts[k] in modules
    requires 0 <= i < |ts|
    ensures Each(modules, ts[..i + 1], phase) == Each(modules, ts[..i], phase) + [Called(modules[ts[i]], phase)]
  {
    assert ts[..i + 1][..i] == ts[..i];
  }

  /** The `foreach (var module in _modules.Values)` loops of `InitializeModules`,
      `Update`, `FixedUpdate`, `LateUpdate` and `OnDestroy`. */
  function CallAll(s: Registry, phase: Phase): Registry
    requires Valid(s)
  {
    s.(trace := s.trace + Each(s.modules, s.order, phase))
  }

  /** `InitializeModules`: register the core modules in order, then initialise
      every registered module. */
  function InitializeAll(s: Registry, self: FrameworkRef, core: seq<Module>): Registry
    requires Valid(s)
  {
    RegisterValid(s, self, core);
    CallAll(RegisterAll(s, self, core), Initialize)
  }

  function RegisterAll(s: Registry, self: FrameworkRef, ms: seq<Module>): Registry
    decreases |ms|
  {
    if ms == [] then s else Register(RegisterAll(s, self, ms[..|ms| - 1]), self, ms[|ms| - 1])
  }

  /** `Awake` on `self` with the current `Instance`: a second framework object
      changes nothing (it destroys its own game object); otherwise `self` becomes
      the instance and initialises the core modules. */
  function Wake(s: Registry, self: FrameworkRef, instance: Option<FrameworkRef>, core: seq<Module>): (Registry, Option<FrameworkRef>)
    requires Valid(s)
  {
    if instance.Some? && instance.value != self then (s, instance)
    else (InitializeAll(s, self, core), Some(self))
  }

  /** `OnDestroy` on `self`: shut every module down, empty the registry, and
      clear `Instance` only if it is `self`. */
  function Destroy(s: Registry, self: FrameworkRef, instance: Option<FrameworkRef>): (Registry, Option<FrameworkRef>)
    requires Valid(s)
  {
    (Registry(map[], [], s.trace + Each(s.modules, s.order, Shutdown)),
     if instance == Some(self) then None else instance)
  }

  const EmptyRegistry: Registry := Registry(map[], [], [])

  // ---------------------------------------------------------------------------
  // Properties
  // ---------------------------------------------------------------------------

  lemma RegisterValid(s: Registry, self: FrameworkRef, ms: seq<Module>)
    requires Valid(s)
    ensures Valid(RegisterAll(s, self, ms))
    decreases |ms|
  {
    if ms != [] {
      RegisterValid(s, self, ms[..|ms| - 1]);
      RegisterEffect(RegisterAll(s, self, ms[..|ms| - 1]), self, ms[|ms| - 1]);
    }
  }

  /** A module whose type is registered leaves the registry as it was; otherwise
      it is added under its type, nothing else changes, and it gets
      `SetGameFramework(self)` exactly once, at registration. */
  lemma RegisterEffect(s: Registry, self: FrameworkRef, m: Module)
    requires Valid(s)
    ensures Valid(Register(s, self, m))
    ensures m.kind in s.modules ==> Register(s, self, m) == s
    ensures m.kind !in s.modules ==>
      && Register(s, self, m).modules.Keys == s.modules.Keys + {m.kind}
      && |Register(s, self, m).modules| == |s.modules| + 1
      && Register(s, self, m).modules[m.kind] == m.ref
      && (forall t :: t in s.modules ==> Register(s, self, m).modules[t] == s.modules[t])
      && Register(s, self, m).trace == s.trace + [Attached(m.ref, self)]
  {
    if m.kind !in s.modules {
      DistinctPush(s.order, m.kind);
      assert m.kind !in s.modules.Keys;
    }
  }

  /** After registration, `GetModule` finds the first module registered for the type. */
  lemma GetAfterRegister(s: Registry, self: FrameworkRef, m: Module, t: ModuleType)
    ensures Lookup(Register(s, self, m), m.kind) == Some(if m.kind in s.modules then s.modules[m.kind] else m.ref)
    ensures t != m.kind ==> Lookup(Register(s, self, m), t) == Lookup(s, t)
  {
  }

  /** The `i`-th call of a loop is on the module of the `i`-th type. */
  lemma {:induction false} EachAt(modules: map<ModuleType, ModuleRef>, ts: seq<ModuleType>, phase: Phase, i: int)
    requires forall k :: 0 <= k < |ts| ==> ts[k] in modules
    requires 0 <= i < |ts|
    ensures Each(modules, ts, phase)[i] == Called(modules[ts[i]], phase)
    decreases |ts|
  {
    if i < |ts| - 1 {
      EachAt(modules, ts[..|ts| - 1], phase, i);
    }
  }

  /** Each loop over `_modules.Values` calls the hook once per registered module
      and on nothing else. */
  lemma EachOnce(s: Registry, phase: Phase)
    requires Valid(s)
    ensures |Each(s.modules, s.order, phase)| == |s.modules|
    ensures forall t :: t in s.modules ==> Called(s.modules[t], phase) in Each(s.modules, s.order, phase)
    ensures forall c :: c in Each(s.modules, s.order, phase) ==> c == Called(c.m, phase) && c.m in s.modules.Values
  {
    DistinctCard(s.order);
    assert (set t | t in s.order) == s.modules.Keys;
    var cs := Each(s.modules, s.order, phase);
    forall t | t in s.modules ensures Called(s.modules[t], phase) in cs {
      var i :| 0 <= i < |s.order| && s.order[i] == t;
      EachAt(s.modules, s.order, phase, i);
    }
    forall c | c in cs ensures c == Called(c.m, phase) && c.m in s.modules.Values {
      var i :| 0 <= i < |cs| && cs[i] == c;
      EachAt(s.modules, s.order, phase, i);
    }
  }

  /** A second framework object neither replaces `Instance` nor registers anything. */
  lemma AwakeSecond(s: Registry, self: FrameworkRef, other: FrameworkRef, core: seq<Module>)
    requires Valid(s) && other != self
    ensures Wake(s, self, Some(other), core) == (s, Some(other))
  {
  }

  /** The first framework object becomes `Instance`, and every core module ends up
      registered under its type. */
  lemma AwakeFirst(s: Registry, self: FrameworkRef, core: seq<Module>, m: Module)
    requires Valid(s) && m in core
    ensures Wake(s, self, None, core).1 == Some(self)
    ensures m.kind in Wake(s, self, None, core).0.modules
  {
    RegisterAllKeeps(s, self, core, m);
  }

  lemma {:induction false} RegisterAllKeeps(s: Registry, self: FrameworkRef, ms: seq<Module>, m: Module)
    requires m in ms
    ensures m.kind in RegisterAll(s, self, ms).modules
    decreases |ms|
  {
    if ms[|ms| - 1] != m {
      assert ms == ms[..|ms| - 1] + [ms[|ms| - 1]];
      RegisterAllKeeps(s, self, ms[..|ms| - 1], m);
    }
  }

  /** `OnDestroy` empties the registry, shuts down each module exactly once, and
      clears `Instance` iff it was `self`. */
  lemma DestroyEffect(s: Registry, self: FrameworkRef, instance: Option<FrameworkRef>)
    requires Valid(s)
    ensures Valid(Destroy(s, self, instance).0)
    ensures Destroy(s, self, instance).0.modules == map[]
    ensures Destroy(s, self, instance).0.trace == CallAll(s, Shutdown).trace
    ensures Destroy(s, self, instance).1 == None <==> instance == Some(self) || instance == None
    ensures instance != Some(self) ==> Destroy(s, self, instance).1 == instance
  {
  }

  // ---------------------------------------------------------------------------
  // The class
  // ---------------------------------------------------------------------------

  class GameFramework {
    /** The object's identity, compared with `Instance`. */
    const self: FrameworkRef
    var modules: map<ModuleType, ModuleRef>
    var order: seq<ModuleType>
    /** The calls made on modules so far. */
    var trace: seq<Call>

    function State(): Registry
      reads this
    {
      Registry(modules, order, trace)
    }

    constructor (self: FrameworkRef)
      ensures this.self == self && State() == EmptyRegistry && Valid(State())
    {
      this.self := self;
      modules, order, trace := map[], [], [];
    }

    method RegisterModule(m: Module)
      requires Valid(State())
      modifies this
      ensures State() == Register(old(State()), self, m) && Valid(State())
    {
      RegisterEffect(State(), self, m);
      if m.kind !in modules {
        modules := modules[m.kind := m.ref];
        order := order + [m.kind];
        trace := trace + [Attached(m.ref, self)];
      }
    }

    method GetModule(t: ModuleType) returns (r: Option<ModuleRef>)
      ensures r == Lookup(State(), t)
    {
      if t in modules {
        return Some(modules[t]);
      }
      return None;
    }

    /** One hook on every registered module, in enumeration order. */
    method CallEach(phase: Phase)
      requires Valid(State())
      modifies this`trace
      ensures State() == CallAll(old(State()), phase)
    {
      var ms, ts := modules, order;
      assert forall k :: 0 <= k < |ts| ==> ts[k] in ms;
      var calls := [];
      var i := 0;
      while i < |ts|
        invariant 0 <= i <= |ts|
        invariant calls == Each(ms, ts[..i], phase)
        modifies {}
      {
        EachPush(ms, ts, i, phase);
        calls := calls + [Called(ms[ts[i]], phase)];
        i := i + 1;
      }
      assert ts[..i] == ts;
      trace := trace + calls;
    }

    method InitializeModules(core: seq<Module>)
      requires Valid(State())
      modifies this
      ensures State() == InitializeAll(old(State()), self, core) && Valid(State())
    {
      var k := 0;
      while k < |core|
        invariant 0 <= k <= |core|
        invariant State() == RegisterAll(old(State()), self, core[..k]) && Valid(State())
      {
        assert core[..k + 1][..k] == core[..k];
        RegisterModule(core[k]);
        k := k + 1;
      }
      assert core[..k] == core;
      CallEach(Initialize);
    }

    /** `Awake`, given `Instance`; returns the new `Instance`. */
    method Awake(instance: Option<FrameworkRef>, core: seq<Module>) returns (newInstance: Option<FrameworkRef>)
      requires Valid(State())
      modifies this
      ensures (State(), newInstance) == Wake(old(State()), self, instance, core) && Valid(State())
    {
      if instance.Some? && instance.value != self {
        return instance;
      }
      newInstance := Some(self);
      InitializeModules(core);
    }

    /** `OnDestroy`, given `Instance`; returns the new `Instance`. */
    method OnDestroy(instance: Option<FrameworkRef>) returns (newInstance: Option<FrameworkRef>)
      requires Valid(State())
      modifies this
      ensures (State(), newInstance) == Destroy(old(State()), self, instance) && Valid(State())
    {
      CallEach(Shutdown);
      modules := map[];
      order := [];
      if instance == Some(self) {
        newInstance := None;
      } else {
        newInstance := instance;
      }
    }
  }
}
