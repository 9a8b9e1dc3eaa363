/** The procedure state machine of Assets/Game/Scripts/Core/Procedure/ProcedureModule.cs.
    Procedure types, procedure objects, the framework and user data are opaque.
    Every hook the module calls on a procedure is recorded, in call order, in a
    trace; the value-level operations on `Flow` say what each `ProcedureModule`
    method does to the table, the current procedure and the trace, and the class
    `ProcedureModule` does it in place. */
module Procedures {
  import opened Wrappers
  import opened Sequences

  type ProcedureType(==, !new)
  type Procedure(==, !new)
  type Framework(==, !new)
  type UserData(==, !new)

  /** The three per-frame hooks. The frame times are not modelled. */
  datatype Tick = Update | FixedUpdate | LateUpdate

  /** One call the module makes on a procedure. */
  datatype Hook =
    | Initialize(p: Procedure, framework: Option<Framework>)
    | OnEnter(p: Procedure, userData: Option<UserData>)
    | OnLeave(p: Procedure, userData: Option<UserData>)
    | Ticked(p: Procedure, tick: Tick)
    | Shutdown(p: Procedure)

  /** `_gameFramework`, `_procedures` (with `order`, the order its entries were
      added and are enumerated in), `_currentProcedure`, and the hooks called so far. */
  datatype Flow = Flow(
    framework: Option<Framework>,
    procedures: map<ProcedureType, Procedure>,
    order: seq<ProcedureType>,
    current: Option<Procedure>,
    trace: seq<Hook>)

  /** `order` lists each key of the table exactly once. */
  ghost predicate Valid(s: Flow) {
    && Distinct(s.order)
    && (forall t :: t in s.procedures <==> t in s.order)
  }

  /** `SetGameFramework`. */
  function SetFramework(s: Flow, f: Option<Framework>): Flow {
    s.(framework := f)
  }

  /** `RegisterProcedure<T>()`, where `t` is `typeof(T)` and `created` the object
      `new T()` yields. */
  function Register(s: Flow, t: ProcedureType, created: Procedure): Flow {
    if t in s.procedures then s
    else s.(procedures := s.procedures[t := created], order := s.order + [t],
            trace := s.trace + [Initialize(created, s.framework)])
  }

  /** The hooks `ChangeProcedure` calls on leaving the current procedure. */
  function LeaveHooks(current: Option<Procedure>, userData: Option<UserData>): seq<Hook> {
    if current.Some? then [OnLeave(current.value, userData)] else []
  }

  /** `ChangeProcedure<T>(userData)`. */
  function Change(s: Flow, t: ProcedureType, userData: Option<UserData>): Flow {
    if t !in s.procedures then s
    else
      var target := s.procedures[t];
      s.(current := Some(target),
         trace := s.trace + LeaveHooks(s.current, userData) + [OnEnter(target, userData)])
  }

  /** `OnUpdate`, `OnFixedUpdate` and `OnLateUpdate`: forwarded to the current
      procedure, if any. */
  function Forward(s: Flow, tick: Tick): Flow {
    if s.current.Some? then s.(trace := s.trace + [Ticked(s.current.value, tick)]) else s
  }

  /** The `Shutdown` calls on the procedures of `ts`, in order. */
  function ShutdownHooks(procedures: map<ProcedureType, Procedure>, ts: seq<ProcedureType>): (r: seq<Hook>)
    requires forall i :: 0 <= i < |ts| ==> ts[i] in procedures
    ensures |r| == |ts|
    decreases |ts|
  {
    if ts == [] then []
    else ShutdownHooks(procedures, ts[..|ts| - 1]) + [Shutdown(procedures[ts[|ts| - 1]])]
  }

  /** The `i`-th call shuts down the procedure of the `i`-th type. */
  lemma {:induction false} ShutdownHooksAt(procedures: map<ProcedureType, Procedure>, ts: seq<ProcedureType>, i: int)
    requires forall k :: 0 <= k < |ts| ==> ts[k] in procedures
    requires 0 <= i < |ts|
    ensures ShutdownHooks(procedures, ts)[i] == Shutdown(procedures[ts[i]])
    decreases |ts|
  {
    if i < |ts| - 1 {
      ShutdownHooksAt(procedures, ts[..|ts| - 1], i);
    }
  }

  /** `OnShutdown`: leave the current procedure with null user data, shut every
      registered procedure down, empty the table. */
  function ShutdownAll(s: Flow): Flow
    requires Valid(s)
  {
    s.(procedures := map[], order := [], current := None,
       trace := s.trace + LeaveHooks(s.current, None) + ShutdownHooks(s.procedures, s.order))
  }

  const EmptyFlow: Flow := Flow(None, map[], [], None, [])

  // ---------------------------------------------------------------------------
  // Properties
  // ---------------------------------------------------------------------------

  lemma EmptyFlowValid()
    ensures Valid(EmptyFlow)
  {
  }

  /** Registering a type already present changes nothing; otherwise exactly one
      entry is added, the new object is initialised once, and the invariant holds. */
  lemma RegisterEffect(s: Flow, t: ProcedureType, created: Procedure)
    requires Valid(s)
    ensures Valid(Register(s, t, created))
    ensures t in s.procedures ==> Register(s, t, created) == s
    ensures t !in s.procedures ==>
      && Register(s, t, created).procedures.Keys == s.procedures.Keys + {t}
      && |Register(s, t, created).procedures| == |s.procedures| + 1
      && Register(s, t, created).procedures[t] == created
      && (forall u :: u in s.procedures ==> Register(s, t, created).procedures[u] == s.procedures[u])
      && Register(s, t, created).trace == s.trace + [Initialize(created, s.framework)]
  {
    if t !in s.procedures {
      DistinctPush(s.order, t);
      assert t !in s.procedures.Keys;
    }
  }

  /** Registering twice under one type keeps the first object. */
  lemma RegisterTwice(s: Flow, t: ProcedureType, p: Procedure, q: Procedure)
    ensures Register(Register(s, t, p), t, q) == Register(s, t, p)
    ensures t in Register(s, t, p).procedures
  {
  }

  /** A change to an unregistered type leaves everything as it was. */
  lemma ChangeUnregistered(s: Flow, t: ProcedureType, userData: Option<UserData>)
    requires t !in s.procedures
    ensures Change(s, t, userData) == s
  {
  }

  /** A change to a registered type calls `OnLeave` on the old current procedure
      (if there is one) and then `OnEnter` on the target, with the same user data;
      the target becomes current and the table is untouched. This holds also when
      the target is already current. */
  lemma ChangeRegistered(s: Flow, t: ProcedureType, userData: Option<UserData>)
    requires t in s.procedures
    ensures Change(s, t, userData).current == Some(s.procedures[t])
    ensures Change(s, t, userData).procedures == s.procedures && Change(s, t, userData).order == s.order
    ensures s.current.None? ==> Change(s, t, userData).trace == s.trace + [OnEnter(s.procedures[t], userData)]
    ensures s.current.Some? ==>
      Change(s, t, userData).trace == s.trace + [OnLeave(s.current.value, userData), OnEnter(s.procedures[t], userData)]
  {
    if s.current.Some? {
      assert s.trace + [OnLeave(s.current.value, userData)] + [OnEnter(s.procedures[t], userData)]
        == s.trace + [OnLeave(s.current.value, userData), OnEnter(s.procedures[t], userData)];
    } else {
      assert s.trace + [] == s.trace;
    }
  }

  /** Changing to the current procedure twice leaves and re-enters it each time. */
  lemma ChangeAgain(s: Flow, t: ProcedureType, a: Option<UserData>, b: Option<UserData>)
    requires t in s.procedures
    ensures Change(Change(s, t, a), t, b).current == Some(s.procedures[t])
    ensures Change(Change(s, t, a), t, b).trace ==
      Change(s, t, a).trace + [OnLeave(s.procedures[t], b), OnEnter(s.procedures[t], b)]
  {
    ChangeRegistered(Change(s, t, a), t, b);
  }

  /** A tick reaches the current procedure only, and nothing when there is none. */
  lemma ForwardEffect(s: Flow, tick: Tick)
    ensures s.current.None? ==> Forward(s, tick) == s
    ensures s.current.Some? ==> Forward(s, tick).trace == s.trace + [Ticked(s.current.value, tick)]
    ensures Forward(s, tick).(trace := s.trace) == s
  {
  }

  /** After `OnShutdown` the table is empty and no procedure is current; the
      trace gains `OnLeave(null)` on the old current procedure, then exactly one
      `Shutdown` call per registered procedure, and nothing else. */
  lemma ShutdownEffect(s: Flow)
    requires Valid(s)
    ensures Valid(ShutdownAll(s))
    ensures ShutdownAll(s).procedures == map[] && ShutdownAll(s).current == None
    ensures ShutdownAll(s).trace == s.trace + LeaveHooks(s.current, None) + ShutdownHooks(s.procedures, s.order)
    ensures |ShutdownHooks(s.procedures, s.order)| == |s.procedures|
    ensures forall t :: t in s.procedures ==> Shutdown(s.procedures[t]) in ShutdownHooks(s.procedures, s.order)
    ensures forall h :: h in ShutdownHooks(s.procedures, s.order) ==> h.Shutdown? && h.p in s.procedures.Values
  {
    DistinctCard(s.order);
    assert (set t | t in s.order) == s.procedures.Keys;
    var hs := ShutdownHooks(s.procedures, s.order);
    forall t | t in s.procedures ensures Shutdown(s.procedures[t]) in hs {
      var i :| 0 <= i < |s.order| && s.order[i] == t;
      ShutdownHooksAt(s.procedures, s.order, i);
    }
    forall h | h in hs ensures h.Shutdown? && h.p in s.procedures.Values {
      var i :| 0 <= i < |hs| && hs[i] == h;
      ShutdownHooksAt(s.procedures, s.order, i);
    }
  }

  /** `EmptyFlow` after shutdown: a module shut down twice calls nothing the
      second time. */
  lemma ShutdownTwice(s: Flow)
    requires Valid(s)
    ensures Valid(ShutdownAll(s))
    ensures ShutdownAll(ShutdownAll(s)) == ShutdownAll(s)
  {
    ShutdownEffect(s);
    assert ShutdownAll(s).trace + [] + [] == ShutdownAll(s).trace;
  }

  // ---------------------------------------------------------------------------
  // The class
  // ---------------------------------------------------------------------------

  class ProcedureModule {
    var gameFramework: Option<Framework>
    var procedures: map<ProcedureType, Procedure>
    var order: seq<ProcedureType>
    var currentProcedure: Option<Procedure>
    /** The hooks called on procedures so far. */
    var trace: seq<Hook>

    function State(): Flow
      reads this
    {
      Flow(gameFramework, procedures, order, currentProcedure, trace)
    }

    constructor ()
      ensures State() == EmptyFlow && Valid(State())
    {
      gameFramework, procedures, order, currentProcedure, trace := None, map[], [], None, [];
    }

    method SetGameFramework(f: Option<Framework>)
      modifies this
      ensures State() == SetFramework(old(State()), f)
    {
      gameFramework := f;
    }

    /** `RegisterProcedure<T>()`; `created` is the object `new T()` yields. */
    method RegisterProcedure(t: ProcedureType, created: Procedure)
      requires Valid(State())
      modifies this
      ensures State() == Register(old(State()), t, created) && Valid(State())
    {
      RegisterEffect(State(), t, created);
      if t !in procedures {
        trace := trace + [Initialize(created, gameFramework)];
        procedures := procedures[t := created];
        order := order + [t];
      }
    }

    method ChangeProcedure(t: ProcedureType, userData: Option<UserData>)
      modifies this
      ensures State() == Change(old(State()), t, userData)
    {
      if t !in procedures {
        return;
      }
      var target := procedures[t];
      if currentProcedure.Some? {
        trace := trace + [OnLeave(currentProcedure.value, userData)];
      } else {
        assert trace + [] == trace;
      }
      currentProcedure := Some(target);
      trace := trace + [OnEnter(target, userData)];
    }

    /** `OnUpdate`, `OnFixedUpdate` and `OnLateUpdate`. */
    method OnTick(tick: Tick)
      modifies this
      ensures State() == Forward(old(State()), tick)
    {
      if currentProcedure.Some? {
        trace := trace + [Ticked(currentProcedure.value, tick)];
      }
    }

    /** The `foreach` over `_procedures.Values` in `OnShutdown`. */
    method ShutdownEach()
      requires forall k :: 0 <= k < |order| ==> order[k] in procedures
      modifies this`trace
      ensures trace == old(trace) + ShutdownHooks(procedures, order)
    {
      var i := 0;
      while i < |order|
        invariant 0 <= i <= |order|
        invariant trace == old(trace) + ShutdownHooks(procedures, order[..i])
      {
        assert order[..i + 1][..i] == order[..i];
        trace := trace + [Shutdown(procedures[order[i]])];
        i := i + 1;
      }
      assert order[..i] == order;
    }

    method OnShutdown()
      requires Valid(State())
      modifies this
      ensures State() == ShutdownAll(old(State())) && Valid(State())
    {
      if currentProcedure.Some? {
        trace := trace + [OnLeave(currentProcedure.value, None)];
        currentProcedure := None;
      } else {
        assert trace + [] == trace;
      }
      ShutdownEach();
      procedures := map[];
      order := [];
      ShutdownEffect(old(State()));
    }
  }
}
