/** The value-level model of the event bus of Assets/Game/Scripts/Core/Event/EventModule.cs:
    the bus state as a datatype and every operation of `EventModule` as a pure
    function on it. The class `EventModule` (event_module.dfy) is proved to
    compute exactly these functions; the lemmas (event_bus_*.dfy) state what
    they guarantee. */
module EventBus {
  import opened Wrappers

  /** Delegates, owner objects and senders are compared by reference only. */
  type Handler(==, !new)
  type Owner(==, !new)
  type SenderRef(==, !new)

  /** The exceptions the bus throws at its callers. */
  datatype BusError =
    | InvalidEventId   // ArgumentOutOfRangeException / ArgumentException: id <= 0
    | NullHandler      // ArgumentNullException(handler)
    | NullSender       // ArgumentNullException(sender)
    | NullArgs         // ArgumentNullException(e)
    | SenderMismatch   // InvalidOperationException: e.Sender != sender

  /** `EventHandlerWrapper`: a subscribed delegate with its once flag and optional owner. */
  datatype Wrapper = Wrapper(handler: Handler, once: bool, owner: Option<Owner>)

  /** `GameEventArgs`: sender and id fixed at construction, `IsHandled` mutable. */
  datatype Envelope = Envelope(sender: SenderRef, id: int, handled: bool)

  /** The `GameEventArgs` constructor: a null sender is rejected first, then a non-positive id. */
  function NewEventArgs(sender: Option<SenderRef>, eventId: int): (r: Result<Envelope, BusError>)
    ensures sender.None? ==> r == Failure(NullSender)
    ensures sender.Some? && eventId <= 0 ==> r == Failure(InvalidEventId)
    ensures r.Success? <==> sender.Some? && eventId > 0
    ensures r.Success? ==> r.value.sender == sender.value && r.value.id == eventId && !r.value.handled
  {
    if sender.None? then Failure(NullSender)
    else if eventId <= 0 then Failure(InvalidEventId)
    else Success(Envelope(sender.value, eventId, false))
  }

  /** The `EventHandlerWrapper` constructor, which refuses a null delegate. */
  function NewWrapper(handler: Option<Handler>, once: bool, owner: Option<Owner>): (r: Result<Wrapper, BusError>)
    ensures r.Failure? <==> handler.None?
    ensures r.Success? ==> r.value.handler == handler.value && r.value.once == once && r.value.owner == owner
  {
    if handler.None? then Failure(NullHandler) else Success(Wrapper(handler.value, once, owner))
  }

  type Pool = map<int, seq<Wrapper>>
  type OwnerIndex = map<Owner, seq<(int, Handler)>>

  /** The fields of `EventModule`: `_eventPool`, `_ownerMap`, `_defaultHandler`,
      `_eventQueue`, `_handlerCache` and `_totalHandlerCount`. */
  datatype Bus = Bus(
    pool: Pool,
    owners: OwnerIndex,
    defaultHandler: Option<Handler>,
    queue: seq<Envelope>,
    cache: seq<Wrapper>,
    total: int)

  const EmptyBus := Bus(map[], map[], None, [], [], 0)

  // ---------------------------------------------------------------------------
  // Lookups on handler lists
  // ---------------------------------------------------------------------------

  /** Some wrapper in `s` holds delegate `h`. */
  predicate Contains(s: seq<Wrapper>, h: Handler) {
    exists i :: 0 <= i < |s| && s[i].handler == h
  }

  /** The index at which the backward scan of `Unsubscribe` stops: the last wrapper holding `h`, or -1. */
  function LastIndexOf(s: seq<Wrapper>, h: Handler): (i: int)
    ensures -1 <= i < |s|
    ensures i >= 0 ==> s[i].handler == h
    ensures forall j :: i < j < |s| ==> s[j].handler != h
    ensures i >= 0 <==> Contains(s, h)
  {
    if s == [] then -1
    else if s[|s| - 1].handler == h then |s| - 1
    else LastIndexOf(s[..|s| - 1], h)
  }

  /** The handler list of `id`, empty when the id has no entry. */
  function Handlers(pool: Pool, id: int): seq<Wrapper> {
    if id in pool then pool[id] else []
  }

  /** `h` is subscribed to `id`. */
  predicate Subscribed(pool: Pool, id: int, h: Handler) {
    id in pool && Contains(pool[id], h)
  }

  /** `h` is subscribed to `id` with owner `o`. */
  predicate OwnedBy(pool: Pool, id: int, h: Handler, o: Owner) {
    id in pool && (Wrapper(h, false, Some(o)) in pool[id] || Wrapper(h, true, Some(o)) in pool[id])
  }

  /** `List.RemoveAll` over an owner's pairs: drop every pair in `gone`, keep the order. */
  function RemoveSet(s: seq<(int, Handler)>, gone: set<(int, Handler)>): (r: seq<(int, Handler)>)
    ensures |r| <= |s|
    ensures forall p :: p in r <==> p in s && p !in gone
  {
    if s == [] then []
    else (if s[0] in gone then [] else [s[0]]) + RemoveSet(s[1..], gone)
  }

  /** Pairs `(id, h)` for each delegate of a list of wrappers. */
  function PairsOf(id: int, ws: seq<Wrapper>): (r: seq<(int, Handler)>)
    ensures |r| == |ws|
    ensures forall k :: 0 <= k < |ws| ==> r[k] == (id, ws[k].handler)
  {
    seq(|ws|, k requires 0 <= k < |ws| => (id, ws[k].handler))
  }

  /** Pairs `(id, h)` for each delegate of a list of delegates. */
  function Tag(id: int, hs: seq<Handler>): (r: seq<(int, Handler)>)
    ensures |r| == |hs|
    ensures forall k :: 0 <= k < |hs| ==> r[k] == (id, hs[k])
  {
    seq(|hs|, k requires 0 <= k < |hs| => (id, hs[k]))
  }

  /** The sum of the lengths of all handler lists. */
  ghost function SumLens(pool: Pool): nat
    decreases |pool.Keys|
  {
    if pool == map[] then 0
    else
      NonEmptyPoolHasKey(pool);
      var id :| id in pool;
      assert (pool - {id}).Keys == pool.Keys - {id};
      |pool[id]| + SumLens(pool - {id})
  }

  lemma NonEmptyPoolHasKey(pool: Pool)
    requires pool != map[]
    ensures exists k :: k in pool
  {
    if forall k :: k !in pool { assert false; }
  }

  // ---------------------------------------------------------------------------
  // Queries
  // ---------------------------------------------------------------------------

  /** `GetHandlerCount`. */
  function GetHandlerCount(b: Bus, id: int): (r: Result<int, BusError>)
    ensures r.Failure? <==> id <= 0
    ensures r.Failure? ==> r.error == InvalidEventId
    ensures r.Success? ==> r.value == |Handlers(b.pool, id)|
  {
    if id <= 0 then Failure(InvalidEventId) else Success(|Handlers(b.pool, id)|)
  }

  /** `HasHandler`: a null delegate answers false before the id is validated. */
  function HasHandler(b: Bus, id: int, h: Option<Handler>): (r: Result<bool, BusError>)
    ensures h.None? ==> r == Success(false)
    ensures h.Some? ==> (r.Failure? <==> id <= 0)
    ensures r.Failure? ==> r.error == InvalidEventId
    ensures r == Success(true) <==> h.Some? && id > 0 && Subscribed(b.pool, id, h.value)
  {
    if h.None? then Success(false)
    else if id <= 0 then Failure(InvalidEventId)
    else Success(Subscribed(b.pool, id, h.value))
  }

  // ---------------------------------------------------------------------------
  // Registry updates
  // ---------------------------------------------------------------------------

  /** `Subscribe`: validates, ignores a duplicate `(id, h)`, otherwise appends the
      wrapper to the id's list and the pair to the owner's list and counts it. */
  function Subscribe(b: Bus, id: int, h: Option<Handler>, once: bool, owner: Option<Owner>): (r: Result<Bus, BusError>)
    ensures h.None? ==> r == Failure(NullHandler)
    ensures h.Some? && id <= 0 ==> r == Failure(InvalidEventId)
    ensures r.Success? <==> h.Some? && id > 0
    ensures r.Success? && Subscribed(b.pool, id, h.value) ==> r.value == b
    ensures r.Success? ==> Subscribed(r.value.pool, id, h.value)
    ensures r.Success? && !Subscribed(b.pool, id, h.value) ==>
      && r.value.pool == b.pool[id := Handlers(b.pool, id) + [Wrapper(h.value, once, owner)]]
      && r.value.total == b.total + 1
    ensures r.Success? ==> r.value.queue == b.queue && r.value.cache == b.cache && r.value.defaultHandler == b.defaultHandler
  {
    if h.None? then Failure(NullHandler)
    else if id <= 0 then Failure(InvalidEventId)
    else if Subscribed(b.pool, id, h.value) then Success(b)
    else
      var owners :=
        if owner.Some? then
          b.owners[owner.value := (if owner.value in b.owners then b.owners[owner.value] else []) + [(id, h.value)]]
        else b.owners;
      var list := Handlers(b.pool, id) + [Wrapper(h.value, once, owner)];
      assert list[|list| - 1].handler == h.value;
      Success(b.(pool := b.pool[id := list],
                 owners := owners,
                 total := b.total + 1))
  }

  /** `UnsubscribeInternal` (and the body of `Unsubscribe` once its checks pass):
      remove the last wrapper of `id` holding `h`, drop the pair from its owner's
      list, and drop lists that become empty. */
  function UnsubscribeInternal(b: Bus, id: int, h: Handler): (r: Bus)
    ensures r.queue == b.queue && r.cache == b.cache && r.defaultHandler == b.defaultHandler
    ensures !Subscribed(b.pool, id, h) ==> r == b
  {
    if id !in b.pool then b
    else
      var list := b.pool[id];
      var i := LastIndexOf(list, h);
      if i < 0 then b
      else
        var w := list[i];
        var rest := list[..i] + list[i + 1..];
        var owners :=
          if w.owner.Some? && w.owner.value in b.owners then
            var left := RemoveSet(b.owners[w.owner.value], {(id, h)});
            if |left| == 0 then b.owners - {w.owner.value} else b.owners[w.owner.value := left]
          else b.owners;
        var pool := if |rest| == 0 then b.pool - {id} else b.pool[id := rest];
        b.(pool := pool, owners := owners, total := b.total - 1)
  }

  /** `UnsubscribeInternal` applied to each pair of a snapshot, in order. */
  function UnsubscribeEach(b: Bus, ps: seq<(int, Handler)>): (r: Bus)
    ensures r.queue == b.queue && r.cache == b.cache && r.defaultHandler == b.defaultHandler
    decreases |ps|
  {
    if ps == [] then b else UnsubscribeEach(UnsubscribeInternal(b, ps[0].0, ps[0].1), ps[1..])
  }

  /** `Unsubscribe`: a null delegate is ignored, a bad id throws, an unknown id is ignored. */
  function Unsubscribe(b: Bus, id: int, h: Option<Handler>): (r: Result<Bus, BusError>)
    ensures h.None? ==> r == Success(b)
    ensures h.Some? && id <= 0 ==> r == Failure(InvalidEventId)
    ensures r.Success? <==> h.None? || id > 0
    ensures h.Some? && !Subscribed(b.pool, id, h.value) && id > 0 ==> r == Success(b)
  {
    if h.None? then Success(b)
    else if id <= 0 then Failure(InvalidEventId)
    else if id !in b.pool then Success(b)
    else Success(UnsubscribeInternal(b, id, h.value))
  }

  /** `UnsubscribeByOwner`: snapshot the owner's pairs, then remove each. */
  function UnsubscribeByOwner(b: Bus, owner: Option<Owner>): (r: Bus)
    ensures owner.None? || owner.value !in b.owners ==> r == b
    ensures r.queue == b.queue && r.cache == b.cache && r.defaultHandler == b.defaultHandler
  {
    if owner.None? || owner.value !in b.owners then b
    else UnsubscribeEach(b, b.owners[owner.value])
  }

  /** `UnsubscribeAll`: validate, snapshot the id's wrappers, then remove each. */
  function UnsubscribeAll(b: Bus, id: int): (r: Result<Bus, BusError>)
    ensures r.Failure? <==> id <= 0
    ensures r.Failure? ==> r.error == InvalidEventId
    ensures id > 0 && id !in b.pool ==> r == Success(b)
  {
    if id <= 0 then Failure(InvalidEventId)
    else if id !in b.pool then Success(b)
    else Success(UnsubscribeEach(b, PairsOf(id, b.pool[id])))
  }

  /** `SetDefaultHandler`: replaces the slot, null clears it. */
  function SetDefaultHandler(b: Bus, h: Option<Handler>): (r: Bus)
    ensures r.defaultHandler == h
    ensures r.pool == b.pool && r.owners == b.owners && r.queue == b.queue && r.total == b.total
  {
    b.(defaultHandler := h)
  }

  /** The argument checks shared by `Fire` and `FireNow`, in the source's order. */
  function CheckFire(sender: Option<SenderRef>, e: Option<Envelope>): (r: Outcome<BusError>)
    ensures r.Pass? <==> sender.Some? && e.Some? && e.value.sender == sender.value
    ensures sender.None? ==> r == Fail(NullSender)
    ensures sender.Some? && e.None? ==> r == Fail(NullArgs)
    ensures sender.Some? && e.Some? && e.value.sender != sender.value ==> r == Fail(SenderMismatch)
  {
    if sender.None? then Fail(NullSender)
    else if e.None? then Fail(NullArgs)
    else if e.value.sender != sender.value then Fail(SenderMismatch)
    else Pass
  }

  /** `Fire`: checks, then only enqueues. */
  function Fire(b: Bus, sender: Option<SenderRef>, e: Option<Envelope>): (r: Result<Bus, BusError>)
    ensures r.Failure? <==> CheckFire(sender, e).Fail?
    ensures r.Failure? ==> r.error == CheckFire(sender, e).error
    ensures r.Success? ==> r.value == b.(queue := b.queue + [e.value])
  {
    match CheckFire(sender, e)
    case Fail(err) => Failure(err)
    case Pass => Success(b.(queue := b.queue + [e.value]))
  }

  /** `OnShutdown`: everything cleared and the counter reset. */
  function Shutdown(b: Bus): (r: Bus)
    ensures r.pool == map[] && r.owners == map[] && r.queue == [] && r.cache == []
    ensures r.defaultHandler.None? && r.total == 0
  {
    EmptyBus
  }

  // ---------------------------------------------------------------------------
  // Handler invocation: an oracle
  // ---------------------------------------------------------------------------

  /** What a handler does to the bus while it runs. Handlers may call every public
      operation except `FireNow`: re-entrant dispatch is outside the model. */
  datatype Effect =
    | DoSubscribe(id: int, h: Option<Handler>, once: bool, owner: Option<Owner>)
    | DoUnsubscribe(id: int, h: Option<Handler>)
    | DoUnsubscribeByOwner(owner: Option<Owner>)
    | DoUnsubscribeAll(id: int)
    | DoSetDefaultHandler(h: Option<Handler>)
    | DoFire(sender: Option<SenderRef>, e: Option<Envelope>)

  /** The outcome of one handler invocation: its calls into the bus, in order, the
      value it leaves in `IsHandled` (None: untouched), and whether it then throws.
      A bus call that throws ends the handler at that point. */
  datatype Reaction = Reaction(effects: seq<Effect>, setHandled: Option<bool>, throws: bool)

  /** The reaction of a handler that returns at once without touching anything. */
  const Quiet := Reaction([], None, false)

  /** Whether a bus call throws; this depends on its arguments only. */
  predicate EffectFails(eff: Effect) {
    match eff
    case DoSubscribe(id, h, _, _) => h.None? || id <= 0
    case DoUnsubscribe(id, h) => h.Some? && id <= 0
    case DoUnsubscribeByOwner(_) => false
    case DoUnsubscribeAll(id) => id <= 0
    case DoSetDefaultHandler(_) => false
    case DoFire(s, e) => CheckFire(s, e).Fail?
  }

  /** No bus call in `effs` throws. */
  predicate AllSucceed(effs: seq<Effect>) {
    forall k :: 0 <= k < |effs| ==> !EffectFails(effs[k])
  }

  /** The handler returns normally. */
  predicate Completes(r: Reaction) {
    AllSucceed(r.effects) && !r.throws
  }

  /** The `IsHandled` flag after the handler, given its value before. */
  function FlagAfter(flag: bool, r: Reaction): bool {
    if AllSucceed(r.effects) && r.setHandled.Some? then r.setHandled.value else flag
  }

  /** One bus call made by a handler. */
  function ApplyEffect(b: Bus, eff: Effect): (r: Result<Bus, BusError>)
    ensures r.Failure? <==> EffectFails(eff)
    ensures r.Success? ==> r.value.cache == b.cache && b.queue <= r.value.queue
  {
    match eff
    case DoSubscribe(id, h, once, owner) => Subscribe(b, id, h, once, owner)
    case DoUnsubscribe(id, h) => Unsubscribe(b, id, h)
    case DoUnsubscribeByOwner(owner) => Success(UnsubscribeByOwner(b, owner))
    case DoUnsubscribeAll(id) => UnsubscribeAll(b, id)
    case DoSetDefaultHandler(h) => Success(SetDefaultHandler(b, h))
    case DoFire(s, e) => Fire(b, s, e)
  }

  datatype Applied = Applied(bus: Bus, ok: bool)

  /** The bus calls of a handler in order, stopping at the first that throws. */
  function ApplyEffects(b: Bus, effs: seq<Effect>): (r: Applied)
    ensures r.ok <==> AllSucceed(effs)
    ensures r.bus.cache == b.cache && b.queue <= r.bus.queue
    ensures effs == [] ==> r.bus == b
    decreases |effs|
  {
    if effs == [] then Applied(b, true)
    else match ApplyEffect(b, effs[0])
      case Failure(_) => Applied(b, false)
      case Success(b1) =>
        var r := ApplyEffects(b1, effs[1..]);
        assert AllSucceed(effs) <==> AllSucceed(effs[1..]) by {
          assert forall k :: 1 <= k < |effs| ==> effs[k] == effs[1..][k - 1];
        }
        r
  }

  datatype Invoked = Invoked(bus: Bus, env: Envelope, completed: bool)

  /** `wrapper.Handler.Invoke(e.Sender, e)` inside its `try`: run the bus calls,
      set the flag, and report whether the handler returned normally. */
  function Invoke(b: Bus, e: Envelope, r: Reaction): (res: Invoked)
    ensures res.completed == Completes(r)
    ensures res.env == e.(handled := FlagAfter(e.handled, r))
    ensures res.bus.cache == b.cache && b.queue <= res.bus.queue
    ensures r.effects == [] ==> res.bus == b
  {
    var a := ApplyEffects(b, r.effects);
    if !a.ok then Invoked(a.bus, e, false)
    else
      var e1 := if r.setHandled.Some? then e.(handled := r.setHandled.value) else e;
      Invoked(a.bus, e1, !r.throws)
  }

  /** The oracle's next reaction; an exhausted oracle answers `Quiet`. */
  function Next(outs: seq<Reaction>): (Reaction, seq<Reaction>) {
    if outs == [] then (Quiet, []) else (outs[0], outs[1..])
  }

  // ---------------------------------------------------------------------------
  // Dispatch
  // ---------------------------------------------------------------------------

  datatype PassResult = PassResult(
    bus: Bus,
    env: Envelope,
    outs: seq<Reaction>,
    invoked: seq<Handler>,
    toRemove: seq<Handler>)

  /** The `while (_handlerCache.Count > 0)` loop of `HandleEvent`: `b.cache` holds the
      snapshot still to run. A handler that returns normally is recorded for removal
      if it is a once-handler, and ends the pass if `IsHandled` is then set; one that
      throws is skipped. */
  function RunPass(b: Bus, e: Envelope, outs: seq<Reaction>, invoked: seq<Handler>, toRemove: seq<Handler>): (p: PassResult)
    ensures b.queue <= p.bus.queue
    ensures |p.outs| <= |outs|
    ensures |p.outs| == |outs| ==> p.bus.queue == b.queue
    ensures p.env.sender == e.sender && p.env.id == e.id
    decreases |b.cache|
  {
    if b.cache == [] then PassResult(b, e, outs, invoked, toRemove)
    else
      var w := b.cache[0];
      var (r, rest) := Next(outs);
      var res := Invoke(b.(cache := b.cache[1..]), e, r);
      var invoked' := invoked + [w.handler];
      if !res.completed then RunPass(res.bus, res.env, rest, invoked', toRemove)
      else
        var toRemove' := if w.once then toRemove + [w.handler] else toRemove;
        if res.env.handled then PassResult(res.bus, res.env, rest, invoked', toRemove')
        else RunPass(res.bus, res.env, rest, invoked', toRemove')
  }

  datatype Dispatched = Dispatched(
    bus: Bus,
    env: Envelope,
    outs: seq<Reaction>,
    invoked: seq<Handler>,
    ranDefault: bool)

  /** `HandleEvent`: a pass over a snapshot of the id's list followed by the removal
      of the once-handlers that returned; the default handler when the id has no
      list; otherwise nothing. */
  function HandleEvent(b: Bus, e: Envelope, outs: seq<Reaction>): (d: Dispatched)
    ensures b.queue <= d.bus.queue
    ensures |d.outs| <= |outs|
    ensures |d.outs| == |outs| ==> d.bus.queue == b.queue
    ensures d.env.sender == e.sender && d.env.id == e.id
  {
    if e.id in b.pool && |b.pool[e.id]| > 0 then
      var p := RunPass(b.(cache := b.pool[e.id]), e, outs, [], []);
      Dispatched(UnsubscribeEach(p.bus, Tag(e.id, p.toRemove)), p.env, p.outs, p.invoked, false)
    else if b.defaultHandler.Some? then
      var (r, rest) := Next(outs);
      var res := Invoke(b, e, r);
      Dispatched(res.bus, res.env, rest, [b.defaultHandler.value], true)
    else
      Dispatched(b, e, outs, [], false)
  }

  /** `FireNow`: the checks of `Fire`, then `HandleEvent` on the caller's thread. */
  function FireNow(b: Bus, sender: Option<SenderRef>, e: Option<Envelope>, outs: seq<Reaction>): (r: Result<Dispatched, BusError>)
    ensures r.Failure? <==> CheckFire(sender, e).Fail?
    ensures r.Failure? ==> r.error == CheckFire(sender, e).error
  {
    match CheckFire(sender, e)
    case Fail(err) => Failure(err)
    case Pass => Success(HandleEvent(b, e.value, outs))
  }

  datatype Drained = Drained(bus: Bus, outs: seq<Reaction>, dispatched: seq<Envelope>, fired: seq<Envelope>)

  /** `OnUpdate`: dequeue and dispatch until the queue is observed empty; events
      fired by handlers during the drain are dispatched in the same call. It
      terminates because an exhausted oracle fires nothing. */
  function Drain(b: Bus, outs: seq<Reaction>): (r: Drained)
    ensures r.bus.queue == []
    decreases |outs|, |b.queue|
  {
    if b.queue == [] then Drained(b, outs, [], [])
    else
      var e := b.queue[0];
      var d := HandleEvent(b.(queue := b.queue[1..]), e, outs);
      var rest := Drain(d.bus, d.outs);
      Drained(rest.bus, rest.outs, [e] + rest.dispatched, d.bus.queue[|b.queue| - 1..] + rest.fired)
  }
}
