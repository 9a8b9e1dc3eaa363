/** The class `EventModule` of Assets/Game/Scripts/Core/Event/EventModule.cs with its
    fields updated in place. Every method is proved to compute the value-level
    operation of the same name in module `EventBus`, and to keep the registry
    invariant `BusRegistry.Inv`; the properties of those operations are the
    lemmas of `BusRegistry` and `BusDispatch`. */
module Events {
  import opened Wrappers
  import opened EventBus
  import opened BusRegistry
  import BusDispatch

  class EventModule {
    /** `_eventPool`: event id to its wrappers, in subscription order. */
    var pool: Pool
    /** `_ownerMap`: owner to the `(id, handler)` pairs it registered. */
    var owners: OwnerIndex
    /** `_defaultHandler`. */
    var defaultHandler: Option<Handler>
    /** `_eventQueue`, front first. */
    var queue: seq<Envelope>
    /** `_handlerCache`: what is left of the snapshot of the running pass. */
    var cache: seq<Wrapper>
    /** `_totalHandlerCount`. */
    var total: int

    /** The fields as one value of the value-level model. */
    function State(): (b: Bus)
      reads this
      ensures b.pool == pool && b.owners == owners && b.queue == queue && b.total == total
    {
      Bus(pool, owners, defaultHandler, queue, cache, total)
    }

    /** The class invariant: the owner index agrees with the registry, no list is
        empty and the counter is the number of subscriptions. */
    ghost predicate Valid()
      reads this
    {
      Inv(State())
    }

    constructor ()
      ensures State() == EmptyBus && Valid()
    {
      pool, owners, defaultHandler, queue, cache, total := map[], map[], None, [], [], 0;
      new;
      EmptyBusInv();
    }

    /** `TotalHandlerCount`. */
    function TotalHandlerCount(): (r: int)
      reads this
      requires Valid()
      ensures r == SumLens(pool)
    {
      total
    }

    /** `EventTypeCount`: under the invariant, the number of ids with at least one handler. */
    function EventTypeCount(): (r: int)
      reads this
      requires Valid()
      ensures r == |set id | id in pool && |pool[id]| > 0|
    {
      assert forall id :: id in pool ==> |pool[id]| > 0 by {
        assert PoolOk(pool);
      }
      var withHandlers := set id | id in pool && |pool[id]| > 0;
      assert forall id :: id in withHandlers <==> id in pool.Keys;
      assert withHandlers == pool.Keys;
      |pool.Keys|
    }

    /** `GetHandlerCount`. */
    method GetHandlerCount(eventId: int) returns (r: Result<int, BusError>)
      ensures r == EventBus.GetHandlerCount(State(), eventId)
    {
      if eventId <= 0 {
        return Failure(InvalidEventId);
      }
      r := Success(if eventId in pool then |pool[eventId]| else 0);
    }

    /** `HasHandler`: the forward scan of the id's list. */
    method HasHandler(eventId: int, handler: Option<Handler>) returns (r: Result<bool, BusError>)
      ensures r == EventBus.HasHandler(State(), eventId, handler)
    {
      if handler.None? {
        return Success(false);
      }
      if eventId <= 0 {
        return Failure(InvalidEventId);
      }
      if eventId in pool {
        var list := pool[eventId];
        var i := 0;
        while i < |list|
          invariant 0 <= i <= |list|
          invariant forall j :: 0 <= j < i ==> list[j].handler != handler.value
        {
          if list[i].handler == handler.value {
            return Success(true);
          }
          i := i + 1;
        }
      }
      r := Success(false);
    }

    /** `Subscribe`. */
    method Subscribe(eventId: int, handler: Option<Handler>, isOnce: bool, owner: Option<Owner>) returns (r: Outcome<BusError>)
      requires Valid()
      modifies this
      ensures Valid()
      ensures EventBus.Subscribe(old(State()), eventId, handler, isOnce, owner).Failure? ==>
        r == Fail(EventBus.Subscribe(old(State()), eventId, handler, isOnce, owner).error) && State() == old(State())
      ensures EventBus.Subscribe(old(State()), eventId, handler, isOnce, owner).Success? ==>
        r == Pass && State() == EventBus.Subscribe(old(State()), eventId, handler, isOnce, owner).value
    {
      if handler.None? {
        return Fail(NullHandler);
      }
      if eventId <= 0 {
        return Fail(InvalidEventId);
      }
      var has := HasHandler(eventId, handler);
      if has == Success(true) {
        return Pass;
      }
      ghost var b := State();
      ghost var after := EventBus.Subscribe(b, eventId, handler, isOnce, owner).value;
      assert !Subscribed(b.pool, eventId, handler.value);
      var list := if eventId in pool then pool[eventId] else [];
      list := list + [Wrapper(handler.value, isOnce, owner)];
      pool := pool[eventId := list];
      total := total + 1;
      if owner.Some? {
        var ownerHandlers := if owner.value in owners then owners[owner.value] else [];
        owners := owners[owner.value := ownerHandlers + [(eventId, handler.value)]];
      }
      assert pool == after.pool && owners == after.owners && total == after.total;
      SubscribeInv(b, eventId, handler, isOnce, owner);
      r := Pass;
    }

    /** `UnsubscribeInternal`: the backward scan of the id's list, removing the first
        match it meets. */
    method UnsubscribeInternal(eventId: int, handler: Handler)
      modifies this
      ensures State() == EventBus.UnsubscribeInternal(old(State()), eventId, handler)
    {
      if eventId in pool {
        var list := pool[eventId];
        var i := |list| - 1;
        while i >= 0
          invariant -1 <= i < |list|
          invariant forall j :: i < j < |list| ==> list[j].handler != handler
          invariant State() == old(State())
          decreases i + 1
        {
          if list[i].handler == handler {
            assert LastIndexOf(list, handler) == i;
            var wrapper := list[i];
            list := list[..i] + list[i + 1..];
            total := total - 1;
            if wrapper.owner.Some? && wrapper.owner.value in owners {
              var ownerHandlers := RemoveSet(owners[wrapper.owner.value], {(eventId, handler)});
              if |ownerHandlers| == 0 {
                owners := owners - {wrapper.owner.value};
              } else {
                owners := owners[wrapper.owner.value := ownerHandlers];
              }
            }
            if |list| == 0 {
              pool := pool - {eventId};
            } else {
              pool := pool[eventId := list];
            }
            return;
          }
          i := i - 1;
        }
        assert LastIndexOf(list, handler) == -1;
      }
    }

    /** `Unsubscribe`. */
    method Unsubscribe(eventId: int, handler: Option<Handler>) returns (r: Outcome<BusError>)
      requires Valid()
      modifies this
      ensures Valid()
      ensures EventBus.Unsubscribe(old(State()), eventId, handler).Failure? ==>
        r == Fail(InvalidEventId) && State() == old(State())
      ensures EventBus.Unsubscribe(old(State()), eventId, handler).Success? ==>
        r == Pass && State() == EventBus.Unsubscribe(old(State()), eventId, handler).value
    {
      if handler.None? {
        return Pass;
      }
      if eventId <= 0 {
        return Fail(InvalidEventId);
      }
      if eventId !in pool {
        return Pass;
      }
      UnsubscribeResult(State(), eventId, handler.value);
      UnsubscribeInternal(eventId, handler.value);
      r := Pass;
    }

    /** `UnsubscribeByOwner`: a copy of the owner's pairs, each removed in turn. */
    method UnsubscribeByOwner(owner: Option<Owner>)
      requires Valid()
      modifies this
      ensures Valid()
      ensures State() == EventBus.UnsubscribeByOwner(old(State()), owner)
    {
      if owner.None? {
        return;
      }
      UnsubscribeByOwnerResult(State(), owner.value);
      if owner.value in owners {
        var handlersCopy := owners[owner.value];
        var k := 0;
        while k < |handlersCopy|
          invariant 0 <= k <= |handlersCopy|
          invariant UnsubscribeEach(State(), handlersCopy[k..]) == UnsubscribeEach(old(State()), handlersCopy)
        {
          assert handlersCopy[k..][1..] == handlersCopy[k + 1..];
          UnsubscribeInternal(handlersCopy[k].0, handlersCopy[k].1);
          k := k + 1;
        }
      }
    }

    /** `UnsubscribeAll`: a copy of the id's wrappers, each removed in turn. */
    method UnsubscribeAll(eventId: int) returns (r: Outcome<BusError>)
      requires Valid()
      modifies this
      ensures Valid()
      ensures EventBus.UnsubscribeAll(old(State()), eventId).Failure? ==>
        r == Fail(InvalidEventId) && State() == old(State())
      ensures EventBus.UnsubscribeAll(old(State()), eventId).Success? ==>
        r == Pass && State() == EventBus.UnsubscribeAll(old(State()), eventId).value
    {
      if eventId <= 0 {
        return Fail(InvalidEventId);
      }
      if eventId !in pool {
        return Pass;
      }
      UnsubscribeAllResult(State(), eventId);
      var listCopy := pool[eventId];
      var k := 0;
      while k < |listCopy|
        invariant 0 <= k <= |listCopy|
        invariant UnsubscribeEach(State(), PairsOf(eventId, listCopy[k..])) == UnsubscribeEach(old(State()), PairsOf(eventId, listCopy))
      {
        PairsOfTail(eventId, listCopy[k..]);
        assert listCopy[k..][1..] == listCopy[k + 1..];
        UnsubscribeInternal(eventId, listCopy[k].handler);
        k := k + 1;
      }
      r := Pass;
    }

    /** `SetDefaultHandler`. */
    method SetDefaultHandler(handler: Option<Handler>)
      requires Valid()
      modifies this
      ensures Valid()
      ensures State() == EventBus.SetDefaultHandler(old(State()), handler)
    {
      defaultHandler := handler;
    }

    /** `Fire`: the argument checks, then the envelope joins the back of the queue. */
    method Fire(sender: Option<SenderRef>, e: Option<Envelope>) returns (r: Outcome<BusError>)
      requires Valid()
      modifies this
      ensures Valid()
      ensures r == CheckFire(sender, e)
      ensures r.Fail? ==> State() == old(State())
      ensures r.Pass? ==> State() == EventBus.Fire(old(State()), sender, e).value
    {
      r := CheckFire(sender, e);
      if r.Pass? {
        queue := queue + [e.value];
      }
    }

    /** One bus call made by a running handler. */
    method ApplyEffect(eff: Effect) returns (ok: bool)
      requires Valid()
      modifies this
      ensures Valid()
      ensures ok <==> EventBus.ApplyEffect(old(State()), eff).Success?
      ensures ok ==> State() == EventBus.ApplyEffect(old(State()), eff).value
      ensures !ok ==> State() == old(State())
    {
      match eff
      case DoSubscribe(id, h, once, owner) =>
        var o := Subscribe(id, h, once, owner);
        ok := o.Pass?;
      case DoUnsubscribe(id, h) =>
        var o := Unsubscribe(id, h);
        ok := o.Pass?;
      case DoUnsubscribeByOwner(owner) =>
        UnsubscribeByOwner(owner);
        ok := true;
      case DoUnsubscribeAll(id) =>
        var o := UnsubscribeAll(id);
        ok := o.Pass?;
      case DoSetDefaultHandler(h) =>
        SetDefaultHandler(h);
        ok := true;
      case DoFire(s, e) =>
        var o := Fire(s, e);
        ok := o.Pass?;
    }

    /** The handler's bus calls, in order, until one throws. */
    method ApplyEffects(effs: seq<Effect>) returns (ok: bool)
      requires Valid()
      modifies this
      ensures Valid()
      ensures Applied(State(), ok) == EventBus.ApplyEffects(old(State()), effs)
    {
      var k := 0;
      while k < |effs|
        invariant 0 <= k <= |effs|
        invariant Valid()
        invariant EventBus.ApplyEffects(State(), effs[k..]) == EventBus.ApplyEffects(old(State()), effs)
      {
        ApplyEffectsStep(State(), effs, k);
        var applied := ApplyEffect(effs[k]);
        if !applied {
          return false;
        }
        k := k + 1;
      }
      return true;
    }

    /** `Handler.Invoke(e.Sender, e)` inside its `try`: the handler's bus calls in
        order until one throws, then its write to `IsHandled`; `completed` is false
        when the handler throws. */
    method Invoke(e: Envelope, reaction: Reaction) returns (env: Envelope, completed: bool)
      requires Valid()
      modifies this
      ensures Valid()
      ensures Invoked(State(), env, completed) == EventBus.Invoke(old(State()), e, reaction)
    {
      var ok := ApplyEffects(reaction.effects);
      if !ok {
        return e, false;
      }
      env := if reaction.setHandled.Some? then e.(handled := reaction.setHandled.value) else e;
      completed := !reaction.throws;
    }

    /** The `while (_handlerCache.Count > 0)` loop of `HandleEvent`: each wrapper of
        the snapshot in `_handlerCache` is dequeued and invoked; a once-handler that
        returns is recorded, and a handler that returns with `IsHandled` set ends
        the pass. */
    method RunPass(e: Envelope, outs: seq<Reaction>) returns (env: Envelope, rest: seq<Reaction>, invoked: seq<Handler>, handlersToRemove: seq<Handler>)
      requires Valid()
      modifies this
      ensures Valid()
      ensures PassResult(State(), env, rest, invoked, handlersToRemove) == EventBus.RunPass(old(State()), e, outs, [], [])
    {
      env, rest, invoked, handlersToRemove := e, outs, [], [];
      while |cache| > 0
        invariant Valid()
        invariant EventBus.RunPass(State(), env, rest, invoked, handlersToRemove) == EventBus.RunPass(old(State()), e, outs, [], [])
        decreases |cache|
      {
        var wrapper := cache[0];
        cache := cache[1..];
        var next := Next(rest);
        rest := next.1;
        var completed;
        env, completed := Invoke(env, next.0);
        invoked := invoked + [wrapper.handler];
        if completed {
          if wrapper.once {
            handlersToRemove := handlersToRemove + [wrapper.handler];
          }
          if env.handled {
            return;
          }
        }
      }
    }

    /** The final loop of `HandleEvent`: `UnsubscribeInternal` for each recorded once-handler. */
    method RemoveOnceHandlers(eventId: int, handlersToRemove: seq<Handler>)
      modifies this
      ensures State() == UnsubscribeEach(old(State()), Tag(eventId, handlersToRemove))
    {
      var k := 0;
      while k < |handlersToRemove|
        invariant 0 <= k <= |handlersToRemove|
        invariant UnsubscribeEach(State(), Tag(eventId, handlersToRemove[k..])) == UnsubscribeEach(old(State()), Tag(eventId, handlersToRemove))
      {
        TagTail(eventId, handlersToRemove[k..]);
        assert handlersToRemove[k..][1..] == handlersToRemove[k + 1..];
        UnsubscribeInternal(eventId, handlersToRemove[k]);
        k := k + 1;
      }
    }

    /** `HandleEvent`: the pass over a snapshot of the id's list, taken into
        `_handlerCache`, then the removal of the once-handlers that returned; or the
        default handler when the id has no subscribers. `outs` are the reactions of
        the handlers it will invoke, in order. */
    method HandleEvent(e: Envelope, outs: seq<Reaction>) returns (env: Envelope, rest: seq<Reaction>, invoked: seq<Handler>, ranDefault: bool)
      requires Valid()
      modifies this
      ensures Valid()
      ensures Dispatched(State(), env, rest, invoked, ranDefault) == EventBus.HandleEvent(old(State()), e, outs)
    {
      BusDispatch.HandleEventInv(State(), e, outs);
      env, rest, invoked, ranDefault := e, outs, [], false;
      if e.id in pool && |pool[e.id]| > 0 {
        cache := pool[e.id];
        var handlersToRemove;
        env, rest, invoked, handlersToRemove := RunPass(e, outs);
        RemoveOnceHandlers(e.id, handlersToRemove);
      } else if defaultHandler.Some? {
        invoked := [defaultHandler.value];
        ranDefault := true;
        var next := Next(outs);
        rest := next.1;
        var completed;
        env, completed := Invoke(e, next.0);
      }
    }

    /** `FireNow`: the checks of `Fire`, then `HandleEvent` at once. */
    method FireNow(sender: Option<SenderRef>, e: Option<Envelope>, outs: seq<Reaction>) returns (r: Result<Dispatched, BusError>)
      requires Valid()
      modifies this
      ensures Valid()
      ensures r == EventBus.FireNow(old(State()), sender, e, outs)
      ensures r.Failure? ==> State() == old(State())
      ensures r.Success? ==> r.value.bus == State()
    {
      var check := CheckFire(sender, e);
      if check.Fail? {
        return Failure(check.error);
      }
      var env, rest, invoked, ranDefault := HandleEvent(e.value, outs);
      r := Success(Dispatched(State(), env, rest, invoked, ranDefault));
    }

    /** `OnUpdate`: dequeue and dispatch until the queue is found empty. Returns the
        envelopes dispatched, in order, and the reactions not yet used. */
    method OnUpdate(outs: seq<Reaction>) returns (dispatched: seq<Envelope>, rest: seq<Reaction>)
      requires Valid()
      modifies this
      ensures Valid()
      ensures State() == Drain(old(State()), outs).bus
      ensures rest == Drain(old(State()), outs).outs
      ensures dispatched == Drain(old(State()), outs).dispatched
    {
      ghost var d := Drain(State(), outs);
      dispatched, rest := [], outs;
      while true
        invariant Valid()
        invariant Drain(State(), rest).bus == d.bus && Drain(State(), rest).outs == d.outs
        invariant dispatched + Drain(State(), rest).dispatched == d.dispatched
        decreases |rest|, |queue|
      {
        if |queue| == 0 {
          break;
        }
        var eventArgs := queue[0];
        queue := queue[1..];
        ghost var before := State();
        var env, rest', invoked, ranDefault := HandleEvent(eventArgs, rest);
        dispatched, rest := dispatched + [eventArgs], rest';
      }
    }

    /** `OnShutdown`: every field back to its initial value. */
    method OnShutdown()
      modifies this
      ensures Valid()
      ensures State() == Shutdown(old(State()))
    {
      pool, owners := map[], map[];
      queue, cache := [], [];
      defaultHandler := None;
      total := 0;
      EmptyBusInv();
    }
  }

  /** One step of `ApplyEffects` from position `k`. */
  lemma ApplyEffectsStep(b: Bus, effs: seq<Effect>, k: int)
    requires 0 <= k < |effs|
    ensures EventBus.ApplyEffects(b, effs[k..]) ==
      if EventBus.ApplyEffect(b, effs[k]).Success? then EventBus.ApplyEffects(EventBus.ApplyEffect(b, effs[k]).value, effs[k + 1..])
      else Applied(b, false)
  {
    assert effs[k..][0] == effs[k];
    assert effs[k..][1..] == effs[k + 1..];
  }

  /** The pairs of a non-empty list of wrappers: its head's pair, then the rest's. */
  lemma PairsOfTail(id: int, ws: seq<Wrapper>)
    requires ws != []
    ensures PairsOf(id, ws)[0] == (id, ws[0].handler)
    ensures PairsOf(id, ws)[1..] == PairsOf(id, ws[1..])
  {
  }

  /** The pairs of a non-empty list of delegates: its head's pair, then the rest's. */
  lemma TagTail(id: int, hs: seq<Handler>)
    requires hs != []
    ensures Tag(id, hs)[0] == (id, hs[0])
    ensures Tag(id, hs)[1..] == Tag(id, hs[1..])
  {
  }
}
