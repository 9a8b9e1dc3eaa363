/** What a dispatch pass does: which handlers run, in which order, when the pass
    stops, which once-handlers are removed, and that the drain of `OnUpdate` is
    first-in first-out. */
module BusDispatch {
  import opened Wrappers
  import opened EventBus
  import opened BusRegistry

  // ---------------------------------------------------------------------------
  // The invariant across handler calls
  // ---------------------------------------------------------------------------

  lemma ApplyEffectInv(b: Bus, eff: Effect)
    requires Inv(b)
    ensures ApplyEffect(b, eff).Success? ==> Inv(ApplyEffect(b, eff).value)
  {
    match eff
    case DoSubscribe(id, h, once, owner) =>
      if Subscribe(b, id, h, once, owner).Success? {
        SubscribeInv(b, id, h, once, owner);
      }
    case DoUnsubscribe(id, h) =>
      if h.Some? && id > 0 {
        UnsubscribeResult(b, id, h.value);
      }
    case DoUnsubscribeByOwner(owner) =>
      if owner.Some? {
        UnsubscribeByOwnerResult(b, owner.value);
      }
    case DoUnsubscribeAll(id) =>
      if id > 0 {
        UnsubscribeAllResult(b, id);
      }
    case DoSetDefaultHandler(h) =>
    case DoFire(s, e) =>
  }

  lemma {:induction false} ApplyEffectsInv(b: Bus, effs: seq<Effect>)
    requires Inv(b)
    ensures Inv(ApplyEffects(b, effs).bus)
    decreases |effs|
  {
    if effs != [] {
      ApplyEffectInv(b, effs[0]);
      if ApplyEffect(b, effs[0]).Success? {
        ApplyEffectsInv(ApplyEffect(b, effs[0]).value, effs[1..]);
      }
    }
  }

  lemma InvokeInv(b: Bus, e: Envelope, r: Reaction)
    requires Inv(b)
    ensures Inv(Invoke(b, e, r).bus)
  {
    ApplyEffectsInv(b, r.effects);
  }

  lemma {:induction false} RunPassInv(b: Bus, e: Envelope, outs: seq<Reaction>, invoked: seq<Handler>, toRemove: seq<Handler>)
    requires Inv(b)
    ensures Inv(RunPass(b, e, outs, invoked, toRemove).bus)
    decreases |b.cache|
  {
    if b.cache != [] {
      var (r, rest) := Next(outs);
      var c := b.(cache := b.cache[1..]);
      InvokeInv(c, e, r);
      var res := Invoke(c, e, r);
      var toRemove' := if b.cache[0].once then toRemove + [b.cache[0].handler] else toRemove;
      RunPassInv(res.bus, res.env, rest, invoked + [b.cache[0].handler], toRemove);
      RunPassInv(res.bus, res.env, rest, invoked + [b.cache[0].handler], toRemove');
    }
  }

  lemma HandleEventInv(b: Bus, e: Envelope, outs: seq<Reaction>)
    requires Inv(b)
    ensures Inv(HandleEvent(b, e, outs).bus)
  {
    if e.id in b.pool && |b.pool[e.id]| > 0 {
      var p := RunPass(b.(cache := b.pool[e.id]), e, outs, [], []);
      RunPassInv(b.(cache := b.pool[e.id]), e, outs, [], []);
      UnsubscribeEachShape(p.bus, Tag(e.id, p.toRemove));
    } else if b.defaultHandler.Some? {
      InvokeInv(b, e, Next(outs).0);
    }
  }

  // ---------------------------------------------------------------------------
  // Reference definition of a pass
  // ---------------------------------------------------------------------------

  /** What a pass decides, apart from the handlers' effects on the registry: the
      final flag, the oracle left over, how many entries ran, and the once-handlers
      recorded for removal. */
  datatype Control = Control(flag: bool, outs: seq<Reaction>, ran: nat, once: seq<Handler>)

  /** The decisions of `RunPass` over snapshot `snap`, which do not depend on the
      registry because whether a bus call throws depends only on its arguments. */
  function PassControl(flag: bool, outs: seq<Reaction>, snap: seq<Wrapper>): (c: Control)
    ensures c.ran <= |snap| && (snap != [] ==> c.ran >= 1)
    decreases |snap|
  {
    if snap == [] then Control(flag, outs, 0, [])
    else
      var (r, rest) := Next(outs);
      var head := if snap[0].once && Completes(r) then [snap[0].handler] else [];
      if Completes(r) && FlagAfter(flag, r) then Control(FlagAfter(flag, r), rest, 1, head)
      else
        var c := PassControl(FlagAfter(flag, r), rest, snap[1..]);
        Control(c.flag, c.outs, c.ran + 1, head + c.once)
  }

  /** The reaction of the `k`-th handler invoked (from 0). */
  function ReactionAt(outs: seq<Reaction>, k: nat): Reaction {
    if k < |outs| then outs[k] else Quiet
  }

  /** The `IsHandled` flag once `k` handlers have run. */
  function FlagBefore(flag: bool, outs: seq<Reaction>, k: nat): bool {
    if k == 0 then flag else FlagAfter(FlagBefore(flag, outs, k - 1), ReactionAt(outs, k - 1))
  }

  /** The `k`-th handler ends the pass: it returns normally and leaves the flag set. */
  predicate StopsAt(flag: bool, outs: seq<Reaction>, k: nat) {
    Completes(ReactionAt(outs, k)) && FlagBefore(flag, outs, k + 1)
  }

  /** The delegates of the first `n` snapshot entries, in subscription order. */
  function Invocations(snap: seq<Wrapper>, n: nat): (r: seq<Handler>)
    requires n <= |snap|
    ensures |r| == n && forall k :: 0 <= k < n ==> r[k] == snap[k].handler
  {
    seq(n, k requires 0 <= k < n => snap[k].handler)
  }

  /** The oracle after `n` invocations. */
  function Drop(outs: seq<Reaction>, n: nat): seq<Reaction> {
    if n <= |outs| then outs[n..] else []
  }

  // Shifting the index-based definitions by one invocation.

  lemma ReactionAtShift(outs: seq<Reaction>, k: nat)
    ensures ReactionAt(Next(outs).1, k) == ReactionAt(outs, k + 1)
    ensures Next(outs).0 == ReactionAt(outs, 0)
  {
  }

  lemma {:induction false} FlagBeforeShift(flag: bool, outs: seq<Reaction>, k: nat)
    ensures FlagBefore(flag, outs, k + 1) == FlagBefore(FlagAfter(flag, Next(outs).0), Next(outs).1, k)
  {
    ReactionAtShift(outs, 0);
    if k > 0 {
      FlagBeforeShift(flag, outs, k - 1);
      ReactionAtShift(outs, k - 1);
    }
  }

  lemma StopsAtShift(flag: bool, outs: seq<Reaction>, k: nat)
    ensures StopsAt(flag, outs, k + 1) == StopsAt(FlagAfter(flag, Next(outs).0), Next(outs).1, k)
  {
    FlagBeforeShift(flag, outs, k + 1);
    ReactionAtShift(outs, k);
  }

  lemma StopsAtFirst(flag: bool, outs: seq<Reaction>)
    ensures StopsAt(flag, outs, 0) == (Completes(Next(outs).0) && FlagAfter(flag, Next(outs).0))
  {
    ReactionAtShift(outs, 0);
    assert FlagBefore(flag, outs, 1) == FlagAfter(flag, ReactionAt(outs, 0));
  }

  lemma DropShift(outs: seq<Reaction>, n: nat)
    ensures Drop(outs, n + 1) == Drop(Next(outs).1, n)
  {
  }

  // What the reference means, position by position.

  /** The pass runs up to and including the first entry that stops it, or to the
      end of the snapshot. */
  lemma {:induction false} PassControlStops(flag: bool, outs: seq<Reaction>, snap: seq<Wrapper>)
    ensures forall k :: 0 <= k < PassControl(flag, outs, snap).ran - 1 ==> !StopsAt(flag, outs, k)
    ensures PassControl(flag, outs, snap).ran < |snap| ==> StopsAt(flag, outs, PassControl(flag, outs, snap).ran - 1)
    decreases |snap|
  {
    StopsAtFirst(flag, outs);
    if snap != [] && !StopsAt(flag, outs, 0) {
      var flag1, outs1 := FlagAfter(flag, Next(outs).0), Next(outs).1;
      var c1 := PassControl(flag1, outs1, snap[1..]);
      PassControlStops(flag1, outs1, snap[1..]);
      forall k | 0 <= k < c1.ran ensures !StopsAt(flag, outs, k) {
        if k > 0 {
          StopsAtShift(flag, outs, k - 1);
        }
      }
      if c1.ran + 1 < |snap| {
        StopsAtShift(flag, outs, c1.ran - 1);
      }
    }
  }

  /** The final flag is the flag after `ran` invocations, and one reaction is used
      per invocation. */
  lemma {:induction false} PassControlFlagOuts(flag: bool, outs: seq<Reaction>, snap: seq<Wrapper>)
    ensures PassControl(flag, outs, snap).flag == FlagBefore(flag, outs, PassControl(flag, outs, snap).ran)
    ensures PassControl(flag, outs, snap).outs == Drop(outs, PassControl(flag, outs, snap).ran)
    decreases |snap|
  {
    if snap != [] {
      var (r, rest) := Next(outs);
      FlagBeforeShift(flag, outs, 0);
      DropShift(outs, 0);
      if !(Completes(r) && FlagAfter(flag, r)) {
        var c1 := PassControl(FlagAfter(flag, r), rest, snap[1..]);
        PassControlFlagOuts(FlagAfter(flag, r), rest, snap[1..]);
        FlagBeforeShift(flag, outs, c1.ran);
        DropShift(outs, c1.ran);
      }
    }
  }

  /** The recorded once-handlers are exactly the once-handlers among the entries
      that ran whose reaction returns normally. */
  lemma {:induction false} PassControlOnce(flag: bool, outs: seq<Reaction>, snap: seq<Wrapper>, h: Handler)
    ensures h in PassControl(flag, outs, snap).once <==>
      exists k :: 0 <= k < PassControl(flag, outs, snap).ran && snap[k].handler == h && snap[k].once && Completes(ReactionAt(outs, k))
    decreases |snap|
  {
    if snap != [] {
      var (r, rest) := Next(outs);
      ReactionAtShift(outs, 0);
      var c := PassControl(flag, outs, snap);
      if !(Completes(r) && FlagAfter(flag, r)) {
        var c1 := PassControl(FlagAfter(flag, r), rest, snap[1..]);
        PassControlOnce(FlagAfter(flag, r), rest, snap[1..], h);
        if h in c1.once {
          var k :| 0 <= k < c1.ran && snap[1..][k].handler == h && snap[1..][k].once && Completes(ReactionAt(rest, k));
          ReactionAtShift(outs, k);
          assert snap[k + 1] == snap[1..][k];
        }
        if exists k :: 0 <= k < c.ran && snap[k].handler == h && snap[k].once && Completes(ReactionAt(outs, k)) {
          var k :| 0 <= k < c.ran && snap[k].handler == h && snap[k].once && Completes(ReactionAt(outs, k));
          if k > 0 {
            ReactionAtShift(outs, k - 1);
            assert snap[1..][k - 1] == snap[k];
          }
        }
      }
    }
  }

  // ---------------------------------------------------------------------------
  // The pass agrees with the reference
  // ---------------------------------------------------------------------------

  lemma InvocationsShift(invoked: seq<Handler>, snap: seq<Wrapper>, m: nat)
    requires m < |snap|
    ensures invoked + [snap[0].handler] + Invocations(snap[1..], m) == invoked + Invocations(snap, m + 1)
    ensures snap[1..][m..] == snap[m + 1..]
  {
    assert Invocations(snap, m + 1) == [snap[0].handler] + Invocations(snap[1..], m);
  }

  lemma AppendAssoc(a: seq<Handler>, b: seq<Handler>, c: seq<Handler>)
    ensures a + b + c == a + (b + c)
  {
  }

  /** `RunPass` ends with the reference flag, leaves the reference oracle and
      records the reference once-handlers. */
  lemma {:induction false} RunPassControl(b: Bus, e: Envelope, outs: seq<Reaction>, invoked: seq<Handler>, toRemove: seq<Handler>)
    ensures RunPass(b, e, outs, invoked, toRemove).env == e.(handled := PassControl(e.handled, outs, b.cache).flag)
    ensures RunPass(b, e, outs, invoked, toRemove).outs == PassControl(e.handled, outs, b.cache).outs
    ensures RunPass(b, e, outs, invoked, toRemove).toRemove == toRemove + PassControl(e.handled, outs, b.cache).once
    decreases |b.cache|
  {
    if b.cache != [] {
      var w := b.cache[0];
      var (r, rest) := Next(outs);
      var res := Invoke(b.(cache := b.cache[1..]), e, r);
      var head := if w.once && res.completed then [w.handler] else [];
      var toRemove' := if !res.completed then toRemove else if w.once then toRemove + [w.handler] else toRemove;
      assert toRemove' == toRemove + head;
      if !(res.completed && res.env.handled) {
        RunPassControl(res.bus, res.env, rest, invoked + [w.handler], toRemove');
        AppendAssoc(toRemove, head, PassControl(res.env.handled, rest, b.cache[1..]).once);
      }
    }
  }

  /** `RunPass` invokes the first `ran` entries of the snapshot in subscription
      order and leaves the entries it did not reach in `_handlerCache`. */
  lemma {:induction false} RunPassInvoked(b: Bus, e: Envelope, outs: seq<Reaction>, invoked: seq<Handler>, toRemove: seq<Handler>)
    ensures RunPass(b, e, outs, invoked, toRemove).invoked == invoked + Invocations(b.cache, PassControl(e.handled, outs, b.cache).ran)
    ensures RunPass(b, e, outs, invoked, toRemove).bus.cache == b.cache[PassControl(e.handled, outs, b.cache).ran..]
    decreases |b.cache|
  {
    if b.cache != [] {
      var w := b.cache[0];
      var (r, rest) := Next(outs);
      var res := Invoke(b.(cache := b.cache[1..]), e, r);
      var toRemove' := if !res.completed then toRemove else if w.once then toRemove + [w.handler] else toRemove;
      if !(res.completed && res.env.handled) {
        RunPassInvoked(res.bus, res.env, rest, invoked + [w.handler], toRemove');
        InvocationsShift(invoked, b.cache, PassControl(res.env.handled, rest, b.cache[1..]).ran);
      } else {
        InvocationsShift(invoked, b.cache, 0);
      }
    }
  }

  // ---------------------------------------------------------------------------
  // HandleEvent
  // ---------------------------------------------------------------------------

  /** The snapshot a dispatch of `e` runs over. */
  function Snapshot(b: Bus, id: int): seq<Wrapper> {
    Handlers(b.pool, id)
  }

  /** With subscribers, `HandleEvent` runs the first `ran` of them in subscription
      order (up to the first that returns normally with `IsHandled` set), never the
      default handler, and leaves the flag the last of them set. */
  lemma HandleEventSubscribers(b: Bus, e: Envelope, outs: seq<Reaction>)
    requires e.id in b.pool && b.pool[e.id] != []
    ensures !HandleEvent(b, e, outs).ranDefault
    ensures HandleEvent(b, e, outs).invoked == Invocations(Snapshot(b, e.id), PassControl(e.handled, outs, Snapshot(b, e.id)).ran)
    ensures HandleEvent(b, e, outs).env.handled == FlagBefore(e.handled, outs, PassControl(e.handled, outs, Snapshot(b, e.id)).ran)
    ensures HandleEvent(b, e, outs).outs == Drop(outs, PassControl(e.handled, outs, Snapshot(b, e.id)).ran)
  {
    var snap := b.pool[e.id];
    RunPassControl(b.(cache := snap), e, outs, [], []);
    RunPassInvoked(b.(cache := snap), e, outs, [], []);
    PassControlFlagOuts(e.handled, outs, snap);
    assert [] + Invocations(snap, PassControl(e.handled, outs, snap).ran) == Invocations(snap, PassControl(e.handled, outs, snap).ran);
  }

  /** After a dispatch, no once-handler that ran and returned normally is still
      subscribed to the id. */
  lemma HandleEventRemovesOnce(b: Bus, e: Envelope, outs: seq<Reaction>, h: Handler)
    requires Inv(b) && e.id in b.pool
    requires exists k ::
      (0 <= k < PassControl(e.handled, outs, Snapshot(b, e.id)).ran &&
       Snapshot(b, e.id)[k].handler == h && Snapshot(b, e.id)[k].once && Completes(ReactionAt(outs, k)))
    ensures !Subscribed(HandleEvent(b, e, outs).bus.pool, e.id, h)
  {
    var snap := b.pool[e.id];
    var c := b.(cache := snap);
    var p := RunPass(c, e, outs, [], []);
    RunPassControl(c, e, outs, [], []);
    RunPassInv(c, e, outs, [], []);
    PassControlOnce(e.handled, outs, snap, h);
    assert [] + PassControl(e.handled, outs, snap).once == PassControl(e.handled, outs, snap).once;
    var ps := Tag(e.id, p.toRemove);
    UnsubscribeEachShape(p.bus, ps);
    var k :| 0 <= k < |p.toRemove| && p.toRemove[k] == h;
    assert ps[k] == (e.id, h);
    NotSubscribedAfterWithout(p.bus.pool, e.id, h, Elems(ps));
  }

  /** The once-handlers a pass over `b`'s list for `e` records, as pairs. */
  function OncePairs(b: Bus, e: Envelope, outs: seq<Reaction>): set<(int, Handler)> {
    set h | h in PassControl(e.handled, outs, Snapshot(b, e.id)).once :: (e.id, h)
  }

  /** The registry a pass over `b`'s list for `e` leaves, before the removal phase. */
  function AfterPass(b: Bus, e: Envelope, outs: seq<Reaction>): Bus {
    RunPass(b.(cache := Snapshot(b, e.id)), e, outs, [], []).bus
  }

  /** The removal phase of a dispatch takes from the registry the pass left exactly
      the once-handlers that ran and returned normally, and nothing else. */
  lemma HandleEventRemoval(b: Bus, e: Envelope, outs: seq<Reaction>)
    requires Inv(b) && e.id in b.pool
    ensures HandleEvent(b, e, outs).bus.pool == Without(AfterPass(b, e, outs).pool, OncePairs(b, e, outs))
    ensures HandleEvent(b, e, outs).bus.owners == OwnersWithout(AfterPass(b, e, outs).owners, OncePairs(b, e, outs))
  {
    var snap := b.pool[e.id];
    var c := b.(cache := snap);
    var p := RunPass(c, e, outs, [], []);
    RunPassControl(c, e, outs, [], []);
    RunPassInv(c, e, outs, [], []);
    assert p.toRemove == PassControl(e.handled, outs, snap).once;
    UnsubscribeEachShape(p.bus, Tag(e.id, p.toRemove));
    ElemsTag(e.id, p.toRemove);
  }

  lemma ElemsTag(id: int, hs: seq<Handler>)
    ensures Elems(Tag(id, hs)) == set h | h in hs :: (id, h)
  {
    var ps := Tag(id, hs);
    forall q | q in Elems(ps) ensures q in set h | h in hs :: (id, h) {
      var k :| 0 <= k < |ps| && ps[k] == q;
      assert hs[k] in hs;
    }
    forall q | q in set h | h in hs :: (id, h) ensures q in Elems(ps) {
      var h :| h in hs && q == (id, h);
      var k :| 0 <= k < |hs| && hs[k] == h;
      assert ps[k] == q;
    }
  }

  /** A subscription the pass left in place and that is not a recorded
      once-handler of the dispatched id survives the removal phase. */
  lemma HandleEventRemovesOnlyOnce(b: Bus, e: Envelope, outs: seq<Reaction>, id: int, h: Handler)
    requires Inv(b) && e.id in b.pool
    requires Subscribed(AfterPass(b, e, outs).pool, id, h)
    requires id != e.id || h !in PassControl(e.handled, outs, Snapshot(b, e.id)).once
    ensures Subscribed(HandleEvent(b, e, outs).bus.pool, id, h)
  {
    HandleEventRemoval(b, e, outs);
    SubscribedAfterWithout(AfterPass(b, e, outs).pool, id, h, OncePairs(b, e, outs));
  }

  /** A handler whose invocation threw during the pass, once-handler or not, is not
      removed by the removal phase: still subscribed after the pass, it is still
      subscribed after the dispatch. */
  lemma HandleEventKeepsThrowing(b: Bus, e: Envelope, outs: seq<Reaction>, k: nat)
    requires Inv(b) && e.id in b.pool
    requires k < PassControl(e.handled, outs, Snapshot(b, e.id)).ran && !Completes(ReactionAt(outs, k))
    requires Subscribed(AfterPass(b, e, outs).pool, e.id, Snapshot(b, e.id)[k].handler)
    ensures Subscribed(HandleEvent(b, e, outs).bus.pool, e.id, Snapshot(b, e.id)[k].handler)
  {
    var snap := Snapshot(b, e.id);
    var h := snap[k].handler;
    var c := PassControl(e.handled, outs, snap);
    PassControlOnce(e.handled, outs, snap, h);
    assert DistinctHandlers(snap);
    forall j | 0 <= j < c.ran && snap[j].handler == h
      ensures !(snap[j].once && Completes(ReactionAt(outs, j)))
    {
      assert j == k;
    }
    HandleEventRemovesOnlyOnce(b, e, outs, e.id, h);
  }

  /** Without subscribers, `HandleEvent` runs the default handler exactly when one is
      set, and nothing else. */
  lemma HandleEventNoSubscribers(b: Bus, e: Envelope, outs: seq<Reaction>)
    requires e.id !in b.pool
    ensures HandleEvent(b, e, outs).ranDefault <==> b.defaultHandler.Some?
    ensures HandleEvent(b, e, outs).invoked == (if b.defaultHandler.Some? then [b.defaultHandler.value] else [])
    ensures b.defaultHandler.None? ==> HandleEvent(b, e, outs) == Dispatched(b, e, outs, [], false)
    ensures b.defaultHandler.Some? ==> HandleEvent(b, e, outs).env.handled == FlagAfter(e.handled, ReactionAt(outs, 0))
  {
  }

  // ---------------------------------------------------------------------------
  // Consequences
  // ---------------------------------------------------------------------------

  /** A handler that throws never ends the pass: the next entry still runs. */
  lemma ThrowingHandlerDoesNotStop(flag: bool, outs: seq<Reaction>, k: nat)
    requires ReactionAt(outs, k).throws
    ensures !StopsAt(flag, outs, k)
  {
  }

  /** When no handler sets `IsHandled`, every subscriber runs, in subscription order. */
  lemma {:induction false} NoHandledFlagRunsAll(outs: seq<Reaction>, snap: seq<Wrapper>)
    requires forall k :: 0 <= k < |outs| ==> outs[k].setHandled != Some(true)
    ensures PassControl(false, outs, snap).ran == |snap|
    decreases |snap|
  {
    if snap != [] {
      var (r, outs1) := Next(outs);
      assert r.setHandled != Some(true);
      forall k | 0 <= k < |outs1| ensures outs1[k].setHandled != Some(true) {
        assert outs1[k] == outs[k + 1];
      }
      NoHandledFlagRunsAll(outs1, snap[1..]);
    }
  }

  /** An exhausted oracle (every handler returns at once) runs the whole snapshot. */
  lemma QuietHandlersRunAll(snap: seq<Wrapper>)
    ensures PassControl(false, [], snap).ran == |snap|
  {
    NoHandledFlagRunsAll([], snap);
  }

  /** The pass stops right after the first handler that returns normally with
      `IsHandled` set: the later subscribers do not run. */
  lemma FirstHandlerHandles(flag: bool, outs: seq<Reaction>, snap: seq<Wrapper>)
    requires snap != [] && outs != [] && Completes(outs[0]) && outs[0].setHandled == Some(true)
    ensures PassControl(flag, outs, snap).ran == 1
  {
  }

  // ---------------------------------------------------------------------------
  // OnUpdate
  // ---------------------------------------------------------------------------

  /** `OnUpdate` dispatches the queued events first, in their order, then every event
      fired while draining, in firing order. */
  lemma {:induction false} DrainFifo(b: Bus, outs: seq<Reaction>)
    ensures Drain(b, outs).dispatched == b.queue + Drain(b, outs).fired
    decreases |outs|, |b.queue|
  {
    if b.queue != [] {
      var d := HandleEvent(b.(queue := b.queue[1..]), b.queue[0], outs);
      DrainFifo(d.bus, d.outs);
      DrainStep(b, outs, d);
    }
  }

  lemma DrainStep(b: Bus, outs: seq<Reaction>, d: Dispatched)
    requires b.queue != [] && d == HandleEvent(b.(queue := b.queue[1..]), b.queue[0], outs)
    requires Drain(d.bus, d.outs).dispatched == d.bus.queue + Drain(d.bus, d.outs).fired
    ensures Drain(b, outs).dispatched == b.queue + Drain(b, outs).fired
  {
    var rest := Drain(d.bus, d.outs);
    SeqFifo(b.queue, d.bus.queue, rest.dispatched, rest.fired);
  }

  /** The list identity behind `DrainFifo`. */
  lemma SeqFifo(q: seq<Envelope>, r: seq<Envelope>, rd: seq<Envelope>, rf: seq<Envelope>)
    requires q != [] && q[1..] <= r && rd == r + rf
    ensures [q[0]] + rd == q + (r[|q| - 1..] + rf)
  {
    assert r == q[1..] + r[|q| - 1..];
  }

  lemma {:induction false} DrainInv(b: Bus, outs: seq<Reaction>)
    requires Inv(b)
    ensures Inv(Drain(b, outs).bus)
    decreases |outs|, |b.queue|
  {
    if b.queue != [] {
      var b1 := b.(queue := b.queue[1..]);
      HandleEventInv(b1, b.queue[0], outs);
      var d := HandleEvent(b1, b.queue[0], outs);
      DrainInv(d.bus, d.outs);
    }
  }

  /** With nothing queued, `OnUpdate` changes nothing. */
  lemma DrainEmpty(b: Bus, outs: seq<Reaction>)
    requires b.queue == []
    ensures Drain(b, outs) == Drained(b, outs, [], [])
  {
  }
}
