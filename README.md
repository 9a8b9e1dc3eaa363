# ZEngine core, modelled in Dafny

ZEngine is a Unity game framework. A `GameFramework` object owns a registry of
modules and drives their lifecycle: initialise, three per-frame ticks and
shutdown. The heart of the framework is the `EventModule`, an event bus with the
following parts:

- subscriptions keyed by a positive event id, each holding its delegate, a
  once flag and an optional owner;
- an owner index, used for bulk removal;
- a default handler for ids nobody listens to;
- a queue drained once per frame;
- a dispatch pass with these rules:
  - it runs over a snapshot of the handler list;
  - it stops after a handler that returns normally and leaves `IsHandled` set;
  - it survives handlers that throw;
  - it removes once-handlers after they have run.

Around the event bus sit the following modules:

- data persistence: the file names, the cache and the save/load/delete rules;
- the UI and its view stack;
- localisation: the string-table parser, the lookup and the language switch;
- procedures: the game's state machine;
- logging: the level threshold and the console and file channels;
- MVVM support: the binding list, the change-notifying setter and the relay commands;
- the editor tool that generates asset-path constants.

Each C# class whose fields change is a Dafny `class`. The class and its
changes are specified in one of two ways:

- a value-level model: a datatype plus pure functions, one per operation, with
  each method proved to produce exactly `Spec(old(State()), ...)`;
- direct post-conditions, where the state is small.

The properties the source promises are lemmas over the value-level model. They
cover:

- the registry invariant of the event bus;
- what each removal removes;
- the order and early stop of a dispatch pass;
- the FIFO behaviour of the frame drain;
- round trips: subscribe then unsubscribe, and save then load;
- idempotence: Dispose, OnShutdown and re-registration.

Code the model cannot see becomes a parameter of the operation it affects. This
covers delegates, Unity's asset loading, file contents, the serializer and
system clocks. A handler's behaviour, for instance, is an oracle "reaction":
the bus calls it makes, the `IsHandled` value it leaves, and whether it throws.

## Model

| member | source | states |
|---|---|---|
| EventBus.NewEventArgs | Assets/Game/Scripts/Core/Event/EventModule.cs:31-38 | A null sender is rejected first, then a non-positive id; a built envelope carries the given sender and id with `IsHandled` false |
| EventBus.NewWrapper | Assets/Game/Scripts/Core/Event/EventModule.cs:82-87 | The wrapper constructor fails exactly for a null delegate and otherwise keeps delegate, once flag and owner |
| EventBus.LastIndexOf | Assets/Game/Scripts/Core/Event/EventModule.cs:253-257 | The backward scan stops at the last wrapper holding the delegate, or reports none exactly when no wrapper holds it |
| EventBus.RemoveSet | Assets/Game/Scripts/Core/Event/EventModule.cs:263 | `RemoveAll` on an owner's pairs keeps exactly the pairs not removed, never growing the list |
| EventBus.GetHandlerCount | Assets/Game/Scripts/Core/Event/EventModule.cs:147-160 | Throws for a non-positive id, otherwise answers the length of the id's list (0 when absent) |
| EventBus.HasHandler | Assets/Game/Scripts/Core/Event/EventModule.cs:165-179 | A null delegate answers false before validation; otherwise a bad id throws and the answer is true iff the delegate is subscribed to the id |
| EventBus.Subscribe | Assets/Game/Scripts/Core/Event/EventModule.cs:184-215 | Null delegate and bad id are rejected in that order; a duplicate leaves the bus unchanged; otherwise the delegate becomes subscribed and queue, snapshot and default slot are untouched |
| EventBus.UnsubscribeInternal | Assets/Game/Scripts/Core/Event/EventModule.cs:317-343 | Touches only registry, owner index and counter; removing a subscription that does not exist changes nothing |
| EventBus.Unsubscribe | Assets/Game/Scripts/Core/Event/EventModule.cs:238-276 | A null delegate is ignored, a bad id throws, an unknown subscription is ignored |
| EventBus.UnsubscribeByOwner | Assets/Game/Scripts/Core/Event/EventModule.cs:281-293 | A null or unknown owner changes nothing; queue, snapshot and default slot are never touched |
| EventBus.UnsubscribeAll | Assets/Game/Scripts/Core/Event/EventModule.cs:298-312 | Throws exactly for a non-positive id; an id without a list changes nothing |
| EventBus.SetDefaultHandler | Assets/Game/Scripts/Core/Event/EventModule.cs:348-351 | The default slot becomes the argument (null clears it) and the registry is untouched |
| EventBus.CheckFire | Assets/Game/Scripts/Core/Event/EventModule.cs:356-369 | The argument checks pass iff sender and args are non-null and the args' sender is the caller, with the three failures reported in the source's order |
| EventBus.Fire | Assets/Game/Scripts/Core/Event/EventModule.cs:356-369 | Fails exactly when the checks fail; otherwise only appends the envelope to the queue |
| EventBus.Shutdown | Assets/Game/Scripts/Core/Event/EventModule.cs:501-513 | Registry, owners, queue, snapshot and default handler cleared, counter reset to 0 |
| EventBus.ApplyEffect | Assets/Game/Scripts/Core/Event/EventModule.cs:184-404 | A bus call made by a running handler throws exactly when its arguments are invalid, and never shrinks the queue or touches the running snapshot |
| EventBus.ApplyEffects | Assets/Game/Scripts/Core/Event/EventModule.cs:428-444 | A handler's calls run in order and stop at the first that throws; success iff none throws; the snapshot is untouched and the queue only grows |
| EventBus.Invoke | Assets/Game/Scripts/Core/Event/EventModule.cs:428-444 | A handler completes iff it does not throw; `IsHandled` is what it left; the snapshot is untouched; a handler without calls leaves the bus as it was |
| EventBus.RunPass | Assets/Game/Scripts/Core/Event/EventModule.cs:422-445 | The pass only appends to the queue, uses at most one reaction per handler, keeps sender and id |
| EventBus.HandleEvent | Assets/Game/Scripts/Core/Event/EventModule.cs:409-472 | Dispatch only appends to the queue and keeps the envelope's sender and id |
| EventBus.FireNow | Assets/Game/Scripts/Core/Event/EventModule.cs:384-394 | Fails exactly when the `Fire` checks fail, with the same error |
| EventBus.Drain | Assets/Game/Scripts/Core/Event/EventModule.cs:477-493 | `OnUpdate` ends with an empty queue |
| BusRegistry.Without | Assets/Game/Scripts/Core/Event/EventModule.cs:253-270 | The registry with a set of subscriptions removed: an id stays iff something of its list is left, and keeps exactly the remaining wrappers in order |
| BusRegistry.OwnersWithout | Assets/Game/Scripts/Core/Event/EventModule.cs:260-266 | The owner index with those pairs removed, emptied owners dropped |
| BusRegistry.NotOwnedBy | Assets/Game/Scripts/Core/Event/EventModule.cs:281-293 | The wrappers of a list not registered by an owner |
| BusRegistry.DropOwner | Assets/Game/Scripts/Core/Event/EventModule.cs:281-293 | The registry with every subscription of one owner removed, emptied ids dropped |
| BusRegistry.KeepMembers | Assets/Game/Scripts/Core/Event/EventModule.cs:253-270 | Filtering a list keeps exactly the wrappers whose pair is not removed |
| BusRegistry.KeepDistinct | Assets/Game/Scripts/Core/Event/EventModule.cs:190-194 | Removal keeps a list free of duplicate delegates |
| BusRegistry.SameHandlerSameWrapper | Assets/Game/Scripts/Core/Event/EventModule.cs:190-194 | In a duplicate-free list a delegate determines its wrapper |
| BusRegistry.KeepRemoveAt | Assets/Game/Scripts/Core/Event/EventModule.cs:253-258 | Removing one subscription from a duplicate-free list is `RemoveAt` of its index |
| BusRegistry.SumLensUpdate | Assets/Game/Scripts/Core/Event/EventModule.cs:204 | Replacing one list changes the handler total by the difference in lengths |
| BusRegistry.EmptyBusInv | Assets/Game/Scripts/Core/Event/EventModule.cs:118-127 | The initial bus satisfies the registry invariant |
| BusRegistry.ShutdownInv | Assets/Game/Scripts/Core/Event/EventModule.cs:501-513 | The bus after shutdown satisfies the invariant |
| BusRegistry.InvIgnoresRest | Assets/Game/Scripts/Core/Event/EventModule.cs:118-127 | The invariant depends on registry, owner index and counter only |
| BusRegistry.SubscribeInv | Assets/Game/Scripts/Core/Event/EventModule.cs:184-215 | A successful subscribe keeps the invariant (owner index exact, lists valid, counter the sum of lengths) |
| BusRegistry.AddWrapped | Assets/Game/Scripts/Core/Event/EventModule.cs:200-214 | After the append and the owner-map insert, every owned wrapper is indexed under its owner |
| BusRegistry.AddIndexed | Assets/Game/Scripts/Core/Event/EventModule.cs:200-214 | After the append, every indexed pair names a wrapper of that owner |
| BusRegistry.IndexedIsSubscribed | Assets/Game/Scripts/Core/Event/EventModule.cs:206-214 | A pair in the owner index names an existing subscription |
| BusRegistry.IndexedUnderItsOwner | Assets/Game/Scripts/Core/Event/EventModule.cs:206-214 | A pair is indexed only under the owner its wrapper records |
| BusRegistry.WithoutOk | Assets/Game/Scripts/Core/Event/EventModule.cs:253-270 | Removing any set of subscriptions keeps the lists and the owner index valid |
| BusRegistry.WithoutPoolOk | Assets/Game/Scripts/Core/Event/EventModule.cs:268-269 | Removal keeps ids positive and lists non-empty (emptied ids are dropped) |
| BusRegistry.WithoutOwnersSound | Assets/Game/Scripts/Core/Event/EventModule.cs:260-266 | Every pair left in the index still names a subscription of its owner |
| BusRegistry.WithoutOwnersComplete | Assets/Game/Scripts/Core/Event/EventModule.cs:260-266 | Every owned subscription left is still indexed |
| BusRegistry.WithoutTwice | Assets/Game/Scripts/Core/Event/EventModule.cs:253-270 | Removing two sets one after the other is removing their union |
| BusRegistry.OwnersWithoutTwice | Assets/Game/Scripts/Core/Event/EventModule.cs:260-266 | The same for the owner index |
| BusRegistry.WithoutNone | Assets/Game/Scripts/Core/Event/EventModule.cs:253-270 | Removing nothing leaves a valid registry unchanged |
| BusRegistry.OwnersWithoutNone | Assets/Game/Scripts/Core/Event/EventModule.cs:260-266 | Removing nothing leaves a valid owner index unchanged |
| BusRegistry.UnsubscribeInternalShape | Assets/Game/Scripts/Core/Event/EventModule.cs:317-343 | `UnsubscribeInternal(id, h)` removes exactly the subscription `(id, h)` from registry and index, and lowers the counter by one iff it existed |
| BusRegistry.OtherIdsKept | Assets/Game/Scripts/Core/Event/EventModule.cs:317-343 | Other ids' lists are untouched |
| BusRegistry.AbsentShape | Assets/Game/Scripts/Core/Event/EventModule.cs:317-343 | Removing an absent subscription leaves registry and index as they are |
| BusRegistry.RemovePoolShape | Assets/Game/Scripts/Core/Event/EventModule.cs:321-337 | The backward scan with `RemoveAt` is removal of that one subscription from the registry |
| BusRegistry.RemoveOwnersShape | Assets/Game/Scripts/Core/Event/EventModule.cs:329-334 | The owner-map update is removal of that one pair from the index |
| BusRegistry.UnsubscribeInternalInv | Assets/Game/Scripts/Core/Event/EventModule.cs:317-343 | `UnsubscribeInternal` keeps the invariant |
| BusRegistry.UnsubscribeEachShape | Assets/Game/Scripts/Core/Event/EventModule.cs:287-290 | Removing the pairs of a snapshot one by one keeps the invariant and removes all of them at once |
| BusRegistry.UnsubscribeResult | Assets/Game/Scripts/Core/Event/EventModule.cs:238-276 | For a valid id `Unsubscribe` succeeds, keeps the invariant, removes exactly `(id, h)` and leaves `h` unsubscribed from `id` |
| BusRegistry.NotSubscribedAfterWithout | Assets/Game/Scripts/Core/Event/EventModule.cs:253-270 | A removed subscription is gone |
| BusRegistry.SubscribedAfterWithout | Assets/Game/Scripts/Core/Event/EventModule.cs:253-270 | A subscription outside the removed set is still subscribed after the removal |
| BusRegistry.UnsubscribeByOwnerResult | Assets/Game/Scripts/Core/Event/EventModule.cs:281-293 | `UnsubscribeByOwner(o)` keeps the invariant, removes exactly the wrappers registered with `o` and drops `o` from the index |
| BusRegistry.UnknownOwnerOwnsNothing | Assets/Game/Scripts/Core/Event/EventModule.cs:283-284 | An owner absent from the index owns no subscription |
| BusRegistry.OwnerPairsArePool | Assets/Game/Scripts/Core/Event/EventModule.cs:281-293 | Removing the pairs indexed under `o` removes exactly the wrappers naming `o` |
| BusRegistry.OwnerPairsAreIndex | Assets/Game/Scripts/Core/Event/EventModule.cs:281-293 | ... and empties `o`'s index entry and no other |
| BusRegistry.UnsubscribeAllResult | Assets/Game/Scripts/Core/Event/EventModule.cs:298-312 | For a valid id `UnsubscribeAll` keeps the invariant, drops the id's list whole and leaves no indexed pair for that id |
| BusRegistry.WithoutWholeId | Assets/Game/Scripts/Core/Event/EventModule.cs:307-311 | Removing every pair of an id's list drops the id |
| BusRegistry.SubscribeUnsubscribeRoundTrip | Assets/Game/Scripts/Core/Event/EventModule.cs:184-276 | Subscribing a new delegate and unsubscribing it restores the bus exactly |
| BusRegistry.RoundTripPool | Assets/Game/Scripts/Core/Event/EventModule.cs:184-276 | ... the registry and the counter |
| BusRegistry.RoundTripOwners | Assets/Game/Scripts/Core/Event/EventModule.cs:184-276 | ... the owner index |
| BusRegistry.SubscribeIdempotent | Assets/Game/Scripts/Core/Event/EventModule.cs:190-194 | Subscribing an already subscribed delegate again, with any once flag or owner, changes nothing |
| BusDispatch.ApplyEffectInv | Assets/Game/Scripts/Core/Event/EventModule.cs:184-404 | A bus call made by a handler keeps the invariant |
| BusDispatch.ApplyEffectsInv | Assets/Game/Scripts/Core/Event/EventModule.cs:428-444 | All calls of one handler keep it |
| BusDispatch.InvokeInv | Assets/Game/Scripts/Core/Event/EventModule.cs:428-444 | One invocation keeps it |
| BusDispatch.RunPassInv | Assets/Game/Scripts/Core/Event/EventModule.cs:422-445 | A whole pass keeps it |
| BusDispatch.HandleEventInv | Assets/Game/Scripts/Core/Event/EventModule.cs:409-472 | A dispatch, once-removal included, keeps it |
| BusDispatch.PassControl | Assets/Game/Scripts/Core/Event/EventModule.cs:422-445 | Reference definition of a pass: it runs at least one entry of a non-empty snapshot and never more than the snapshot |
| BusDispatch.Invocations | Assets/Game/Scripts/Core/Event/EventModule.cs:418-428 | The delegates of the first `n` snapshot entries, in subscription order |
| BusDispatch.PassControlStops | Assets/Game/Scripts/Core/Event/EventModule.cs:436-440 | The pass runs up to and including the first handler that returns normally with `IsHandled` set, and to the end otherwise |
| BusDispatch.PassControlFlagOuts | Assets/Game/Scripts/Core/Event/EventModule.cs:428-445 | The final flag is the flag after the handlers that ran, one reaction consumed each |
| BusDispatch.PassControlOnce | Assets/Game/Scripts/Core/Event/EventModule.cs:431-435 | A delegate is recorded for removal iff it is a once-handler among the entries that ran and returned normally |
| BusDispatch.FlagBeforeShift | Assets/Game/Scripts/Core/Event/EventModule.cs:428-440 | The flag after `k+1` handlers is the flag after `k` handlers started from the first handler's flag |
| BusDispatch.StopsAtShift | Assets/Game/Scripts/Core/Event/EventModule.cs:436-440 | Stopping at entry `k+1` is stopping at `k` after the first handler |
| BusDispatch.StopsAtFirst | Assets/Game/Scripts/Core/Event/EventModule.cs:436-440 | The first entry stops the pass iff it returns normally leaving the flag set |
| BusDispatch.RunPassControl | Assets/Game/Scripts/Core/Event/EventModule.cs:422-445 | The loop of `HandleEvent` ends with the reference flag, the reference oracle and the reference once-list |
| BusDispatch.RunPassInvoked | Assets/Game/Scripts/Core/Event/EventModule.cs:422-445 | The loop invokes the first `ran` snapshot entries in subscription order and leaves the rest in `_handlerCache` |
| BusDispatch.HandleEventSubscribers | Assets/Game/Scripts/Core/Event/EventModule.cs:415-446 | With subscribers the default handler does not run, and the invoked handlers, final flag and used reactions are those of the reference pass over a snapshot of the id's list |
| BusDispatch.HandleEventRemovesOnce | Assets/Game/Scripts/Core/Event/EventModule.cs:465-471 | After a dispatch no once-handler that ran and returned normally is still subscribed |
| BusDispatch.HandleEventRemoval | Assets/Game/Scripts/Core/Event/EventModule.cs:430-471 | The removal phase takes from the registry the pass left exactly the once-handlers that ran and returned normally, in registry and owner index alike |
| BusDispatch.HandleEventRemovesOnlyOnce | Assets/Game/Scripts/Core/Event/EventModule.cs:465-471 | Any subscription the pass left that is not a recorded once-handler of the dispatched id is still subscribed after the dispatch |
| BusDispatch.HandleEventKeepsThrowing | Assets/Game/Scripts/Core/Event/EventModule.cs:425-444 | A handler whose invocation threw, once-handler or not, is not removed by the removal phase |
| BusDispatch.HandleEventNoSubscribers | Assets/Game/Scripts/Core/Event/EventModule.cs:448-458 | Without subscribers exactly the default handler runs, if set, and nothing happens otherwise |
| BusDispatch.ThrowingHandlerDoesNotStop | Assets/Game/Scripts/Core/Event/EventModule.cs:438-444 | A handler that throws never ends the pass |
| BusDispatch.NoHandledFlagRunsAll | Assets/Game/Scripts/Core/Event/EventModule.cs:422-440 | When no handler sets `IsHandled`, every subscriber runs |
| BusDispatch.QuietHandlersRunAll | Assets/Game/Scripts/Core/Event/EventModule.cs:422-440 | Handlers that return at once all run |
| BusDispatch.FirstHandlerHandles | Assets/Game/Scripts/Core/Event/EventModule.cs:438-439 | A first handler that sets `IsHandled` and returns is the only one to run |
| BusDispatch.DrainFifo | Assets/Game/Scripts/Core/Event/EventModule.cs:477-493 | `OnUpdate` dispatches the queued events first, in order, then the events fired during the drain, in order |
| BusDispatch.DrainStep | Assets/Game/Scripts/Core/Event/EventModule.cs:479-491 | One dequeue-and-dispatch step preserves the FIFO relation |
| BusDispatch.DrainInv | Assets/Game/Scripts/Core/Event/EventModule.cs:477-493 | `OnUpdate` keeps the invariant |
| BusDispatch.DrainEmpty | Assets/Game/Scripts/Core/Event/EventModule.cs:477-493 | With nothing queued, `OnUpdate` changes nothing |
| Events.EventModule.State | Assets/Game/Scripts/Core/Event/EventModule.cs:118-127 | The fields read as one bus value |
| Events.EventModule.constructor | Assets/Game/Scripts/Core/Event/EventModule.cs:118-127 | A new module is the empty bus and satisfies the invariant |
| Events.EventModule.TotalHandlerCount | Assets/Game/Scripts/Core/Event/EventModule.cs:131 | The counter equals the number of subscriptions |
| Events.EventModule.EventTypeCount | Assets/Game/Scripts/Core/Event/EventModule.cs:132 | The number of ids with at least one handler |
| Events.EventModule.GetHandlerCount | Assets/Game/Scripts/Core/Event/EventModule.cs:156-160 | Returns `EventBus.GetHandlerCount` of the state |
| Events.EventModule.HasHandler | Assets/Game/Scripts/Core/Event/EventModule.cs:165-179 | The forward scan returns `EventBus.HasHandler` of the state |
| Events.EventModule.Subscribe | Assets/Game/Scripts/Core/Event/EventModule.cs:184-215 | Throws what `EventBus.Subscribe` rejects, leaving the state; otherwise the new state is its result; the invariant is kept |
| Events.EventModule.UnsubscribeInternal | Assets/Game/Scripts/Core/Event/EventModule.cs:317-343 | The backward scan produces `EventBus.UnsubscribeInternal` of the state |
| Events.EventModule.Unsubscribe | Assets/Game/Scripts/Core/Event/EventModule.cs:238-276 | Throws or produces `EventBus.Unsubscribe`, keeping the invariant |
| Events.EventModule.UnsubscribeByOwner | Assets/Game/Scripts/Core/Event/EventModule.cs:281-293 | The copy-and-remove loop produces `EventBus.UnsubscribeByOwner` |
| Events.EventModule.UnsubscribeAll | Assets/Game/Scripts/Core/Event/EventModule.cs:298-312 | Throws or produces `EventBus.UnsubscribeAll` |
| Events.EventModule.SetDefaultHandler | Assets/Game/Scripts/Core/Event/EventModule.cs:348-351 | Produces `EventBus.SetDefaultHandler` |
| Events.EventModule.Fire | Assets/Game/Scripts/Core/Event/EventModule.cs:356-379 | Reports the argument check; a failed check changes nothing, a passed one enqueues |
| Events.EventModule.ApplyEffect | Assets/Game/Scripts/Core/Event/EventModule.cs:184-404 | A handler's bus call either throws, changing nothing, or produces `EventBus.ApplyEffect` |
| Events.EventModule.ApplyEffects | Assets/Game/Scripts/Core/Event/EventModule.cs:428-444 | A handler's calls in order until one throws, as `EventBus.ApplyEffects` |
| Events.EventModule.Invoke | Assets/Game/Scripts/Core/Event/EventModule.cs:428-444 | One guarded invocation, as `EventBus.Invoke` |
| Events.EventModule.RunPass | Assets/Game/Scripts/Core/Event/EventModule.cs:422-445 | The `while` loop over `_handlerCache` produces `EventBus.RunPass`, keeping the invariant |
| Events.EventModule.RemoveOnceHandlers | Assets/Game/Scripts/Core/Event/EventModule.cs:465-471 | Removes each recorded once-handler in turn |
| Events.EventModule.HandleEvent | Assets/Game/Scripts/Core/Event/EventModule.cs:409-472 | Produces `EventBus.HandleEvent`, keeping the invariant |
| Events.EventModule.FireNow | Assets/Game/Scripts/Core/Event/EventModule.cs:384-404 | Produces `EventBus.FireNow`; a failed check changes nothing |
| Events.EventModule.OnUpdate | Assets/Game/Scripts/Core/Event/EventModule.cs:477-493 | The drain loop produces `EventBus.Drain`: state, used reactions and dispatched envelopes |
| Events.EventModule.OnShutdown | Assets/Game/Scripts/Core/Event/EventModule.cs:501-513 | Every field back to its initial value |
| Persistence.GetFileName | Assets/Game/Scripts/Core/DataPersistence/DataPersistenceModule.cs:215-222 | The name always ends in `.dat`; null or empty gives the type name plus `.dat`; a name with the extension is kept; others get it appended |
| Persistence.GetFileNameIdempotent | Assets/Game/Scripts/Core/DataPersistence/DataPersistenceModule.cs:215-222 | A name produced by `GetFileName` comes back unchanged for any type |
| Persistence.Combine | Assets/Game/Scripts/Core/DataPersistence/DataPersistenceModule.cs:97 | `Path.Combine` with a null directory is null; a rooted file wins; otherwise the result starts with the directory and ends with the file |
| Persistence.Initialize | Assets/Game/Scripts/Core/DataPersistence/DataPersistenceModule.cs:53-68 | Data path `persistentDataPath + "/Data/"`, JSON serializer, nothing else changed |
| Persistence.SetSerializer | Assets/Game/Scripts/Core/DataPersistence/DataPersistenceModule.cs:70-73 | The given serializer, or the JSON one for null |
| Persistence.SetEncryptionMode | Assets/Game/Scripts/Core/DataPersistence/DataPersistenceModule.cs:75-83 | The mode always set, the key only when non-empty |
| Persistence.Save | Assets/Game/Scripts/Core/DataPersistence/DataPersistenceModule.cs:85-120 | Null data, a missing path or serializer, or a failed encoding change nothing; otherwise the file is written and the object cached |
| Persistence.Load | Assets/Game/Scripts/Core/DataPersistence/DataPersistenceModule.cs:122-174 | A cached object is returned without reading; otherwise the file is decoded or a fresh object made, and the result is cached |
| Persistence.Delete | Assets/Game/Scripts/Core/DataPersistence/DataPersistenceModule.cs:176-198 | Deletes iff the file exists, dropping the file and the cached object; a missing file changes nothing |
| Persistence.GetCachedData | Assets/Game/Scripts/Core/DataPersistence/DataPersistenceModule.cs:200-207 | The cached object of the type, or null exactly when none |
| Persistence.ClearCache | Assets/Game/Scripts/Core/DataPersistence/DataPersistenceModule.cs:209-213 | Empties the cache and nothing else |
| Persistence.Shutdown | Assets/Game/Scripts/Core/DataPersistence/DataPersistenceModule.cs:295-299 | Empties the cache and drops the serializer |
| Persistence.LoadCaches | Assets/Game/Scripts/Core/DataPersistence/DataPersistenceModule.cs:122-174 | A load returns what it caches, and a second load of the type, under any file name, returns the same object |
| Persistence.SaveThenLoad | Assets/Game/Scripts/Core/DataPersistence/DataPersistenceModule.cs:85-174 | After a successful save, a load of the type under any name returns the saved object |
| Persistence.DeleteThenLoad | Assets/Game/Scripts/Core/DataPersistence/DataPersistenceModule.cs:176-198 | After a delete, the next load of that file makes a fresh object |
| Persistence.DeleteTwice | Assets/Game/Scripts/Core/DataPersistence/DataPersistenceModule.cs:176-198 | A second delete of the same name reports false |
| DataPersistence.DataPersistenceModule.State | Assets/Game/Scripts/Core/DataPersistence/DataPersistenceModule.cs:40-46 | The fields read as one store value |
| DataPersistence.DataPersistenceModule.constructor | Assets/Game/Scripts/Core/DataPersistence/DataPersistenceModule.cs:41-46 | Simple mode, key `DefaultKey`, empty cache, no path or serializer |
| DataPersistence.DataPersistenceModule.OnInitialize | Assets/Game/Scripts/Core/DataPersistence/DataPersistenceModule.cs:53-68 | Produces `Persistence.Initialize` |
| DataPersistence.DataPersistenceModule.SetSerializer | Assets/Game/Scripts/Core/DataPersistence/DataPersistenceModule.cs:70-73 | Produces `Persistence.SetSerializer` |
| DataPersistence.DataPersistenceModule.SetEncryptionMode | Assets/Game/Scripts/Core/DataPersistence/DataPersistenceModule.cs:75-83 | Produces `Persistence.SetEncryptionMode` |
| DataPersistence.DataPersistenceModule.SaveData | Assets/Game/Scripts/Core/DataPersistence/DataPersistenceModule.cs:85-120 | Produces `Persistence.Save` |
| DataPersistence.DataPersistenceModule.LoadData | Assets/Game/Scripts/Core/DataPersistence/DataPersistenceModule.cs:122-174 | Returns and leaves what `Persistence.Load` gives |
| DataPersistence.DataPersistenceModule.DeleteData | Assets/Game/Scripts/Core/DataPersistence/DataPersistenceModule.cs:176-198 | Returns and leaves what `Persistence.Delete` gives |
| DataPersistence.DataPersistenceModule.GetCachedData | Assets/Game/Scripts/Core/DataPersistence/DataPersistenceModule.cs:200-207 | Answers `Persistence.GetCachedData` |
| DataPersistence.DataPersistenceModule.ClearCache | Assets/Game/Scripts/Core/DataPersistence/DataPersistenceModule.cs:209-213 | Produces `Persistence.ClearCache` |
| DataPersistence.DataPersistenceModule.OnShutdown | Assets/Game/Scripts/Core/DataPersistence/DataPersistenceModule.cs:295-299 | Produces `Persistence.Shutdown` |
| UI.TopmostIndex | Assets/Game/Scripts/Core/UI/UIModule.cs:152-160 | The index of the topmost occurrence of a view in the stack, or -1 exactly when absent |
| UI.RemoveTopmostAt | Assets/Game/Scripts/Core/UI/UIModule.cs:152-166 | The pop-and-push-back loop deletes exactly the topmost occurrence and keeps all other entries in order |
| UI.RemoveTopmostCounts | Assets/Game/Scripts/Core/UI/UIModule.cs:152-166 | One occurrence fewer, nothing else lost or added |
| UI.Hide | Assets/Game/Scripts/Core/UI/UIModule.cs:147-167 | The view is inactive, registry and bindings unchanged |
| UI.Close | Assets/Game/Scripts/Core/UI/UIModule.cs:169-175 | The key is unregistered, the view unbound and inactive |
| UI.Show | Assets/Game/Scripts/Core/UI/UIModule.cs:31-85 | A returned view's class is the requested one or derives from it, and a view model was given; the call throws only for a null view model |
| UI.Ticked | Assets/Game/Scripts/Core/UI/UIModule.cs:244-275 | The ticks reach exactly the registered active views |
| UI.ShowCached | Assets/Game/Scripts/Core/UI/UIModule.cs:36-55 | A cached view whose class is the requested one or derives from it is returned, re-bound, activated and pushed at most once, without loading |
| UI.ShowRefused | Assets/Game/Scripts/Core/UI/UIModule.cs:36-70 | A cached view of an unrelated class, a failed load or a prefab without a component of the class changes nothing and returns null |
| UI.ShowNew | Assets/Game/Scripts/Core/UI/UIModule.cs:57-84 | A loaded view whose component is of the class or a derived one is registered under its path, bound, active as instantiated, and pushed iff asked |
| UI.ShowNullViewModel | Assets/Game/Scripts/Core/UI/UIModule.cs:36-76 | With a null view model, `Bind` throws exactly when a view passes the class test; registry and stack are unchanged, and a cached view is left active with no view model |
| UI.HideByPathStack | Assets/Game/Scripts/Core/UI/UIModule.cs:90-101 | Unknown path: nothing; otherwise the view is deactivated and its topmost occurrence removed |
| UI.CloseByPathEffect | Assets/Game/Scripts/Core/UI/UIModule.cs:103-113 | Unknown path: nothing; otherwise the key goes, one occurrence leaves the stack, the view is unbound |
| UI.CloseLeavesEarlierOccurrence | Assets/Game/Scripts/Core/UI/UIModule.cs:103-113 | A view pushed twice and closed once stays on the stack while no longer registered |
| UI.UIModule.constructor | Assets/Game/Scripts/Core/UI/UIModule.cs:14-15 | Empty registry and stack |
| UI.UIModule.ShowView | Assets/Game/Scripts/Core/UI/UIModule.cs:31-85 | Produces `UI.Show`, the thrown `Bind` included; a throw returns no view |
| UI.UIModule.InternalHideView | Assets/Game/Scripts/Core/UI/UIModule.cs:147-167 | The loop over the temporary stack produces `UI.Hide` |
| UI.UIModule.InternalCloseView | Assets/Game/Scripts/Core/UI/UIModule.cs:169-175 | Produces `UI.Close` |
| UI.UIModule.HideView | Assets/Game/Scripts/Core/UI/UIModule.cs:90-101 | Produces `UI.HideByPath` |
| UI.UIModule.CloseView | Assets/Game/Scripts/Core/UI/UIModule.cs:103-113 | Produces `UI.CloseByPath` |
| UI.UIModule.FindViewByViewModel | Assets/Game/Scripts/Core/UI/UIModule.cs:177-188 | A registration bound to the view model, or none exactly when no registered view is bound to it |
| UI.UIModule.HideViewOf | Assets/Game/Scripts/Core/UI/UIModule.cs:118-129 | Nothing when no view is bound to the view model; otherwise hides a bound one, and throws exactly when the view model is null |
| UI.UIModule.CloseViewOf | Assets/Game/Scripts/Core/UI/UIModule.cs:131-142 | Nothing when no view is bound; otherwise closes a bound one under its key, and throws exactly when the view model is null |
| UI.UIModule.GetAssetPathForView | Assets/Game/Scripts/Core/UI/UIModule.cs:208-216 | A key registered for the view, or none exactly when it is not registered |
| UI.UIModule.CloseTopView | Assets/Game/Scripts/Core/UI/UIModule.cs:191-206 | Empty stack: nothing; otherwise the top is popped and closed under its key if registered |
| UI.UIModule.GetViewOfKind | Assets/Game/Scripts/Core/UI/UIModule.cs:221-229 | A registered view whose class is the requested one or derives from it, or none exactly when there is none |
| UI.UIModule.GetView | Assets/Game/Scripts/Core/UI/UIModule.cs:231-239 | A registered view bound to the view model, or none exactly when there is none |
| UI.UIModule.Tick | Assets/Game/Scripts/Core/UI/UIModule.cs:244-275 | Reaches `UI.Ticked` |
| UI.UIModule.OnShutdown | Assets/Game/Scripts/Core/UI/UIModule.cs:277-290 | Every registered view closed (inactive, unbound), registry and stack empty |
| Localization.ParseLine | Assets/Game/Scripts/Core/Localization/LocalizationModule.cs:112-123 | A line gives an entry iff it is not a `//` comment and has a comma; the key holds no comma and is trimmed |
| Localization.ParseLineSplit | Assets/Game/Scripts/Core/Localization/LocalizationModule.cs:117-123 | A line is cut at its first comma only; key and value are trimmed and `\"` in the value becomes `"` |
| Localization.EntriesAt | Assets/Game/Scripts/Core/Localization/LocalizationModule.cs:109-123 | The `i`-th entry is the `i`-th line's |
| Localization.AssignEntries | Assets/Game/Scripts/Core/Localization/LocalizationModule.cs:122 | A key is in the table iff some line defines it, with the value of the last such line |
| Localization.ParseIgnores | Assets/Game/Scripts/Core/Localization/LocalizationModule.cs:101-125 | Null or empty data gives the empty table; comment lines and lines without a comma contribute nothing |
| Localization.LookupUndefined | Assets/Game/Scripts/Core/Localization/LocalizationModule.cs:83-96 | A key no line defines reads back as itself |
| Localization.LookupLast | Assets/Game/Scripts/Core/Localization/LocalizationModule.cs:83-125 | A key reads back the value of the last line defining it |
| Localization.Lookup | Assets/Game/Scripts/Core/Localization/LocalizationModule.cs:83-96 | Empty for a null or empty key, the stored value when present, the key itself otherwise |
| Localization.Decide | Assets/Game/Scripts/Core/Localization/LocalizationModule.cs:37-78 | Rejected iff the code is null or empty; already current iff it equals the current language; changed iff new and loaded; a failed load retries the default language only for other codes |
| Localization.FallbackStops | Assets/Game/Scripts/Core/Localization/LocalizationModule.cs:55-62 | A failed load of the default language does not retry, so the fallback recursion ends |
| Localization.InitializeAsWrittenSkipsDefault | Assets/Game/Scripts/Core/Localization/LocalizationModule.cs:23-32 | As written, a saved language equal to the default is found already current and its table is never loaded |
| Localization.InitializeLoads | Assets/Game/Scripts/Core/Localization/LocalizationModule.cs:23-32 | Corrected: with no current language, any non-empty saved language that loads is changed to |
| Localization.LocalizationModule.constructor | Assets/Game/Scripts/Core/Localization/LocalizationModule.cs:13-21 | No current language, empty table, no change raised |
| Localization.LocalizationModule.ParseLocalizationData | Assets/Game/Scripts/Core/Localization/LocalizationModule.cs:101-125 | The loop leaves exactly the table `Parse(data)` and nothing else changed |
| Localization.LocalizationModule.GetLocalizedString | Assets/Game/Scripts/Core/Localization/LocalizationModule.cs:83-96 | Answers `Localization.Lookup` on the table |
| Localization.LocalizationModule.SetLanguage | Assets/Game/Scripts/Core/Localization/LocalizationModule.cs:37-78 | Null or empty code and the current code change nothing; a failed load changes nothing; a successful one parses the data, sets the language and raises `LanguageChanged` once |
| Localization.LocalizationModule.OnInitializeAsWritten | Assets/Game/Scripts/Core/Localization/LocalizationModule.cs:23-32 | As written: when the saved language is the default, the table stays empty |
| Localization.LocalizationModule.OnInitialize | Assets/Game/Scripts/Core/Localization/LocalizationModule.cs:23-32 | Corrected: the saved language is loaded and made current, or the load failure is reported |
| Localization.LocalizationModule.OnShutdown | Assets/Game/Scripts/Core/Localization/LocalizationModule.cs:127-132 | Empties the table, language and change count kept |
| AssetConst.Sanitise | Assets/Game/Scripts/Core/Editor/Const/GenAssetConstEditor.cs:48-62 | The constant name is never longer than the path |
| AssetConst.SanitiseClean | Assets/Game/Scripts/Core/Editor/Const/GenAssetConstEditor.cs:48-62 | A constant name holds none of the fifteen characters the chain replaces or deletes |
| AssetConst.NameRulesReplace | Assets/Game/Scripts/Core/Editor/Const/GenAssetConstEditor.cs:48-62 | The chain replaces exactly those fifteen characters |
| AssetConst.TranslateIsChain | Assets/Game/Scripts/Core/Editor/Const/GenAssetConstEditor.cs:48-62 | On one character the `Replace` chain does what the per-character translation does |
| AssetConst.SanitiseIsChain | Assets/Game/Scripts/Core/Editor/Const/GenAssetConstEditor.cs:48-62 | The per-character translation equals the `Replace` chain on every path |
| AssetConst.KeptMembers | Assets/Game/Scripts/Core/Editor/Const/GenAssetConstEditor.cs:44-45 | A file produces a line iff its name does not contain `.meta` |
| AssetConst.ListingMembers | Assets/Game/Scripts/Core/Editor/Const/GenAssetConstEditor.cs:37-70 | A file is listed iff it lies in the tree and is not a `.meta` file |
| AssetConst.Render | Assets/Game/Scripts/Core/Editor/Const/GenAssetConstEditor.cs:63 | One line per file |
| AssetConst.EmittedListing | Assets/Game/Scripts/Core/Editor/Const/GenAssetConstEditor.cs:37-70 | What the recursion appends is the lines of the listing: own files first, then each subdirectory's in order |
| AssetConst.GenerateNoBackslash | Assets/Game/Scripts/Core/Editor/Const/GenAssetConstEditor.cs:25-26 | The generated file contains no backslash |
| AssetConst.GeneratePlain | Assets/Game/Scripts/Core/Editor/Const/GenAssetConstEditor.cs:25-26 | A template without markers or backslashes is written unchanged |
| AssetConst.ConstWriter.constructor | Assets/Game/Scripts/Core/Editor/Const/GenAssetConstEditor.cs:21 | The builder starts empty |
| AssetConst.ConstWriter.AppendFiles | Assets/Game/Scripts/Core/Editor/Const/GenAssetConstEditor.cs:42-64 | The file loop appends the lines of the non-`.meta` files, in order |
| AssetConst.ConstWriter.Bridging | Assets/Game/Scripts/Core/Editor/Const/GenAssetConstEditor.cs:37-70 | The recursion appends the lines of the directory's listing |
| AssetConst.Gen | Assets/Game/Scripts/Core/Editor/Const/GenAssetConstEditor.cs:17-35 | The written text is the template with the listing's lines spliced in, and holds no backslash |
| Procedures.ShutdownHooksAt | Assets/Game/Scripts/Core/Procedure/ProcedureModule.cs:86-89 | The `i`-th shutdown call is on the procedure of the `i`-th registered type |
| Procedures.EmptyFlowValid | Assets/Game/Scripts/Core/Procedure/ProcedureModule.cs:9-11 | The initial state satisfies the table invariant |
| Procedures.RegisterEffect | Assets/Game/Scripts/Core/Procedure/ProcedureModule.cs:24-38 | A registered type changes nothing; otherwise the procedure is initialised once and added, and the invariant is kept |
| Procedures.RegisterTwice | Assets/Game/Scripts/Core/Procedure/ProcedureModule.cs:24-38 | Registering twice under one type keeps the first object |
| Procedures.ChangeUnregistered | Assets/Game/Scripts/Core/Procedure/ProcedureModule.cs:44-48 | A change to an unregistered type changes nothing |
| Procedures.ChangeRegistered | Assets/Game/Scripts/Core/Procedure/ProcedureModule.cs:41-61 | The target becomes current; the old one is left with the user data before the target is entered with it |
| Procedures.ChangeAgain | Assets/Game/Scripts/Core/Procedure/ProcedureModule.cs:41-61 | Changing to the current procedure leaves and re-enters it |
| Procedures.ForwardEffect | Assets/Game/Scripts/Core/Procedure/ProcedureModule.cs:63-76 | A tick reaches the current procedure only, and nothing when there is none |
| Procedures.ShutdownEffect | Assets/Game/Scripts/Core/Procedure/ProcedureModule.cs:78-93 | The current procedure is left with null, every procedure is shut down exactly once, the table emptied and nothing current |
| Procedures.ShutdownTwice | Assets/Game/Scripts/Core/Procedure/ProcedureModule.cs:78-93 | A second shutdown calls nothing more |
| Procedures.ProcedureModule.constructor | Assets/Game/Scripts/Core/Procedure/ProcedureModule.cs:9-11 | Empty table, nothing current |
| Procedures.ProcedureModule.SetGameFramework | Assets/Game/Scripts/Core/Procedure/ProcedureModule.cs:13-16 | Only the framework reference changes |
| Procedures.ProcedureModule.RegisterProcedure | Assets/Game/Scripts/Core/Procedure/ProcedureModule.cs:24-38 | Produces `Procedures.Register` |
| Procedures.ProcedureModule.ChangeProcedure | Assets/Game/Scripts/Core/Procedure/ProcedureModule.cs:41-61 | Produces `Procedures.Change` |
| Procedures.ProcedureModule.OnTick | Assets/Game/Scripts/Core/Procedure/ProcedureModule.cs:63-76 | Produces `Procedures.Forward` |
| Procedures.ProcedureModule.ShutdownEach | Assets/Game/Scripts/Core/Procedure/ProcedureModule.cs:86-89 | The loop calls `Shutdown` on each procedure in table order |
| Procedures.ProcedureModule.OnShutdown | Assets/Game/Scripts/Core/Procedure/ProcedureModule.cs:78-93 | Produces `Procedures.ShutdownAll` |
| Framework.Lookup | Assets/Game/Scripts/Core/GameFramework.cs:72-81 | The module registered for the type, or null exactly when none |
| Framework.EachAt | Assets/Game/Scripts/Core/GameFramework.cs:49-52 | The `i`-th hook call is on the module of the `i`-th registered type |
| Framework.RegisterValid | Assets/Game/Scripts/Core/GameFramework.cs:41-46 | Registering a sequence of modules keeps the registry invariant |
| Framework.RegisterEffect | Assets/Game/Scripts/Core/GameFramework.cs:56-69 | A type already present changes nothing; otherwise the module is added and given the framework |
| Framework.GetAfterRegister | Assets/Game/Scripts/Core/GameFramework.cs:56-81 | After registration the first module of the type is found, other types unaffected |
| Framework.EachOnce | Assets/Game/Scripts/Core/GameFramework.cs:83-115 | Each loop over the modules calls the hook exactly once per registered module |
| Framework.AwakeSecond | Assets/Game/Scripts/Core/GameFramework.cs:25-29 | A second framework object neither replaces `Instance` nor registers anything |
| Framework.AwakeFirst | Assets/Game/Scripts/Core/GameFramework.cs:23-53 | The first object becomes `Instance` and every core module is registered |
| Framework.RegisterAllKeeps | Assets/Game/Scripts/Core/GameFramework.cs:41-46 | Every module of the sequence has its type registered afterwards |
| Framework.DestroyEffect | Assets/Game/Scripts/Core/GameFramework.cs:110-122 | Every module shut down, the registry empty, `Instance` cleared iff it was this object |
| Framework.GameFramework.constructor | Assets/Game/Scripts/Core/GameFramework.cs:14 | An empty registry |
| Framework.GameFramework.RegisterModule | Assets/Game/Scripts/Core/GameFramework.cs:56-69 | Produces `Framework.Register`, keeping the invariant |
| Framework.GameFramework.GetModule | Assets/Game/Scripts/Core/GameFramework.cs:72-81 | Answers `Framework.Lookup` |
| Framework.GameFramework.CallEach | Assets/Game/Scripts/Core/GameFramework.cs:83-108 | The `foreach` loop appends one call per module, in order |
| Framework.GameFramework.InitializeModules | Assets/Game/Scripts/Core/GameFramework.cs:38-53 | Registers the core modules in order, then initialises each registered module |
| Framework.GameFramework.Awake | Assets/Game/Scripts/Core/GameFramework.cs:23-36 | Produces `Framework.Wake` |
| Framework.GameFramework.OnDestroy | Assets/Game/Scripts/Core/GameFramework.cs:110-122 | Produces `Framework.Destroy` |
| Logging.Rank | Assets/Game/Scripts/Core/LogModule.cs:5-12 | The enum's values lie in 0..4 |
| Logging.ChannelOf | Assets/Game/Scripts/Core/LogModule.cs:78-91 | Debug and Info go to `Log`, Warning to `LogWarning`, Error and Fatal to `LogError`, each iff |
| Logging.Emit | Assets/Game/Scripts/Core/LogModule.cs:70-105 | Nothing iff the level is below the threshold; otherwise the console line on its channel, then one file outcome iff file logging is on; an append only with file logging on and a successful write |
| Logging.LevelsOrdered | Assets/Game/Scripts/Core/LogModule.cs:5-12 | The levels are totally ordered from Debug to Fatal |
| Logging.DefaultPassesAll | Assets/Game/Scripts/Core/LogModule.cs:17 | Under the default threshold every level is written |
| Logging.FileOnlyWhenEnabled | Assets/Game/Scripts/Core/LogModule.cs:94-104 | Without file logging only console lines appear; with it, a failed append becomes a console error instead of an exception |
| Logging.InstanceAsWrittenDiverges | Assets/Game/Scripts/Core/LogModule.cs:116 | As written, with a framework lacking the log module, every bound on the nested lookups is exhausted |
| Logging.Instance | Assets/Game/Scripts/Core/LogModule.cs:116 | Corrected lookup: found iff a framework with a log module exists, and it always returns |
| Logging.InstanceAgrees | Assets/Game/Scripts/Core/LogModule.cs:116 | The corrected lookup agrees with the written one wherever the written one returns |
| Logging.Helper | Assets/Game/Scripts/Core/LogModule.cs:45-68 | The static helpers emit nothing without an instance, and otherwise what `InternalLog` emits |
| Logging.LogModule.constructor | Assets/Game/Scripts/Core/LogModule.cs:17-18 | Threshold Debug, file logging off |
| Logging.LogModule.SetLogLevel | Assets/Game/Scripts/Core/LogModule.cs:35-38 | Only the threshold changes |
| Logging.LogModule.SetLogToFile | Assets/Game/Scripts/Core/LogModule.cs:40-43 | Only the file switch changes |
| Logging.LogModule.InternalLog | Assets/Game/Scripts/Core/LogModule.cs:70-105 | Appends exactly `Logging.Emit` for the current threshold and switch |
| Bindings.RemoveFirst | Assets/Game/Scripts/Core/UI/Binding/BindingManager.cs:65 | `List.Remove` shortens the list by one when the binding is present and leaves it otherwise |
| Bindings.RemoveFirstAt | Assets/Game/Scripts/Core/UI/Binding/BindingManager.cs:65 | It deletes exactly the first occurrence, keeping the rest in order |
| Bindings.RemoveFirstMultiset | Assets/Game/Scripts/Core/UI/Binding/BindingManager.cs:65 | It takes away one copy of the binding |
| Bindings.BindEffect | Assets/Game/Scripts/Core/UI/Binding/BindingManager.cs:25-57 | A failed creation changes nothing; a successful one appends exactly that binding |
| Bindings.BindDistinct | Assets/Game/Scripts/Core/UI/Binding/BindingManager.cs:25-57 | A fresh binding keeps the list free of repetitions |
| Bindings.RemoveEffect | Assets/Game/Scripts/Core/UI/Binding/BindingManager.cs:60-66 | Null does nothing; otherwise the binding is disposed and one copy leaves the list |
| Bindings.OthersMembers | Assets/Game/Scripts/Core/UI/Binding/BindingManager.cs:69-81 | The bindings kept are exactly those for other targets |
| Bindings.SweepKeeps | Assets/Game/Scripts/Core/UI/Binding/BindingManager.cs:73-80 | The backward loop, after visiting the indices below `i`, leaves the bindings for other targets below `i` and everything above |
| Bindings.SweepDisposes | Assets/Game/Scripts/Core/UI/Binding/BindingManager.cs:73-80 | The loop disposes the bindings for the target, last first |
| Bindings.RemoveForTargetEffect | Assets/Game/Scripts/Core/UI/Binding/BindingManager.cs:69-81 | Null target: nothing; otherwise exactly the bindings for the target are disposed, last first, and removed, the others kept in order |
| Bindings.ClearEffect | Assets/Game/Scripts/Core/UI/Binding/BindingManager.cs:84-91 | Every binding disposed once, in list order, and the list emptied |
| Bindings.DisposeTwice | Assets/Game/Scripts/Core/UI/Binding/BindingManager.cs:93-109 | The first `Dispose` clears and marks disposed; a second does nothing |
| Bindings.BindingManager.constructor | Assets/Game/Scripts/Core/UI/Binding/BindingManager.cs:17-22 | Empty list, not disposed |
| Bindings.BindingManager.Bind | Assets/Game/Scripts/Core/UI/Binding/BindingManager.cs:25-57 | Returns the created binding or null and produces `Bindings.Added` |
| Bindings.BindingManager.RemoveBinding | Assets/Game/Scripts/Core/UI/Binding/BindingManager.cs:60-66 | Produces `Bindings.Remove` |
| Bindings.BindingManager.RemoveBindingsForTarget | Assets/Game/Scripts/Core/UI/Binding/BindingManager.cs:69-81 | The backward loop produces `Bindings.RemoveForTarget` |
| Bindings.BindingManager.Clear | Assets/Game/Scripts/Core/UI/Binding/BindingManager.cs:84-91 | The `foreach` produces `Bindings.Cleared` |
| Bindings.BindingManager.Dispose | Assets/Game/Scripts/Core/UI/Binding/BindingManager.cs:93-109 | Produces `Bindings.Disposed` |
| ViewModels.SetEffect | Assets/Game/Scripts/Core/UI/MVVM/ViewModelBase.cs:23-29 | An equal value returns false and changes nothing; a different one is stored, returns true and notifies once with the name iff subscribed |
| ViewModels.SetTwice | Assets/Game/Scripts/Core/UI/MVVM/ViewModelBase.cs:23-29 | Setting the same value again returns false and changes nothing |
| ViewModels.NotifyUnsubscribed | Assets/Game/Scripts/Core/UI/MVVM/ViewModelBase.cs:14-17 | Without subscribers a notification has no effect |
| ViewModels.ViewModel.constructor | Assets/Game/Scripts/Core/UI/MVVM/ViewModelBase.cs:6-8 | The initial field, no subscribers, nothing notified |
| ViewModels.ViewModel.SetSubscribed | Assets/Game/Scripts/Core/UI/MVVM/ViewModelBase.cs:8 | Only the subscription flag changes |
| ViewModels.ViewModel.OnPropertyChanged | Assets/Game/Scripts/Core/UI/MVVM/ViewModelBase.cs:14-17 | Produces `ViewModels.Notify` |
| ViewModels.ViewModel.Set | Assets/Game/Scripts/Core/UI/MVVM/ViewModelBase.cs:23-29 | Produces `ViewModels.SetField`: new state and returned flag |
| Commands.RunAction | Assets/Game/Scripts/Core/UI/Commands/RelayCommand.cs:21 | Running the stored action throws iff it wraps a null parameterless action; a direct action gets the parameter |
| Commands.NewCommand | Assets/Game/Scripts/Core/UI/Commands/RelayCommand.cs:13-17 | Fails with `ArgumentNullException` iff the action is null, otherwise stores it |
| Commands.NewParameterless | Assets/Game/Scripts/Core/UI/Commands/RelayCommand.cs:19-26 | Accepts a null action; a guard is stored iff one is given |
| Commands.CanExecute | Assets/Game/Scripts/Core/UI/Commands/RelayCommand.cs:28-31 | True without a guard, otherwise the guard's answer |
| Commands.NewGeneric | Assets/Game/Scripts/Core/UI/Commands/RelayCommand.cs:51-55 | Fails iff the action is null, otherwise stores it with its type argument |
| Commands.NewGenericParameterless | Assets/Game/Scripts/Core/UI/Commands/RelayCommand.cs:57-64 | Accepts a null action; a guard is stored iff one is given |
| Commands.GenericUnguarded | Assets/Game/Scripts/Core/UI/Commands/RelayCommand.cs:68 | Without a guard the generic command can execute anything |
| Commands.GenericGuarded | Assets/Game/Scripts/Core/UI/Commands/RelayCommand.cs:66-81 | With a guard: null is accepted iff `T` is a reference type, a non-`T` is refused, a `T` is decided by the guard |
| Commands.GenericExecuteCases | Assets/Game/Scripts/Core/UI/Commands/RelayCommand.cs:83-98 | Null and non-`T` parameters throw `ArgumentException`; a `T` runs the action |
| Commands.NullAllowedButThrows | Assets/Game/Scripts/Core/UI/Commands/RelayCommand.cs:66-98 | For a reference-type `T`, `CanExecute(null)` is true while `Execute(null)` throws |
| Commands.ConstructedRuns | Assets/Game/Scripts/Core/UI/Commands/RelayCommand.cs:13-36 | A constructed command runs its action on the very parameter and answers with its guard |
| Commands.ParameterlessNull | Assets/Game/Scripts/Core/UI/Commands/RelayCommand.cs:19-36 | A parameterless command built on a null action exists, and `Execute` throws a null reference |

## Left out

- Locks and threads. `EventModule` guards its state with a lock, and `FireNow` may be called from any thread; the model is single-threaded.
- Nested dispatch. A handler that calls `FireNow` would re-enter `HandleEvent` on the shared `_handlerCache`. Handlers here may subscribe, unsubscribe, set the default handler and `Fire`, but not `FireNow`.
- Event payloads. The generic `GameEventArgs<TData>` payload, the type-filtering wrapper of `Subscribe<TData>` and the generic `Fire`/`FireNow` overloads reduce to their non-generic forms.
- Aliasing of event arguments. An envelope is a value, so one args object fired twice, which shares one `IsHandled` flag, is not modelled.
- Output text. Log message text, timestamps, the console text of caught exceptions and every `LogModule` call made by the other modules are not modelled.
- The log file. `LogModule.OnInitialize` (the log file path, `Directory.CreateDirectory`, the clock) is not modelled; `File.AppendAllText` becomes the `appendOk` parameter.
- `OnUpdate`, `OnFixedUpdate` and `OnLateUpdate` of `LogModule` do nothing and have no member.
- Payload encoding. Encryption (`Encrypt`/`Decrypt`, XOR and AES), JSON and the file system's contents are not modelled. The text a save encodes and the result of decoding a load are parameters, and the file system is a map from path to text.
- `async`/`await` in persistence, UI and localisation; each awaited call is one step.
- Unity's asset loading (`LoadAssetAsync`, `InstantiatePrefabAsync`) becomes the `load` parameter of `ShowView`. `_uiRoot`, `GameObject.Destroy` and the view lifecycle callbacks (`OnShow`, `OnHide`, `Cleanup`) are modelled only through their effect on activation and binding.
- `PlayerPrefs` and Resources loading in localisation become parameters. The recursive fallback of `SetLanguage` to the default language is modelled as the decision it takes (`Localization.Decide`), not as the second call.
- String matching. `string.StartsWith(string)` in `ParseLocalizationData` and `string.EndsWith(string)` in `GetFileName` are culture-sensitive in .NET; the model compares characters.
- Frame times. Floating-point `deltaTime` values are not modelled; a tick carries only which hook it is.
- Enumeration order. The framework's module loops and the procedure table keep insertion order, which is what .NET gives for a dictionary with no removals. The UI scans over `_views` (`FindViewByViewModel`, `GetViewOfKind`, `GetView`, `GetAssetPathForView`, the ticks and `OnShutdown`) may pick any matching entry, since `_views.Remove` leaves the order unspecified.
- The asset-constant generator:
  - the `Substring` that makes a file path project-relative is not modelled: file entries carry that path already;
  - the line terminator of `AppendLine` is the `nl` parameter;
  - `File.ReadAllText`/`WriteAllText` and `AssetDatabase.Refresh` are I/O.
- The MVVM plumbing:
  - the reflection inside `PropertyBindingExpression`/`CommandBindingExpression` is not modelled: a creation succeeds or fails, as a parameter;
  - the finalizer `~BindingManager` is not modelled;
  - `RelayCommand.CanExecuteChanged`/`RaiseCanExecuteChanged` only raise an event and have no member;
  - `ViewModelBase` lifecycle hooks are empty virtual methods.
- `ProcedureBase` hooks are opaque calls recorded in a trace. `Initialize` followed by `OnInitialize` is one `Initialize` hook.
- `SetGameFramework` for the log, event, persistence and UI modules only stores a reference and is not modelled; it is modelled for procedures and in `GameFramework.RegisterModule`'s trace.
- Object creation. `new T()`, the new module objects and the new view objects are parameters, so their freshness is assumed of the caller, not proved.
- Windows paths. `Path.Combine` is modelled with `/` only.
- EventBus.RunPass: its own contract states only bounds; which handlers a pass runs, the flag it leaves and the once-handlers it records are stated by the `BusDispatch` lemmas against `PassControl`.
- EventBus.HandleEvent: its own contract states only bounds; its outcome is stated by `BusDispatch.HandleEventSubscribers`, `HandleEventNoSubscribers`, `HandleEventRemovesOnce`, `HandleEventRemoval`, `HandleEventRemovesOnlyOnce` and `HandleEventKeepsThrowing`.
- EventBus.Drain: its own contract states only the empty queue; the order of dispatch is stated by `BusDispatch.DrainFifo`.
- EventBus.Drain: its results, and those of `Events.EventModule.OnUpdate`, hold for drains that return. The handler oracle is finite, and once it is used up handlers fire nothing, so every modelled drain ends. The source's `while (true)` loop never returns when a handler fires an event on every dispatch, for example one handler on id 1 that fires id 1 each time it runs. That unbounded case is not modelled.
- UI.Show: its own contract states only the class test and the throw; the outcomes are stated by `UI.ShowCached`, `UI.ShowRefused`, `UI.ShowNew` and `UI.ShowNullViewModel`.
- UI.Show: a prefab is taken to carry at most one view component, so `GetComponent<TView>()` tests that component's class. The class hierarchy is a parameter: a set of pairs of a derived class and a base class.
- Persistence.Delete: a `File.Delete` that throws inside the `try` (caught at DataPersistenceModule.cs:193-197, answering false and keeping the file and the cached object) is not modelled; an existing file is always deleted.
- Commands.NewParameterless: a parameterless `Func<bool>` guard is taken to give the same answer on every call, so a guard whose answer changes between calls is not modelled. The same holds for `Commands.NewGenericParameterless`.
- Bindings.RemoveForTargetEffect: proved for lists without repeated bindings, which `BindDistinct` shows `Bind` keeps for fresh bindings; a binding added twice is outside it.

## Findings

| source | as written | input that shows it | evidently intended | confidence | as-written member | corrected member |
|---|---|---|---|---|---|---|
| Assets/Game/Scripts/Core/Localization/LocalizationModule.cs:23-32 | `OnInitialize` assigns `_currentLanguage = _defaultLanguage` and then calls `SetLanguage(savedLang)`; `SetLanguage` returns early when the code equals the current language | no saved preference (or a saved preference equal to the default language): the default language's table is never loaded and every lookup returns its key | the saved (or default) language is loaded at start-up | high (not executed) | Localization.InitializeAsWrittenSkipsDefault, Localization.LocalizationModule.OnInitializeAsWritten | Localization.InitializeLoads, Localization.LocalizationModule.OnInitialize |
| Assets/Game/Scripts/Core/LogModule.cs:116 | `LogModule.Instance` calls `GameFramework.GetModule<LogModule>()`, which on a miss reports through `LogModule.Error`, which evaluates `LogModule.Instance` again | a live `GameFramework.Instance` whose registry has no `LogModule` (the framework's own `InitializeModules` registers it first, so this needs a framework set up otherwise): any log call recurses without end | a missing log module makes the helpers do nothing | low (not executed) | Logging.InstanceAsWrittenDiverges | Logging.Instance, Logging.InstanceAgrees |
