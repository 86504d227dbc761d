# MessageRouterImpl, modelled in Dafny

`MessageRouterImpl` is the smart connector's request/reply correlation router in the
Knowledge Engine. It does four jobs:

- **Outbound requests.** It sends Ask and Post messages through the message dispatcher. For each one it hands the caller a single-assignment result, a `CompletableFuture`.
- **Correlation.** It remembers each pending request in one of two insertion-ordered maps, `openAskMessages` and `openPostMessages`. Each map is capped at `MAX_ENTRIES = 5000`. Putting a new id into a full map fails the eldest request with a capacity error and evicts it.
- **Reply matching.** It completes a pending result when the matching Answer or React arrives, or when the optional timer fires.
- **Inbound requests.** It passes inbound Ask and Post messages to the interaction processor, but only once both the meta-knowledge base and the processor are registered. It sends the processor's reply back and swallows a failed send.

It also tells the smart connector when the dispatcher comes and goes: "ready" the first time, "restored" on every later attach, and "interrupted" on each detach.

## How the model is built

- `wrappers.dfy` holds `Option`, `Result` and `Outcome`.
- `messages.dfy` reduces the five message types to their id and the id they reply to.
- `bounded_map.dfy` holds the correlation map. The `BoundedMap` class has an insertion `order: seq<MessageId>` and `entries: map<MessageId, Handle>`.
  - Its `Put` and `Remove` methods are proved against the pure functions `InsertOrder`, `Evicted` and `Without`.
  - Its invariant: the order has no duplicates, has at most `MaxEntries` keys, and holds exactly the keys of `entries`.
  - `put` on a key that is already present keeps its place and evicts nothing. That is how `LinkedHashMap` behaves: `removeEldestEntry` is consulted only after a new mapping.
- `message_router.dfy` holds the `MessageRouter` class. The result slots a send hands out live in the router's `futures: seq<Future>`, indexed by a `Handle`.
  - The maps store handles, just as the Java maps store references to the futures.
  - A slot is `Pending(timeoutArmed)`, `Answered(reply)` or `Failed(reason)`.
  - Completing a slot also runs the cleanup the send attached with `whenComplete`.
  - The class invariant `Valid()` has four parts:
    - every map entry refers to a slot of its own kind made for its own id;
    - every Ask entry is pending;
    - when no id is ever reused, an Ask id is in `openAskMessages` exactly while its slot is pending, and every pending Post is in `openPostMessages`;
    - the connectivity notifications follow the pattern ready, interrupted, restored, interrupted, and so on.
- `scenarios.dfy` holds short runs from a fresh router, with their observable outcome proved.

The model follows the code as written in two places where it behaves differently from what the code evidently intends:

- **Post cleanup (`MessageRouterImpl.java:149`).** The `whenComplete` cleanup of `sendPostMessage` removes the id from `openAskMessages`. By symmetry with the Ask cleanup at line 113, it is evidently meant to remove the id from `openPostMessages`. So a Post that was answered, timed out or evicted keeps its entry in `openPostMessages` until the entry is itself evicted. A second React for it finds the stale entry, and the already-completed slot ignores it.
  - `HandleReactMessage`, `PostTimeoutLeavesEntry` and `ReactLeavesPostEntry` state this outright.
  - The same cleanup removes an unrelated Ask request that happens to share the Post's id.
- **Dispatch failure.** A send whose dispatch fails leaves its entry registered, because the put happens before `send` throws.

## Model

| member | source | states |
|---|---|---|
| `BoundedMaps.Evicted` | smart-connector/src/main/java/eu/knowledge/engine/smartconnector/impl/MessageRouterImpl.java:41-49 | A put evicts a key iff the key is new and the map already holds MAX_ENTRIES keys; the evicted key is the eldest and is never the key being put |
| `BoundedMaps.InsertOrder` | smart-connector/src/main/java/eu/knowledge/engine/smartconnector/impl/MessageRouterImpl.java:36-49 | After a put the order stays duplicate-free and within MAX_ENTRIES; it holds the new key plus every old key except the evicted one; a present key keeps its place; a new key goes last; with an eviction the rest keep their relative order |
| `BoundedMaps.Without` | smart-connector/src/main/java/eu/knowledge/engine/smartconnector/impl/MessageRouterImpl.java:113 | Removing a key leaves exactly the other keys, keeps the order duplicate-free, and changes nothing when the key is absent |
| `BoundedMaps.WithoutAppend` | smart-connector/src/main/java/eu/knowledge/engine/smartconnector/impl/MessageRouterImpl.java:113 | Removing a key from a concatenation removes it from each part, leaving the parts in their order |
| `BoundedMaps.SpliceOut` | smart-connector/src/main/java/eu/knowledge/engine/smartconnector/impl/MessageRouterImpl.java:113 | A key that occurs once, between two runs of other keys, is removed by joining those runs |
| `BoundedMaps.WithoutSplice` | smart-connector/src/main/java/eu/knowledge/engine/smartconnector/impl/MessageRouterImpl.java:113 | Removing a key from a duplicate-free order cuts it out at its position: every other key keeps its place relative to the rest |
| `BoundedMaps.InsertAll` | smart-connector/src/main/java/eu/knowledge/engine/smartconnector/impl/MessageRouterImpl.java:33-49 | Any run of puts keeps the order duplicate-free and never above MAX_ENTRIES |
| `BoundedMaps.InsertAllKeepsNewest` | smart-connector/src/main/java/eu/knowledge/engine/smartconnector/impl/MessageRouterImpl.java:29-49 | Putting fresh distinct keys one by one leaves exactly the MAX_ENTRIES most recently put keys, in the order they were put |
| `BoundedMaps.InsertAllFromEmpty` | smart-connector/src/main/java/eu/knowledge/engine/smartconnector/impl/MessageRouterImpl.java:29-49 | Starting from an empty map, the keys kept are the newest MAX_ENTRIES of those put |
| `BoundedMaps.OverflowEvictsFirst` | smart-connector/src/main/java/eu/knowledge/engine/smartconnector/impl/MessageRouterImpl.java:33-49 | Putting MAX_ENTRIES + 1 distinct keys into an empty map evicts exactly the first key, at the last put, and keeps all the others in order |
| `BoundedMaps.BoundedMap.constructor` | smart-connector/src/main/java/eu/knowledge/engine/smartconnector/impl/MessageRouterImpl.java:36-37 | A new map is empty and satisfies the map invariant |
| `BoundedMaps.BoundedMap.Get` | smart-connector/src/main/java/eu/knowledge/engine/smartconnector/impl/MessageRouterImpl.java:229 | `get` finds a reference iff the key is present, and that reference is the one stored under the key |
| `BoundedMaps.BoundedMap.Put` | smart-connector/src/main/java/eu/knowledge/engine/smartconnector/impl/MessageRouterImpl.java:36-49 | `put` plus `removeEldestEntry` keeps the invariant, hands back the eldest entry exactly when that entry is evicted, maps the key to the new reference, and leaves every other entry alone |
| `BoundedMaps.BoundedMap.Remove` | smart-connector/src/main/java/eu/knowledge/engine/smartconnector/impl/MessageRouterImpl.java:113 | `remove` drops the key from the entries and cuts it out of the order at its position, leaving the other keys in insertion order; keeps the invariant and changes nothing else |
| `MessageRouting.Complete` | smart-connector/src/main/java/eu/knowledge/engine/smartconnector/impl/MessageRouterImpl.java:234-237 | `complete` resolves a pending slot with the given outcome; on an already resolved slot it has no effect |
| `MessageRouting.ResolvedForGood` | smart-connector/src/main/java/eu/knowledge/engine/smartconnector/impl/MessageRouterImpl.java:234-237 | Two single-assignment steps compose into one, and a slot resolved before them keeps its first outcome across both |
| `MessageRouting.FailEvicted` | smart-connector/src/main/java/eu/knowledge/engine/smartconnector/impl/MessageRouterImpl.java:43-45 | `completeExceptionally` on the evicted entry's slot fails it with the capacity error if it was pending, keeps a resolved slot, keeps the slot's request, and touches no other slot |
| `MessageRouting.FailEvictedIsSingleAssignment` | smart-connector/src/main/java/eu/knowledge/engine/smartconnector/impl/MessageRouterImpl.java:41-49 | Adding a slot and failing the evicted one changes existing slots only from pending to resolved |
| `MessageRouting.ResolveKeepsConsistent` | smart-connector/src/main/java/eu/knowledge/engine/smartconnector/impl/MessageRouterImpl.java:101-114 | Resolving a pending slot and removing its id from openAskMessages keeps the maps consistent with the slots |
| `MessageRouting.OpenAskKeepsConsistent` | smart-connector/src/main/java/eu/knowledge/engine/smartconnector/impl/MessageRouterImpl.java:41-49 | Registering a new Ask slot, with the eviction the put may cause, keeps the maps consistent with the slots |
| `MessageRouting.OpenPostKeepsConsistent` | smart-connector/src/main/java/eu/knowledge/engine/smartconnector/impl/MessageRouterImpl.java:56-64 | Registering a new Post slot, with the eviction and the line-149 cleanup it may cause, keeps the maps consistent with the slots |
| `MessageRouting.ReadyAtMostOnce` | smart-connector/src/main/java/eu/knowledge/engine/smartconnector/impl/MessageRouterImpl.java:289-294 | In any attach/detach history "ready" is signalled exactly once, if there was an attach at all, and never again |
| `MessageRouting.MessageRouter.constructor` | smart-connector/src/main/java/eu/knowledge/engine/smartconnector/impl/MessageRouterImpl.java:67-81 | A new router has empty maps, no dispatcher, nothing registered, nothing notified, and satisfies the router invariant |
| `MessageRouting.MessageRouter.CompleteFuture` | smart-connector/src/main/java/eu/knowledge/engine/smartconnector/impl/MessageRouterImpl.java:101-114 | Completing a pending slot sets its outcome and removes its id from openAskMessages; completing a resolved slot changes nothing; the invariant and single assignment hold |
| `MessageRouting.MessageRouter.OpenAsk` | smart-connector/src/main/java/eu/knowledge/engine/smartconnector/impl/MessageRouterImpl.java:93-116 | Registers a new Ask slot, its timer armed iff the wait timeout is positive, under the id in openAskMessages; fails the evicted slot if there is one; keeps the invariant |
| `MessageRouting.MessageRouter.OpenPost` | smart-connector/src/main/java/eu/knowledge/engine/smartconnector/impl/MessageRouterImpl.java:130-152 | As OpenAsk over openPostMessages; a pending evicted Post slot fails, and its cleanup removes the evicted id from openAskMessages |
| `MessageRouting.MessageRouter.SendAskMessage` | smart-connector/src/main/java/eu/knowledge/engine/smartconnector/impl/MessageRouterImpl.java:87-122 | With no dispatcher: fails NotConnected and changes nothing. Otherwise: the id is registered with a pending slot before the message goes out; the message goes out iff the dispatcher accepts it; a rejected send fails but keeps the entry |
| `MessageRouting.MessageRouter.SendPostMessage` | smart-connector/src/main/java/eu/knowledge/engine/smartconnector/impl/MessageRouterImpl.java:124-157 | As SendAskMessage over openPostMessages, with openAskMessages changed only by the cleanup of a pending evicted Post |
| `MessageRouting.MessageRouter.TimeoutFires` | smart-connector/src/main/java/eu/knowledge/engine/smartconnector/impl/MessageRouterImpl.java:95-99 | The timer fails a slot with TimedOut only when the slot is still pending and its timer was armed, and then runs the cleanup; otherwise nothing changes |
| `MessageRouting.MessageRouter.HandleAnswerMessage` | smart-connector/src/main/java/eu/knowledge/engine/smartconnector/impl/MessageRouterImpl.java:227-238 | An Answer to an unknown Ask id changes nothing; an Answer to an open Ask resolves its pending slot with the Answer and removes the id from openAskMessages |
| `MessageRouting.MessageRouter.HandleReactMessage` | smart-connector/src/main/java/eu/knowledge/engine/smartconnector/impl/MessageRouterImpl.java:244-257 | A React to an unknown Post id changes nothing; for a known id the slot takes the React only if still pending, and the Post entry stays in openPostMessages |
| `MessageRouting.MessageRouter.HandleAskMessage` | smart-connector/src/main/java/eu/knowledge/engine/smartconnector/impl/MessageRouterImpl.java:162-190 | Before both collaborators are registered nothing goes out; afterwards the processor's reply to this Ask goes out iff there is one, a dispatcher is attached and the dispatcher accepts it |
| `MessageRouting.MessageRouter.HandlePostMessage` | smart-connector/src/main/java/eu/knowledge/engine/smartconnector/impl/MessageRouterImpl.java:195-221 | As HandleAskMessage, with the processor's React reply |
| `MessageRouting.MessageRouter.HandleErrorMessage` | smart-connector/src/main/java/eu/knowledge/engine/smartconnector/impl/MessageRouterImpl.java:259-263 | Every call fails with Unsupported |
| `MessageRouting.MessageRouter.RegisterMetaKnowledgeBase` | smart-connector/src/main/java/eu/knowledge/engine/smartconnector/impl/MessageRouterImpl.java:265-270 | Callable only while unregistered; afterwards the meta-knowledge base is registered |
| `MessageRouting.MessageRouter.RegisterInteractionProcessor` | smart-connector/src/main/java/eu/knowledge/engine/smartconnector/impl/MessageRouterImpl.java:272-276 | Callable only while unregistered; afterwards the interaction processor is registered |
| `MessageRouting.MessageRouter.SetMessageDispatcher` | smart-connector/src/main/java/eu/knowledge/engine/smartconnector/impl/MessageRouterImpl.java:283-295 | Callable only while detached; attaches the dispatcher and notifies ready the first time ever, restored every later time |
| `MessageRouting.MessageRouter.UnsetMessageDispatcher` | smart-connector/src/main/java/eu/knowledge/engine/smartconnector/impl/MessageRouterImpl.java:297-304 | Callable only while attached; detaches the dispatcher and notifies interrupted |
| `RouterScenarios.AnswerResolvesAskOnce` | smart-connector/src/main/java/eu/knowledge/engine/smartconnector/impl/MessageRouterImpl.java:227-238 | The first Answer resolves the Ask and closes its entry; a late second Answer is ignored |
| `RouterScenarios.SendWhileDisconnected` | smart-connector/src/main/java/eu/knowledge/engine/smartconnector/impl/MessageRouterImpl.java:88-92 | Sending with no dispatcher fails NotConnected, registers nothing and sends nothing |
| `RouterScenarios.PostTimeoutLeavesEntry` | smart-connector/src/main/java/eu/knowledge/engine/smartconnector/impl/MessageRouterImpl.java:138-152 | A timed-out Post fails with TimedOut yet stays in openPostMessages (line 149) |
| `RouterScenarios.ReactLeavesPostEntry` | smart-connector/src/main/java/eu/knowledge/engine/smartconnector/impl/MessageRouterImpl.java:244-257 | A reacted Post keeps its first React and stays in openPostMessages (line 149) |
| `RouterScenarios.InboundAskBeforeWiring` | smart-connector/src/main/java/eu/knowledge/engine/smartconnector/impl/MessageRouterImpl.java:163-167 | An Ask arriving before the interaction processor is registered gets no reply |
| `RouterScenarios.InboundAskAfterWiring` | smart-connector/src/main/java/eu/knowledge/engine/smartconnector/impl/MessageRouterImpl.java:168-179 | Once both collaborators are registered, the processor's reply is sent |
| `RouterScenarios.ReconnectNotifies` | smart-connector/src/main/java/eu/knowledge/engine/smartconnector/impl/MessageRouterImpl.java:283-304 | Attach, detach, attach notifies ready, interrupted, restored |

## Left out

- Concurrency. `Collections.synchronizedMap`, the timer thread and the races between a timer and a reply are not modelled. Each call, reply and timer firing is one atomic step.
- Wall-clock time. The `orTimeout` scheduler is not modelled: a slot records only whether its timer is armed, and `TimeoutFires` is the event of that timer running out.
- `ConfigProvider`. The wait timeout is a constructor parameter and is fixed for the router's lifetime. The source re-reads the configuration on every call.
- Collaborators. `MessageDispatcherEndpoint.send`, the interaction processor and the smart-connector callbacks appear only as parameters that give their outcome:
  - a send is accepted or rejected;
  - the processor's reply is present or absent;
  - accepted messages are appended to `outbox`, and callbacks to the ghost `notifications` log.
- Processor replies. The gap between an inbound request and the processor's asynchronous reply is not modelled: the reply is handled within the same call. The dispatcher is the one attached when the call starts.
- Messages. Payloads, sender and recipient are not modelled, and UUIDs are integers.
- Logging and message texts. All logging is left out, and so are the texts of the exceptions raised.
- `getKnowledgeBaseId` is a pure delegation to the smart connector, and `SmartConnectorImpl` is not part of this model.
- Java `assert`s. The ones in `register*`, `setMessageDispatcher` and `unsetMessageDispatcher` become preconditions. Attaching a null dispatcher is not modelled.
- MessageRouting.MessageRouter.Valid: the exact tracking of pending Asks by `openAskMessages` is stated only for histories where no message id is reused. A reused id lets a stale cleanup remove the newer request's entry, as in the source.
- MessageRouting.MessageRouter.OpenAsk: the evicted Ask's cleanup is applied after its entry is already gone, whereas the source runs it re-entrantly from inside `removeEldestEntry`. The final state is the same.
