# Dispatch engine of vapor-composable-architecture, in Dafny

This project models the dispatch engine of a Swift state-management runtime in
the style of the Composable Architecture, ported to OpenCombine. It has four
parts:

- **`Store`** (`store.dfy`, module `Stores`, with the pure specification in
  `dispatch.dfy`, module `Dispatch`).
  - A class with the source's fields: the action buffer, the `isSending` flag,
    the `effectCancellables` table and the published state.
  - `Send` is the reentrant `send(_:originatingFrom:)` loop. It is proved
    against `Dispatch.Drain`, a function that drains the FIFO queue: reduce the
    head, and append the synchronous outputs of the returned effect to the tail.
  - Also modelled:
    - `scope` and its child store (`ScopedStore`), `scope(state:)` and `stateless`;
    - the `ifLet` subscription;
    - completion of a running effect.
- **Reducer algebra** (`reducer.dfy`, module `Reducers`).
  - A reducer is a function from state, action and environment to the new state
    and the returned effect, or to `Trapped` when the Swift code aborts.
  - Key paths and case paths are explicit accessor pairs.
- **Effects** (`effect.dfy`, module `Effects`).
  - An effect is the trace it produces when subscribed: its synchronous
    outputs, then `Finished`, `Failed(e)` or `Pending` (not completed when the
    subscription returns).
  - `concatenate` is proved equal to a reference right fold (`Sequenced`).
- **Merge fan-in** (`merge.dfy`, module `Merging`, and `demand.dfy`, module
  `Subscribers`).
  - `Publishers._Merged` is the class `Merged`. It keeps its
    `subscriptions` / `buffers` arrays and its demand, `pending`, `recursive`,
    `upstreamFinished`, `finished` and `terminated` fields.
  - Every region the source runs under its lock is one atomic method.
  - A call into the downstream subscriber is a step that:
    - records what was forwarded, in the ghost logs `delivered` and `completions`;
    - replays the `request` calls the downstream makes meanwhile, given as a
      parameter;
    - returns the demand the downstream gives back.
  - `MergeClients` drives the class through concrete call sequences.

`base.dfy` (module `Base`) holds `Option`, `Result` and `Outcome`.
`Outcome.Trapped` stands for `fatalError()` and for an out-of-range array
subscript, both of which abort the process.

The model follows the code as written, including where it traps, stalls or never completes:

- `Effect.merge` over a sequence is `fatalError()`, so `Reducer.combine` and
  `combined(with:)` trap on every call. A store built on a combined reducer
  aborts on its first action (`Dispatch.CombinedSendAborts`).
- The array `forEach` subscripts without a bounds check. An out-of-range index
  traps; it is not a no-op.
- A merge of zero publishers never completes. Completion is only checked when a
  source completes, and there is none.
- `receive(_:_:)` does not consult `terminated`. A value that a source sends
  after the merge failed is still forwarded when demand is unlimited
  (`MergeClients.ValueAfterFailure`).
- Finite `request`s outside a downstream call are dropped, `cancel` does
  nothing, and buffered values are never drained. Once a subscriber asks only
  for finite demand, no value reaches it (`MergeClients.FiniteDemand`).

## Model

| member | source | states |
|---|---|---|
| Effects.None | Sources/ComposableArchitecture/Effect.swift:29-31 | `.none` emits nothing and finishes |
| Effects.Just | Sources/ComposableArchitecture/Effect.swift:17-19 | `Effect(value:)` emits exactly that value, then finishes, never fails |
| Effects.Fail | Sources/ComposableArchitecture/Effect.swift:21-27 | `Effect(error:)` emits nothing and fails with the given error |
| Effects.FailIsFuture | Sources/ComposableArchitecture/Effect.swift:21-27 | `Effect(error:)` is the deferred future whose promise receives the failure, i.e. `result` of that failure |
| Effects.Future | Sources/ComposableArchitecture/Effect.swift:33-37 | a future emits at most one value: one value then finish on success, no value and that error on failure, pending while the promise is unfulfilled |
| Effects.ResultEffect | Sources/ComposableArchitecture/Effect.swift:39-41 | `result` is a future fulfilled at subscription, so it never stays pending |
| Effects.Catching | Sources/ComposableArchitecture/Effect.swift:87-91 | `catching` is `result` of the work's outcome and never stays pending |
| Effects.Append | Sources/ComposableArchitecture/Effect.swift:55-57 | `append`, the step of the fold: the suffix runs only after the prefix finishes; its laws are `AppendNone` and `AppendAssociative` |
| Effects.AppendAll | Sources/ComposableArchitecture/Effect.swift:52-57 | the `reduce(into: first)` fold of `append` over the remaining effects; `AppendAllIsSequenced` ties it to the reference definition |
| Effects.Concatenate | Sources/ComposableArchitecture/Effect.swift:43-58 | `concatenate`: `.none` when empty, else the fold from the first effect; its contract is `ConcatenateIsSequenced`, `ConcatenateAllFinished` and `ConcatenateStopsAt` |
| Effects.ConcatenateIsSequenced | Sources/ComposableArchitecture/Effect.swift:43-58 | the `reduce(into:)` left fold of `append` (`.none` when empty) equals running the effects one after the other in argument order |
| Effects.AppendNone | Sources/ComposableArchitecture/Effect.swift:50-57 | `.none` is a left and right unit of `append` |
| Effects.AppendAssociative | Sources/ComposableArchitecture/Effect.swift:55-57 | `append` is associative, so the fold's bracketing does not matter |
| Effects.AppendAllIsSequenced | Sources/ComposableArchitecture/Effect.swift:52-57 | folding `append` from an accumulator equals appending the sequenced rest to it |
| Effects.ConcatenateAllFinished | Sources/ComposableArchitecture/Effect.swift:43-58 | if every effect finishes, the concatenation emits all outputs in argument order and finishes |
| Effects.SequencedAllFinished | Sources/ComposableArchitecture/Effect.swift:43-58 | the same for the reference definition |
| Effects.ConcatenateStopsAt | Sources/ComposableArchitecture/Effect.swift:43-58 | the first effect that fails or stays pending ends the concatenation; later effects are never subscribed |
| Effects.SequencedStopsAt | Sources/ComposableArchitecture/Effect.swift:43-58 | the same for the reference definition |
| Effects.Merge | Sources/ComposableArchitecture/Effect.swift:60-69 | `merge`, variadic or over a sequence, traps whatever its arguments |
| Effects.FireAndForget | Sources/ComposableArchitecture/Effect.swift:71-80 | `fireAndForget(work)` emits nothing and finishes |
| Effects.Map | Sources/ComposableArchitecture/Effect.swift:82-84 | `map` transforms each output pointwise and keeps the termination |
| Effects.MapIdentity | Sources/ComposableArchitecture/Effect.swift:82-84 | mapping the identity changes nothing |
| Effects.MapCompose | Sources/ComposableArchitecture/Effect.swift:82-84 | two maps fuse into one map of the composition |
| Effects.MapAppend | Sources/ComposableArchitecture/Effect.swift:82-84 | `map` distributes over `append` |
| Effects.MapJust | Sources/ComposableArchitecture/Effect.swift:17-19 | mapping `Effect(value:)` gives `Effect(value:)` of the mapped value |
| Effects.CatchToEffect | Sources/ComposableArchitecture/Effect.swift:98-102 | `catchToEffect()` never fails: outputs become `.success`, a failure becomes one last `.failure(e)` output followed by finishing, pending stays pending |
| Effects.CatchFail | Sources/ComposableArchitecture/Effect.swift:98-102 | catching `Effect(error: e)` gives exactly `Just(.failure(e))` |
| Effects.CatchToEffectWith | Sources/ComposableArchitecture/Effect.swift:104-111 | the transforming `catchToEffect`; `CatchToEffectWithIsMap` proves it is `catchToEffect()` then `map(transform)` |
| Effects.CatchToEffectWithIsMap | Sources/ComposableArchitecture/Effect.swift:104-111 | the transforming `catchToEffect` is `catchToEffect()` followed by `map(transform)` |
| Effects.DropOutputs | Sources/ComposableArchitecture/Effect.swift:113-122 | `Publisher.fireAndForget()` emits nothing, never fails, and stays pending exactly when the source does |
| Effects.DropOutputsMap | Sources/ComposableArchitecture/Effect.swift:113-122 | what the outputs were does not matter to `fireAndForget()` |
| Reducers.Empty | Sources/ComposableArchitecture/Reducer.swift:11-13 | `empty`; its contract is `EmptyIsNoOp` |
| Reducers.RunAll | Sources/ComposableArchitecture/Reducer.swift:19-23 | the reducers `combine` runs, in list order with the state passed along; its contracts are `RunAllAppend` and `RunAllFolds` |
| Reducers.Combine | Sources/ComposableArchitecture/Reducer.swift:19-23 | `combine`: runs every reducer, then `merge`s the effects; `CombineTraps` proves it always traps |
| Reducers.Combined | Sources/ComposableArchitecture/Reducer.swift:25-27 | `combined(with:)` is `combine(self, other)`; `CombineTraps` proves it always traps |
| Reducers.Pullback | Sources/ComposableArchitecture/Reducer.swift:29-43 | key-path `pullback`; its contracts are `PullbackMiss`, `PullbackHit` and `PullbackComposes` |
| Reducers.PullbackCase | Sources/ComposableArchitecture/Reducer.swift:45-69 | case-path `pullback`; its contract is `PullbackCaseRouting` |
| Reducers.Optional | Sources/ComposableArchitecture/Reducer.swift:71-83 | `optional()`; its contract is `OptionalPresence` |
| Reducers.ForEachIndexed | Sources/ComposableArchitecture/Reducer.swift:85-101 | array `forEach`; its contracts are `ForEachIndexedHit` and `ForEachIndexedMiss` |
| Reducers.ForEachKeyed | Sources/ComposableArchitecture/Reducer.swift:103-123 | dictionary `forEach`; its contract is `ForEachKeyedRouting` |
| Reducers.Run | Sources/ComposableArchitecture/Reducer.swift:125-131 | `run`; its contract is `RunIsApplication` |
| Reducers.CallAsFunction | Sources/ComposableArchitecture/Reducer.swift:133-139 | `callAsFunction`; its contract is `RunIsApplication` |
| Reducers.EmptyIsNoOp | Sources/ComposableArchitecture/Reducer.swift:11-13 | `empty` leaves the state unchanged and returns `.none` |
| Reducers.RunAllAppend | Sources/ComposableArchitecture/Reducer.swift:19-23 | running `rs1 + rs2` is running `rs1`, then `rs2` on the state it left, with effects in list order; a trap stops the run |
| Reducers.RunAllFolds | Sources/ComposableArchitecture/Reducer.swift:19-23 | the reducers run as a left fold of the state, with one effect per reducer |
| Reducers.CombineTraps | Sources/ComposableArchitecture/Reducer.swift:15-27 | `combine` and `combined(with:)` always end in `merge`'s trap |
| Reducers.PullbackMiss | Sources/ComposableArchitecture/Reducer.swift:34-35 | key-path pullback: an action that does not extract leaves the state unchanged and returns `.none` |
| Reducers.PullbackHit | Sources/ComposableArchitecture/Reducer.swift:34-42 | key-path pullback of an extracted action: the field holds the local result, writing the old field back restores the old global state, and outputs are embedded |
| Reducers.PullbackComposes | Sources/ComposableArchitecture/Reducer.swift:29-43 | two successive pullbacks equal one pullback along the composed key path, case path and environment map, for a lawful outer key path |
| Reducers.PullbackCaseRouting | Sources/ComposableArchitecture/Reducer.swift:45-69 | case-path pullback: a foreign action or state case changes nothing and returns `.none`; otherwise the global state is the embedded local result, with outputs embedded |
| Reducers.OptionalPresence | Sources/ComposableArchitecture/Reducer.swift:71-83 | `optional()`: nil stays nil with `.none`; a present state runs the inner reducer and stays present |
| Reducers.ForEachIndexedHit | Sources/ComposableArchitecture/Reducer.swift:85-101 | array `forEach`: an out-of-range index traps; otherwise only that element changes, writing the old array back restores the old global state, the length is kept, and outputs are tagged `(index, a)` |
| Reducers.ForEachIndexedMiss | Sources/ComposableArchitecture/Reducer.swift:92-93 | array `forEach`: an action that does not extract changes nothing and returns `.none` |
| Reducers.ForEachKeyedRouting | Sources/ComposableArchitecture/Reducer.swift:103-123 | dictionary `forEach`: an absent key or foreign action changes nothing; otherwise only that key's value changes, writing the old dictionary back restores the old global state, the key set is kept, and outputs are tagged `(key, a)` |
| Reducers.RunIsApplication | Sources/ComposableArchitecture/Reducer.swift:125-139 | `run` and `callAsFunction` both call the wrapped reducer unchanged |
| Subscribers.Add | Sources/ComposableArchitecture/Effects/Publishers.Merge.swift:97 | demand addition is unlimited exactly when one operand is |
| Subscribers.Decrement | Sources/ComposableArchitecture/Effects/Publishers.Merge.swift:95 | `demand -= 1` on a non-zero demand is undone by adding one; it never underflows |
| Subscribers.AddAssociative | Sources/ComposableArchitecture/Effects/Publishers.Merge.swift:97 | demand addition is associative |
| Subscribers.AddCommutative | Sources/ComposableArchitecture/Effects/Publishers.Merge.swift:97 | demand addition is commutative |
| Subscribers.AddUnits | Sources/ComposableArchitecture/Effects/Publishers.Merge.swift:97-98 | `.none` is neutral and `.unlimited` absorbs |
| Subscribers.SumAppend | Sources/ComposableArchitecture/Effects/Publishers.Merge.swift:155-158 | adding requests to `pending` one by one gives their sum |
| Subscribers.SumUnlimited | Sources/ComposableArchitecture/Effects/Publishers.Merge.swift:155-158 | the accumulated requests are unlimited exactly when one request was |
| Merging.Merged.constructor | Sources/ComposableArchitecture/Effects/Publishers.Merge.swift:47-52 | both arrays have `count` empty slots; demand and pending are `.none`; nothing forwarded |
| Merging.Merged.ReceiveSubscription | Sources/ComposableArchitecture/Effects/Publishers.Merge.swift:59-70 | an occupied slot cancels the new subscription and stays unchanged; an empty slot is filled and `.unlimited` or `.max(1)` is requested, following the current demand |
| Merging.Merged.SendValueDownstream | Sources/ComposableArchitecture/Effects/Publishers.Merge.swift:73-82 | the value is forwarded; requests made during the call go to `pending` (their sum), not to demand; `recursive` is cleared after |
| Merging.Merged.ReceiveValue | Sources/ComposableArchitecture/Effects/Publishers.Merge.swift:72-101 | unlimited: forward and return the downstream's demand; none: overwrite the slot's buffer, return `.none`, forward nothing; finite: demand becomes `demand - 1 + newDemand + pending`, pending resets, return `.max(1)`; the stub invariant is kept |
| Merging.Merged.AllSlotsEmpty | Sources/ComposableArchitecture/Effects/Publishers.Merge.swift:122-123 | true exactly when every subscription slot is nil |
| Merging.Merged.ForwardCompletion | Sources/ComposableArchitecture/Effects/Publishers.Merge.swift:104-112 | the completion is logged once and marked forwarded; requests made during the call change nothing |
| Merging.Merged.ReceiveCompletion | Sources/ComposableArchitecture/Effects/Publishers.Merge.swift:103-146 | finished: count up, clear the slot, forward only when all sources finished and all slots are nil; failure: ignored once terminated, otherwise clear all slots, cancel every other live subscription and forward it; each completion kind is forwarded at most once |
| Merging.CancelOthers | Sources/ComposableArchitecture/Effects/Publishers.Merge.swift:136-141 | the loop over the snapshot cancels exactly `Others(snapshot, index)` |
| Merging.OthersMembers | Sources/ComposableArchitecture/Effects/Publishers.Merge.swift:139-141 | a subscription is cancelled exactly when it is live at another index |
| Merging.FailingSubscriptionKept | Sources/ComposableArchitecture/Effects/Publishers.Merge.swift:139-141 | the failing source's own subscription is not cancelled |
| Merging.Merged.Request | Sources/ComposableArchitecture/Effects/Publishers.Merge.swift:148-167 | ignored when terminated, finished, zero or already unlimited; added to `pending` during a downstream call; otherwise only `.unlimited` changes demand |
| Merging.Merged.Cancel | Sources/ComposableArchitecture/Effects/Publishers.Merge.swift:169-171 | `cancel` changes nothing |
| Merging.MergeWith | Sources/ComposableArchitecture/Effects/Publishers.Merge.swift:1091-1095 | `merge(with:)` keeps the publishers and their indices and adds one last |
| Merging.Subscribe | Sources/ComposableArchitecture/Effects/Publishers.Merge.swift:1079-1089 | `MergeMany` subscribes one merge of `count == publishers.count`, publisher `i` reporting under index `i` |
| MergeClients.UnlimitedDemand | Sources/ComposableArchitecture/Effects/Publishers.Merge.swift:59-146 | with unlimited demand all values are forwarded in arrival order and completion once, after the last source finishes |
| MergeClients.FiniteDemand | Sources/ComposableArchitecture/Effects/Publishers.Merge.swift:148-167 | a finite request is dropped: values are buffered, overwritten, and never forwarded |
| MergeClients.FirstFailureWins | Sources/ComposableArchitecture/Effects/Publishers.Merge.swift:130-145 | the first failure cancels the other source and is forwarded; a second one is ignored |
| MergeClients.ValueAfterFailure | Sources/ComposableArchitecture/Effects/Publishers.Merge.swift:72-88 | a value that arrives after the merge failed is still forwarded |
| MergeClients.EmptyMerge | Sources/ComposableArchitecture/Effects/Publishers.Merge.swift:1079-1089 | a merge of no publishers forwards no completion |
| Dispatch.Drain | Sources/ComposableArchitecture/Store.swift:84-104 | a finished drain has as many effects as processed actions and processes at least the queued actions |
| Dispatch.DrainEffectAt | Sources/ComposableArchitecture/Store.swift:85-90 | the `i`-th recorded effect is the one the reducer returned for the `i`-th processed action, from the state the actions before it reached |
| Dispatch.DrainEffects | Sources/ComposableArchitecture/Store.swift:84-104 | the same for every index at once: one effect per processed action, each its own action's |
| Dispatch.DrainFuelIrrelevant | Sources/ComposableArchitecture/Store.swift:84-104 | the outcome of the loop does not depend on the fuel bound |
| Dispatch.DrainOrder | Sources/ComposableArchitecture/Store.swift:74-98 | FIFO: the processed actions are the queue followed by the synchronous outputs of each effect in order, each exactly once |
| Dispatch.DrainReplays | Sources/ComposableArchitecture/Store.swift:78-86 | the final state is the reducer folded over the processed actions in order |
| Dispatch.QuietDrainIsReplay | Sources/ComposableArchitecture/Store.swift:84-104 | with effects that emit nothing synchronously, exactly the queued actions run, and the drain aborts exactly when their fold traps |
| Dispatch.SendOrder | Sources/ComposableArchitecture/Store.swift:71-105 | one outer `send` processes its action, then the effects' synchronous outputs in order, ending in the fold of the reducer over them; each recorded effect (the one the table registers) is the one its own action returned |
| Dispatch.QuietSend | Sources/ComposableArchitecture/Store.swift:71-105 | with effects that emit nothing synchronously, `send` stops after one reducer run and keeps its effect |
| Dispatch.CombinedSendAborts | Sources/ComposableArchitecture/Reducer.swift:19-23 | a store whose reducer is a `combine` aborts on its first action |
| Stores.RegisterContents | Sources/ComposableArchitecture/Store.swift:88-103 | exactly the effects that did not complete during subscription get an entry, under their own fresh id, holding their action; older entries stay |
| Stores.Store.constructor | Sources/ComposableArchitecture/Store.swift:128-136 | the store starts idle with the initial state published, an empty table, and the given reducer |
| Stores.NewStore | Sources/ComposableArchitecture/Store.swift:12-24 | the store's reducer is the reducer run with the given environment |
| Stores.Store.Send | Sources/ComposableArchitecture/Store.swift:71-105 | reentrant call: only appends to the buffer; outer call: the state, table and id counter are those of `Dispatch.Drain` over `[action]`, the state is published exactly once, the buffer is empty and `isSending` is reset; a trap aborts |
| Stores.Store.DrainBuffer | Sources/ComposableArchitecture/Store.swift:84-104 | the `while` loop leaves what `Drain` computes from the buffer it started with |
| Stores.Store.ProcessNext | Sources/ComposableArchitecture/Store.swift:85-103 | one turn: the head is reduced, its synchronous outputs join the tail, one fresh id is drawn, and the table gains an entry only for an effect still running |
| Stores.Store.SendAll | Sources/ComposableArchitecture/Store.swift:96-98 | outputs sent during a `send` are appended to the buffer in order, with nothing else changed |
| Stores.Store.CompleteEffect | Sources/ComposableArchitecture/Store.swift:91-95 | an effect's completion removes only its own key |
| Stores.Store.Scope | Sources/ComposableArchitecture/Store.swift:39-63 | the child starts at `toLocalState(parent state)`, forwards through `fromLocalAction`, and projects with `toLocalState` |
| Stores.Store.ScopeState | Sources/ComposableArchitecture/Store.swift:65-69 | `scope(state:)`: an idle child of this store over `toLocalState` of its state, published once, keeping actions unchanged and projecting with `toLocalState` |
| Stores.Store.Stateless | Sources/ComposableArchitecture/Store.swift:107-109 | `stateless`: an idle child of this store whose state is `()`, published once, forwarding actions unchanged |
| Stores.ScopedStore.constructor | Sources/ComposableArchitecture/Store.swift:45-55 | the child store starts with its initial local state published |
| Stores.ScopedStore.Send | Sources/ComposableArchitecture/Store.swift:47-53 | the parent does one outer `send` of `fromLocalAction(a)`; the child's state becomes the projection of the parent's new state, published once |
| Stores.ScopedStore.ParentPublished | Sources/ComposableArchitecture/Store.swift:56-61 | a parent publication is dropped while the child forwards, otherwise projected into the child |
| Stores.IfLetSubscription.StorePublished | Sources/ComposableArchitecture/Store.swift:144-157 | a value of the same presence as the last one let through is skipped; a present one unwraps into a child with sticky projection, an absent one calls `else` |
| Stores.IfLet | Sources/ComposableArchitecture/Store.swift:140-158 | subscribing delivers the current value: `else` if nil; otherwise an idle child of this store on the wrapped value, published once, forwarding actions unchanged, whose projection keeps the last value once the state becomes nil |
| Counter.ThreeTaps | Sources/ComposableArchitecture/Store.swift:71-105 | three sends of an incrementing reducer publish 1, 2 and 3 and leave no effect running |

## Left out

- Locks, threads and the `downstreamLock`: each locked region is one atomic method. Interleavings of two sources are not modelled.
- `threadCheck` does nothing in the source. `originatingFrom` only feeds it, so it is not modelled.
- `UUID()`: replaced by a counter (`nextId`). `AnyCancellable` values: the table keeps the originating action in their place.
- `[weak self]`, deallocation and `deinit`.
- The effect's asynchronous life after subscription. Later outputs of a running effect arrive as ordinary top-level `Send` calls. Its completion arrives as `CompleteEffect`.
- Effects.FireAndForget: the `work` closure is not executed; only the trace it leaves (no output, then finished) is modelled.
- Effects.Future: the attempt is not executed; the model takes its outcome (or its absence, for a promise not yet fulfilled) as a parameter.
- `Effects.Never`: Swift's `Never` is uninhabited. Dafny has no empty type here, so a one-value type stands in, and a reducer's effect could in principle carry `Failed(())`.
- `actionless`: it needs a function out of the uninhabited `Never`, which the stand-in cannot express.
- Scoping a scoped store again (a child of a child): `ScopedStore` scopes a root `Store` only.
- `ViewStore`, the `Merge`…`Merge8` structs and the `merge(with:)` overloads on `Publisher`. Also excluded: the `Equatable` conformances and `description`, `customMirror` and `playgroundDescription`.
- `Subscribers.Demand` arithmetic is done on unbounded naturals. In the runtime, a sum that overflows `Int` becomes `.unlimited`.
- Stores.Store.Send: an outer `send` requires the drain to stop (`DrainTerminates`). In the source, a reducer whose effects keep producing synchronous actions loops forever.
- Stores.Store.CompleteEffect, Stores.ScopedStore.Send and Stores.Store.Scope: all three require the parent store to be idle. A completion, a send to a child store, or a `scope` call that happens while the parent is draining its buffer (from inside an earlier effect's synchronous work) is not modelled.
- Stores.ScopedStore.Send: the child's own buffer and `isSending` flag are not modelled. The child's reducer returns `.none`, and nothing sends to the child while it forwards. So its buffer always holds exactly the one action, and its `.none` effect never enters its table.
- Merging.Merged.ForwardCompletion: on the failure path, `terminated` is set after the other subscriptions are cancelled, not before. Each locked region is atomic and the cancellations are outside calls, so no step in the model can observe the difference.
- Merging.Merged.ReceiveCompletion: `self.subscriptions` is cleared slot by slot in place. The source assigns a fresh array of the same count. The length never changes in either.
- Merging.Merged.SendValueDownstream: the `request` calls that the downstream makes during a value delivery are a parameter. Any other reentrant call (a value or completion from another source) is not modelled during that window.
