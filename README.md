# CancellablePromiseKit cancellation core, in Dafny

CancellablePromiseKit layers cancellation on top of PromiseKit. A `CancellablePromise` has these parts:

- the promise its body returned;
- a cancellation token (`cancelPromise`);
- an abort action (`cancelFunction`);
- a monotonic `isCancelled` flag;
- an append-only list `subsequentCancels` of the children whose `cancel` must run when it is cancelled.

The promise it exposes is `when(body(cancelPromise), while: cancelPromise)`. It follows the body until the token is rejected. A rejection of the body reaches it at once; a fulfilment reaches it only when the block that `map` queued on the main queue runs.

`cancel()` does three things:

1. it sets the flag;
2. it cancels every registered child in order;
3. if the exposed promise is still pending, it calls the abort action and queues the token's rejection with `cancelled` on the main dispatch queue.

`deinit` queues the token's fulfilment instead.

On top of this sit:

- `then`, which registers the child's cancel in the parent and cancels the child at once if the parent is already cancelled;
- `map` and `asVoid`, whose result cancels its parent;
- `Promise.asCancellable()`;
- the decision rule `when(_:while:isEnsured:)`;
- the collection combinators `race`, `when(fulfilled:)` and `when(resolved:)`, whose `autoCancel` policy is an `ensure` block calling `cancelAll`.

The model has five modules:

- `Promises` (`promises.dfy`): PromiseKit's single-assignment promise as a `Cell` (`Pending | Settled(Fulfilled(v) | Rejected(e))`), with the error datatype `Cancelled | BadInput | Underlying(code)`.
  - PromiseKit's own `race`, `when(fulfilled:)` and `when(resolved:)` are stated as functions of a settlement trace, a sequence of (member, outcome) arrivals in the order the combinator observes them. PromiseKit subscribes to the members in list order, so the members already settled at the call come first, in list order; later settlements follow in the order they happen.
  - These are assumed contracts of PromiseKit, which is not part of this model. The lemmas only spell out what the assumptions imply.
- `While` (`when_while.dfy`): `when(_:while:isEnsured:)` written literally as the source composes it, `when(fulfilled: [p.asVoid(), race([p.asVoid(), c.asVoid()])]).map { ... }`, over a trace of the two inputs' settlements.
  - `Decisive` is an independent reference definition: the first decisive event wins.
  - `WhenWhileMeaning` proves that the composition and the reference agree.
  - `Delivered` adds the moment at which the `map` block runs, over a trace of `Moment`s (an input settles, or the block runs); its lemmas show that only the timing of a fulfilment, and with `isEnsured` the condition the closure reads, depend on it.
- `Combinators` (`combinators.dfy`): the aggregates `CancellablePromise { token in when(K(members), while: token) }` over a trace of member settlements and token settlements.
  - The wrapper initialiser wraps the body once more with the same token.
  - `WrappedMeaning` proves that the double composition, with the queued `map` and `ensure` blocks collapsed into the settlements that queue them, equals a reference rule: the combinator decides, unless the token is rejected first. What the collapse leaves out is listed under "## Left out".
- `Cancellation` (`cancellable_promise.dfy`): the `CancellablePromise` class with its mutable fields, and a `Runtime` class holding the main dispatch queue as a FIFO of jobs and the record of cancellation steps.
  - `cancel()` is an imperative method proved against `AfterCancel`, a function of the promise graph and of the runtime's observable state. The lemmas about `AfterCancel` state what a cancellation does.
  - The main queue holds three kinds of blocks: the token's rejection, the token's fulfilment, and the `map` block delivering the body's value (`Deliver`).
  - The class keeps the body, the token and the exposed promise as three cells. `ObserveFollowsTrace` and `ReplayFollowsTrace` prove that their updates are exactly what `when(_:while:)` and its `map` block make of the moments seen.
- `Chaining` (`chaining.dfy`): the continuations of `then` and `map`, and the `ensure` blocks through which the combinators cancel their inputs.

Each later moment of a chain is its own method, taking what the user code produced as a parameter:

- the parent settling;
- the continuation returning a child or throwing;
- the queued block running.

## Model

| member | source | states |
|---|---|---|
| Promises.Resolve | Sources/CancellablePromiseKit/Classes/CancellablePromise.swift:64-66 | after `resolver.reject(error)` the promise is settled: a pending promise with exactly that outcome, a promise the body had settled already unchanged |
| Promises.AsVoid | Sources/CancellablePromiseKit/Classes/when.swift:19 | `asVoid()` fulfils exactly when its input fulfils, and a rejection keeps its error |
| Promises.WhenFulfilledAllFulfilled | Sources/CancellablePromiseKit/Classes/when.swift:53 | assumed `when(fulfilled:)`: once all n members have fulfilled, it fulfils with n values, value i being member i's value (list order, not settlement order) |
| Promises.WhenFulfilledFirstRejection | Sources/CancellablePromiseKit/Classes/when.swift:53 | assumed `when(fulfilled:)`: the first rejection in the order the combinator observes settlements is the aggregate's error, whatever its member index (among members rejected before the call, the lowest index) |
| Promises.WhenFulfilledWaits | Sources/CancellablePromiseKit/Classes/when.swift:53 | assumed `when(fulfilled:)`: with no rejection and some member pending, it stays pending |
| Promises.WhenResolvedMeaning | Sources/CancellablePromiseKit/Classes/when.swift:72 | assumed `when(resolved:)`: never rejects; settled iff every member has settled; then it holds n outcomes, outcome i being member i's |
| Promises.RaceStable | CancellablePromiseKit/Classes/race.swift:18 | assumed `race`: once settled (by the first arrival, or at once with `badInput` over no members), later arrivals change nothing (holds by unfolding the definition) |
| Promises.WhenFulfilledStable | Sources/CancellablePromiseKit/Classes/when.swift:53 | assumed `when(fulfilled:)`: once settled, later valid arrivals change nothing |
| Promises.WhenResolvedStable | Sources/CancellablePromiseKit/Classes/when.swift:72 | assumed `when(resolved:)`: once settled, later valid arrivals change nothing |
| While.GateOpensOnPrimary | Sources/CancellablePromiseKit/Classes/when.swift:23 | whenever the outer `when(fulfilled:)` gate fulfils, the awaited promise has fulfilled, so `promise.value!` never traps |
| While.GateMeaning | Sources/CancellablePromiseKit/Classes/when.swift:19 | the gate fulfils iff the first decisive event is a fulfilment of the awaited promise, and rejects iff it is a rejection, with the same error |
| While.WhenWhileMeaning | Sources/CancellablePromiseKit/Classes/when.swift:18-25 | for a `map` closure that runs right after the settlements seen, `when(_:while:isEnsured:)` equals the reference "first decisive event wins", except that with `isEnsured` a fulfilment becomes `cancelled` when the condition is rejected by then |
| While.LegacyMatches | CancellablePromiseKit/Classes/when.swift:15-19 | the older `when(_:while:)` is the current one with `isEnsured == false` (holds by unfolding the two definitions) |
| While.ConditionRejectionAborts | Sources/CancellablePromiseKit/Classes/when.swift:19 | a condition rejection before the awaited promise settles rejects the result with that error, whatever the awaited promise does later |
| While.PrimaryDecides | Sources/CancellablePromiseKit/Classes/when.swift:19-24 | without `isEnsured`, the awaited promise settling before any condition rejection decides the result, whatever the condition does afterwards |
| While.EnsuredLateRejectionCancels | Sources/CancellablePromiseKit/Classes/when.swift:19-23 | with `isEnsured`, a condition rejected after the awaited promise fulfilled but before the `map` block runs turns the result into `cancelled`, and once the block has run a late rejection changes nothing; without `isEnsured` the value stands in both orders |
| While.UnrejectedConditionIsTransparent | Sources/CancellablePromiseKit/Classes/when.swift:19-23 | a pending or fulfilled condition leaves the result equal to the awaited promise |
| While.WhenWhilePending | Sources/CancellablePromiseKit/Classes/when.swift:19 | the result is pending iff the awaited promise is pending and the condition has not rejected |
| While.WhenWhileStable | Sources/CancellablePromiseKit/Classes/when.swift:19-24 | without `isEnsured`, a settled result never changes again |
| While.TokenRejectionDecides | Sources/CancellablePromiseKit/Classes/when.swift:19 | a token rejection while the result is pending rejects the result with the token's error |
| While.DeliveredDecisive | Sources/CancellablePromiseKit/Classes/when.swift:19-24 | the returned promise follows the reference rule apart from timing: nothing is delivered while the rule is undecided, a rejection is delivered at once, and a delivered fulfilment is the rule's value, or `cancelled` with `isEnsured` |
| While.DeliveredStable | Sources/CancellablePromiseKit/Classes/when.swift:19-24 | with or without `isEnsured`, a delivered outcome never changes, whatever happens later |
| While.NoFulfilmentBeforeMap | Sources/CancellablePromiseKit/Classes/when.swift:19 | until the `map` block runs, only a rejection can be delivered, never a fulfilment |
| While.MapRunDelivers | Sources/CancellablePromiseKit/Classes/when.swift:19-24 | the `map` block running after the rule decided for a fulfilment delivers the awaited value, or `cancelled` with `isEnsured` when the condition is rejected by then |
| While.DeliveredNext | Sources/CancellablePromiseKit/Classes/when.swift:19-24 | without `isEnsured`, one more moment: a rejection of the awaited promise, or of the condition while the awaited promise is pending, rejects the result at once; the `map` block delivers the awaited value once it has fulfilled; nothing else changes the result |
| Combinators.MapValuesMeaning | CancellablePromiseKit/Classes/when.swift:57 | assumed `mapValues`: pending iff its input is pending, a rejection passes unchanged, and a fulfilment maps every element (holds by unfolding the definition) |
| Combinators.GuardedWhile | Sources/CancellablePromiseKit/Classes/when.swift:18-25 | one `when(source, while: token)` layer over a stable source is the reference rule: the source decides unless the token is rejected first, which gives `cancelled` |
| Combinators.ShieldTwice | Sources/CancellablePromiseKit/Classes/CancellablePromise.swift:51 | with the inner `map` block collapsed, wrapping a second time with the same token changes nothing |
| Combinators.WrappedMeaning | Sources/CancellablePromiseKit/Classes/CancellablePromise.swift:49-53 | the wrapper initialiser's double `when(_:while:)` over a combinator, with its queued blocks collapsed, equals the reference rule over that combinator |
| Combinators.AggregateFollowsMembers | Sources/CancellablePromiseKit/Classes/when.swift:52-54 | what the combinator decides before any token rejection is the aggregate's outcome, for good |
| Combinators.AggregateCancelled | Sources/CancellablePromiseKit/Classes/when.swift:52-54 | a token rejection while the combinator is pending rejects the aggregate with `cancelled`, whatever the members do later |
| Combinators.RaceFirstSettledWins | CancellablePromiseKit/Classes/race.swift:16-25 | the race aggregate settles with the first member settlement the race observes, value or error, unless its token was rejected before; members settled before the call are observed in list order |
| Combinators.RaceCancelledFirst | CancellablePromiseKit/Classes/race.swift:17-19 | over at least one member, a token rejection before any member settles rejects the race aggregate with `cancelled` |
| Combinators.RaceEmptyRejects | CancellablePromiseKit/Classes/race.swift:16-19 | a race over no members is rejected with `badInput` once its `ensure` block, queued at construction, has run; a later token rejection changes nothing |
| Combinators.WhenFulfilledAggregateValues | Sources/CancellablePromiseKit/Classes/when.swift:51-60 | all members fulfilled before any token rejection: the aggregate fulfils with n values, in list order |
| Combinators.WhenFulfilledAggregateRejects | Sources/CancellablePromiseKit/Classes/when.swift:51-60 | the first member rejection the members' `when(fulfilled:)` observes, before any token rejection, rejects the aggregate with that error; members settled before the call are observed in list order |
| Combinators.WhenFulfilledAggregateCancelled | Sources/CancellablePromiseKit/Classes/when.swift:51-60 | a token rejection while the members' `when(fulfilled:)` is pending rejects the aggregate with `cancelled` |
| Combinators.WhenResolvedAggregateOutcomes | Sources/CancellablePromiseKit/Classes/when.swift:70-80 | all members settled before any token rejection: the aggregate fulfils with the n outcomes, in list order |
| Combinators.WhenResolvedAggregateRejectsOnlyCancelled | Sources/CancellablePromiseKit/Classes/when.swift:70-80 | a member's failure never rejects the aggregate; its only possible error is `cancelled` |
| Combinators.WhenResolvedAggregateCancelled | Sources/CancellablePromiseKit/Classes/when.swift:70-80 | a token rejection before every member has settled rejects the aggregate with `cancelled` |
| Combinators.LegacyWhenResolvedMatches | CancellablePromiseKit/Classes/when.swift:54-64 | the older `when(resolved:)`, with its identity `mapValues`, is the same aggregate as the current one |
| Combinators.AsCancellableFollowsBase | CancellablePromiseKit/Classes/Promise+CancellablePromise.swift:15-19 | with the inner `map` block collapsed, and unless cancelled first, `asCancellable()` settles as the base promise: its value, or its error unchanged |
| Combinators.AsCancellableCancelled | CancellablePromiseKit/Classes/Promise+CancellablePromise.swift:16-17 | cancelling the wrapper while the base promise is pending rejects it with `cancelled` |
| Cancellation.TokenOutcome | Sources/CancellablePromiseKit/Classes/CancellablePromise.swift:43-45 | a queued token block rejects the token, with `cancelled`, exactly when it was queued by `cancel()`; the block `deinit` queues fulfils it |
| Cancellation.Runtime.RunNext | Sources/CancellablePromiseKit/Classes/CancellablePromise.swift:43-45 | the main queue runs its oldest block, first in first out; that block's promise sees its token settle, or its `map` block run, as `Observe` says |
| Cancellation.CancellablePromise.Init | Sources/CancellablePromiseKit/Classes/CancellablePromise.swift:49-53 | a new promise is not cancelled, has no subsequent cancels and a pending token; the exposed promise is rejected at once with a rejected body, and otherwise pending, with the `map` block queued when the body has already fulfilled; the given abort is installed |
| Cancellation.CancellablePromise.Using | Sources/CancellablePromiseKit/Classes/CancellablePromise.swift:55-57 | `init(using:cancel:)` is the designated initialiser with a body that ignores the token |
| Cancellation.CancellablePromise.WithResolver | Sources/CancellablePromiseKit/Classes/CancellablePromise.swift:59-68 | a body that returns installs its abort; a body that throws rejects the promise with exactly that error, unless the body had already settled it, and installs the no-op abort |
| Cancellation.CancellablePromise.Wrapper | Sources/CancellablePromiseKit/Classes/CancellablePromise.swift:70-72 | `init(wrapper:)` installs the no-op abort |
| Cancellation.CancellablePromise.SettleBody | Sources/CancellablePromiseKit/Classes/CancellablePromise.swift:51 | the body's promise settling is one `Observe` step: a rejection reaches the exposed promise at once; a fulfilment leaves it pending and queues its `map` block, behind the blocks already queued |
| Cancellation.CancellablePromise.SettleToken | Sources/CancellablePromiseKit/Classes/CancellablePromise.swift:51 | the token settling is one `Observe` step: its rejection rejects the exposed promise only while the body's promise is pending |
| Cancellation.CancellablePromise.RunMap | Sources/CancellablePromiseKit/Classes/when.swift:19-24 | the `map` block of the exposed promise delivers the body's value, whatever the token did in between |
| Cancellation.CancellablePromise.Dispose | Sources/CancellablePromiseKit/Classes/CancellablePromise.swift:74-80 | `deinit` only queues the token's fulfilment, behind every queued block, and never a rejection |
| Cancellation.CancellablePromise.Cancel | Sources/CancellablePromiseKit/Classes/CancellablePromise.swift:37-47 | `cancel()` changes the runtime exactly as `AfterCancel` says and keeps the flags in step with the promises entered |
| Cancellation.CancellablePromise.MarkCancelled | Sources/CancellablePromiseKit/Classes/CancellablePromise.swift:38 | `isCancelled = true`, recorded as the promise being entered |
| Cancellation.CancellablePromise.AbortIfPending | Sources/CancellablePromiseKit/Classes/CancellablePromise.swift:40-46 | only when pending: the abort is recorded and run (the parent's `cancel` for a derived promise), then the token's rejection is queued last |
| Cancellation.CancelAll | Sources/CancellablePromiseKit/Classes/CancellablePromise.swift:96-100 | `cancelAll(in:)` (and the `forEach` of line 39) changes the runtime exactly as `AfterFan` says: cancel each member in order |
| Cancellation.StartFollowsTrace | Sources/CancellablePromiseKit/Classes/CancellablePromise.swift:51 | a new promise's cells are those of `when(_:while:)` having seen only the body's settlement, if any, and no `map` block |
| Cancellation.ObserveFollowsTrace | Sources/CancellablePromiseKit/Classes/CancellablePromise.swift:51 | one `Observe` step is what `when(_:while:)` and its `map` block (`Delivered`) make of one more moment, or nothing when that input already settled |
| Cancellation.ReplayFollowsTrace | Sources/CancellablePromiseKit/Classes/CancellablePromise.swift:51 | in whatever order the body, the token and the `map` block come, the cells are those of `when(_:while:)` over the moments it saw |
| Cancellation.CancelledStaysCancelled | Sources/CancellablePromiseKit/Classes/CancellablePromise.swift:43-45 | once the queued rejection has run on a promise whose body is pending, the exposed promise is rejected with `cancelled`, whatever the body does afterwards |
| Cancellation.CancelAfterFulfilmentDelivers | Sources/CancellablePromiseKit/Classes/CancellablePromise.swift:40-45 | a promise whose body fulfilled before its `map` block ran is still pending, so `cancel()` queues a rejection; in either order of the two blocks the exposed promise fulfils with the body's value and only the token is rejected |
| Cancellation.ResultSettledStays | Sources/CancellablePromiseKit/Classes/CancellablePromise.swift:51 | a settled exposed promise never changes again |
| Cancellation.CancelExtends | Sources/CancellablePromiseKit/Classes/CancellablePromise.swift:37-46 | a cancellation only appends to the step record and to the queue, and only adds flagged promises: `isCancelled` is never reset |
| Cancellation.CancelTouchesOnlyPending | Sources/CancellablePromiseKit/Classes/CancellablePromise.swift:40-45 | for a promise already settled, a cancellation neither calls the abort nor queues a token rejection; it queues nothing but rejections, behind the blocks already queued |
| Cancellation.CancelFlags | Sources/CancellablePromiseKit/Classes/CancellablePromise.swift:37-38 | after `cancel()` the promise is flagged, whatever its settlement state |
| Cancellation.FanFlags | Sources/CancellablePromiseKit/Classes/CancellablePromise.swift:96-100 | `cancelAll` flags every member |
| Cancellation.FanInOrder | Sources/CancellablePromiseKit/Classes/CancellablePromise.swift:96-100 | cancelling `a + b` cancels the whole of `a` first, then `b`: list order |
| Cancellation.CancelReachesSubsequent | Sources/CancellablePromiseKit/Classes/CancellablePromise.swift:39 | every registered subsequent cancel is reached, settled or not, on every call |
| Cancellation.CancelReachesSource | Sources/CancellablePromiseKit/Classes/CancellablePromise.swift:40-41 | cancelling a pending promise whose abort is another promise's `cancel` flags that promise |
| Cancellation.CancelPendingSchedulesRejection | Sources/CancellablePromiseKit/Classes/CancellablePromise.swift:40-45 | cancelling a pending promise calls its abort and queues its token's rejection last, behind every block queued before |
| Cancellation.CancelTwiceAbortsTwice | Sources/CancellablePromiseKit/Classes/CancellablePromise.swift:40-45 | two cancels before the queued rejection runs call the abort twice and queue two rejections |
| Chaining.Derive | Sources/CancellablePromiseKit/Classes/then.swift:15-23 | the result of `then` (and of `map`) is a new promise whose abort is the parent's `cancel`: rejected at birth, and so not pending, when the parent is already rejected, and pending otherwise; nothing is queued and the parent is untouched |
| Chaining.DeriveVoid | CancellablePromiseKit/Classes/map.swift:13-19 | the result of `asVoid()` sees the parent's settlement at once: born with a `Void` body and its `map` block queued over a fulfilled parent, rejected with the parent's error over a rejected one, pending otherwise |
| Chaining.CancelBornRejected | Sources/CancellablePromiseKit/Classes/CancellablePromise.swift:37-46 | cancelling a derived promise born rejected only flags it: the parent's `cancel` is not called and nothing is queued |
| Chaining.CancelDerived | Sources/CancellablePromiseKit/Classes/then.swift:23 | cancelling a pending derived promise flags its parent and itself, and queues its own token's rejection last |
| Chaining.ThenSettled | Sources/CancellablePromiseKit/Classes/then.swift:15-22 | a parent rejection passes to the derived promise and the continuation does not run; a thrown error rejects it and registers nothing; a produced child is adopted |
| Chaining.Adopt | Sources/CancellablePromiseKit/Classes/then.swift:17-20 | the child is cancelled at once when the parent is already cancelled, and is always appended to the parent's subsequent cancels |
| Chaining.Register | Sources/CancellablePromiseKit/Classes/then.swift:20 | `subsequentCancels` grows by exactly the child at its end |
| Chaining.ChildSettled | Sources/CancellablePromiseKit/Classes/then.swift:21 | the derived promise's body settles as the child did; a fulfilment queues the derived promise's `map` block |
| Chaining.MapSettled | CancellablePromiseKit/Classes/map.swift:14 | the mapped promise's body sees the parent's settlement passed through `MapOutcome`; a fulfilment queues its `map` block |
| Chaining.MapMeaning | CancellablePromiseKit/Classes/map.swift:14 | a fulfilment goes through the transform; a rejection, `cancelled` included, passes unchanged and the transform is not applied (holds by unfolding the definition) |
| Chaining.MapTwice | CancellablePromiseKit/Classes/map.swift:13-15 | mapping twice is mapping once with the transforms chained (holds by unfolding the definitions) |
| Chaining.AsVoidMeaning | CancellablePromiseKit/Classes/map.swift:17-19 | `asVoid()` fulfils with `Void` exactly when the parent fulfils, and otherwise keeps its error (holds by unfolding the definitions) |
| Chaining.EnsureCancel | Sources/CancellablePromiseKit/Classes/when.swift:40-44 | with `autoCancel` the primary is cancelled, as `AfterCancel` says, on every outcome; without it no flag changes and the runtime is unchanged |
| Chaining.EnsureCancelAll | Sources/CancellablePromiseKit/Classes/when.swift:54-58 | with `autoCancel` every member is cancelled in list order (`AfterFan`) and flagged, on every outcome; without it no flag changes; also the `ensure` blocks of race.swift:19-23 and when.swift:74-78 |

## Left out

- PromiseKit itself: `Promise.pending`, `race`, `when(fulfilled:)`, `when(resolved:)`, `mapValues`, `ensure`, `pipe`, `result` and the `Thenable`/`CatchMixin` conformance. They are foreign code. Their behaviour is stated as assumed functions of a settlement trace (`Promises.Race`, `Promises.WhenFulfilled`, `Promises.WhenResolved`, `Combinators.MapValues`), not proved.
- Dispatch queues, `conf.Q.map` and threads. The main queue is an explicit FIFO of jobs (`Runtime.queue`), and running a block is the explicit step `Runtime.RunNext`. Its jobs are the token blocks of `cancel()` and `deinit` and the `map` block of each exposed promise.
- Cancellation.CancelPendingSchedulesRejection: the continuation blocks of `then` and `map` are not jobs of `Runtime.queue`. `Chaining.ThenSettled`, `Chaining.ChildSettled` and `Chaining.MapSettled` are called when those blocks run. "Behind every block queued before" therefore covers only token and `map` blocks.
- Combinators.AggregateFollowsMembers: an aggregate is `CancellablePromise { token in when(K(members), while: token).ensure { ... } }`. Between a member settling and the aggregate settling, Swift runs up to three queued blocks: the inner `map` (fulfilment only), the `ensure` (both outcomes, since PromiseKit's `ensure` seals its promise inside its block), and the outer `map` (fulfilment only). The `Combinators` module collapses them into the member's settlement. In Swift, a token rejection queued before the `ensure` block runs gives `cancelled`, whether the members' rule decided for a fulfilment or for a rejection: the outer `when(_:while:)` still sees its body pending. The model gives the members' outcome whenever the member settlement comes first in the trace. The single-layer delay is modelled in `While.Delivered` and the class layer.
- Combinators.RaceFirstSettledWins: a race won by a member, with a value or with an error, is subject to the same collapse of queued blocks.
- Combinators.WhenFulfilledAggregateValues: subject to the same collapse of queued blocks.
- Combinators.WhenFulfilledAggregateRejects: subject to the same collapse. The first member rejection settles the inner `when(_:while:)` at once, but reaches the outer layer only when the `ensure` block runs, so a token rejection queued before that block gives `cancelled`.
- Combinators.WhenResolvedAggregateOutcomes: `when(resolved:)` always fulfils, so it is subject to the same collapse of queued blocks, plus the `done` block of line 73.
- Combinators.WrappedMeaning: `init(wrapper:)` exposes `when(when(source, while: token), while: token)`. The inner layer passes a fulfilment of the source on only through its queued `map` block. The model collapses that block into the source's settlement. In Swift, a token rejection queued before the inner `map` block runs rejects the outer layer with `cancelled`, although the inner layer alone would have delivered the value. A rejection of the source passes the inner layer at once and is exact.
- Combinators.ShieldTwice: states that the second layer changes nothing only for the collapsed composition. In Swift, the window between the source's fulfilment and the inner `map` block described above is one where the second layer does change the outcome, to `cancelled`.
- Combinators.AsCancellableFollowsBase: `asCancellable()` is `init(wrapper:)` over `when(self, while: token)` and has no `ensure`. It is subject to the inner `map` window of `Combinators.WrappedMeaning`: when the wrapper's `cancel()` has queued the token block before the base fulfils, Swift rejects with `cancelled` while the model gives the base's value.
- `when(_:while:isEnsured:autoCancel:)`, the overload over a `CancellablePromise` (when.swift:34-45): its result is the `While` rule with its trailing `ensure` block collapsed. `Chaining.EnsureCancel` models only that block's effect. PromiseKit's `ensure` settles its promise inside its queued block, for both outcomes. So in Swift even a rejection reaches the caller only when that block runs, not at once as `While.Delivered` says for the overload over a `Promise`. This is the same window as the one under `Combinators.AggregateFollowsMembers`.
- ARC: `deinit` is the explicit method `Dispose`. When it runs is up to the caller.
- User-supplied abort actions are `External(tag)`: the call is recorded, but its effect is not modelled.
- User continuations and transforms are parameters:
  - what a `then` continuation produced is a `Continuation`;
  - a `map` transform is a function giving an outcome, so a throw is a rejection.
- Values are `Void` or an integer item. The generic `T` of the source is not modelled further.
- `Cancellation.CancellablePromise.Cancel`: `cancel()` can recurse without bound in Swift, for example through a `then` child registered in its own abort target. The model bounds the call depth by `fuel` and records `Overflow` when the bound is reached. Its flag and reachability lemmas therefore need enough fuel.
- `file:` and `line:` parameters, and the `on:` queue parameter, are left out: they are diagnostics and scheduling.
- `CancellablePromiseError.cancelled` is the `Cancelled` error. PromiseKit's `CancellableError` protocol and `catch` policies are not modelled.
- `asPromise()` is the `result` field of the class.
- The older `when(fulfilled:)` and `race` default overloads pass `autoCancel: false`. They are `Chaining.EnsureCancelAll` with `autoCancel == false`.
- The older `when(fulfilled:autoCancel:)` has the same text as the current one, so it is modelled by the same aggregate.
- Package.swift, the example app and the tests are not part of this model.

## Behaviour worth knowing

- The abort action can be called more than once. `cancel()` re-checks `isPending` on every call, and the token's rejection settles the promise only when the queued block runs. So two cancels in between call the abort twice and queue two rejections (`CancelTwiceAbortsTwice`). The second rejection finds the token settled and changes nothing (`Observe`).
- `subsequentCancels` is never drained. Every call of `cancel()` reaches every registered child again (`CancelReachesSubsequent` holds for every starting state).
- The token is fulfilled only by `deinit`. `cancel()` rejects it with `cancelled`.
- A promise whose body has fulfilled is still pending until its `map` block runs. A `cancel()` in between calls the abort and queues the token's rejection. The promise still fulfils with the body's value, because that block runs first (`CancelAfterFulfilmentDelivers`).
- With `isEnsured`, what counts is the condition when the `map` block runs, not when the awaited promise fulfilled (`EnsuredLateRejectionCancels`).
- With `when(fulfilled:)`, one member's rejection settles the inner `when(_:while:)` at once. That queues the `ensure` block (when.swift:54-58); when the main queue runs it, with `autoCancel`, it cancels every member, those already fulfilled included. `race` and `when(resolved:)` cancel their members through the same kind of block, which runs once the inner `when(_:while:)` settles, before the aggregate does.
