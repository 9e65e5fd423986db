// Chaining on a CancellablePromise (`then`, `map`, `asVoid`) and the `ensure`
// blocks through which `when(_:while:)`, `when(fulfilled:)`, `when(resolved:)` and
// `race` cancel their inputs when `autoCancel` is set.
//
// A derived promise is created over the promise PromiseKit's `then` or `map`
// returns: already rejected when the parent already is, and otherwise pending
// until PromiseKit runs the continuation (`asVoid` runs its transform at once).
// Each of those later moments is its own method here, called with what the
// continuation or the transform produced.

module Chaining {
  import opened Promises
  import opened While
  import opened Cancellation

  /** What the `then` continuation did with the parent's value */
  datatype Continuation =
    | Produces(child: CancellablePromise)  // it returned a CancellablePromise
    | Throws(error: Error)                 // it threw

  /** What PromiseKit's `then` and `map` on the main queue have made of the parent when they return:
      a rejection is passed on at once, a fulfilment waits for the queued continuation */
  function Queued(parent: Cell<Value>): Cell<Value>
  {
    if IsRejected(parent) then parent else Pending
  }

  /** What `map(on: nil)` has made of the parent when it returns: the transform runs at once */
  function Immediate(parent: Cell<Value>, transform: Value -> Outcome<Value>): Cell<Value>
  {
    if parent.Settled? then Settled(MapOutcome(parent.outcome, transform)) else Pending
  }

  /** `then(_:)` and `map(_:)` build their result with `init(using:cancel:)` over the promise PromiseKit
      returns, handing over the parent's `cancel` as the abort action; the parent itself is left as
      it was */
  method Derive(rt: Runtime, parent: CancellablePromise) returns (d: CancellablePromise)
    requires rt.Valid() && parent in rt.graph
    modifies rt`graph, rt`queue
    ensures fresh(d) && rt.Valid() && rt.graph.Keys == old(rt.graph.Keys) + {d}
    ensures rt.queue == old(rt.queue)
    ensures d.cancelFunction == CancelOf(parent) && d.State() == Start(Queued(parent.result))
    ensures IsRejected(parent.result) ==> d.result == parent.result && !rt.graph[d].pending
    ensures !IsRejected(parent.result) ==> d.result.Pending? && rt.graph[d].pending
    ensures !d.isCancelled && d.subsequentCancels == []
  {
    d := CancellablePromise.Using(rt, Queued(parent.result), CancelOf(parent));
    assert Delivery(d, Queued(parent.result)) == [];
  }

  /** `asVoid()`, which is `map(on: nil) { _ in }`: over a parent that has settled, the result's body is
      settled at once, and a fulfilment queues the result's own `map` block */
  method DeriveVoid(rt: Runtime, parent: CancellablePromise) returns (d: CancellablePromise)
    requires rt.Valid() && parent in rt.graph
    modifies rt`graph, rt`queue
    ensures fresh(d) && rt.Valid() && rt.graph.Keys == old(rt.graph.Keys) + {d}
    ensures rt.queue == old(rt.queue) + Delivery(d, Immediate(parent.result, ToVoid))
    ensures d.cancelFunction == CancelOf(parent) && d.State() == Start(Immediate(parent.result, ToVoid))
    ensures IsFulfilled(parent.result) ==> d.body == Settled(Fulfilled(Void)) && rt.queue == old(rt.queue) + [Deliver(d)]
    ensures IsRejected(parent.result) ==> d.result == parent.result && !rt.graph[d].pending
    ensures !d.isCancelled && d.subsequentCancels == []
  {
    d := CancellablePromise.Using(rt, Immediate(parent.result, ToVoid), CancelOf(parent));
  }

  /** A derived promise born rejected is not pending, so cancelling it flags it and nothing more: its
      parent's `cancel` is not called and no rejection is queued */
  lemma CancelBornRejected(g: Graph, d: CancellablePromise, parent: CancellablePromise, fuel: nat, w: World)
    requires Closed(g) && d in g && fuel > 0
    requires g[d] == Node([], false, CancelOf(parent))
    ensures AfterCancel(g, d, fuel, w) == World(w.log + [Entered(d)], w.queue, w.entered + {d})
  {
    var marked := World(w.log + [Entered(d)], w.queue, w.entered + {d});
    assert AfterFan(g, g[d].subsequent, fuel - 1, marked) == marked;
  }

  /** Cancelling a derived promise that is still pending cancels the parent it came from, and
      queues the rejection of its own token, which rejects it with `Cancelled` once run */
  lemma CancelDerived(g: Graph, d: CancellablePromise, parent: CancellablePromise, fuel: nat, w: World)
    requires Closed(g) && d in g && fuel > 1
    requires g[d].pending && g[d].abort == CancelOf(parent)
    ensures var w2 := AfterCancel(g, d, fuel, w);
      && parent in w2.entered && d in w2.entered
      && w.queue < w2.queue && w2.queue[|w2.queue| - 1] == RejectToken(d)
  {
    CancelReachesSource(g, d, fuel, w);
    CancelFlags(g, d, fuel, w);
    CancelPendingSchedulesRejection(g, d, fuel, w);
  }

  /** The parent of a `then` settled. A rejection passes to the derived promise and the continuation
      does not run. A fulfilment runs it: a thrown error rejects the derived promise; a child is
      cancelled at once when the parent is already cancelled, and is then registered in the parent's
      subsequent cancels */
  method ThenSettled(rt: Runtime, parent: CancellablePromise, d: CancellablePromise, k: Continuation, fuel: nat)
    requires rt.Valid() && parent in rt.graph && d in rt.graph && d != parent
    requires parent.result.Settled?
    requires k.Produces? ==> k.child in rt.graph
    modifies rt`log, rt`queue, rt`entered, rt`graph, rt.graph.Keys`isCancelled, parent`subsequentCancels,
      d`body, d`result
    ensures rt.Valid() && rt.graph.Keys == old(rt.graph.Keys)
    ensures IsRejected(parent.result) ==>
      && d.State() == Observe(old(d.State()), Input(Primary(parent.result.outcome)))
      && parent.subsequentCancels == old(parent.subsequentCancels) && rt.Now() == old(rt.Now())
    ensures IsFulfilled(parent.result) && k.Throws? ==>
      && d.State() == Observe(old(d.State()), Input(Primary(Rejected(k.error))))
      && parent.subsequentCancels == old(parent.subsequentCancels) && rt.Now() == old(rt.Now())
    ensures IsFulfilled(parent.result) && k.Produces? ==>
      && d.State() == old(d.State())
      && parent.subsequentCancels == old(parent.subsequentCancels) + [k.child]
      && rt.Now() == (if old(parent.isCancelled) then AfterCancel(old(rt.graph), k.child, fuel, old(rt.Now())) else old(rt.Now()))
      && (old(parent.isCancelled) && fuel > 0 ==> k.child.isCancelled)
  {
    if parent.result.outcome.Rejected? {
      d.SettleBody(rt, parent.result.outcome);
    } else {
      match k
      case Throws(e) =>
        d.SettleBody(rt, Rejected(e));
      case Produces(child) =>
        Adopt(rt, parent, child, fuel);
    }
  }

  /** The continuation of a `then` produced `child`: it is cancelled at once when the parent is
      already cancelled, and is then registered in the parent's subsequent cancels */
  method Adopt(rt: Runtime, parent: CancellablePromise, child: CancellablePromise, fuel: nat)
    requires rt.Valid() && parent in rt.graph && child in rt.graph
    modifies rt`log, rt`queue, rt`entered, rt`graph, rt.graph.Keys`isCancelled, parent`subsequentCancels
    ensures rt.Valid() && rt.graph.Keys == old(rt.graph.Keys)
    ensures parent.subsequentCancels == old(parent.subsequentCancels) + [child]
    ensures rt.Now() == if old(parent.isCancelled) then AfterCancel(old(rt.graph), child, fuel, old(rt.Now())) else old(rt.Now())
    ensures old(parent.isCancelled) && fuel > 0 ==> child.isCancelled
  {
    if parent.isCancelled {
      ghost var w0 := rt.Now();
      child.Cancel(rt, fuel);
      CancelExtends(rt.graph, child, fuel, w0);
      if fuel > 0 {
        CancelFlags(rt.graph, child, fuel, w0);
      }
    }
    Register(rt, parent, child);
  }

  /** `self.subsequentCancels.append(cancellablePromise.cancel)` */
  method Register(rt: Runtime, parent: CancellablePromise, child: CancellablePromise)
    requires rt.Valid() && parent in rt.graph && child in rt.graph
    modifies rt`graph, parent`subsequentCancels
    ensures rt.Valid() && rt.graph.Keys == old(rt.graph.Keys)
    ensures parent.subsequentCancels == old(parent.subsequentCancels) + [child]
  {
    parent.subsequentCancels := parent.subsequentCancels + [child];
    rt.graph := rt.graph[parent := parent.Snapshot()];
  }

  /** The child a `then` continuation produced settled: the derived promise's body settles the same
      way, and a fulfilment waits for the derived promise's own `map` block */
  method ChildSettled(rt: Runtime, child: CancellablePromise, d: CancellablePromise)
    requires rt.Valid() && d in rt.graph && child.result.Settled?
    modifies d`body, d`result, rt`graph, rt`queue
    ensures rt.Valid() && rt.graph.Keys == old(rt.graph.Keys)
    ensures d.State() == Observe(old(d.State()), Input(Primary(old(child.result).outcome)))
    ensures rt.queue == old(rt.queue) +
      if old(d.body.Pending? && d.result.Pending?) then Delivery(d, old(child.result)) else []
  {
    d.SettleBody(rt, child.result.outcome);
  }

  /** What `map` makes of the parent's settlement: a fulfilment goes through the transform (which
      may throw), a rejection passes unchanged and the transform is not applied */
  function MapOutcome(o: Outcome<Value>, transform: Value -> Outcome<Value>): Outcome<Value>
  {
    match o
    case Fulfilled(v) => transform(v)
    case Rejected(e) => Rejected(e)
  }

  /** The parent of a `map` settled */
  method MapSettled(rt: Runtime, parent: CancellablePromise, m: CancellablePromise, transform: Value -> Outcome<Value>)
    requires rt.Valid() && m in rt.graph && parent.result.Settled?
    modifies m`body, m`result, rt`graph, rt`queue
    ensures rt.Valid() && rt.graph.Keys == old(rt.graph.Keys)
    ensures m.State() == Observe(old(m.State()), Input(Primary(MapOutcome(old(parent.result).outcome, transform))))
    ensures rt.queue == old(rt.queue) +
      if old(m.body.Pending? && m.result.Pending?)
      then Delivery(m, Settled(MapOutcome(old(parent.result).outcome, transform))) else []
  {
    m.SettleBody(rt, MapOutcome(parent.result.outcome, transform));
  }

  /** The transform of `asVoid()` */
  function ToVoid(v: Value): Outcome<Value>
  {
    Fulfilled(Void)
  }

  /** `map` applies its transform to the parent's value and passes a rejection on */
  lemma MapMeaning(o: Outcome<Value>, transform: Value -> Outcome<Value>)
    ensures o.Fulfilled? ==> MapOutcome(o, transform) == transform(o.value)
    ensures o.Rejected? ==> MapOutcome(o, transform) == o
  {
  }

  /** Mapping twice is mapping once with the two transforms chained */
  lemma MapTwice(o: Outcome<Value>, f: Value -> Outcome<Value>, g: Value -> Outcome<Value>)
    ensures MapOutcome(MapOutcome(o, f), g) == MapOutcome(o, v => MapOutcome(f(v), g))
  {
  }

  /** `asVoid()` fulfils with `Void` exactly when the parent fulfils, and otherwise keeps its error */
  lemma AsVoidMeaning(o: Outcome<Value>)
    ensures MapOutcome(o, ToVoid).Fulfilled? <==> o.Fulfilled?
    ensures MapOutcome(o, ToVoid) == if o.Fulfilled? then Fulfilled(Void) else o
    ensures AsVoid(MapOutcome(o, ToVoid)) == AsVoid(o)
  {
  }

  // ---------------------------------------------------------------------------
  // The `ensure` blocks of the combinators

  /** `ensure { if autoCancel { cancellablePromise.cancel() } }` of `when(_:while:)`, run once the
      returned promise settles, whatever its outcome */
  method EnsureCancel(rt: Runtime, p: CancellablePromise, autoCancel: bool, fuel: nat)
    requires rt.Valid() && p in rt.graph
    modifies rt`log, rt`queue, rt`entered, rt.graph.Keys`isCancelled
    ensures rt.Valid()
    ensures rt.Now() == if autoCancel then AfterCancel(rt.graph, p, fuel, old(rt.Now())) else old(rt.Now())
    ensures autoCancel && fuel > 0 ==> p.isCancelled
    ensures !autoCancel ==> forall q :: q in rt.graph ==> q.isCancelled == old(q.isCancelled)
  {
    if autoCancel {
      ghost var w0 := rt.Now();
      p.Cancel(rt, fuel);
      CancelExtends(rt.graph, p, fuel, w0);
      if fuel > 0 {
        CancelFlags(rt.graph, p, fuel, w0);
      }
    }
  }

  /** `ensure { if autoCancel { cancelAll(in: cancellablePromises) } }` of `when(fulfilled:)`,
      `when(resolved:)` and `race`, run once the aggregate settles, whatever its outcome */
  method EnsureCancelAll(rt: Runtime, members: seq<CancellablePromise>, autoCancel: bool, fuel: nat)
    requires rt.Valid() && forall m :: m in members ==> m in rt.graph
    modifies rt`log, rt`queue, rt`entered, rt.graph.Keys`isCancelled
    ensures rt.Valid()
    ensures rt.Now() == if autoCancel then AfterFan(rt.graph, members, fuel, old(rt.Now())) else old(rt.Now())
    ensures autoCancel && fuel > 0 ==> forall m :: m in members ==> m.isCancelled
    ensures !autoCancel ==> forall q :: q in rt.graph ==> q.isCancelled == old(q.isCancelled)
  {
    if autoCancel {
      ghost var w0 := rt.Now();
      CancelAll(rt, members, fuel);
      FanExtends(rt.graph, members, fuel, w0);
      if fuel > 0 {
        FanFlags(rt.graph, members, fuel, w0);
      }
    }
  }
}
