// The CancellablePromise class: the cancelled flag, the list of subsequent
// cancels, the abort action, the cancel token and the exposed promise
// `when(body(cancelPromise), while: cancelPromise)`, together with the main
// dispatch queue onto which `cancel()` and `deinit` push the settlement of the
// token, and onto which the `map` inside `when(_:while:)` pushes the delivery of
// the body's value.
//
// `cancel()` is specified by `AfterCancel`, a function of the promise graph (what
// a cancellation reads of every promise) and of the runtime's observable state
// (the record of cancellation steps, the queue, the promises entered so far).
// The lemmas at the end of the module state what that function promises.

module Cancellation {
  import opened Promises
  import opened While

  /** The values the modelled promises carry */
  datatype Value = Void | Item(n: int)

  /** What `cancelFunction` does when a pending promise is cancelled */
  datatype Abort =
    | NoAbort                               // `{ }`, given by the wrapper and throwing-resolver initialisers
    | External(tag: nat)                    // an abort action supplied by the caller; its effect is not modelled
    | CancelOf(target: CancellablePromise)  // `cancel` of the promise a then/map result was derived from

  /** A block waiting on the main dispatch queue */
  datatype Job =
    | RejectToken(p: CancellablePromise)    // `cancelResolver.reject(CancellablePromiseError.cancelled)`
    | FulfilToken(p: CancellablePromise)    // `resolver.fulfill(Void())` from `deinit`
    | Deliver(p: CancellablePromise)        // the `map` block of `when(_:while:)`: the body fulfilled

  /** One observable step of a cancellation, in call order */
  datatype Step =
    | Entered(p: CancellablePromise)             // `p.cancel()` was called and set `isCancelled`
    | Aborted(p: CancellablePromise)             // `p.cancelFunction()` was called
    | RejectionScheduled(p: CancellablePromise)  // the rejection of p's token was queued
    | Overflow(p: CancellablePromise)            // the call depth bound of the model was reached at `p.cancel()`

  /** What the body of `init(resolver:)` did: the state it left the resolver in, and how it ended */
  datatype ResolverRun =
    | Returned(resolved: Cell<Value>, abort: Abort)
    | Threw(resolved: Cell<Value>, error: Error)

  /** What a cancellation reads of a promise: its subsequent cancels, whether it is pending, its abort */
  datatype Node = Node(subsequent: seq<CancellablePromise>, pending: bool, abort: Abort)

  type Graph = map<CancellablePromise, Node>

  /** What a cancellation changes: the step record, the main queue, and the promises whose flag it set */
  datatype World = World(log: seq<Step>, queue: seq<Job>, entered: set<CancellablePromise>)

  /** Every promise reachable through a subsequent cancel or an abort is in the graph */
  ghost predicate Closed(g: Graph)
  {
    forall p :: p in g ==>
      && (forall c :: c in g[p].subsequent ==> c in g)
      && (g[p].abort.CancelOf? ==> g[p].abort.target in g)
  }

  /** The promise the body returned, the token, and the exposed promise */
  datatype Cells = Cells(body: Cell<Value>, token: Cell<()>, result: Cell<Value>)

  /** A new promise: the token is pending; the exposed promise is rejected at once when the body's
      promise is, and waits for the `map` block when it has fulfilled */
  function Start(body: Cell<Value>): Cells
  {
    Cells(body, Pending, if IsRejected(body) then body else Pending)
  }

  /** The blocks queued when the body's promise `body` is first seen, by a pending exposed promise */
  function Delivery(p: CancellablePromise, body: Cell<Value>): seq<Job>
  {
    if IsFulfilled(body) then [Deliver(p)] else []
  }

  /** The exposed promise at one moment: one of its inputs settles, or its `map` block runs. A
      rejection reaches it at once, a fulfilment of the body only through the `map` block; a
      promise that has settled ignores later settlements */
  function Observe(c: Cells, x: Moment<Value>): Cells
  {
    match x
    case Input(Primary(o)) =>
      if c.body.Settled? then c
      else Cells(Settled(o), c.token, if c.result.Pending? && o.Rejected? then Settled(o) else c.result)
    case Input(Condition(o)) =>
      if c.token.Settled? then c
      else
        Cells(c.body, Settled(o),
          if c.result.Pending? && c.body.Pending? && o.Rejected? then Settled(Rejected(o.error)) else c.result)
    case MapRuns =>
      if c.result.Pending? && IsFulfilled(c.body) then Cells(c.body, c.token, c.body) else c
  }

  /** How a queued token block settles the token */
  function TokenOutcome(job: Job): (o: Outcome<()>)
    requires !job.Deliver?
    ensures o.Rejected? <==> job.RejectToken?
    ensures o.Rejected? ==> o.error == Cancelled
  {
    match job
    case RejectToken(_) => Rejected(Cancelled)
    case FulfilToken(_) => Fulfilled(())
  }

  /** What running a queued block is, to the promise it belongs to */
  function Run(job: Job): Moment<Value>
  {
    if job.Deliver? then MapRuns else Input(Condition(TokenOutcome(job)))
  }

  class Runtime {
    var queue: seq<Job>
    var log: seq<Step>
    /** What a cancellation reads of each existing promise */
    ghost var graph: Graph
    /** The promises whose `cancel()` has been entered */
    ghost var entered: set<CancellablePromise>

    /** The promise graph agrees with the objects and is closed */
    ghost predicate Coherent()
      reads this`graph, graph.Keys`subsequentCancels, graph.Keys`result
    {
      && (forall p :: p in graph ==> graph[p] == p.Snapshot())
      && Closed(graph)
    }

    /** A promise is flagged exactly when its `cancel()` has been entered */
    ghost predicate Flags()
      reads this`graph, this`entered, graph.Keys`isCancelled
    {
      forall p :: p in graph ==> (p.isCancelled <==> p in entered)
    }

    /** Every queued block belongs to an existing promise */
    ghost predicate Queued()
      reads this`graph, this`queue
    {
      forall j :: 0 <= j < |queue| ==> queue[j].p in graph
    }

    ghost predicate Valid()
      reads this, graph.Keys`subsequentCancels, graph.Keys`result, graph.Keys`isCancelled
    {
      Coherent() && Flags() && Queued()
    }

    ghost function Now(): World
      reads this`log, this`queue, this`entered
    {
      World(log, queue, entered)
    }

    constructor ()
      ensures queue == [] && log == [] && graph == map[]
      ensures Valid()
    {
      queue := [];
      log := [];
      graph := map[];
      entered := {};
    }

    /** A new promise joins the graph; when its body has already fulfilled, its `map` block is queued */
    method Enrol(p: CancellablePromise)
      requires Valid() && p !in graph && p !in entered && !p.isCancelled
      requires p.subsequentCancels == [] && (p.cancelFunction.CancelOf? ==> p.cancelFunction.target in graph)
      modifies this`graph, this`queue
      ensures Valid() && graph.Keys == old(graph.Keys) + {p}
      ensures queue == old(queue) + Delivery(p, p.body)
    {
      graph := graph[p := p.Snapshot()];
      if IsFulfilled(p.body) {
        queue := queue + [Deliver(p)];
      }
    }

    /** The main queue runs its oldest block: the token of that block's promise settles, or the
        body's value is delivered to the exposed promise */
    method RunNext()
      requires Valid() && queue != []
      modifies this`queue, this`graph, queue[0].p`token, queue[0].p`result
      ensures Valid() && graph.Keys == old(graph.Keys)
      ensures queue == old(queue[1..])
      ensures var p := old(queue[0]).p;
        p.State() == Observe(old(p.State()), Run(old(queue[0])))
    {
      var job := queue[0];
      queue := queue[1..];
      if job.Deliver? {
        job.p.RunMap(this);
      } else {
        job.p.SettleToken(this, TokenOutcome(job));
      }
    }
  }

  class CancellablePromise {
    var isCancelled: bool
    var subsequentCancels: seq<CancellablePromise>
    /** The promise the body returned */
    var body: Cell<Value>
    /** `cancelPromise` */
    var token: Cell<()>
    /** `asPromise()`, the promise `when(body(cancelPromise), while: cancelPromise)` */
    var result: Cell<Value>
    const cancelFunction: Abort

    function State(): Cells
      reads this`body, this`token, this`result
    {
      Cells(body, token, result)
    }

    /** What a cancellation reads of this promise */
    ghost function Snapshot(): Node
      reads this`subsequentCancels, this`result
    {
      Node(subsequentCancels, result.Pending?, cancelFunction)
    }

    /** The designated initialiser: a fresh pending token and the body's promise raced against it */
    constructor Init(rt: Runtime, body: Cell<Value>, cancel: Abort)
      requires rt.Valid()
      requires cancel.CancelOf? ==> cancel.target in rt.graph
      modifies rt`graph, rt`queue
      ensures rt.Valid() && rt.graph.Keys == old(rt.graph.Keys) + {this}
      ensures !isCancelled && subsequentCancels == [] && cancelFunction == cancel
      ensures State() == Start(body)
      ensures rt.queue == old(rt.queue) + Delivery(this, body)
    {
      isCancelled := false;
      subsequentCancels := [];
      this.body := body;
      token := Pending;
      result := if IsRejected(body) then body else Pending;
      cancelFunction := cancel;
      new;
      rt.Enrol(this);
    }

    /** `init(using:cancel:)` */
    static method Using(rt: Runtime, promise: Cell<Value>, cancel: Abort) returns (p: CancellablePromise)
      requires rt.Valid()
      requires cancel.CancelOf? ==> cancel.target in rt.graph
      modifies rt`graph, rt`queue
      ensures fresh(p) && rt.Valid() && rt.graph.Keys == old(rt.graph.Keys) + {p}
      ensures !p.isCancelled && p.subsequentCancels == [] && p.cancelFunction == cancel
      ensures p.State() == Start(promise)
      ensures rt.queue == old(rt.queue) + Delivery(p, promise)
    {
      p := new CancellablePromise.Init(rt, promise, cancel);
    }

    /** `init(resolver:)`: the body may settle the resolver; it returns the abort action or throws */
    static method WithResolver(rt: Runtime, run: ResolverRun) returns (p: CancellablePromise)
      requires rt.Valid()
      requires run.Returned? && run.abort.CancelOf? ==> run.abort.target in rt.graph
      modifies rt`graph, rt`queue
      ensures fresh(p) && rt.Valid() && rt.graph.Keys == old(rt.graph.Keys) + {p}
      ensures !p.isCancelled && p.subsequentCancels == []
      ensures run.Returned? ==> p.cancelFunction == run.abort && p.State() == Start(run.resolved)
      ensures run.Returned? ==> rt.queue == old(rt.queue) + Delivery(p, run.resolved)
      ensures run.Threw? ==> p.cancelFunction == NoAbort
      ensures run.Threw? ==> p.State() == Start(Resolve(run.resolved, Rejected(run.error)))
      ensures run.Threw? ==> rt.queue == old(rt.queue) + Delivery(p, Resolve(run.resolved, Rejected(run.error)))
    {
      match run
      case Returned(resolved, abort) =>
        p := Using(rt, resolved, abort);
      case Threw(resolved, error) =>
        p := Using(rt, Resolve(resolved, Rejected(error)), NoAbort);
    }

    /** `init(wrapper:)`: the body sees the token and nothing is aborted */
    static method Wrapper(rt: Runtime, body: Cell<Value>) returns (p: CancellablePromise)
      requires rt.Valid()
      modifies rt`graph, rt`queue
      ensures fresh(p) && rt.Valid() && rt.graph.Keys == old(rt.graph.Keys) + {p}
      ensures !p.isCancelled && p.subsequentCancels == [] && p.cancelFunction == NoAbort
      ensures p.State() == Start(body)
      ensures rt.queue == old(rt.queue) + Delivery(p, body)
    {
      p := new CancellablePromise.Init(rt, body, NoAbort);
    }

    /** The body's promise settles: a rejection reaches the exposed promise at once, a fulfilment
        queues the `map` block that will deliver it */
    method SettleBody(rt: Runtime, o: Outcome<Value>)
      requires rt.Valid() && this in rt.graph
      modifies this`body, this`result, rt`graph, rt`queue
      ensures rt.Valid() && rt.graph.Keys == old(rt.graph.Keys)
      ensures State() == Observe(old(State()), Input(Primary(o)))
      ensures rt.queue == old(rt.queue) + if old(body.Pending? && result.Pending?) then Delivery(this, Settled(o)) else []
    {
      if body.Pending? {
        body := Settled(o);
        if result.Pending? {
          if o.Rejected? {
            result := Settled(o);
            rt.graph := rt.graph[this := Snapshot()];
          } else {
            rt.queue := rt.queue + [Deliver(this)];
          }
        }
      }
    }

    /** The token settles from a queued block; its rejection reaches the exposed promise only while
        the body's promise is pending */
    method SettleToken(rt: Runtime, o: Outcome<()>)
      requires rt.Valid() && this in rt.graph
      modifies this`token, this`result, rt`graph
      ensures rt.Valid() && rt.graph.Keys == old(rt.graph.Keys)
      ensures State() == Observe(old(State()), Input(Condition(o)))
    {
      if token.Pending? {
        token := Settled(o);
        if result.Pending? && body.Pending? && o.Rejected? {
          result := Settled(Rejected(o.error));
          rt.graph := rt.graph[this := Snapshot()];
        }
      }
    }

    /** The `map` block of `when(_:while:)` runs: the exposed promise fulfils with the body's value,
        whatever happened to the token in between */
    method RunMap(rt: Runtime)
      requires rt.Valid() && this in rt.graph
      modifies this`result, rt`graph
      ensures rt.Valid() && rt.graph.Keys == old(rt.graph.Keys)
      ensures State() == Observe(old(State()), MapRuns)
    {
      if result.Pending? && IsFulfilled(body) {
        result := body;
        rt.graph := rt.graph[this := Snapshot()];
      }
    }

    /** `deinit`: the token's fulfilment is queued so that it does not stay pending */
    method Dispose(rt: Runtime)
      requires rt.Valid() && this in rt.graph
      modifies rt`queue
      ensures rt.Valid()
      ensures rt.queue == old(rt.queue) + [FulfilToken(this)]
    {
      rt.queue := rt.queue + [FulfilToken(this)];
    }

    /** `cancel()`: set the flag, cancel every subsequent promise in order and, while still pending,
        call the abort action and queue the rejection of the token */
    method Cancel(rt: Runtime, fuel: nat)
      requires rt.Coherent() && rt.Flags() && this in rt.graph
      modifies rt`log, rt`queue, rt`entered, rt.graph.Keys`isCancelled
      ensures rt.Coherent() && rt.Flags()
      ensures rt.Now() == AfterCancel(rt.graph, this, fuel, old(rt.Now()))
      decreases fuel, 0
    {
      if fuel == 0 {
        rt.log := rt.log + [Overflow(this)];
        return;
      }
      ghost var w0 := rt.Now();
      assert rt.graph[this].subsequent == subsequentCancels;
      MarkCancelled(rt);
      ghost var w1 := rt.Now();
      assert w1 == World(w0.log + [Entered(this)], w0.queue, w0.entered + {this});
      CancelAll(rt, subsequentCancels, fuel - 1);
      ghost var w2 := rt.Now();
      assert w2 == AfterFan(rt.graph, rt.graph[this].subsequent, fuel - 1, w1);
      AbortIfPending(rt, fuel - 1);
    }

    /** `isCancelled = true` */
    method MarkCancelled(rt: Runtime)
      requires rt.Coherent() && rt.Flags() && this in rt.graph
      modifies rt`log, rt`entered, this`isCancelled
      ensures rt.Coherent() && rt.Flags()
      ensures rt.Now() == old(rt.Now()).(log := old(rt.log) + [Entered(this)], entered := old(rt.entered) + {this})
    {
      isCancelled := true;
      rt.entered := rt.entered + {this};
      rt.log := rt.log + [Entered(this)];
    }

    /** `if isPending { cancelFunction(); queue the rejection }` */
    method AbortIfPending(rt: Runtime, fuel: nat)
      requires rt.Coherent() && rt.Flags() && this in rt.graph
      modifies rt`log, rt`queue, rt`entered, rt.graph.Keys`isCancelled
      ensures rt.Coherent() && rt.Flags()
      ensures rt.Now() == AfterAbort(rt.graph, this, fuel, old(rt.Now()))
      decreases fuel, 1
    {
      if result.Pending? {
        rt.log := rt.log + [Aborted(this)];
        if cancelFunction.CancelOf? {
          cancelFunction.target.Cancel(rt, fuel);
        }
        rt.queue := rt.queue + [RejectToken(this)];
        rt.log := rt.log + [RejectionScheduled(this)];
      }
    }
  }

  /** `cancelAll(in:)` and the `forEach` over `subsequentCancels`: cancel each member in order */
  method CancelAll(rt: Runtime, members: seq<CancellablePromise>, fuel: nat)
    requires rt.Coherent() && rt.Flags() && forall m :: m in members ==> m in rt.graph
    modifies rt`log, rt`queue, rt`entered, rt.graph.Keys`isCancelled
    ensures rt.Coherent() && rt.Flags()
    ensures rt.Now() == AfterFan(rt.graph, members, fuel, old(rt.Now()))
    decreases fuel, 2
  {
    var i := 0;
    while i < |members|
      invariant 0 <= i <= |members|
      invariant rt.Coherent() && rt.Flags()
      invariant rt.Now() == AfterFan(rt.graph, members[..i], fuel, old(rt.Now()))
    {
      assert members[..i + 1][..i] == members[..i];
      members[i].Cancel(rt, fuel);
      i := i + 1;
    }
    assert members[..|members|] == members;
  }

  // ---------------------------------------------------------------------------
  // The specification of a cancellation

  /** `p.cancel()` with at most `fuel` nested calls */
  ghost function AfterCancel(g: Graph, p: CancellablePromise, fuel: nat, w: World): World
    requires Closed(g) && p in g
    decreases fuel, 0
  {
    if fuel == 0 then w.(log := w.log + [Overflow(p)])
    else
      var marked := World(w.log + [Entered(p)], w.queue, w.entered + {p});
      AfterAbort(g, p, fuel - 1, AfterFan(g, g[p].subsequent, fuel - 1, marked))
  }

  /** The `if isPending { ... }` part of `p.cancel()` */
  ghost function AfterAbort(g: Graph, p: CancellablePromise, fuel: nat, w: World): World
    requires Closed(g) && p in g
    decreases fuel, 1
  {
    if !g[p].pending then w
    else
      var w1 := w.(log := w.log + [Aborted(p)]);
      var w2 := if g[p].abort.CancelOf? then AfterCancel(g, g[p].abort.target, fuel, w1) else w1;
      w2.(log := w2.log + [RejectionScheduled(p)], queue := w2.queue + [RejectToken(p)])
  }

  /** Cancelling each of `cs` in order */
  ghost function AfterFan(g: Graph, cs: seq<CancellablePromise>, fuel: nat, w: World): World
    requires Closed(g) && forall c :: c in cs ==> c in g
    decreases fuel, 2, |cs|
  {
    if cs == [] then w
    else AfterCancel(g, cs[|cs| - 1], fuel, AfterFan(g, cs[..|cs| - 1], fuel, w))
  }

  // ---------------------------------------------------------------------------
  // The cells follow `when(_:while:)`

  /** The cells after the exposed promise has lived through the moments `m` */
  ghost function Seen(m: seq<Moment<Value>>): Cells
  {
    Cells(PrimaryState(Inputs(m)), ConditionState(Inputs(m)), Delivered(m, false))
  }

  /** Whether `x` settles an input that is still pending after `m` (otherwise it is ignored); the
      `map` block always counts */
  ghost predicate Unseen(m: seq<Moment<Value>>, x: Moment<Value>)
  {
    match x
    case Input(s) => if s.Primary? then PrimaryState(Inputs(m)).Pending? else ConditionState(Inputs(m)).Pending?
    case MapRuns => true
  }

  /** A new promise has seen its body settle, if it has, and nothing else; a fulfilled body still
      waits for its `map` block */
  lemma StartFollowsTrace(body: Cell<Value>)
    ensures var m := if body.Settled? then [Input(Primary(body.outcome))] else [];
      ValidSignals(Inputs(m)) && Start(body) == Seen(m)
  {
    if body.Settled? {
      DeliveredNext([], Input(Primary(body.outcome)));
      SeeSignal([], Primary(body.outcome));
      InputsSnoc([], Input(Primary(body.outcome)));
    }
  }

  /** One step of `Observe` is what `when(_:while:)` makes of one more moment */
  lemma ObserveFollowsTrace(m: seq<Moment<Value>>, x: Moment<Value>)
    requires ValidSignals(Inputs(m))
    ensures Unseen(m, x) ==> ValidSignals(Inputs(m + [x])) && Observe(Seen(m), x) == Seen(m + [x])
    ensures !Unseen(m, x) ==> Observe(Seen(m), x) == Seen(m)
  {
    if Unseen(m, x) {
      DeliveredNext(m, x);
      InputsSnoc(m, x);
      if x.Input? {
        SeeSignal(Inputs(m), x.s);
      } else {
        assert Inputs(m + [x]) == Inputs(m);
      }
    }
  }

  /** The cells after a run of moments, starting from `c` */
  function Replay(c: Cells, xs: seq<Moment<Value>>): Cells
    decreases |xs|
  {
    if xs == [] then c else Replay(Observe(c, xs[0]), xs[1..])
  }

  /** The moments of `xs` that are not ignored, appended to `m` */
  ghost function Admit(m: seq<Moment<Value>>, xs: seq<Moment<Value>>): seq<Moment<Value>>
    decreases |xs|
  {
    if xs == [] then m else Admit(if Unseen(m, xs[0]) then m + [xs[0]] else m, xs[1..])
  }

  /** Whatever order the body's and the token's settlements and the `map` block come in, the cells
      are those of `when(_:while:)` over the moments it saw */
  lemma {:induction false} ReplayFollowsTrace(m: seq<Moment<Value>>, xs: seq<Moment<Value>>)
    requires ValidSignals(Inputs(m))
    ensures ValidSignals(Inputs(Admit(m, xs)))
    ensures Replay(Seen(m), xs) == Seen(Admit(m, xs))
    decreases |xs|
  {
    if xs != [] {
      ObserveFollowsTrace(m, xs[0]);
      ReplayFollowsTrace(if Unseen(m, xs[0]) then m + [xs[0]] else m, xs[1..]);
    }
  }

  /** A promise cancelled while its body is pending: once the queued rejection runs, the exposed
      promise is rejected with `Cancelled`, whatever the body does afterwards */
  lemma CancelledStaysCancelled(c: Cells, xs: seq<Moment<Value>>)
    requires c.result.Pending? && c.token.Pending? && c.body.Pending?
    ensures Replay(Observe(c, Input(Condition(Rejected(Cancelled)))), xs).result == Settled(Rejected(Cancelled))
  {
    ResultSettledStays(Observe(c, Input(Condition(Rejected(Cancelled)))), xs);
  }

  /** A promise whose body has fulfilled but whose `map` block has not yet run is still pending, so
      `cancel()` queues the token's rejection; that rejection comes too late: whichever of the two
      blocks runs first, the exposed promise fulfils with the body's value */
  lemma CancelAfterFulfilmentDelivers(c: Cells, v: Value)
    requires c.result.Pending? && c.token.Pending? && c.body == Settled(Fulfilled(v))
    ensures Replay(c, [MapRuns, Input(Condition(Rejected(Cancelled)))]) ==
      Cells(c.body, Settled(Rejected(Cancelled)), Settled(Fulfilled(v)))
    ensures Replay(c, [Input(Condition(Rejected(Cancelled))), MapRuns]) ==
      Cells(c.body, Settled(Rejected(Cancelled)), Settled(Fulfilled(v)))
  {
    var r: Moment<Value> := Input(Condition(Rejected(Cancelled)));
    assert [MapRuns, r][1..] == [r] && [r, MapRuns][1..] == [MapRuns];
  }

  /** A settled exposed promise never changes again */
  lemma {:induction false} ResultSettledStays(c: Cells, xs: seq<Moment<Value>>)
    requires c.result.Settled?
    ensures Replay(c, xs).result == c.result
    decreases |xs|
  {
    if xs != [] {
      ResultSettledStays(Observe(c, xs[0]), xs[1..]);
    }
  }

  // ---------------------------------------------------------------------------
  // What a cancellation promises

  /** `w2` comes from `w` by cancellation steps: the record and the queue only grow, flags are only
      set, and only promises of the graph that are pending have their abort called and their
      token's rejection queued */
  ghost predicate Extends(g: Graph, w: World, w2: World)
  {
    && w.log <= w2.log && w.queue <= w2.queue && w.entered <= w2.entered
    && (forall q :: q in w2.entered && q !in w.entered ==> q in g)
    && (forall j :: |w.log| <= j < |w2.log| ==>
          w2.log[j].p in g && (w2.log[j].Aborted? ==> g[w2.log[j].p].pending))
    && (forall j :: |w.queue| <= j < |w2.queue| ==>
          w2.queue[j].RejectToken? && w2.queue[j].p in g && g[w2.queue[j].p].pending)
  }

  lemma ExtendsTransitive(g: Graph, w1: World, w2: World, w3: World)
    requires Extends(g, w1, w2) && Extends(g, w2, w3)
    ensures Extends(g, w1, w3)
  {
    forall j | |w1.log| <= j < |w3.log|
      ensures w3.log[j].p in g && (w3.log[j].Aborted? ==> g[w3.log[j].p].pending)
    {
      if j < |w2.log| {
        assert w3.log[j] == w2.log[j];
      }
    }
    forall j | |w1.queue| <= j < |w3.queue|
      ensures w3.queue[j].RejectToken? && w3.queue[j].p in g && g[w3.queue[j].p].pending
    {
      if j < |w2.queue| {
        assert w3.queue[j] == w2.queue[j];
      }
    }
  }

  lemma {:induction false} CancelExtends(g: Graph, p: CancellablePromise, fuel: nat, w: World)
    requires Closed(g) && p in g
    ensures Extends(g, w, AfterCancel(g, p, fuel, w))
    decreases fuel, 0
  {
    if fuel > 0 {
      var marked := World(w.log + [Entered(p)], w.queue, w.entered + {p});
      var fanned := AfterFan(g, g[p].subsequent, fuel - 1, marked);
      FanExtends(g, g[p].subsequent, fuel - 1, marked);
      AbortExtends(g, p, fuel - 1, fanned);
      ExtendsTransitive(g, w, marked, fanned);
      ExtendsTransitive(g, w, fanned, AfterCancel(g, p, fuel, w));
    }
  }

  lemma {:induction false} AbortExtends(g: Graph, p: CancellablePromise, fuel: nat, w: World)
    requires Closed(g) && p in g
    ensures Extends(g, w, AfterAbort(g, p, fuel, w))
    decreases fuel, 1
  {
    if g[p].pending {
      var w1 := w.(log := w.log + [Aborted(p)]);
      var w2 := if g[p].abort.CancelOf? then AfterCancel(g, g[p].abort.target, fuel, w1) else w1;
      if g[p].abort.CancelOf? {
        CancelExtends(g, g[p].abort.target, fuel, w1);
      }
      ExtendsTransitive(g, w, w1, w2);
      ExtendsTransitive(g, w, w2, AfterAbort(g, p, fuel, w));
    }
  }

  lemma {:induction false} FanExtends(g: Graph, cs: seq<CancellablePromise>, fuel: nat, w: World)
    requires Closed(g) && forall c :: c in cs ==> c in g
    ensures Extends(g, w, AfterFan(g, cs, fuel, w))
    decreases fuel, 2, |cs|
  {
    if cs != [] {
      var front := AfterFan(g, cs[..|cs| - 1], fuel, w);
      FanExtends(g, cs[..|cs| - 1], fuel, w);
      CancelExtends(g, cs[|cs| - 1], fuel, front);
      ExtendsTransitive(g, w, front, AfterFan(g, cs, fuel, w));
    }
  }

  /** Cancellation flags only promises of the graph, calls the abort of pending promises only,
      and queues token rejections only for pending promises, behind the blocks already queued */
  lemma CancelTouchesOnlyPending(g: Graph, p: CancellablePromise, fuel: nat, w: World)
    requires Closed(g) && p in g
    ensures var w2 := AfterCancel(g, p, fuel, w);
      && w.log <= w2.log && w.queue <= w2.queue && w.entered <= w2.entered
      && (forall q :: q in w2.entered - w.entered ==> q in g)
      && (forall q :: q in g && !g[q].pending ==>
            Aborted(q) !in w2.log[|w.log|..] && RejectToken(q) !in w2.queue[|w.queue|..])
      && (forall j :: |w.queue| <= j < |w2.queue| ==> w2.queue[j].RejectToken?)
  {
    CancelExtends(g, p, fuel, w);
  }

  /** After `cancel()` returns, the promise is flagged, whatever its settlement state */
  lemma CancelFlags(g: Graph, p: CancellablePromise, fuel: nat, w: World)
    requires Closed(g) && p in g && fuel > 0
    ensures p in AfterCancel(g, p, fuel, w).entered
  {
    var marked := World(w.log + [Entered(p)], w.queue, w.entered + {p});
    var fanned := AfterFan(g, g[p].subsequent, fuel - 1, marked);
    FanExtends(g, g[p].subsequent, fuel - 1, marked);
    AbortExtends(g, p, fuel - 1, fanned);
  }

  /** Cancelling a list flags every member */
  lemma {:induction false} FanFlags(g: Graph, cs: seq<CancellablePromise>, fuel: nat, w: World)
    requires Closed(g) && (forall c :: c in cs ==> c in g) && fuel > 0
    ensures forall c :: c in cs ==> c in AfterFan(g, cs, fuel, w).entered
    decreases |cs|
  {
    if cs != [] {
      var front := AfterFan(g, cs[..|cs| - 1], fuel, w);
      FanFlags(g, cs[..|cs| - 1], fuel, w);
      CancelExtends(g, cs[|cs| - 1], fuel, front);
      CancelFlags(g, cs[|cs| - 1], fuel, front);
      forall c | c in cs ensures c in AfterFan(g, cs, fuel, w).entered {
        if c != cs[|cs| - 1] {
          assert c in cs[..|cs| - 1];
        }
      }
    }
  }

  /** Cancelling a list cancels its front first, then the rest */
  lemma {:induction false} FanInOrder(g: Graph, a: seq<CancellablePromise>, b: seq<CancellablePromise>, fuel: nat, w: World)
    requires Closed(g) && (forall c :: c in a + b ==> c in g)
    ensures AfterFan(g, a + b, fuel, w) == AfterFan(g, b, fuel, AfterFan(g, a, fuel, w))
    decreases |b|
  {
    if b == [] {
      assert a + b == a;
    } else {
      assert (a + b)[..|a + b| - 1] == a + b[..|b| - 1];
      FanInOrder(g, a, b[..|b| - 1], fuel, w);
    }
  }

  /** `cancel()` reaches every subsequent cancel registered with the promise, settled or not */
  lemma CancelReachesSubsequent(g: Graph, p: CancellablePromise, fuel: nat, w: World)
    requires Closed(g) && p in g && fuel > 1
    ensures forall c :: c in g[p].subsequent ==> c in AfterCancel(g, p, fuel, w).entered
  {
    var marked := World(w.log + [Entered(p)], w.queue, w.entered + {p});
    var fanned := AfterFan(g, g[p].subsequent, fuel - 1, marked);
    FanFlags(g, g[p].subsequent, fuel - 1, marked);
    AbortExtends(g, p, fuel - 1, fanned);
  }

  /** Cancelling a pending promise derived by `then` or `map` cancels the promise it came from */
  lemma CancelReachesSource(g: Graph, p: CancellablePromise, fuel: nat, w: World)
    requires Closed(g) && p in g && fuel > 1
    requires g[p].pending && g[p].abort.CancelOf?
    ensures g[p].abort.target in AfterCancel(g, p, fuel, w).entered
  {
    var marked := World(w.log + [Entered(p)], w.queue, w.entered + {p});
    var fanned := AfterFan(g, g[p].subsequent, fuel - 1, marked);
    CancelFlags(g, g[p].abort.target, fuel - 1, fanned.(log := fanned.log + [Aborted(p)]));
  }

  /** Cancelling a pending promise calls its abort and queues the rejection of its token
      last, behind every block queued before */
  lemma CancelPendingSchedulesRejection(g: Graph, p: CancellablePromise, fuel: nat, w: World)
    requires Closed(g) && p in g && fuel > 0 && g[p].pending
    ensures var w2 := AfterCancel(g, p, fuel, w);
      && w.queue < w2.queue && w2.queue[|w2.queue| - 1] == RejectToken(p)
      && w.log < w2.log && Aborted(p) in w2.log[|w.log|..]
  {
    var w2 := AfterCancel(g, p, fuel, w);
    var marked := World(w.log + [Entered(p)], w.queue, w.entered + {p});
    var fanned := AfterFan(g, g[p].subsequent, fuel - 1, marked);
    FanExtends(g, g[p].subsequent, fuel - 1, marked);
    var w1 := fanned.(log := fanned.log + [Aborted(p)]);
    var w3 := if g[p].abort.CancelOf? then AfterCancel(g, g[p].abort.target, fuel - 1, w1) else w1;
    if g[p].abort.CancelOf? {
      CancelExtends(g, g[p].abort.target, fuel - 1, w1);
    }
    assert w2 == AfterAbort(g, p, fuel - 1, fanned);
    assert w2 == w3.(log := w3.log + [RejectionScheduled(p)], queue := w3.queue + [RejectToken(p)]);
    assert w2.log[|fanned.log|] == Aborted(p);
    assert w2.log[|w.log|..][|fanned.log| - |w.log|] == Aborted(p);
  }

  /** The abort is not called at most once: a pending promise cancelled twice before the queued
      rejection has run calls it twice */
  lemma CancelTwiceAbortsTwice(g: Graph, p: CancellablePromise, tag: nat, fuel: nat, w: World)
    requires Closed(g) && p in g && fuel > 0
    requires g[p] == Node([], true, External(tag))
    ensures var w2 := AfterCancel(g, p, fuel, AfterCancel(g, p, fuel, w));
      w2.log == w.log + [Entered(p), Aborted(p), RejectionScheduled(p), Entered(p), Aborted(p), RejectionScheduled(p)]
      && w2.queue == w.queue + [RejectToken(p), RejectToken(p)]
  {
    var marked := World(w.log + [Entered(p)], w.queue, w.entered + {p});
    assert AfterFan(g, g[p].subsequent, fuel - 1, marked) == marked;
    var w1 := AfterCancel(g, p, fuel, w);
    assert w1 == AfterAbort(g, p, fuel - 1, marked);
    assert w1.log == w.log + [Entered(p), Aborted(p), RejectionScheduled(p)];
  }
}
