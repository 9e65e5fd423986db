/**
 * `when(_:while:isEnsured:)`: wait for a promise, but give up as soon as a
 * condition promise (the cancellation token) is rejected.
 *
 * The source composes it from PromiseKit's combinators:
 * `when(fulfilled: [p.asVoid(), race([p.asVoid(), c.asVoid()])]).map { ... }`.
 * `WhenWhile` below is that composition, written over a trace of the two inputs'
 * settlements; `Decisive` is an independent reference definition ("the first
 * decisive event wins"), and `WhenWhileMeaning` proves the two agree.
 */
module While {
  import opened Promises

  /** One input of `when(_:while:)` settling: the awaited promise, or the condition promise */
  datatype Signal<T> = Primary(outcome: Outcome<T>) | Condition(signal: Outcome<()>)

  /** Each of the two promises settles at most once */
  ghost predicate ValidSignals<T>(t: seq<Signal<T>>) {
    forall j, k :: 0 <= j < k < |t| ==> t[j].Primary? != t[k].Primary?
  }

  /** The awaited promise's state after the trace */
  function PrimaryState<T>(t: seq<Signal<T>>): Cell<T>
  {
    if t == [] then Pending
    else if PrimaryState(t[..|t| - 1]).Settled? then PrimaryState(t[..|t| - 1])
    else if t[|t| - 1].Primary? then Settled(t[|t| - 1].outcome)
    else Pending
  }

  /** The condition promise's state after the trace */
  function ConditionState<T>(t: seq<Signal<T>>): Cell<()>
  {
    if t == [] then Pending
    else if ConditionState(t[..|t| - 1]).Settled? then ConditionState(t[..|t| - 1])
    else if t[|t| - 1].Condition? then Settled(t[|t| - 1].signal)
    else Pending
  }

  function VoidCell<T>(c: Cell<T>): Cell<()>
  {
    match c
    case Pending => Pending
    case Settled(o) => Settled(AsVoid(o))
  }

  /** The settlements seen by `race([p.asVoid(), c.asVoid()])` */
  function RaceArrivals<T>(t: seq<Signal<T>>): seq<Arrival<()>>
  {
    if t == [] then []
    else
      RaceArrivals(t[..|t| - 1]) +
      match t[|t| - 1]
      case Primary(o) => [Arrival(0, AsVoid(o))]
      case Condition(c) => [Arrival(1, c)]
  }

  /** The settlements seen by the outer `when(fulfilled: [p.asVoid(), race(...)])`:
      member 0 is the awaited promise, member 1 settles when the race does */
  function GateArrivals<T>(t: seq<Signal<T>>): seq<Arrival<()>>
  {
    if t == [] then []
    else
      var prev := t[..|t| - 1];
      var race := Race(2, RaceArrivals(t));
      GateArrivals(prev)
        + (if t[|t| - 1].Primary? then [Arrival(0, AsVoid(t[|t| - 1].outcome))] else [])
        + (if Race(2, RaceArrivals(prev)).Pending? && race.Settled? then [Arrival(1, race.outcome)] else [])
  }

  /**
   * `when(_:while:isEnsured:)` as the source composes it, for a `map` closure that
   * runs right after the settlements `t`: the closure reads
   * `conditionPromise.isRejected` as it is at that moment. When the closure
   * actually runs is modelled by `Delivered` below. The forced unwrap
   * `promise.value!` is safe: `GateOpensOnPrimary` proves the awaited promise
   * has fulfilled whenever the gate has.
   */
  function WhenWhile<T>(t: seq<Signal<T>>, isEnsured: bool): Cell<T>
  {
    match WhenFulfilled(2, GateArrivals(t))
    case Pending => Pending
    case Settled(Rejected(e)) => Settled(Rejected(e))
    case Settled(Fulfilled(_)) =>
      if isEnsured && IsRejected(ConditionState(t)) then Settled(Rejected(Cancelled))
      else
        GateOpensOnPrimary(t);
        Settled(Fulfilled(PrimaryState(t).outcome.value))
  }

  /** The older `when(_:while:)`, which has no `isEnsured` parameter */
  function LegacyWhenWhile<T>(t: seq<Signal<T>>): Cell<T>
  {
    match WhenFulfilled(2, GateArrivals(t))
    case Pending => Pending
    case Settled(Rejected(e)) => Settled(Rejected(e))
    case Settled(Fulfilled(_)) =>
      GateOpensOnPrimary(t);
      Settled(Fulfilled(PrimaryState(t).outcome.value))
  }

  /** Reference definition: the first decisive event wins. The awaited promise settling
      is decisive, and so is the condition rejecting; the condition fulfilling is not. */
  function Decisive<T>(t: seq<Signal<T>>): Cell<T>
  {
    if t == [] then Pending
    else if Decisive(t[..|t| - 1]).Settled? then Decisive(t[..|t| - 1])
    else match t[|t| - 1]
      case Primary(o) => Settled(o)
      case Condition(Rejected(e)) => Settled(Rejected(e))
      case Condition(Fulfilled(_)) => Pending
  }

  // ---------------------------------------------------------------------------
  // The gate's two members

  lemma {:induction false} GateMemberZero<T>(t: seq<Signal<T>>)
    ensures Lookup(0, GateArrivals(t)) == VoidCell(PrimaryState(t))
    decreases |t|
  {
    if t != [] {
      var prev := t[..|t| - 1];
      var race := Race(2, RaceArrivals(t));
      var x := if t[|t| - 1].Primary? then [Arrival(0, AsVoid(t[|t| - 1].outcome))] else [];
      var y := if Race(2, RaceArrivals(prev)).Pending? && race.Settled? then [Arrival(1, race.outcome)] else [];
      GateMemberZero(prev);
      assert GateArrivals(t) == GateArrivals(prev) + (x + y);
      LookupAppend(0, GateArrivals(prev), x + y);
      LookupAppend(0, x, y);
      LookupUnarrived(0, y);
    }
  }

  lemma {:induction false} RaceIsFirstSignal<T>(t: seq<Signal<T>>)
    ensures Race(2, RaceArrivals(t)).Pending? <==> t == []
    ensures t != [] ==> Race(2, RaceArrivals(t)) == Settled(
      match t[0] case Primary(o) => AsVoid(o) case Condition(c) => c)
    decreases |t|
  {
    if t != [] {
      var prev := t[..|t| - 1];
      RaceIsFirstSignal(prev);
      if prev != [] {
        assert RaceArrivals(t)[0] == RaceArrivals(prev)[0];
        assert prev[0] == t[0];
      }
    }
  }

  lemma {:induction false} GateMemberOne<T>(t: seq<Signal<T>>)
    ensures Lookup(1, GateArrivals(t)) == Race(2, RaceArrivals(t))
    decreases |t|
  {
    if t != [] {
      var prev := t[..|t| - 1];
      var race := Race(2, RaceArrivals(t));
      var x := if t[|t| - 1].Primary? then [Arrival(0, AsVoid(t[|t| - 1].outcome))] else [];
      var y := if Race(2, RaceArrivals(prev)).Pending? && race.Settled? then [Arrival(1, race.outcome)] else [];
      GateMemberOne(prev);
      RaceIsFirstSignal(prev);
      RaceIsFirstSignal(t);
      assert GateArrivals(t) == GateArrivals(prev) + (x + y);
      LookupAppend(1, GateArrivals(prev), x + y);
      LookupAppend(1, x, y);
      LookupUnarrived(1, x);
      if prev != [] {
        assert prev[0] == t[0];
      }
    }
  }

  /** The gate's arrivals carry no error but the awaited promise's and the race's */
  lemma {:induction false} GateRejections<T>(t: seq<Signal<T>>)
    requires ValidSignals(t)
    ensures FirstRejection(GateArrivals(t)) ==
      if IsRejected(Decisive(t)) then Some(Decisive(t).outcome.error) else None
    decreases |t|
  {
    if t != [] {
      var prev := t[..|t| - 1];
      var race := Race(2, RaceArrivals(t));
      var x := if t[|t| - 1].Primary? then [Arrival(0, AsVoid(t[|t| - 1].outcome))] else [];
      var y := if Race(2, RaceArrivals(prev)).Pending? && race.Settled? then [Arrival(1, race.outcome)] else [];
      ValidPrefix(t);
      GateRejections(prev);
      RaceIsFirstSignal(prev);
      RaceIsFirstSignal(t);
      DecisiveSettledAfterPrimary(prev);
      assert GateArrivals(t) == GateArrivals(prev) + (x + y);
      FirstRejectionAppend(GateArrivals(prev), x + y);
      FirstRejectionAppend(x, y);
      if prev != [] {
        assert prev[0] == t[0];
      }
    }
  }

  /** Once the awaited promise has settled, the reference has decided; while it is undecided,
      only condition fulfilments have happened */
  lemma {:induction false} DecisiveSettledAfterPrimary<T>(t: seq<Signal<T>>)
    ensures PrimaryState(t).Settled? ==> Decisive(t).Settled?
    ensures Decisive(t).Pending? ==> !IsRejected(ConditionState(t))
    ensures Decisive(t).Pending? && t != [] ==> t[0].Condition? && t[0].signal.Fulfilled?
    ensures IsFulfilled(Decisive(t)) ==> Decisive(t) == PrimaryState(t)
    decreases |t|
  {
    if t != [] {
      var prev := t[..|t| - 1];
      DecisiveSettledAfterPrimary(prev);
      if prev != [] {
        assert prev[0] == t[0];
      }
    }
  }

  /** The forced unwrap in the `map` closure never traps */
  lemma GateOpensOnPrimary<T>(t: seq<Signal<T>>)
    requires IsFulfilled(WhenFulfilled(2, GateArrivals(t)))
    ensures IsFulfilled(PrimaryState(t))
  {
    CollectMeaning(2, GateArrivals(t));
    GateMemberZero(t);
  }

  // ---------------------------------------------------------------------------
  // Facts about traces

  lemma ValidPair<T>(t: seq<Signal<T>>, j: int, k: int)
    requires ValidSignals(t) && 0 <= j < k < |t|
    ensures t[j].Primary? != t[k].Primary?
  {
  }

  lemma ValidPrefix<T>(t: seq<Signal<T>>)
    requires ValidSignals(t) && t != []
    ensures ValidSignals(t[..|t| - 1])
  {
  }

  lemma ValidSignalsShort<T>(t: seq<Signal<T>>)
    requires ValidSignals(t)
    ensures |t| <= 2
  {
    if |t| > 2 {
      ValidPair(t, 0, 1);
      ValidPair(t, 0, 2);
      ValidPair(t, 1, 2);
      assert false;
    }
  }

  /** A signal that settles the reference: the awaited promise settling, or the condition rejecting */
  predicate IsDecisive<T>(s: Signal<T>) {
    s.Primary? || s.signal.Rejected?
  }

  function Verdict<T>(s: Signal<T>): Outcome<T>
    requires IsDecisive(s)
  {
    if s.Primary? then s.outcome else Rejected(s.signal.error)
  }

  lemma {:induction false} DecisiveUndecided<T>(t: seq<Signal<T>>)
    requires forall j :: 0 <= j < |t| ==> !IsDecisive(t[j])
    ensures Decisive(t) == Pending
    decreases |t|
  {
    if t != [] {
      DecisiveUndecided(t[..|t| - 1]);
    }
  }

  /** The first decisive signal decides the reference */
  lemma {:induction false} DecisiveAt<T>(t: seq<Signal<T>>, k: nat)
    requires k < |t| && IsDecisive(t[k])
    requires forall j :: 0 <= j < k ==> !IsDecisive(t[j])
    ensures Decisive(t) == Settled(Verdict(t[k]))
    decreases |t|
  {
    var prev := t[..|t| - 1];
    if k < |t| - 1 {
      DecisiveAt(prev, k);
    } else {
      assert prev == t[..k];
      DecisiveUndecided(prev);
    }
  }

  lemma {:induction false} ConditionUnarrived<T>(t: seq<Signal<T>>)
    requires forall j :: 0 <= j < |t| ==> t[j].Primary?
    ensures ConditionState(t) == Pending
    decreases |t|
  {
    if t != [] {
      ConditionUnarrived(t[..|t| - 1]);
    }
  }

  /** The first condition signal decides the condition promise's state */
  lemma {:induction false} ConditionAt<T>(t: seq<Signal<T>>, k: nat)
    requires k < |t| && t[k].Condition?
    requires forall j :: 0 <= j < k ==> t[j].Primary?
    ensures ConditionState(t) == Settled(t[k].signal)
    decreases |t|
  {
    var prev := t[..|t| - 1];
    if k < |t| - 1 {
      ConditionAt(prev, k);
    } else {
      assert prev == t[..k];
      ConditionUnarrived(prev);
    }
  }

  /** Without a condition rejection, the reference follows the awaited promise */
  lemma {:induction false} DecisiveFollowsPrimary<T>(t: seq<Signal<T>>)
    requires forall j :: 0 <= j < |t| ==> !(t[j].Condition? && t[j].signal.Rejected?)
    ensures Decisive(t) == PrimaryState(t)
    decreases |t|
  {
    if t != [] {
      DecisiveFollowsPrimary(t[..|t| - 1]);
    }
  }

  /** On a valid trace, a condition that has not rejected has never rejected */
  lemma NoConditionRejection<T>(t: seq<Signal<T>>)
    requires ValidSignals(t)
    requires !IsRejected(ConditionState(t))
    ensures forall j :: 0 <= j < |t| ==> !(t[j].Condition? && t[j].signal.Rejected?)
  {
    forall j | 0 <= j < |t| && t[j].Condition?
      ensures !t[j].signal.Rejected?
    {
      forall i | 0 <= i < j ensures t[i].Primary? {
        ValidPair(t, i, j);
      }
      ConditionAt(t, j);
    }
  }

  // ---------------------------------------------------------------------------
  // The composition means "the first decisive event wins"

  /** The gate fulfils exactly when the reference decides for a fulfilment, and rejects exactly when
      the reference rejects, with the same error, on a trace where each input settles at most once */
  lemma GateMeaning<T>(t: seq<Signal<T>>)
    requires ValidSignals(t)
    ensures IsFulfilled(WhenFulfilled(2, GateArrivals(t))) <==> IsFulfilled(Decisive(t))
    ensures IsRejected(WhenFulfilled(2, GateArrivals(t))) <==> IsRejected(Decisive(t))
    ensures IsRejected(Decisive(t)) ==>
      WhenFulfilled(2, GateArrivals(t)).outcome.error == Decisive(t).outcome.error
  {
    var g := GateArrivals(t);
    GateRejections(t);
    CollectTwo(g);
    GateMemberZero(t);
    GateMemberOne(t);
    RaceIsFirstSignal(t);
    DecisiveSettledAfterPrimary(t);
  }

  /** `when(_:while:isEnsured:)` settles as the first decisive event says; with `isEnsured`, a
      condition rejected by the time the `map` closure runs turns a fulfilment into `cancelled` */
  lemma WhenWhileMeaning<T>(t: seq<Signal<T>>, isEnsured: bool)
    requires ValidSignals(t)
    ensures WhenWhile(t, isEnsured) ==
      if isEnsured && IsFulfilled(Decisive(t)) && IsRejected(ConditionState(t))
      then Settled(Rejected(Cancelled))
      else Decisive(t)
  {
    GateMeaning(t);
    DecisiveSettledAfterPrimary(t);
  }

  /** The older overload behaves as the current one with `isEnsured == false` */
  lemma LegacyMatches<T>(t: seq<Signal<T>>)
    ensures LegacyWhenWhile(t) == WhenWhile(t, false)
  {
  }

  // ---------------------------------------------------------------------------
  // Consequences

  /** A condition rejected before the awaited promise settles rejects the result with the same error,
      whatever the awaited promise does later */
  lemma ConditionRejectionAborts<T>(t: seq<Signal<T>>, k: nat, isEnsured: bool)
    requires ValidSignals(t)
    requires k < |t| && t[k].Condition? && t[k].signal.Rejected?
    requires forall j :: 0 <= j < k ==> t[j].Condition?
    ensures WhenWhile(t, isEnsured) == Settled(Rejected(t[k].signal.error))
  {
    if k > 0 {
      ValidPair(t, 0, k);
      assert false;
    }
    DecisiveAt(t, 0);
    WhenWhileMeaning(t, isEnsured);
  }

  /** Without `isEnsured`, once the awaited promise settles before any condition rejection, its
      outcome is the result, whatever the condition does afterwards */
  lemma PrimaryDecides<T>(t: seq<Signal<T>>, k: nat)
    requires ValidSignals(t)
    requires k < |t| && t[k].Primary?
    requires forall j :: 0 <= j < k ==> t[j].Condition? && t[j].signal.Fulfilled?
    ensures WhenWhile(t, false) == Settled(t[k].outcome)
  {
    DecisiveAt(t, k);
    WhenWhileMeaning(t, false);
  }

  /** A condition that has not rejected (pending, or fulfilled because the token's owner went away)
      leaves the result to the awaited promise */
  lemma UnrejectedConditionIsTransparent<T>(t: seq<Signal<T>>, isEnsured: bool)
    requires ValidSignals(t)
    requires !IsRejected(ConditionState(t))
    ensures WhenWhile(t, isEnsured) == PrimaryState(t)
  {
    NoConditionRejection(t);
    DecisiveFollowsPrimary(t);
    WhenWhileMeaning(t, isEnsured);
  }

  /** The result is pending exactly while the awaited promise is and the condition has not rejected */
  lemma WhenWhilePending<T>(t: seq<Signal<T>>, isEnsured: bool)
    requires ValidSignals(t)
    ensures WhenWhile(t, isEnsured).Pending? <==> PrimaryState(t).Pending? && !IsRejected(ConditionState(t))
  {
    WhenWhileMeaning(t, isEnsured);
    DecisiveSettledAfterPrimary(t);
    if !IsRejected(ConditionState(t)) {
      NoConditionRejection(t);
      DecisiveFollowsPrimary(t);
    }
  }

  /** Without `isEnsured` a settled result never changes again */
  lemma WhenWhileStable<T>(t: seq<Signal<T>>, x: Signal<T>)
    requires ValidSignals(t + [x])
    requires WhenWhile(t, false).Settled?
    ensures WhenWhile(t + [x], false) == WhenWhile(t, false)
  {
    assert (t + [x])[..|t + [x]| - 1] == t;
    ValidPrefix(t + [x]);
    WhenWhileMeaning(t, false);
    WhenWhileMeaning(t + [x], false);
  }

  // ---------------------------------------------------------------------------
  // Seeing one more settlement

  /** A promise still pending has not been seen to settle */
  lemma {:induction false} PendingMeansUnseen<T>(t: seq<Signal<T>>)
    ensures PrimaryState(t).Pending? ==> forall j :: 0 <= j < |t| ==> t[j].Condition?
    ensures ConditionState(t).Pending? ==> forall j :: 0 <= j < |t| ==> t[j].Primary?
    decreases |t|
  {
    if t != [] {
      PendingMeansUnseen(t[..|t| - 1]);
    }
  }

  /** Seeing a promise settle for the first time keeps the trace valid and settles that promise */
  lemma SeeSignal<T>(t: seq<Signal<T>>, x: Signal<T>)
    requires ValidSignals(t)
    requires if x.Primary? then PrimaryState(t).Pending? else ConditionState(t).Pending?
    ensures ValidSignals(t + [x])
    ensures PrimaryState(t + [x]) == if x.Primary? then Settled(x.outcome) else PrimaryState(t)
    ensures ConditionState(t + [x]) == if x.Condition? then Settled(x.signal) else ConditionState(t)
  {
    PendingMeansUnseen(t);
    assert (t + [x])[..|t + [x]| - 1] == t;
    forall j, k | 0 <= j < k < |t + [x]| ensures (t + [x])[j].Primary? != (t + [x])[k].Primary? {
      if k < |t| {
        ValidPair(t, j, k);
      }
    }
  }

  /** The token rejecting while the result is still pending rejects the result with the token's error */
  lemma TokenRejectionDecides<T>(t: seq<Signal<T>>, e: Error)
    requires ValidSignals(t)
    requires WhenWhile(t, false).Pending? && ConditionState(t).Pending?
    ensures WhenWhile(t + [Condition(Rejected(e))], false) == Settled(Rejected(e))
  {
    var x: Signal<T> := Condition(Rejected(e));
    WhenWhilePending(t, false);
    PendingMeansUnseen(t);
    SeeSignal(t, x);
    ConditionRejectionAborts(t + [x], |t|, false);
  }

  lemma {:induction false} DecisiveAppend<T>(a: seq<Signal<T>>, b: seq<Signal<T>>)
    ensures Decisive(a + b) == if Decisive(a).Settled? then Decisive(a) else Decisive(b)
    decreases |b|
  {
    if b == [] {
      assert a + b == a;
    } else {
      var b' := b[..|b| - 1];
      assert (a + b)[..|a + b| - 1] == a + b';
      DecisiveAppend(a, b');
    }
  }

  // ---------------------------------------------------------------------------
  // When the `map` block runs

  /** A moment in the life of `when(_:while:)`: one of its inputs settles, or the main queue runs
      the block that `map` scheduled when the gate fulfilled */
  datatype Moment<T> = Input(s: Signal<T>) | MapRuns

  /** The settlements among the moments, in order */
  function Inputs<T>(m: seq<Moment<T>>): seq<Signal<T>>
  {
    if m == [] then []
    else
      Inputs(m[..|m| - 1]) +
      match m[|m| - 1]
      case Input(s) => [s]
      case MapRuns => []
  }

  /** The gate `when(fulfilled: [p.asVoid(), race([p.asVoid(), c.asVoid()])])` after the settlements `t` */
  function Gate<T>(t: seq<Signal<T>>): Cell<seq<()>>
  {
    WhenFulfilled(2, GateArrivals(t))
  }

  /**
   * The promise `when(_:while:isEnsured:)` returns, after the moments `m`. A rejection of the gate
   * passes through `map` at once; a fulfilment waits for the `map` block, whose closure reads the
   * condition as it is when the block runs. A `MapRuns` moment before the gate fulfilled, or after
   * the result settled, is a block of some other promise and changes nothing.
   */
  function Delivered<T>(m: seq<Moment<T>>, isEnsured: bool): Cell<T>
  {
    if m == [] then Pending
    else
      var prev := m[..|m| - 1];
      if Delivered(prev, isEnsured).Settled? then Delivered(prev, isEnsured)
      else match m[|m| - 1]
        case Input(_) =>
          var g := Gate(Inputs(m));
          if IsRejected(g) then Settled(Rejected(g.outcome.error)) else Pending
        case MapRuns =>
          if IsFulfilled(Gate(Inputs(prev))) then WhenWhile(Inputs(prev), isEnsured) else Pending
  }

  lemma InputsSnoc<T>(m: seq<Moment<T>>, x: Moment<T>)
    ensures Inputs(m + [x]) == Inputs(m) + if x.Input? then [x.s] else []
  {
    assert (m + [x])[..|m + [x]| - 1] == m;
  }

  lemma DecisiveSnoc<T>(t: seq<Signal<T>>, x: Signal<T>)
    ensures Decisive(t + [x]) ==
      if Decisive(t).Settled? then Decisive(t)
      else if IsDecisive(x) then Settled(Verdict(x))
      else Pending
  {
    assert (t + [x])[..|t + [x]| - 1] == t;
  }

  /**
   * What the caller sees follows the reference rule, apart from timing: while the rule is undecided
   * nothing is delivered, a rejection is delivered at once, and a delivered fulfilment is the rule's
   * value, or `cancelled` when `isEnsured` is set.
   */
  lemma {:induction false} DeliveredDecisive<T>(m: seq<Moment<T>>, isEnsured: bool)
    requires ValidSignals(Inputs(m))
    ensures Decisive(Inputs(m)).Pending? ==> Delivered(m, isEnsured).Pending?
    ensures IsRejected(Decisive(Inputs(m))) ==> Delivered(m, isEnsured) == Decisive(Inputs(m))
    ensures IsFulfilled(Decisive(Inputs(m))) && Delivered(m, isEnsured).Settled? ==>
      Delivered(m, isEnsured) == Decisive(Inputs(m)) ||
      (isEnsured && Delivered(m, isEnsured) == Settled(Rejected(Cancelled)))
    decreases |m|
  {
    if m != [] {
      var prev, x := m[..|m| - 1], m[|m| - 1];
      assert m == prev + [x];
      InputsSnoc(prev, x);
      var t := Inputs(prev);
      if x.Input? {
        DecisiveSnoc(t, x.s);
        ValidPrefix(Inputs(m));
        assert Inputs(m)[..|Inputs(m)| - 1] == t;
        GateMeaning(Inputs(m));
      } else {
        assert Inputs(m) == t;
        GateMeaning(t);
        WhenWhileMeaning(t, isEnsured);
      }
      DeliveredDecisive(prev, isEnsured);
    }
  }

  /** The result is assigned once: a delivered outcome never changes, with or without `isEnsured` */
  lemma {:induction false} DeliveredStable<T>(m: seq<Moment<T>>, n: seq<Moment<T>>, isEnsured: bool)
    requires Delivered(m, isEnsured).Settled?
    ensures Delivered(m + n, isEnsured) == Delivered(m, isEnsured)
    decreases |n|
  {
    if n == [] {
      assert m + n == m;
    } else {
      var n' := n[..|n| - 1];
      assert (m + n)[..|m + n| - 1] == m + n';
      DeliveredStable(m, n', isEnsured);
    }
  }

  /** Until the `map` block runs, a fulfilment is not delivered: only a rejection can be */
  lemma {:induction false} NoFulfilmentBeforeMap<T>(m: seq<Moment<T>>, isEnsured: bool)
    requires ValidSignals(Inputs(m))
    requires forall j :: 0 <= j < |m| ==> m[j].Input?
    ensures Delivered(m, isEnsured) == if IsRejected(Decisive(Inputs(m))) then Decisive(Inputs(m)) else Pending
    decreases |m|
  {
    if m != [] {
      var prev := m[..|m| - 1];
      assert m == prev + [m[|m| - 1]];
      InputsSnoc(prev, m[|m| - 1]);
      ValidPrefix(Inputs(m));
      assert Inputs(m)[..|Inputs(m)| - 1] == Inputs(prev);
      NoFulfilmentBeforeMap(prev, isEnsured);
      DecisiveSnoc(Inputs(prev), m[|m| - 1].s);
      GateMeaning(Inputs(m));
    }
  }

  /** The `map` block running after the rule decided for a fulfilment delivers that value, unless
      `isEnsured` is set and the condition has been rejected by then */
  lemma MapRunDelivers<T>(m: seq<Moment<T>>, isEnsured: bool)
    requires ValidSignals(Inputs(m))
    requires Delivered(m, isEnsured).Pending? && IsFulfilled(Decisive(Inputs(m)))
    ensures Delivered(m + [MapRuns], isEnsured) ==
      if isEnsured && IsRejected(ConditionState(Inputs(m))) then Settled(Rejected(Cancelled))
      else Decisive(Inputs(m))
  {
    assert (m + [MapRuns])[..|m + [MapRuns]| - 1] == m;
    GateMeaning(Inputs(m));
    WhenWhileMeaning(Inputs(m), isEnsured);
  }

  /**
   * With `isEnsured`, a fulfilment is cancelled when the condition is rejected after the awaited
   * promise fulfilled but before the `map` block runs; once the block has run, a late rejection
   * changes nothing. Without `isEnsured` the value stands either way.
   */
  lemma EnsuredLateRejectionCancels<T>(v: T, e: Error)
    ensures Delivered([Input(Primary(Fulfilled(v))), Input(Condition(Rejected(e))), MapRuns], true)
      == Settled(Rejected(Cancelled))
    ensures Delivered([Input(Primary(Fulfilled(v))), MapRuns, Input(Condition(Rejected(e)))], true)
      == Settled(Fulfilled(v))
    ensures Delivered([Input(Primary(Fulfilled(v))), Input(Condition(Rejected(e))), MapRuns], false)
      == Settled(Fulfilled(v))
    ensures Delivered([Input(Primary(Fulfilled(v))), MapRuns, Input(Condition(Rejected(e)))], false)
      == Settled(Fulfilled(v))
  {
    var p: Moment<T>, c: Moment<T> := Input(Primary(Fulfilled(v))), Input(Condition(Rejected(e)));
    InputsSnoc([], p);
    InputsSnoc([p], c);
    InputsSnoc([p], MapRuns);
    var t := [Primary(Fulfilled(v)), Condition(Rejected(e))];
    assert Inputs([p, c]) == t;
    DecisiveAt(t, 0);
    ConditionAt(t, 1);
    DecisiveAt([Primary(Fulfilled(v))], 0);
    assert [p] + [c] == [p, c] && [p] + [MapRuns] == [p, MapRuns];
    assert [p, c] + [MapRuns] == [p, c, MapRuns] && [p, MapRuns] + [c] == [p, MapRuns, c];
    forall isEnsured: bool
      ensures Delivered([p, c, MapRuns], isEnsured) == if isEnsured then Settled(Rejected(Cancelled)) else Settled(Fulfilled(v))
      ensures Delivered([p, MapRuns, c], isEnsured) == Settled(Fulfilled(v))
    {
      NoFulfilmentBeforeMap([p], isEnsured);
      NoFulfilmentBeforeMap([p, c], isEnsured);
      MapRunDelivers([p, c], isEnsured);
      MapRunDelivers([p], isEnsured);
      DeliveredStable([p, MapRuns], [c], isEnsured);
    }
  }

  /**
   * One more moment, without `isEnsured`: the awaited promise rejecting, or the condition rejecting
   * while the awaited promise is pending, rejects the result at once; the `map` block delivers the
   * awaited promise's value once it has fulfilled; nothing else changes the result, and a settled
   * result stays
   */
  lemma DeliveredNext<T>(m: seq<Moment<T>>, x: Moment<T>)
    requires ValidSignals(Inputs(m))
    requires x.Input? ==>
      if x.s.Primary? then PrimaryState(Inputs(m)).Pending? else ConditionState(Inputs(m)).Pending?
    ensures ValidSignals(Inputs(m + [x]))
    ensures Delivered(m + [x], false) ==
      if Delivered(m, false).Settled? then Delivered(m, false)
      else match x
        case Input(Primary(o)) => if o.Rejected? then Settled(o) else Pending
        case Input(Condition(o)) =>
          if o.Rejected? && PrimaryState(Inputs(m)).Pending? then Settled(Rejected(o.error)) else Pending
        case MapRuns => if IsFulfilled(PrimaryState(Inputs(m))) then PrimaryState(Inputs(m)) else Pending
  {
    var t := Inputs(m);
    InputsSnoc(m, x);
    assert (m + [x])[..|m + [x]| - 1] == m;
    DeliveredDecisive(m, false);
    DecisiveSettledAfterPrimary(t);
    if x.Input? {
      SeeSignal(t, x.s);
      DecisiveSnoc(t, x.s);
      GateMeaning(t + [x.s]);
    } else {
      assert Inputs(m + [x]) == t;
      GateMeaning(t);
      WhenWhileMeaning(t, false);
    }
  }
}
