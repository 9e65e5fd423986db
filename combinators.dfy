/**
 * The collection combinators `race(_:autoCancel:)`, `when(fulfilled:autoCancel:)`,
 * `when(resolved:autoCancel:)` and `Promise.asCancellable()`, as functions of a
 * trace of events: members settling, and the aggregate's cancellation token
 * settling.
 *
 * Each of them is built with the wrapper initialiser,
 * `CancellablePromise { token in when(K(members), while: token) }`, and that
 * initialiser wraps its body once more: the exposed promise is
 * `when(body(token), while: token)`. `Wrapped` is that double composition;
 * `Shielded` is the reference rule ("K decides, unless the token is rejected
 * first"), and `WrappedMeaning` proves the two agree.
 */
module Combinators {
  import opened Promises
  import opened While

  /** Something that happens to an aggregate: a member settles, or its token settles */
  datatype Event<T> = Member(index: nat, outcome: Outcome<T>) | TokenRejected | TokenFulfilled

  predicate IsToken<T>(e: Event<T>) {
    e.TokenRejected? || e.TokenFulfilled?
  }

  /** The members' settlements, in order */
  function Arrivals<T>(t: seq<Event<T>>): seq<Arrival<T>>
  {
    if t == [] then []
    else
      Arrivals(t[..|t| - 1]) +
      match t[|t| - 1]
      case Member(i, o) => [Arrival(i, o)]
      case _ => []
  }

  /** Members 0 .. n-1 settle at most once each, and the token settles at most once */
  ghost predicate ValidEvents<T>(n: nat, t: seq<Event<T>>) {
    && ValidArrivals(n, Arrivals(t))
    && (forall j, k :: 0 <= j < k < |t| && IsToken(t[j]) ==> !IsToken(t[k]))
  }

  /** A promise computed from the trace that, once settled, stays settled */
  ghost predicate Stable<T(!new), U>(n: nat, source: seq<Event<T>> -> Cell<U>) {
    forall t, e :: ValidEvents(n, t + [e]) && source(t).Settled? ==> source(t + [e]) == source(t)
  }

  /** A combinator over member settlements that, once settled, stays settled */
  ghost predicate StableOnArrivals<T(!new), U>(n: nat, k: seq<Arrival<T>> -> Cell<U>) {
    forall a, x :: ValidArrivals(n, a + [x]) && k(a).Settled? ==> k(a + [x]) == k(a)
  }

  /**
   * The signals `when(source, while: token)` sees: the token's settlement as it
   * happens, and the source's settlement when the source goes from pending to
   * settled. A source already settled when the combinator is built is seen first.
   */
  function Guard<T, U>(t: seq<Event<T>>, source: seq<Event<T>> -> Cell<U>): seq<Signal<U>>
  {
    if t == [] then SourceSignals(Pending, source([]))
    else
      var prev := t[..|t| - 1];
      Guard(prev, source) + (TokenSignals(t[|t| - 1]) + SourceSignals(source(prev), source(t)))
  }

  /** What the token's settlement shows `when(_:while:)`: the token only ever rejects with `cancelled` */
  function TokenSignals<T, U>(e: Event<T>): seq<Signal<U>>
  {
    match e
    case TokenRejected => [Condition(Rejected(Cancelled))]
    case TokenFulfilled => [Condition(Fulfilled(()))]
    case Member(_, _) => []
  }

  /** The source's settlement, seen when it goes from pending to settled */
  function SourceSignals<U>(before: Cell<U>, after: Cell<U>): seq<Signal<U>>
  {
    if before.Pending? && after.Settled? then [Primary(after.outcome)] else []
  }

  /** Reference rule: the source decides, unless the token is rejected first, which cancels */
  function Shielded<T, U>(t: seq<Event<T>>, source: seq<Event<T>> -> Cell<U>): Cell<U>
  {
    if t == [] then source([])
    else if Shielded(t[..|t| - 1], source).Settled? then Shielded(t[..|t| - 1], source)
    else if t[|t| - 1].TokenRejected? then Settled(Rejected(Cancelled))
    else source(t)
  }

  /** `CancellablePromise { token in when(K(members), while: token) }`, as the wrapper initialiser exposes it */
  function Wrapped<T, U>(t: seq<Event<T>>, k: seq<Arrival<T>> -> Cell<U>): Cell<U>
  {
    var members := (u: seq<Event<T>>) => k(Arrivals(u));
    var body := (s: seq<Event<T>>) => WhenWhile(Guard(s, members), false);
    WhenWhile(Guard(t, body), false)
  }

  /** `race(_:autoCancel:)` over n members: the autoCancel policy does not change the outcome */
  function RaceAggregate<T>(n: nat, t: seq<Event<T>>): Cell<T>
  {
    Wrapped(t, (a: seq<Arrival<T>>) => Race(n, a))
  }

  /** `when(fulfilled:autoCancel:)` over n members */
  function WhenFulfilledAggregate<T>(n: nat, t: seq<Event<T>>): Cell<seq<T>>
  {
    Wrapped(t, (a: seq<Arrival<T>>) => WhenFulfilled(n, a))
  }

  /** `Promise { guarantee.done($0.fulfill) }`: a promise fulfilled with the guarantee's value */
  function FulfilFromGuarantee<V>(g: Cell<V>): Cell<V>
  {
    match g
    case Settled(Fulfilled(v)) => Settled(Fulfilled(v))
    case _ => Pending
  }

  /** `when(resolved:autoCancel:)` over n members */
  function WhenResolvedAggregate<T>(n: nat, t: seq<Event<T>>): Cell<seq<Outcome<T>>>
  {
    Wrapped(t, (a: seq<Arrival<T>>) => FulfilFromGuarantee(WhenResolved(n, a)))
  }

  /** PromiseKit's `mapValues` on a guarantee of a list (assumed): the transform applied to each element */
  function MapValues<V, W>(g: Cell<seq<V>>, f: V -> W): Cell<seq<W>>
  {
    match g
    case Settled(Fulfilled(vs)) => Settled(Fulfilled(seq(|vs|, i requires 0 <= i < |vs| => f(vs[i]))))
    case Settled(Rejected(e)) => Settled(Rejected(e))
    case Pending => Pending
  }

  lemma MapValuesMeaning<V, W>(g: Cell<seq<V>>, f: V -> W)
    ensures MapValues(g, f).Pending? <==> g.Pending?
    ensures IsRejected(g) ==> MapValues(g, f) == Settled(Rejected(g.outcome.error))
    ensures IsFulfilled(g) ==>
      && IsFulfilled(MapValues(g, f))
      && |MapValues(g, f).outcome.value| == |g.outcome.value|
      && forall i :: 0 <= i < |g.outcome.value| ==> MapValues(g, f).outcome.value[i] == f(g.outcome.value[i])
  {
  }

  /** The closure `{ v in v }` */
  function Same<V>(v: V): V
  {
    v
  }

  /** The older `when(resolved:)`, whose body is `guarantee.mapValues { v in v }` */
  function LegacyWhenResolvedAggregate<T>(n: nat, t: seq<Event<T>>): Cell<seq<Outcome<T>>>
  {
    Wrapped(t, (a: seq<Arrival<T>>) => MapValues(WhenResolved(n, a), Same))
  }

  /** `Promise.asCancellable()`: the wrapped promise is the single member 0 */
  function AsCancellable<T>(t: seq<Event<T>>): Cell<T>
  {
    Wrapped(t, (a: seq<Arrival<T>>) => Lookup(0, a))
  }

  // ---------------------------------------------------------------------------
  // Traces and their prefixes

  lemma ValidArrivalsPrefix<T>(n: nat, a: seq<Arrival<T>>, b: seq<Arrival<T>>)
    requires ValidArrivals(n, a + b)
    ensures ValidArrivals(n, a)
  {
    forall j, k | 0 <= j < k < |a| ensures a[j].member != a[k].member {
      assert a[j] == (a + b)[j] && a[k] == (a + b)[k];
    }
    forall k | 0 <= k < |a| ensures a[k].member < n {
      assert a[k] == (a + b)[k];
    }
  }

  lemma ValidEventsPrefix<T>(n: nat, t: seq<Event<T>>)
    requires ValidEvents(n, t) && t != []
    ensures ValidEvents(n, t[..|t| - 1])
  {
    var prev := t[..|t| - 1];
    assert Arrivals(t) == Arrivals(prev) + Arrivals(t)[|Arrivals(prev)|..];
    ValidArrivalsPrefix(n, Arrivals(prev), Arrivals(t)[|Arrivals(prev)|..]);
  }

  lemma {:induction false} ValidEventsPrefixes<T>(n: nat, t: seq<Event<T>>, m: nat)
    requires ValidEvents(n, t) && m <= |t|
    ensures ValidEvents(n, t[..m])
    decreases |t| - m
  {
    if m < |t| {
      ValidEventsPrefix(n, t);
      ValidEventsPrefixes(n, t[..|t| - 1], m);
      assert t[..|t| - 1][..m] == t[..m];
    } else {
      assert t[..m] == t;
    }
  }

  /** A combinator that is stable on arrivals gives a stable source */
  lemma MembersStable<T(!new), U>(n: nat, k: seq<Arrival<T>> -> Cell<U>)
    requires StableOnArrivals(n, k)
    ensures Stable(n, (u: seq<Event<T>>) => k(Arrivals(u)))
  {
    forall t, e | ValidEvents(n, t + [e]) && k(Arrivals(t)).Settled?
      ensures k(Arrivals(t + [e])) == k(Arrivals(t))
    {
      assert (t + [e])[..|t + [e]| - 1] == t;
      if e.Member? {
        assert Arrivals(t + [e]) == Arrivals(t) + [Arrival(e.index, e.outcome)];
      } else {
        assert Arrivals(t + [e]) == Arrivals(t);
      }
    }
  }

  // ---------------------------------------------------------------------------
  // One `when(source, while: token)` layer means `Shielded`

  predicate NoPrimary<U>(s: seq<Signal<U>>) {
    forall j :: 0 <= j < |s| ==> !s[j].Primary?
  }

  predicate NoCondition<U>(s: seq<Signal<U>>) {
    forall j :: 0 <= j < |s| ==> s[j].Primary?
  }

  /** Two valid signal traces that do not both see the same promise form a valid trace */
  lemma ValidSignalsAppend<U>(a: seq<Signal<U>>, b: seq<Signal<U>>)
    requires ValidSignals(a) && ValidSignals(b)
    requires NoPrimary(a) || NoPrimary(b)
    requires NoCondition(a) || NoCondition(b)
    ensures ValidSignals(a + b)
    ensures NoPrimary(a) && NoPrimary(b) ==> NoPrimary(a + b)
    ensures NoCondition(a) && NoCondition(b) ==> NoCondition(a + b)
  {
    forall j, k | 0 <= j < k < |a + b| ensures (a + b)[j].Primary? != (a + b)[k].Primary? {
      if k < |a| {
        assert (a + b)[j] == a[j] && (a + b)[k] == a[k];
      } else if j < |a| {
        assert (a + b)[j] == a[j] && (a + b)[k] == b[k - |a|];
      } else {
        assert (a + b)[j] == b[j - |a|] && (a + b)[k] == b[k - |a|];
      }
    }
  }

  /** A valid trace has no token settlement before a later one */
  lemma NoEarlierToken<T>(n: nat, t: seq<Event<T>>)
    requires ValidEvents(n, t) && t != [] && IsToken(t[|t| - 1])
    ensures forall j :: 0 <= j < |t| - 1 ==> !IsToken(t[j])
  {
  }

  /** Joining two traces that both lack the source's (or both lack the token's) signal */
  lemma NoneAppend<U>(a: seq<Signal<U>>, b: seq<Signal<U>>)
    ensures NoPrimary(a) && NoPrimary(b) ==> NoPrimary(a + b)
    ensures NoCondition(a) && NoCondition(b) ==> NoCondition(a + b)
  {
    assert forall j :: 0 <= j < |a + b| ==> (a + b)[j] == if j < |a| then a[j] else b[j - |a|];
  }

  /** While no token settlement has happened, `when(source, while: token)` has seen only the source */
  lemma {:induction false} GuardNoCondition<T, U>(t: seq<Event<T>>, source: seq<Event<T>> -> Cell<U>)
    requires forall j :: 0 <= j < |t| ==> !IsToken(t[j])
    ensures NoCondition(Guard(t, source))
    decreases |t|
  {
    if t != [] {
      var prev := t[..|t| - 1];
      assert forall j :: 0 <= j < |prev| ==> prev[j] == t[j];
      GuardNoCondition(prev, source);
      assert !IsToken(t[|t| - 1]);
      NoneAppend(Guard(prev, source), SourceSignals(source(prev), source(t)));
    }
  }

  /** A stable source pending after a valid trace was pending after each shorter one */
  lemma PendingBefore<T(!new), U>(n: nat, t: seq<Event<T>>, source: seq<Event<T>> -> Cell<U>)
    requires ValidEvents(n, t) && Stable(n, source) && t != [] && source(t).Pending?
    ensures source(t[..|t| - 1]).Pending?
  {
    assert t[..|t| - 1] + [t[|t| - 1]] == t;
  }

  /** While a stable source is pending, `when(source, while: token)` has not seen it */
  lemma {:induction false} GuardNoPrimary<T(!new), U>(n: nat, t: seq<Event<T>>, source: seq<Event<T>> -> Cell<U>)
    requires ValidEvents(n, t) && Stable(n, source) && source(t).Pending?
    ensures NoPrimary(Guard(t, source))
    decreases |t|
  {
    if t != [] {
      var prev := t[..|t| - 1];
      ValidEventsPrefix(n, t);
      PendingBefore(n, t, source);
      GuardNoPrimary(n, prev, source);
      NoneAppend(Guard(prev, source), TokenSignals<T, U>(t[|t| - 1]));
    }
  }

  /** With a stable source on a valid trace, each of the source and the token is seen at most once */
  lemma {:induction false} GuardValid<T(!new), U>(n: nat, t: seq<Event<T>>, source: seq<Event<T>> -> Cell<U>)
    requires ValidEvents(n, t) && Stable(n, source)
    ensures ValidSignals(Guard(t, source))
    decreases |t|
  {
    if t != [] {
      var prev := t[..|t| - 1];
      var last := t[|t| - 1];
      var c: seq<Signal<U>> := TokenSignals(last);
      var p := SourceSignals(source(prev), source(t));
      ValidEventsPrefix(n, t);
      GuardValid(n, prev, source);
      ValidSignalsAppend(c, p);
      if p != [] {
        GuardNoPrimary(n, prev, source);
      }
      if IsToken(last) {
        NoEarlierToken(n, t);
        assert forall j :: 0 <= j < |prev| ==> !IsToken(prev[j]) by {
          assert forall j :: 0 <= j < |prev| ==> prev[j] == t[j];
        }
        GuardNoCondition(prev, source);
      }
      ValidSignalsAppend(Guard(prev, source), c + p);
    }
  }

  /** While the reference rule is pending, so is the source */
  lemma {:induction false} ShieldedPendingSource<T, U>(t: seq<Event<T>>, source: seq<Event<T>> -> Cell<U>)
    ensures Shielded(t, source).Pending? ==> source(t).Pending?
    decreases |t|
  {
  }

  /** A token event alone: its rejection is decisive, its fulfilment is not */
  lemma DecisiveToken<T, U>(e: Event<T>)
    ensures Decisive(TokenSignals<T, U>(e)) == if e.TokenRejected? then Settled(Rejected(Cancelled)) else Pending
  {
    var c: seq<Signal<U>> := TokenSignals(e);
    if c != [] {
      assert c == [] + [c[0]];
      DecisiveSnoc([], c[0]);
    }
  }

  /** The source's settlement alone decides */
  lemma DecisiveSource<U>(before: Cell<U>, after: Cell<U>)
    ensures Decisive(SourceSignals(before, after)) == if before.Pending? && after.Settled? then after else Pending
  {
    var p := SourceSignals(before, after);
    if p != [] {
      assert p == [] + [p[0]];
      DecisiveSnoc([], p[0]);
    }
  }

  lemma DecisiveBlock<T, U>(e: Event<T>, before: Cell<U>, after: Cell<U>)
    ensures Decisive(TokenSignals(e) + SourceSignals(before, after)) ==
      if e.TokenRejected? then Settled(Rejected(Cancelled))
      else if before.Pending? && after.Settled? then after
      else Pending
  {
    DecisiveToken<T, U>(e);
    DecisiveSource(before, after);
    DecisiveAppend(TokenSignals<T, U>(e), SourceSignals(before, after));
  }

  /** The first decisive signal `when(source, while: token)` sees is the one the reference rule picks */
  lemma {:induction false} GuardDecides<T, U>(t: seq<Event<T>>, source: seq<Event<T>> -> Cell<U>)
    ensures Decisive(Guard(t, source)) == Shielded(t, source)
    decreases |t|
  {
    if t == [] {
      var p := SourceSignals(Pending, source([]));
      if p != [] {
        assert p[..0] == [];
      }
    } else {
      var prev := t[..|t| - 1];
      var block := TokenSignals(t[|t| - 1]) + SourceSignals(source(prev), source(t));
      GuardDecides(prev, source);
      ShieldedPendingSource(prev, source);
      DecisiveAppend(Guard(prev, source), block);
      DecisiveBlock(t[|t| - 1], source(prev), source(t));
    }
  }

  /** One `when(source, while: token)` layer follows the reference rule */
  lemma GuardedWhile<T(!new), U>(n: nat, t: seq<Event<T>>, source: seq<Event<T>> -> Cell<U>)
    requires ValidEvents(n, t) && Stable(n, source)
    ensures WhenWhile(Guard(t, source), false) == Shielded(t, source)
  {
    GuardValid(n, t, source);
    GuardDecides(t, source);
    WhenWhileMeaning(Guard(t, source), false);
  }

  /** The reference rule, once settled, stays settled */
  lemma ShieldedStable<T(!new), U>(n: nat, source: seq<Event<T>> -> Cell<U>)
    ensures Stable(n, (s: seq<Event<T>>) => Shielded(s, source))
  {
    forall t, e | ValidEvents(n, t + [e]) && Shielded(t, source).Settled?
      ensures Shielded(t + [e], source) == Shielded(t, source)
    {
      assert (t + [e])[..|t + [e]| - 1] == t;
    }
  }

  /** Wrapping a second time with the same token changes nothing */
  lemma {:induction false} ShieldTwice<T(!new), U>(n: nat, t: seq<Event<T>>, source: seq<Event<T>> -> Cell<U>)
    requires ValidEvents(n, t) && Stable(n, source)
    ensures Shielded(t, (s: seq<Event<T>>) => WhenWhile(Guard(s, source), false)) == Shielded(t, source)
    decreases |t|
  {
    var body := (s: seq<Event<T>>) => WhenWhile(Guard(s, source), false);
    GuardedWhile(n, t, source);
    if t != [] {
      ValidEventsPrefix(n, t);
      ShieldTwice(n, t[..|t| - 1], source);
    }
  }

  /** An aggregate built with the wrapper initialiser settles as its combinator does,
      unless its token is rejected first, which rejects it with `cancelled` */
  lemma WrappedMeaning<T(!new), U>(n: nat, t: seq<Event<T>>, k: seq<Arrival<T>> -> Cell<U>)
    requires ValidEvents(n, t) && StableOnArrivals(n, k)
    ensures Wrapped(t, k) == Shielded(t, (u: seq<Event<T>>) => k(Arrivals(u)))
  {
    var members := (u: seq<Event<T>>) => k(Arrivals(u));
    var body := (s: seq<Event<T>>) => WhenWhile(Guard(s, members), false);
    MembersStable(n, k);
    assert Stable(n, body) by {
      forall s, e | ValidEvents(n, s + [e]) && body(s).Settled?
        ensures body(s + [e]) == body(s)
      {
        assert (s + [e])[..|s + [e]| - 1] == s;
        ValidEventsPrefix(n, s + [e]);
        GuardedWhile(n, s, members);
        GuardedWhile(n, s + [e], members);
      }
    }
    GuardedWhile(n, t, body);
    ShieldTwice(n, t, members);
  }

  // ---------------------------------------------------------------------------
  // The reference rule, read off a trace

  /** With no token rejection, the rule follows the source */
  lemma {:induction false} ShieldedUnblocked<T(!new), U>(n: nat, t: seq<Event<T>>, source: seq<Event<T>> -> Cell<U>)
    requires ValidEvents(n, t) && Stable(n, source)
    requires forall j :: 0 <= j < |t| ==> !t[j].TokenRejected?
    ensures Shielded(t, source) == source(t)
    decreases |t|
  {
    if t != [] {
      var prev := t[..|t| - 1];
      ValidEventsPrefix(n, t);
      ShieldedUnblocked(n, prev, source);
      assert prev + [t[|t| - 1]] == t;
    }
  }

  /** A settled rule stays settled along the rest of the trace */
  lemma {:induction false} ShieldedPrefix<T, U>(t: seq<Event<T>>, m: nat, source: seq<Event<T>> -> Cell<U>)
    requires m <= |t| && Shielded(t[..m], source).Settled?
    ensures Shielded(t, source) == Shielded(t[..m], source)
    decreases |t| - m
  {
    if m < |t| {
      assert t[..|t| - 1][..m] == t[..m];
      ShieldedPrefix(t[..|t| - 1], m, source);
    } else {
      assert t[..m] == t;
    }
  }

  /** What the combinator says at the end of a prefix free of token rejections is the aggregate's outcome */
  lemma AggregateFollowsMembers<T(!new), U>(n: nat, t: seq<Event<T>>, m: nat, k: seq<Arrival<T>> -> Cell<U>)
    requires ValidEvents(n, t) && StableOnArrivals(n, k)
    requires m <= |t| && forall j :: 0 <= j < m ==> !t[j].TokenRejected?
    requires k(Arrivals(t[..m])).Settled?
    ensures Wrapped(t, k) == k(Arrivals(t[..m]))
  {
    var members := (u: seq<Event<T>>) => k(Arrivals(u));
    WrappedMeaning(n, t, k);
    MembersStable(n, k);
    ValidEventsPrefixes(n, t, m);
    ShieldedUnblocked(n, t[..m], members);
    ShieldedPrefix(t, m, members);
  }

  /** A token rejected while the combinator is still pending cancels the aggregate,
      whatever the members do later */
  lemma AggregateCancelled<T(!new), U>(n: nat, t: seq<Event<T>>, m: nat, k: seq<Arrival<T>> -> Cell<U>)
    requires ValidEvents(n, t) && StableOnArrivals(n, k)
    requires m < |t| && t[m].TokenRejected?
    requires k(Arrivals(t[..m])).Pending?
    ensures Wrapped(t, k) == Settled(Rejected(Cancelled))
  {
    var members := (u: seq<Event<T>>) => k(Arrivals(u));
    WrappedMeaning(n, t, k);
    MembersStable(n, k);
    ValidEventsPrefixes(n, t, m);
    assert members(t[..m]).Pending?;
    ShieldedPendingBefore(n, t[..m], members);
    ShieldedTokenRejection(t, m, members);
  }

  /** A token rejection that finds the rule pending settles it with `cancelled`, for good */
  lemma ShieldedTokenRejection<T, U>(t: seq<Event<T>>, m: nat, source: seq<Event<T>> -> Cell<U>)
    requires m < |t| && t[m].TokenRejected?
    requires Shielded(t[..m], source).Pending? || Shielded(t[..m], source) == Settled(Rejected(Cancelled))
    ensures Shielded(t, source) == Settled(Rejected(Cancelled))
  {
    var u := t[..m + 1];
    assert u[..|u| - 1] == t[..m] && u[|u| - 1] == t[m];
    ShieldedPrefix(t, m + 1, source);
  }

  /** The rule is pending while the source is and no token rejection has happened: a token
      rejection before this point would be the only one, so none can be earlier */
  lemma {:induction false} ShieldedPendingBefore<T(!new), U>(n: nat, t: seq<Event<T>>, source: seq<Event<T>> -> Cell<U>)
    requires ValidEvents(n, t) && Stable(n, source)
    requires source(t).Pending?
    ensures Shielded(t, source).Pending? || Shielded(t, source) == Settled(Rejected(Cancelled))
    decreases |t|
  {
    if t != [] {
      var prev := t[..|t| - 1];
      ValidEventsPrefix(n, t);
      assert prev + [t[|t| - 1]] == t;
      if source(prev).Settled? {
        assert false;
      }
      ShieldedPendingBefore(n, prev, source);
    }
  }

  /** Member settlements up to a point are a prefix of all member settlements */
  lemma {:induction false} ArrivalsPrefix<T>(t: seq<Event<T>>, m: nat)
    requires m <= |t|
    ensures Arrivals(t[..m]) <= Arrivals(t)
    decreases |t| - m
  {
    if m < |t| {
      assert t[..|t| - 1][..m] == t[..m];
      ArrivalsPrefix(t[..|t| - 1], m);
    } else {
      assert t[..m] == t;
    }
  }

  /** A source that never rejects */
  ghost predicate NeverRejects<T(!new), U>(source: seq<Event<T>> -> Cell<U>) {
    forall u :: !IsRejected(source(u))
  }

  /** Over a source that never rejects, the rule rejects only with `cancelled` */
  lemma {:induction false} ShieldedRejectsOnlyCancelled<T(!new), U>(t: seq<Event<T>>, source: seq<Event<T>> -> Cell<U>)
    requires NeverRejects(source)
    ensures IsRejected(Shielded(t, source)) ==> Shielded(t, source).outcome.error == Cancelled
    decreases |t|
  {
    if t != [] {
      ShieldedRejectsOnlyCancelled(t[..|t| - 1], source);
    }
  }

  /** An aggregate over a combinator that never rejects rejects only with `cancelled` */
  lemma AggregateRejectsOnlyCancelled<T(!new), U>(n: nat, t: seq<Event<T>>, k: seq<Arrival<T>> -> Cell<U>)
    requires ValidEvents(n, t) && StableOnArrivals(n, k)
    requires forall a :: !IsRejected(k(a))
    ensures IsRejected(Wrapped(t, k)) ==> Wrapped(t, k).outcome.error == Cancelled
  {
    var members := (u: seq<Event<T>>) => k(Arrivals(u));
    WrappedMeaning(n, t, k);
    assert NeverRejects(members) by {
      forall u ensures !IsRejected(members(u)) {
        assert !IsRejected(k(Arrivals(u)));
      }
    }
    ShieldedRejectsOnlyCancelled(t, members);
  }

  // ---------------------------------------------------------------------------
  // The combinators settle once and for all

  lemma RaceStableOnArrivals<T(!new)>(n: nat)
    ensures StableOnArrivals(n, (a: seq<Arrival<T>>) => Race(n, a))
  {
    forall a: seq<Arrival<T>>, x | Race(n, a).Settled? ensures Race(n, a + [x]) == Race(n, a) {
      RaceStable(n, a, [x]);
    }
  }

  lemma WhenFulfilledStableOnArrivals<T(!new)>(n: nat)
    ensures StableOnArrivals(n, (a: seq<Arrival<T>>) => WhenFulfilled(n, a))
  {
    forall a: seq<Arrival<T>>, x | ValidArrivals(n, a + [x]) && WhenFulfilled(n, a).Settled?
      ensures WhenFulfilled(n, a + [x]) == WhenFulfilled(n, a)
    {
      WhenFulfilledStable(n, a, [x]);
    }
  }

  lemma WhenResolvedStableOnArrivals<T(!new)>(n: nat)
    ensures StableOnArrivals(n, (a: seq<Arrival<T>>) => FulfilFromGuarantee(WhenResolved(n, a)))
  {
    forall a: seq<Arrival<T>>, x | ValidArrivals(n, a + [x]) && FulfilFromGuarantee(WhenResolved(n, a)).Settled?
      ensures FulfilFromGuarantee(WhenResolved(n, a + [x])) == FulfilFromGuarantee(WhenResolved(n, a))
    {
      WhenResolvedStable(n, a, [x]);
    }
  }

  lemma LookupStableOnArrivals<T(!new)>()
    ensures StableOnArrivals(1, (a: seq<Arrival<T>>) => Lookup(0, a))
  {
    forall a: seq<Arrival<T>>, x | Lookup(0, a).Settled? ensures Lookup(0, a + [x]) == Lookup(0, a) {
      LookupAppend(0, a, [x]);
    }
  }

  // ---------------------------------------------------------------------------
  // race(_:autoCancel:)

  /** The aggregate settles with the outcome of the first member to settle, value or error,
      unless its token was rejected before that */
  lemma RaceFirstSettledWins<T(!new)>(n: nat, t: seq<Event<T>>, m: nat)
    requires ValidEvents(n, t)
    requires m <= |t| && forall j :: 0 <= j < m ==> !t[j].TokenRejected?
    requires Arrivals(t[..m]) != []
    ensures Arrivals(t) != [] && RaceAggregate(n, t) == Settled(Arrivals(t)[0].outcome)
  {
    ValidEventsPrefixes(n, t, m);
    assert Arrivals(t[..m])[0].member < n;
    RaceStableOnArrivals<T>(n);
    AggregateFollowsMembers(n, t, m, (a: seq<Arrival<T>>) => Race(n, a));
    ArrivalsPrefix(t, m);
  }

  /** A race over no members is rejected with `badInput` from the start, and cancelling it later
      changes nothing */
  lemma RaceEmptyRejects<T(!new)>(t: seq<Event<T>>)
    requires ValidEvents(0, t)
    ensures RaceAggregate(0, t) == Settled(Rejected(BadInput))
  {
    RaceStableOnArrivals<T>(0);
    AggregateFollowsMembers(0, t, 0, (a: seq<Arrival<T>>) => Race(0, a));
  }

  /** Cancelling the aggregate of a non-empty list before any member settles rejects it with `cancelled` */
  lemma RaceCancelledFirst<T(!new)>(n: nat, t: seq<Event<T>>, m: nat)
    requires ValidEvents(n, t) && n > 0
    requires m < |t| && t[m].TokenRejected? && Arrivals(t[..m]) == []
    ensures RaceAggregate(n, t) == Settled(Rejected(Cancelled))
  {
    RaceStableOnArrivals<T>(n);
    AggregateCancelled(n, t, m, (a: seq<Arrival<T>>) => Race(n, a));
  }

  // ---------------------------------------------------------------------------
  // when(fulfilled:autoCancel:)

  /** Once every member has fulfilled, with the token not rejected, the aggregate fulfils with
      the members' values in list order */
  lemma WhenFulfilledAggregateValues<T(!new)>(n: nat, t: seq<Event<T>>, m: nat)
    requires ValidEvents(n, t)
    requires m <= |t| && forall j :: 0 <= j < m ==> !t[j].TokenRejected?
    requires forall k :: 0 <= k < |Arrivals(t[..m])| ==> Arrivals(t[..m])[k].outcome.Fulfilled?
    requires forall i :: 0 <= i < n ==> Lookup(i, Arrivals(t[..m])).Settled?
    ensures IsFulfilled(WhenFulfilledAggregate(n, t))
    ensures |WhenFulfilledAggregate(n, t).outcome.value| == n
    ensures forall i :: 0 <= i < n ==>
      Lookup(i, Arrivals(t[..m])) == Settled(Fulfilled(WhenFulfilledAggregate(n, t).outcome.value[i]))
  {
    WhenFulfilledStableOnArrivals<T>(n);
    WhenFulfilledAllFulfilled(n, Arrivals(t[..m]));
    AggregateFollowsMembers(n, t, m, (a: seq<Arrival<T>>) => WhenFulfilled(n, a));
  }

  /** The first member rejection, before any token rejection, rejects the aggregate with that error */
  lemma WhenFulfilledAggregateRejects<T(!new)>(n: nat, t: seq<Event<T>>, m: nat, k: nat)
    requires ValidEvents(n, t)
    requires m <= |t| && forall j :: 0 <= j < m ==> !t[j].TokenRejected?
    requires k < |Arrivals(t[..m])| && Arrivals(t[..m])[k].outcome.Rejected?
    requires forall j :: 0 <= j < k ==> Arrivals(t[..m])[j].outcome.Fulfilled?
    ensures WhenFulfilledAggregate(n, t) == Settled(Rejected(Arrivals(t[..m])[k].outcome.error))
  {
    WhenFulfilledStableOnArrivals<T>(n);
    WhenFulfilledFirstRejection(n, Arrivals(t[..m]), k);
    AggregateFollowsMembers(n, t, m, (a: seq<Arrival<T>>) => WhenFulfilled(n, a));
  }

  /** Cancelling the aggregate while it waits rejects it with `cancelled` */
  lemma WhenFulfilledAggregateCancelled<T(!new)>(n: nat, t: seq<Event<T>>, m: nat)
    requires ValidEvents(n, t)
    requires m < |t| && t[m].TokenRejected? && WhenFulfilled(n, Arrivals(t[..m])).Pending?
    ensures WhenFulfilledAggregate(n, t) == Settled(Rejected(Cancelled))
  {
    WhenFulfilledStableOnArrivals<T>(n);
    AggregateCancelled(n, t, m, (a: seq<Arrival<T>>) => WhenFulfilled(n, a));
  }

  // ---------------------------------------------------------------------------
  // when(resolved:autoCancel:)

  /** Once every member has settled, with the token not rejected, the aggregate fulfils with the
      members' outcomes in list order */
  lemma WhenResolvedAggregateOutcomes<T(!new)>(n: nat, t: seq<Event<T>>, m: nat)
    requires ValidEvents(n, t)
    requires m <= |t| && forall j :: 0 <= j < m ==> !t[j].TokenRejected?
    requires forall i :: 0 <= i < n ==> Lookup(i, Arrivals(t[..m])).Settled?
    ensures IsFulfilled(WhenResolvedAggregate(n, t))
    ensures |WhenResolvedAggregate(n, t).outcome.value| == n
    ensures forall i :: 0 <= i < n ==>
      Lookup(i, Arrivals(t[..m])) == Settled(WhenResolvedAggregate(n, t).outcome.value[i])
  {
    WhenResolvedStableOnArrivals<T>(n);
    WhenResolvedMeaning(n, Arrivals(t[..m]));
    AggregateFollowsMembers(n, t, m, (a: seq<Arrival<T>>) => FulfilFromGuarantee(WhenResolved(n, a)));
  }

  /** A member's failure never rejects the aggregate: the only rejection is `cancelled` */
  lemma WhenResolvedAggregateRejectsOnlyCancelled<T(!new)>(n: nat, t: seq<Event<T>>)
    requires ValidEvents(n, t)
    ensures IsRejected(WhenResolvedAggregate(n, t)) ==> WhenResolvedAggregate(n, t).outcome.error == Cancelled
  {
    WhenResolvedStableOnArrivals<T>(n);
    AggregateRejectsOnlyCancelled(n, t, (a: seq<Arrival<T>>) => FulfilFromGuarantee(WhenResolved(n, a)));
  }

  /** Cancelling the aggregate before every member has settled rejects it with `cancelled` */
  lemma WhenResolvedAggregateCancelled<T(!new)>(n: nat, t: seq<Event<T>>, m: nat)
    requires ValidEvents(n, t)
    requires m < |t| && t[m].TokenRejected? && WhenResolved(n, Arrivals(t[..m])).Pending?
    ensures WhenResolvedAggregate(n, t) == Settled(Rejected(Cancelled))
  {
    WhenResolvedStableOnArrivals<T>(n);
    AggregateCancelled(n, t, m, (a: seq<Arrival<T>>) => FulfilFromGuarantee(WhenResolved(n, a)));
  }

  lemma {:induction false} GuardCongruent<T, U>(t: seq<Event<T>>, s1: seq<Event<T>> -> Cell<U>, s2: seq<Event<T>> -> Cell<U>)
    requires forall u :: s1(u) == s2(u)
    ensures Guard(t, s1) == Guard(t, s2)
    decreases |t|
  {
    if t != [] {
      GuardCongruent(t[..|t| - 1], s1, s2);
    }
  }

  /** Two combinators that agree on every trace give the same aggregate */
  lemma WrappedCongruent<T, U>(t: seq<Event<T>>, k1: seq<Arrival<T>> -> Cell<U>, k2: seq<Arrival<T>> -> Cell<U>)
    requires forall a :: k1(a) == k2(a)
    ensures Wrapped(t, k1) == Wrapped(t, k2)
  {
    var members1 := (u: seq<Event<T>>) => k1(Arrivals(u));
    var members2 := (u: seq<Event<T>>) => k2(Arrivals(u));
    var body1 := (s: seq<Event<T>>) => WhenWhile(Guard(s, members1), false);
    var body2 := (s: seq<Event<T>>) => WhenWhile(Guard(s, members2), false);
    forall u ensures members1(u) == members2(u) {
      assert k1(Arrivals(u)) == k2(Arrivals(u));
    }
    forall s ensures body1(s) == body2(s) {
      GuardCongruent(s, members1, members2);
    }
    GuardCongruent(t, body1, body2);
  }

  /** The older `when(resolved:)`, with its identity `mapValues`, yields the same outcomes unchanged */
  lemma LegacyWhenResolvedMatches<T>(n: nat, t: seq<Event<T>>)
    ensures LegacyWhenResolvedAggregate(n, t) == WhenResolvedAggregate(n, t)
  {
    var legacy := (a: seq<Arrival<T>>) => MapValues(WhenResolved(n, a), Same);
    var current := (a: seq<Arrival<T>>) => FulfilFromGuarantee(WhenResolved(n, a));
    forall a: seq<Arrival<T>> ensures legacy(a) == current(a) {
      WhenResolvedMeaning(n, a);
      var g := WhenResolved(n, a);
      if g.Settled? {
        var os := g.outcome.value;
        MapValuesMeaning(g, Same);
        assert MapValues(g, Same).outcome.value == os;
      }
    }
    WrappedCongruent(t, legacy, current);
  }

  // ---------------------------------------------------------------------------
  // Promise.asCancellable()

  /** Unless cancelled first, the wrapper settles as the wrapped promise does: its value, or its
      error unchanged */
  lemma AsCancellableFollowsBase<T(!new)>(t: seq<Event<T>>, m: nat)
    requires ValidEvents(1, t)
    requires m <= |t| && forall j :: 0 <= j < m ==> !t[j].TokenRejected?
    requires Lookup(0, Arrivals(t[..m])).Settled?
    ensures AsCancellable(t) == Lookup(0, Arrivals(t[..m]))
  {
    LookupStableOnArrivals<T>();
    AggregateFollowsMembers(1, t, m, (a: seq<Arrival<T>>) => Lookup(0, a));
  }

  /** Cancelling the wrapper while the wrapped promise is pending rejects it with `cancelled` */
  lemma AsCancellableCancelled<T(!new)>(t: seq<Event<T>>, m: nat)
    requires ValidEvents(1, t)
    requires m < |t| && t[m].TokenRejected? && Lookup(0, Arrivals(t[..m])).Pending?
    ensures AsCancellable(t) == Settled(Rejected(Cancelled))
  {
    LookupStableOnArrivals<T>();
    AggregateCancelled(1, t, m, (a: seq<Arrival<T>>) => Lookup(0, a));
  }
}
