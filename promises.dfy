/**
 * PromiseKit's single-assignment promise, as the cancellation layer sees it, and
 * the contracts this layer assumes of PromiseKit's own combinators `race`,
 * `when(fulfilled:)` and `when(resolved:)`.
 *
 * PromiseKit itself is not part of this model. Its combinators are stated here as
 * functions of a settlement trace: the members' settlements in the order the
 * combinator observes them. PromiseKit subscribes to the members in list order and
 * a subscription to a settled member fires at once, so the members already settled
 * when the combinator is called come first, in list order, followed by later
 * settlements in the order they happen. These definitions are assumptions about PromiseKit, not facts proved
 * about it; the lemmas below only spell out what the assumptions imply.
 */
module Promises {

  datatype Option<T> = None | Some(value: T)

  /** `CancellablePromiseError.cancelled`, PromiseKit's `PMKError.badInput`, or any other error,
      passed on unchanged (told apart by a code) */
  datatype Error = Cancelled | BadInput | Underlying(code: nat)

  /** PromiseKit's `Result<T>`: how a promise settled */
  datatype Outcome<T> = Fulfilled(value: T) | Rejected(error: Error)

  /** The state of a promise: pending, or settled once and for all */
  datatype Cell<T> = Pending | Settled(outcome: Outcome<T>)

  predicate IsFulfilled<T>(c: Cell<T>) {
    c.Settled? && c.outcome.Fulfilled?
  }

  predicate IsRejected<T>(c: Cell<T>) {
    c.Settled? && c.outcome.Rejected?
  }

  /** `Resolver.fulfill` / `Resolver.reject`: a promise that has settled ignores later settlements */
  function Resolve<T>(c: Cell<T>, o: Outcome<T>): (r: Cell<T>)
    ensures r.Settled?
    ensures c.Pending? ==> r.outcome == o
    ensures c.Settled? ==> r == c
  {
    if c.Pending? then Settled(o) else c
  }

  /** `asVoid()`: the same settlement with the value dropped */
  function AsVoid<T>(o: Outcome<T>): (r: Outcome<()>)
    ensures r.Fulfilled? <==> o.Fulfilled?
    ensures r.Rejected? ==> r.error == o.error
  {
    match o
    case Fulfilled(_) => Fulfilled(())
    case Rejected(e) => Rejected(e)
  }

  /** Member `member` of a combinator's input list settled with `outcome` */
  datatype Arrival<T> = Arrival(member: nat, outcome: Outcome<T>)

  /** Every arrival names one of the `n` members, and no member settles twice */
  ghost predicate ValidArrivals<T>(n: nat, a: seq<Arrival<T>>) {
    && (forall k :: 0 <= k < |a| ==> a[k].member < n)
    && (forall j, k :: 0 <= j < k < |a| ==> a[j].member != a[k].member)
  }

  /** The state of member `i` after the arrivals `a`: its first settlement, if any */
  function Lookup<T>(i: nat, a: seq<Arrival<T>>): Cell<T>
  {
    if a == [] then Pending
    else if Lookup(i, a[..|a| - 1]).Settled? then Lookup(i, a[..|a| - 1])
    else if a[|a| - 1].member == i then Settled(a[|a| - 1].outcome)
    else Pending
  }

  /** The error of the first rejected arrival, if any */
  function FirstRejection<T>(a: seq<Arrival<T>>): Option<Error>
  {
    if a == [] then None
    else if FirstRejection(a[..|a| - 1]).Some? then FirstRejection(a[..|a| - 1])
    else if a[|a| - 1].outcome.Rejected? then Some(a[|a| - 1].outcome.error)
    else None
  }

  /** The values of members 0 .. n-1 in list order, once every one of them has fulfilled */
  function Collect<T>(n: nat, a: seq<Arrival<T>>): Option<seq<T>>
  {
    if n == 0 then Some([])
    else
      match (Collect(n - 1, a), Lookup(n - 1, a))
      case (Some(vs), Settled(Fulfilled(v))) => Some(vs + [v])
      case _ => None
  }

  /** The outcomes of members 0 .. n-1 in list order, once every one of them has settled */
  function CollectOutcomes<T>(n: nat, a: seq<Arrival<T>>): Option<seq<Outcome<T>>>
  {
    if n == 0 then Some([])
    else
      match (CollectOutcomes(n - 1, a), Lookup(n - 1, a))
      case (Some(os), Settled(o)) => Some(os + [o])
      case _ => None
  }

  /** PromiseKit's `race` over n members (assumed): an empty list is rejected at once with
      `PMKError.badInput`; otherwise the first member to settle decides, value or error */
  function Race<T>(n: nat, a: seq<Arrival<T>>): Cell<T>
  {
    if n == 0 then Settled(Rejected(BadInput))
    else if a == [] then Pending
    else Settled(a[0].outcome)
  }

  /** PromiseKit's `when(fulfilled:)` (assumed): the first rejection wins; otherwise all values, in list order */
  function WhenFulfilled<T>(n: nat, a: seq<Arrival<T>>): Cell<seq<T>>
  {
    match FirstRejection(a)
    case Some(e) => Settled(Rejected(e))
    case None =>
      match Collect(n, a)
      case Some(vs) => Settled(Fulfilled(vs))
      case None => Pending
  }

  /** PromiseKit's `when(resolved:)` (assumed): every member's outcome, in list order, once all have settled */
  function WhenResolved<T>(n: nat, a: seq<Arrival<T>>): Cell<seq<Outcome<T>>>
  {
    match CollectOutcomes(n, a)
    case Some(os) => Settled(Fulfilled(os))
    case None => Pending
  }

  // ---------------------------------------------------------------------------
  // Scanning a longer trace

  lemma {:induction false} LookupAppend<T>(i: nat, a: seq<Arrival<T>>, b: seq<Arrival<T>>)
    ensures Lookup(i, a + b) == if Lookup(i, a).Settled? then Lookup(i, a) else Lookup(i, b)
    decreases |b|
  {
    if b == [] {
      assert a + b == a;
    } else {
      var b' := b[..|b| - 1];
      assert (a + b)[..|a + b| - 1] == a + b';
      LookupAppend(i, a, b');
    }
  }

  lemma {:induction false} FirstRejectionAppend<T>(a: seq<Arrival<T>>, b: seq<Arrival<T>>)
    ensures FirstRejection(a + b) == if FirstRejection(a).Some? then FirstRejection(a) else FirstRejection(b)
    decreases |b|
  {
    if b == [] {
      assert a + b == a;
    } else {
      var b' := b[..|b| - 1];
      assert (a + b)[..|a + b| - 1] == a + b';
      FirstRejectionAppend(a, b');
    }
  }

  /** A member that has settled has an arrival in the trace */
  lemma {:induction false} LookupArrived<T>(i: nat, a: seq<Arrival<T>>)
    requires Lookup(i, a).Settled?
    ensures exists k :: 0 <= k < |a| && a[k].member == i && a[k].outcome == Lookup(i, a).outcome
    decreases |a|
  {
    var a' := a[..|a| - 1];
    if Lookup(i, a').Settled? {
      LookupArrived(i, a');
      var k :| 0 <= k < |a'| && a'[k].member == i && a'[k].outcome == Lookup(i, a').outcome;
      assert a[k] == a'[k];
    } else {
      assert a[|a| - 1].member == i;
    }
  }

  /** A member's first arrival decides its state */
  lemma {:induction false} LookupFirstArrival<T>(i: nat, a: seq<Arrival<T>>, k: nat)
    requires k < |a| && a[k].member == i
    requires forall j :: 0 <= j < k ==> a[j].member != i
    ensures Lookup(i, a) == Settled(a[k].outcome)
    decreases |a|
  {
    var a' := a[..|a| - 1];
    if k < |a| - 1 {
      LookupFirstArrival(i, a', k);
    } else {
      assert a' == a[..k];
      LookupUnarrived(i, a');
    }
  }

  /** A member with no arrival in the trace is still pending */
  lemma {:induction false} LookupUnarrived<T>(i: nat, a: seq<Arrival<T>>)
    requires forall j :: 0 <= j < |a| ==> a[j].member != i
    ensures Lookup(i, a) == Pending
    decreases |a|
  {
    if a != [] {
      LookupUnarrived(i, a[..|a| - 1]);
    }
  }

  lemma {:induction false} FirstRejectionFound<T>(a: seq<Arrival<T>>, k: nat)
    requires k < |a| && a[k].outcome.Rejected?
    requires forall j :: 0 <= j < k ==> a[j].outcome.Fulfilled?
    ensures FirstRejection(a) == Some(a[k].outcome.error)
    decreases |a|
  {
    var a' := a[..|a| - 1];
    if k < |a| - 1 {
      FirstRejectionFound(a', k);
    } else {
      assert a' == a[..k];
      NoRejection(a');
    }
  }

  lemma {:induction false} NoRejection<T>(a: seq<Arrival<T>>)
    requires forall j :: 0 <= j < |a| ==> a[j].outcome.Fulfilled?
    ensures FirstRejection(a) == None
    decreases |a|
  {
    if a != [] {
      NoRejection(a[..|a| - 1]);
    }
  }

  lemma {:induction false} CollectMeaning<T>(n: nat, a: seq<Arrival<T>>)
    ensures Collect(n, a).Some? ==> forall i :: 0 <= i < n ==> IsFulfilled(Lookup(i, a))
    ensures (forall i :: 0 <= i < n ==> IsFulfilled(Lookup(i, a))) ==> Collect(n, a).Some?
    ensures Collect(n, a).Some? ==>
      |Collect(n, a).value| == n &&
      forall i :: 0 <= i < n ==> Lookup(i, a) == Settled(Fulfilled(Collect(n, a).value[i]))
    decreases n
  {
    if n > 0 {
      CollectMeaning(n - 1, a);
      if forall i :: 0 <= i < n ==> IsFulfilled(Lookup(i, a)) {
        assert IsFulfilled(Lookup(n - 1, a));
        assert Collect(n - 1, a).Some?;
        var vs := Collect(n - 1, a).value;
        var v := Lookup(n - 1, a).outcome.value;
        assert Collect(n, a) == Some(vs + [v]);
        forall i | 0 <= i < n
          ensures Lookup(i, a) == Settled(Fulfilled((vs + [v])[i]))
        {
          if i < n - 1 {
            assert (vs + [v])[i] == vs[i];
          }
        }
      } else if Collect(n - 1, a).Some? {
        assert !IsFulfilled(Lookup(n - 1, a));
      }
    }
  }

  /** Collecting two members: both have fulfilled */
  lemma CollectTwo<T>(a: seq<Arrival<T>>)
    ensures Collect(2, a).Some? <==> IsFulfilled(Lookup(0, a)) && IsFulfilled(Lookup(1, a))
  {
    assert Collect(0, a) == Some([]);
  }

  lemma {:induction false} CollectOutcomesMeaning<T>(n: nat, a: seq<Arrival<T>>)
    ensures CollectOutcomes(n, a).Some? ==> forall i :: 0 <= i < n ==> Lookup(i, a).Settled?
    ensures (forall i :: 0 <= i < n ==> Lookup(i, a).Settled?) ==> CollectOutcomes(n, a).Some?
    ensures CollectOutcomes(n, a).Some? ==>
      |CollectOutcomes(n, a).value| == n &&
      forall i :: 0 <= i < n ==> Lookup(i, a) == Settled(CollectOutcomes(n, a).value[i])
    decreases n
  {
    if n > 0 {
      CollectOutcomesMeaning(n - 1, a);
      if forall i :: 0 <= i < n ==> Lookup(i, a).Settled? {
        assert Lookup(n - 1, a).Settled?;
        assert CollectOutcomes(n - 1, a).Some?;
        var os := CollectOutcomes(n - 1, a).value;
        var o := Lookup(n - 1, a).outcome;
        assert CollectOutcomes(n, a) == Some(os + [o]);
        forall i | 0 <= i < n
          ensures Lookup(i, a) == Settled((os + [o])[i])
        {
          if i < n - 1 {
            assert (os + [o])[i] == os[i];
          }
        }
      } else if CollectOutcomes(n - 1, a).Some? {
        assert !Lookup(n - 1, a).Settled?;
      }
    }
  }

  lemma DistinctAcross<T>(n: nat, a: seq<Arrival<T>>, b: seq<Arrival<T>>, k: nat)
    requires ValidArrivals(n, a + b)
    requires k < |a| && b != []
    ensures a[k].member != b[0].member
  {
    assert (a + b)[k] == a[k] && (a + b)[|a|] == b[0];
  }

  /** Once every member has arrived, a valid trace has no room for more arrivals */
  lemma AllArrivedLeavesNoRoom<T>(n: nat, a: seq<Arrival<T>>, b: seq<Arrival<T>>)
    requires ValidArrivals(n, a + b)
    requires forall i :: 0 <= i < n ==> Lookup(i, a).Settled?
    ensures b == []
  {
    if b != [] {
      var i := (a + b)[|a|].member;
      LookupArrived(i, a);
      var k :| 0 <= k < |a| && a[k].member == i;
      DistinctAcross(n, a, b, k);
      assert false;
    }
  }

  // ---------------------------------------------------------------------------
  // What the assumed contracts say

  /** when(fulfilled:) fulfils with every member's value, in list order, once all have fulfilled */
  lemma WhenFulfilledAllFulfilled<T>(n: nat, a: seq<Arrival<T>>)
    requires forall k :: 0 <= k < |a| ==> a[k].outcome.Fulfilled?
    requires forall i :: 0 <= i < n ==> Lookup(i, a).Settled?
    ensures IsFulfilled(WhenFulfilled(n, a))
    ensures |WhenFulfilled(n, a).outcome.value| == n
    ensures forall i :: 0 <= i < n ==> Lookup(i, a) == Settled(Fulfilled(WhenFulfilled(n, a).outcome.value[i]))
  {
    NoRejection(a);
    forall i | 0 <= i < n ensures IsFulfilled(Lookup(i, a)) {
      LookupArrived(i, a);
    }
    CollectMeaning(n, a);
  }

  /** when(fulfilled:) rejects with the first rejection in settlement order, whatever the member's index */
  lemma WhenFulfilledFirstRejection<T>(n: nat, a: seq<Arrival<T>>, k: nat)
    requires k < |a| && a[k].outcome.Rejected?
    requires forall j :: 0 <= j < k ==> a[j].outcome.Fulfilled?
    ensures WhenFulfilled(n, a) == Settled(Rejected(a[k].outcome.error))
  {
    FirstRejectionFound(a, k);
  }

  /** when(fulfilled:) stays pending while no member has rejected and some member has not settled */
  lemma WhenFulfilledWaits<T>(n: nat, a: seq<Arrival<T>>, i: nat)
    requires forall k :: 0 <= k < |a| ==> a[k].outcome.Fulfilled?
    requires i < n && Lookup(i, a).Pending?
    ensures WhenFulfilled(n, a) == Pending
  {
    NoRejection(a);
    CollectMeaning(n, a);
  }

  /** when(resolved:) yields every member's outcome in list order once all have settled, and never rejects */
  lemma WhenResolvedMeaning<T>(n: nat, a: seq<Arrival<T>>)
    ensures !IsRejected(WhenResolved(n, a))
    ensures WhenResolved(n, a).Settled? ==> forall i :: 0 <= i < n ==> Lookup(i, a).Settled?
    ensures (forall i :: 0 <= i < n ==> Lookup(i, a).Settled?) ==> WhenResolved(n, a).Settled?
    ensures WhenResolved(n, a).Settled? ==>
      |WhenResolved(n, a).outcome.value| == n &&
      forall i :: 0 <= i < n ==> Lookup(i, a) == Settled(WhenResolved(n, a).outcome.value[i])
  {
    CollectOutcomesMeaning(n, a);
  }

  // ---------------------------------------------------------------------------
  // A settled combinator stays settled: later arrivals do not change it

  lemma RaceStable<T>(n: nat, a: seq<Arrival<T>>, b: seq<Arrival<T>>)
    requires Race(n, a).Settled?
    ensures Race(n, a + b) == Race(n, a)
  {
    if n > 0 {
      assert (a + b)[0] == a[0];
    }
  }

  lemma WhenFulfilledStable<T>(n: nat, a: seq<Arrival<T>>, b: seq<Arrival<T>>)
    requires ValidArrivals(n, a + b)
    requires WhenFulfilled(n, a).Settled?
    ensures WhenFulfilled(n, a + b) == WhenFulfilled(n, a)
  {
    FirstRejectionAppend(a, b);
    if FirstRejection(a).None? {
      CollectMeaning(n, a);
      AllArrivedLeavesNoRoom(n, a, b);
      assert a + b == a;
    }
  }

  lemma WhenResolvedStable<T>(n: nat, a: seq<Arrival<T>>, b: seq<Arrival<T>>)
    requires ValidArrivals(n, a + b)
    requires WhenResolved(n, a).Settled?
    ensures WhenResolved(n, a + b) == WhenResolved(n, a)
  {
    CollectOutcomesMeaning(n, a);
    AllArrivedLeavesNoRoom(n, a, b);
    assert a + b == a;
  }
}
