/** What the runner computes, stated against an independent reference: the
chain x, f(x), f(f(x)), ... of values the transform produces, and the
predicate's verdict on each. The runner returns the first value of that
chain the predicate finds truthy, calls the two functions in a fixed
interleaving, and passes on the first failure unchanged.
 */
module UntilProperties {
  import opened Awaitable
  import opened Until

  /** f^n(x): the n-th value of the chain x, f(x), f(f(x)), ..., each step
      awaited; a step that rejects or never settles stops the chain there. */
  function Orbit<T, E>(f: T -> Completion<T, E>, x: T, n: nat): Promise<T, E>
  {
    if n == 0 then Fulfilled(x) else Then(f, Orbit(f, x, n - 1))
  }

  /** The predicate's answer about `v`, awaited and coerced with `Boolean()`. */
  function Verdict<T, E>(r: Runner<T, E>, v: T): Promise<bool, E>
  {
    match r.ApplyPredicate(v)
    case Fulfilled(b) => Fulfilled(Truthy(b))
    case Rejected(e) => Rejected(e)
    case Pending => Pending
  }

  /** The i-th value of the chain exists and the predicate calls it falsy. */
  ghost predicate FalsyAt<T, E>(r: Runner<T, E>, x: T, i: nat)
  {
    Orbit(r.transform, x, i).Fulfilled? && Verdict(r, Orbit(r.transform, x, i).value) == Fulfilled(false)
  }

  /** The first `n` values of the chain exist and the predicate calls them all falsy. */
  ghost predicate Continues<T, E>(r: Runner<T, E>, x: T, n: nat)
  {
    forall i :: 0 <= i < n ==> FalsyAt(r, x, i)
  }

  /** The n-th value of the chain is the first one the predicate calls truthy. */
  ghost predicate FirstHit<T, E>(r: Runner<T, E>, x: T, n: nat)
  {
    && Continues(r, x, n)
    && Orbit(r.transform, x, n).Fulfilled?
    && Verdict(r, Orbit(r.transform, x, n).value) == Fulfilled(true)
  }

  /** The arguments of the predicate calls in a trace, in order. */
  function PredicateCalls<T>(trace: seq<Event<T>>): seq<T>
  {
    if trace == [] then []
    else (if trace[0].PredicateCall? then [trace[0].arg] else []) + PredicateCalls(trace[1..])
  }

  /** The arguments of the transform calls in a trace, in order. */
  function TransformCalls<T>(trace: seq<Event<T>>): seq<T>
  {
    if trace == [] then []
    else (if trace[0].TransformCall? then [trace[0].arg] else []) + TransformCalls(trace[1..])
  }

  /** Predicate and transform calls strictly alternate, the predicate first. */
  ghost predicate Alternates<T>(trace: seq<Event<T>>)
  {
    forall i :: 0 <= i < |trace| ==> (trace[i].PredicateCall? <==> i % 2 == 0)
  }

  // ---------------------------------------------------------------------------
  // Helpers about the reference chain and the projections of a trace

  lemma {:induction false} OrbitShift<T, E>(f: T -> Completion<T, E>, x: T, y: T, n: nat)
    requires Settle(f(x)) == Fulfilled(y)
    ensures Orbit(f, x, n + 1) == Orbit(f, y, n)
  {
    if n > 0 {
      OrbitShift(f, x, y, n - 1);
    }
  }

  /** After one falsy iteration from `x` to `y`, the falsy prefix of the chain
      from `x` is one step longer than that of the chain from `y`. */
  lemma ContinuesTail<T, E>(r: Runner<T, E>, x: T, y: T, n: nat)
    requires Settle(r.transform(x)) == Fulfilled(y)
    requires Continues(r, x, n + 1)
    ensures Continues(r, y, n)
    ensures Orbit(r.transform, x, n + 1) == Orbit(r.transform, y, n)
  {
    forall i | 0 <= i < n
      ensures FalsyAt(r, y, i)
    {
      OrbitShift(r.transform, x, y, i);
      assert FalsyAt(r, x, i + 1);
    }
    OrbitShift(r.transform, x, y, n);
  }

  lemma ContinuesCons<T, E>(r: Runner<T, E>, x: T, y: T, n: nat)
    requires Settle(r.transform(x)) == Fulfilled(y) && Verdict(r, x) == Fulfilled(false)
    requires Continues(r, y, n)
    ensures Continues(r, x, n + 1)
    ensures Orbit(r.transform, x, n + 1) == Orbit(r.transform, y, n)
  {
    forall i | 0 <= i < n + 1
      ensures FalsyAt(r, x, i)
    {
      if i == 0 {
        assert Orbit(r.transform, x, 0) == Fulfilled(x);
      } else {
        OrbitShift(r.transform, x, y, i - 1);
        assert FalsyAt(r, y, i - 1);
      }
    }
    OrbitShift(r.transform, x, y, n);
  }

  lemma CallsOfIteration<T>(x: T, rest: seq<Event<T>>)
    ensures PredicateCalls([PredicateCall(x), TransformCall(x)] + rest) == [x] + PredicateCalls(rest)
    ensures TransformCalls([PredicateCall(x), TransformCall(x)] + rest) == [x] + TransformCalls(rest)
  {
  }

  lemma CallsOfOne<T>(e: Event<T>)
    ensures PredicateCalls([e]) == if e.PredicateCall? then [e.arg] else []
    ensures TransformCalls([e]) == if e.TransformCall? then [e.arg] else []
  {
  }

  // ---------------------------------------------------------------------------
  // Normalisation

  /** The runner looks at its input only through `Promise.resolve`: a plain
      value and an already settled promise of it give the same calls and the
      same result. */
  lemma NormalisationIsInvisible<T, E>(r: Runner<T, E>, v1: MaybePromise<T, E>, v2: MaybePromise<T, E>, fuel: nat)
    requires Resolve(v1) == Resolve(v2)
    ensures r.TransformUntil(v1, fuel) == r.TransformUntil(v2, fuel)
  {
  }

  /** In particular, a plain value and an already fulfilled promise of it give
      the same calls and the same result. */
  lemma PlainAndFulfilledAlike<T, E>(r: Runner<T, E>, x: T, fuel: nat)
    ensures r.TransformUntil(Plain(x), fuel) == r.TransformUntil(Promised(Fulfilled(x)), fuel)
  {
    NormalisationIsInvisible(r, Plain(x), Promised(Fulfilled(x)), fuel);
  }

  /** One falsy iteration: the predicate and then the transform are called on
      `x`, and the run goes on from whatever the transform settled with, a
      throw and a rejected promise alike. */
  lemma FalsyStep<T, E>(r: Runner<T, E>, value: MaybePromise<T, E>, x: T, fuel: nat)
    requires Resolve(value) == Fulfilled(x) && Verdict(r, x) == Fulfilled(false) && fuel > 0
    ensures var tail := r.TransformUntil(Promised(Settle(r.transform(x))), fuel - 1);
            r.TransformUntil(value, fuel) == Execution(tail.outcome, [PredicateCall(x), TransformCall(x)] + tail.trace)
  {
  }

  /** The runner looks at what the two functions return only through how it
      settles: a predicate or transform that returns a promise behaves exactly
      like one that returns (or throws) the value it settles with. */
  lemma {:induction false} OnlySettlementsMatter<T, E>(
    r1: Runner<T, E>, r2: Runner<T, E>, v1: MaybePromise<T, E>, v2: MaybePromise<T, E>, fuel: nat)
    requires forall x :: r1.ApplyPredicate(x) == r2.ApplyPredicate(x)
    requires forall x :: Settle(r1.transform(x)) == Settle(r2.transform(x))
    requires Resolve(v1) == Resolve(v2)
    ensures r1.TransformUntil(v1, fuel) == r2.TransformUntil(v2, fuel)
    decreases fuel
  {
    match Resolve(v1)
    case Rejected(_) =>
    case Pending =>
    case Fulfilled(x) =>
      if fuel > 0 && Verdict(r1, x) == Fulfilled(false) {
        assert Verdict(r2, x) == Fulfilled(false);
        var next := Promised(Settle(r1.transform(x)));
        FalsyStep(r1, v1, x, fuel);
        FalsyStep(r2, v2, x, fuel);
        OnlySettlementsMatter(r1, r2, next, Promised(Settle(r2.transform(x))), fuel - 1);
      }
  }

  /** How a run ends is decided by its last call. On success the value
      returned is the one the predicate was last asked about, and the
      predicate found it truthy. A rejection is passed on unchanged from the
      stage that failed: the input itself when nothing was called, or else
      the last call made. */
  lemma {:induction false} OutcomeComesFromLastCall<T, E>(r: Runner<T, E>, value: MaybePromise<T, E>, fuel: nat)
    ensures var ex := r.TransformUntil(value, fuel);
            ex.outcome.Fulfilled? ==>
              && ex.trace != []
              && ex.trace[|ex.trace| - 1] == PredicateCall(ex.outcome.value)
              && Verdict(r, ex.outcome.value) == Fulfilled(true)
    ensures var ex := r.TransformUntil(value, fuel);
            ex.outcome.Rejected? ==>
              if ex.trace == [] then Resolve(value) == ex.outcome
              else match ex.trace[|ex.trace| - 1]
                case PredicateCall(v) => r.ApplyPredicate(v) == Rejected(ex.outcome.reason)
                case TransformCall(v) => Settle(r.transform(v)) == ex.outcome
    decreases fuel
  {
    match Resolve(value)
    case Rejected(_) =>
    case Pending =>
    case Fulfilled(x) =>
      if fuel > 0 && Verdict(r, x) == Fulfilled(false) {
        var next := Promised(Settle(r.transform(x)));
        var tail := r.TransformUntil(next, fuel - 1);
        FalsyStep(r, value, x, fuel);
        OutcomeComesFromLastCall(r, next, fuel - 1);
        if tail.trace != [] {
          assert ([PredicateCall(x), TransformCall(x)] + tail.trace)[1 + |tail.trace|] == tail.trace[|tail.trace| - 1];
        }
      }
  }

  // ---------------------------------------------------------------------------
  // The shape of the trace

  lemma AlternatesCons<T>(x: T, rest: seq<Event<T>>)
    requires Alternates(rest)
    ensures Alternates([PredicateCall(x), TransformCall(x)] + rest)
  {
  }

  /** A run that stops before its first transform call makes at most one
      call, to the predicate on the resolved input, and only if there is fuel. */
  lemma ShortRun<T, E>(r: Runner<T, E>, value: MaybePromise<T, E>, fuel: nat)
    requires !(Resolve(value).Fulfilled? && fuel > 0 && Verdict(r, Resolve(value).value) == Fulfilled(false))
    ensures var trace := r.TransformUntil(value, fuel).trace;
            && (trace == [] || (Resolve(value).Fulfilled? && fuel > 0 && trace == [PredicateCall(Resolve(value).value)]))
            && PredicateCalls(trace) == (if trace == [] then [] else [Resolve(value).value])
            && TransformCalls(trace) == []
  {
  }

  /** The shape `TraceAlternates` proves for the run from `value`. */
  ghost predicate RunAlternates<T, E>(r: Runner<T, E>, value: MaybePromise<T, E>, fuel: nat)
  {
    var trace := r.TransformUntil(value, fuel).trace;
    var ps, ts := PredicateCalls(trace), TransformCalls(trace);
    && Alternates(trace)
    && |ts| <= |ps| <= |ts| + 1
    && |ps| <= fuel
  }

  lemma RunAlternatesCons<T, E>(r: Runner<T, E>, value: MaybePromise<T, E>, x: T, fuel: nat)
    requires Resolve(value) == Fulfilled(x) && Verdict(r, x) == Fulfilled(false) && fuel > 0
    requires RunAlternates(r, Promised(Settle(r.transform(x))), fuel - 1)
    ensures RunAlternates(r, value, fuel)
  {
    var tail := r.TransformUntil(Promised(Settle(r.transform(x))), fuel - 1);
    FalsyStep(r, value, x, fuel);
    CallsOfIteration(x, tail.trace);
    AlternatesCons(x, tail.trace);
  }

  /** Predicate and transform calls strictly alternate, starting with the
      predicate; there is at most one more predicate call than transform
      calls, and no more predicate calls than the fuel allows. */
  lemma {:induction false} TraceAlternates<T, E>(r: Runner<T, E>, value: MaybePromise<T, E>, fuel: nat)
    ensures RunAlternates(r, value, fuel)
    decreases fuel
  {
    if Resolve(value).Fulfilled? && fuel > 0 && Verdict(r, Resolve(value).value) == Fulfilled(false) {
      var x := Resolve(value).value;
      TraceAlternates(r, Promised(Settle(r.transform(x))), fuel - 1);
      RunAlternatesCons(r, value, x, fuel);
    } else {
      ShortRun(r, value, fuel);
    }
  }

  /** How the arguments of consecutive calls are linked, walking the two call
      lists together: each transform call gets the argument of the predicate
      call just before it, which the predicate called falsy; the next
      predicate call gets what that transform call settled with; and at most
      one predicate call is left over at the end. */
  ghost predicate CallsLinked<T, E>(r: Runner<T, E>, ps: seq<T>, ts: seq<T>)
    decreases |ts|
  {
    if ts == [] then |ps| <= 1
    else
      && ps != []
      && ts[0] == ps[0]
      && Verdict(r, ps[0]) == Fulfilled(false)
      && (|ps| > 1 ==> Settle(r.transform(ts[0])) == Fulfilled(ps[1]))
      && CallsLinked(r, ps[1..], ts[1..])
  }

  /** `CallsLinked` by index: the i-th transform call gets the i-th predicate
      argument, which the predicate called falsy, and the (i+1)-th predicate
      argument is what the i-th transform call settled with. */
  lemma {:induction false} CallsLinkedAt<T, E>(r: Runner<T, E>, ps: seq<T>, ts: seq<T>, i: nat)
    requires CallsLinked(r, ps, ts) && i < |ts|
    ensures i < |ps| && ts[i] == ps[i] && Verdict(r, ps[i]) == Fulfilled(false)
    ensures i + 1 < |ps| ==> Settle(r.transform(ts[i])) == Fulfilled(ps[i + 1])
    ensures |ts| <= |ps| <= |ts| + 1
  {
    if i > 0 {
      CallsLinkedAt(r, ps[1..], ts[1..], i - 1);
    } else if |ts| > 1 {
      CallsLinkedAt(r, ps[1..], ts[1..], 0);
    } else {
      assert ts[1..] == [];
    }
  }

  lemma CallsLinkedCons<T, E>(r: Runner<T, E>, x: T, ps: seq<T>, ts: seq<T>)
    requires CallsLinked(r, ps, ts) && Verdict(r, x) == Fulfilled(false)
    requires ps != [] ==> Settle(r.transform(x)) == Fulfilled(ps[0])
    ensures CallsLinked(r, [x] + ps, [x] + ts)
  {
  }

  /** The linking `TraceLinksCalls` proves for the run from `value`. */
  ghost predicate RunLinksCalls<T, E>(r: Runner<T, E>, value: MaybePromise<T, E>, fuel: nat)
  {
    var trace := r.TransformUntil(value, fuel).trace;
    var ps, ts := PredicateCalls(trace), TransformCalls(trace);
    && (ps != [] ==> Resolve(value) == Fulfilled(ps[0]))
    && CallsLinked(r, ps, ts)
  }

  lemma RunLinksCallsCons<T, E>(r: Runner<T, E>, value: MaybePromise<T, E>, x: T, fuel: nat)
    requires Resolve(value) == Fulfilled(x) && Verdict(r, x) == Fulfilled(false) && fuel > 0
    requires RunLinksCalls(r, Promised(Settle(r.transform(x))), fuel - 1)
    ensures RunLinksCalls(r, value, fuel)
  {
    var tail := r.TransformUntil(Promised(Settle(r.transform(x))), fuel - 1);
    FalsyStep(r, value, x, fuel);
    CallsOfIteration(x, tail.trace);
    CallsLinkedCons(r, x, PredicateCalls(tail.trace), TransformCalls(tail.trace));
  }

  /** The first predicate argument is the resolved input, and every later
      call is linked to the one before it as `CallsLinked` says. */
  lemma {:induction false} TraceLinksCalls<T, E>(r: Runner<T, E>, value: MaybePromise<T, E>, fuel: nat)
    ensures RunLinksCalls(r, value, fuel)
    decreases fuel
  {
    if Resolve(value).Fulfilled? && fuel > 0 && Verdict(r, Resolve(value).value) == Fulfilled(false) {
      var x := Resolve(value).value;
      TraceLinksCalls(r, Promised(Settle(r.transform(x))), fuel - 1);
      RunLinksCallsCons(r, value, x, fuel);
    } else {
      ShortRun(r, value, fuel);
    }
  }

  // ---------------------------------------------------------------------------
  // The result is the first truthy value of the chain

  /** Soundness: a fulfilled result is the chain's first truthy value, reached
      after as many steps as there were transform calls. */
  lemma {:induction false} ResultIsFirstTruthy<T, E>(r: Runner<T, E>, value: MaybePromise<T, E>, fuel: nat)
    requires r.TransformUntil(value, fuel).outcome.Fulfilled?
    ensures Resolve(value).Fulfilled?
    ensures var ex := r.TransformUntil(value, fuel);
            var n := |TransformCalls(ex.trace)|;
            && n < fuel
            && |PredicateCalls(ex.trace)| == n + 1
            && FirstHit(r, Resolve(value).value, n)
            && Orbit(r.transform, Resolve(value).value, n) == ex.outcome
    decreases fuel
  {
    var x := Resolve(value).value;
    assert Orbit(r.transform, x, 0) == Fulfilled(x);
    if Verdict(r, x) == Fulfilled(false) {
      var next := Promised(Settle(r.transform(x)));
      var tail := r.TransformUntil(next, fuel - 1);
      FalsyStep(r, value, x, fuel);
      ResultIsFirstTruthy(r, next, fuel - 1);
      CallsOfIteration(x, tail.trace);
      ContinuesCons(r, x, Settle(r.transform(x)).value, |TransformCalls(tail.trace)|);
    } else {
      assert r.TransformUntil(value, fuel).trace == [PredicateCall(x)];
      CallsOfOne(PredicateCall(x));
    }
  }

  /** Completeness: when the n-th value of the chain is the first truthy one
      and the fuel allows n + 1 predicate calls, the runner returns it, after
      n + 1 predicate calls and n transform calls. */
  lemma FirstTruthyIsResult<T, E>(r: Runner<T, E>, value: MaybePromise<T, E>, x: T, n: nat, fuel: nat)
    requires Resolve(value) == Fulfilled(x)
    requires FirstHit(r, x, n) && n < fuel
    ensures var ex := r.TransformUntil(value, fuel);
            && ex.outcome == Orbit(r.transform, x, n)
            && |PredicateCalls(ex.trace)| == n + 1
            && |TransformCalls(ex.trace)| == n
  {
    FalsyPrefix(r, value, x, n, fuel);
    CallsOfOne(PredicateCall(Orbit(r.transform, x, n).value));
  }

  /** There is at most one first truthy value. */
  lemma FirstHitIsUnique<T, E>(r: Runner<T, E>, x: T, n: nat, m: nat)
    requires FirstHit(r, x, n) && FirstHit(r, x, m)
    ensures n == m
  {
    assert n < m ==> FalsyAt(r, x, n);
    assert m < n ==> FalsyAt(r, x, m);
  }

  /** A predicate truthy on the resolved input ends the loop at once: that
      exact value, one predicate call, no transform call. */
  lemma ImmediateStop<T, E>(r: Runner<T, E>, value: MaybePromise<T, E>, x: T, fuel: nat)
    requires Resolve(value) == Fulfilled(x) && Verdict(r, x) == Fulfilled(true) && fuel > 0
    ensures r.TransformUntil(value, fuel) == Execution(Fulfilled(x), [PredicateCall(x)])
  {
  }

  // ---------------------------------------------------------------------------
  // Unrolling falsy iterations, and the failures that end a run

  /** What `FalsyPrefix` states: the run from `value` and the run from the
      n-th value of the chain with n fewer predicate calls end alike, and the
      first makes n more calls to each function. */
  ghost predicate Unrolls<T, E>(r: Runner<T, E>, value: MaybePromise<T, E>, x: T, n: nat, fuel: nat)
    requires n <= fuel
  {
    var ex := r.TransformUntil(value, fuel);
    var tail := r.TransformUntil(Promised(Orbit(r.transform, x, n)), fuel - n);
    && ex.outcome == tail.outcome
    && |PredicateCalls(ex.trace)| == n + |PredicateCalls(tail.trace)|
    && |TransformCalls(ex.trace)| == n + |TransformCalls(tail.trace)|
  }

  /** One falsy iteration in front of an unrolled run of the next value. */
  lemma UnrollsCons<T, E>(r: Runner<T, E>, value: MaybePromise<T, E>, x: T, y: T, n: nat, fuel: nat)
    requires Resolve(value) == Fulfilled(x) && Verdict(r, x) == Fulfilled(false)
    requires Settle(r.transform(x)) == Fulfilled(y)
    requires 0 < n <= fuel && Orbit(r.transform, y, n - 1) == Orbit(r.transform, x, n)
    requires Unrolls(r, Promised(Fulfilled(y)), y, n - 1, fuel - 1)
    ensures Unrolls(r, value, x, n, fuel)
  {
    FalsyStep(r, value, x, fuel);
    CallsOfIteration(x, r.TransformUntil(Promised(Fulfilled(y)), fuel - 1).trace);
  }

  /** n falsy iterations cost n predicate and n transform calls and hand the
      n-th value of the chain on to the rest of the run. */
  lemma {:induction false} FalsyPrefix<T, E>(r: Runner<T, E>, value: MaybePromise<T, E>, x: T, n: nat, fuel: nat)
    requires Resolve(value) == Fulfilled(x)
    requires Continues(r, x, n) && n <= fuel
    ensures Unrolls(r, value, x, n, fuel)
    decreases n
  {
    var f := r.transform;
    assert Orbit(f, x, 0) == Fulfilled(x);
    if n == 0 {
      NormalisationIsInvisible(r, value, Promised(Fulfilled(x)), fuel);
    } else {
      assert FalsyAt(r, x, 0);
      assert Orbit(f, x, 1) == Settle(f(x));
      if Settle(f(x)).Fulfilled? {
        var y := Settle(f(x)).value;
        ContinuesTail(r, x, y, n - 1);
        FalsyPrefix(r, Promised(Fulfilled(y)), y, n - 1, fuel - 1);
        UnrollsCons(r, value, x, y, n, fuel);
      } else {
        assert n > 1 ==> FalsyAt(r, x, 1);
        FalsyStep(r, value, x, fuel);
        CallsOfIteration(x, r.TransformUntil(Promised(Settle(f(x))), fuel - 1).trace);
      }
    }
  }

  /** An input that rejects (or never settles) ends the run with that same
      outcome, and neither function is called. */
  lemma InputFailurePropagates<T, E>(r: Runner<T, E>, value: MaybePromise<T, E>, fuel: nat)
    requires !Resolve(value).Fulfilled?
    ensures r.TransformUntil(value, fuel) == Execution(Resolve(value), [])
  {
  }

  /** A predicate that rejects or throws on its (n+1)-th call rejects the run
      with that same reason, after exactly n transform calls. */
  lemma PredicateFailurePropagates<T, E>(r: Runner<T, E>, value: MaybePromise<T, E>, x: T, y: T, e: E, n: nat, fuel: nat)
    requires Resolve(value) == Fulfilled(x)
    requires Continues(r, x, n) && Orbit(r.transform, x, n) == Fulfilled(y)
    requires Verdict(r, y) == Rejected(e) && n < fuel
    ensures var ex := r.TransformUntil(value, fuel);
            && ex.outcome == Rejected(e)
            && |PredicateCalls(ex.trace)| == n + 1
            && |TransformCalls(ex.trace)| == n
  {
    FalsyPrefix(r, value, x, n, fuel);
    CallsOfOne(PredicateCall(y));
  }

  /** A transform that rejects, throws or never settles on its n-th call ends
      the run with that same outcome, after exactly n predicate calls and no
      further call. */
  lemma TransformFailurePropagates<T, E>(r: Runner<T, E>, value: MaybePromise<T, E>, x: T, n: nat, fuel: nat)
    requires Resolve(value) == Fulfilled(x)
    requires Continues(r, x, n) && !Orbit(r.transform, x, n).Fulfilled? && n <= fuel
    ensures var ex := r.TransformUntil(value, fuel);
            && ex.outcome == Orbit(r.transform, x, n)
            && |PredicateCalls(ex.trace)| == n
            && |TransformCalls(ex.trace)| == n
  {
    FalsyPrefix(r, value, x, n, fuel);
  }

  /** While the chain keeps producing values the predicate calls falsy, the
      runner's promise does not settle: after `fuel` predicate calls it is
      still pending, having made as many transform calls. */
  lemma FalsyChainNeverSettles<T, E>(r: Runner<T, E>, value: MaybePromise<T, E>, x: T, fuel: nat)
    requires Resolve(value) == Fulfilled(x)
    requires Continues(r, x, fuel) && Orbit(r.transform, x, fuel).Fulfilled?
    ensures var ex := r.TransformUntil(value, fuel);
            && ex.outcome == Pending
            && |PredicateCalls(ex.trace)| == fuel
            && |TransformCalls(ex.trace)| == fuel
  {
    FalsyPrefix(r, value, x, fuel, fuel);
  }

  // ---------------------------------------------------------------------------
  // The fuel is only a bound

  /** Once the runner's promise has settled, more fuel changes nothing. */
  lemma {:induction false} SettledRunIgnoresExtraFuel<T, E>(r: Runner<T, E>, value: MaybePromise<T, E>, fuel: nat, more: nat)
    requires !r.TransformUntil(value, fuel).outcome.Pending?
    requires fuel <= more
    ensures r.TransformUntil(value, more) == r.TransformUntil(value, fuel)
    decreases fuel
  {
    match Resolve(value)
    case Rejected(_) =>
    case Pending =>
    case Fulfilled(x) =>
      if r.ApplyPredicate(x).Fulfilled? && !Truthy(r.ApplyPredicate(x).value) && r.transform(x).Return? {
        SettledRunIgnoresExtraFuel(r, r.transform(x).result, fuel - 1, more - 1);
      }
  }
}
