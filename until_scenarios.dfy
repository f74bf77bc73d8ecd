/** The repository's own scenarios, stated over the model: the argument checks
of the factory, and the counting run `c > 1` / `c + 1` from 0, in each of its
promised and non-promised variants.
 */
module UntilScenarios {
  import opened Awaitable
  import opened Until
  import opened UntilProperties

  /** A predicate `c > k`, returning its answer directly or as a settled promise. */
  function IsAbove(k: int, promised: bool): int -> Completion<JsValue, string>
  {
    c => if promised then Return(Promised(Fulfilled(Bool(c > k)))) else Return(Plain(Bool(c > k)))
  }

  /** A transform `c + 1`, returning its answer directly or as a settled promise. */
  function Increment(promised: bool): int -> Completion<int, string>
  {
    c => if promised then Return(Promised(Fulfilled(c + 1))) else Return(Plain(c + 1))
  }

  /** The input 0, given directly or as a settled promise. */
  function Zero(promised: bool): MaybePromise<int, string>
  {
    if promised then Promised(Fulfilled(0)) else Plain(0)
  }

  /** A function-typed transform placeholder; construction does not look at its result. */
  function Noop(): int -> Completion<int, string>
  {
    c => Return(Plain(c))
  }

  /** The factory refuses a missing, null, numeric or object first argument
      with the predicate error, and then the same for the second argument
      with the transform error. */
  lemma InvalidArgumentsAreRefused(p: int -> Completion<JsValue, string>)
    ensures forall v: JsValue ::
              Until.Until<int, string>(NonFunction(v), Function(Noop())) == Err(PredicateArgError)
    ensures Until.Until<int, string>(NonFunction(Undefined), NonFunction(Undefined)) == Err(PredicateArgError)
    ensures forall v: JsValue ::
              Until.Until<int, string>(Function(p), NonFunction(v)) == Err(TransformArgError)
  {
  }

  /** Any runner whose predicate calls 0 and 1 falsy and 2 truthy, and whose
      transform takes 0 to 1 and 1 to 2, makes the test's five calls and
      returns 2. */
  lemma CountingRun<E>(r: Runner<int, E>, value: MaybePromise<int, E>, fuel: nat)
    requires Resolve(value) == Fulfilled(0) && fuel >= 3
    requires Verdict(r, 0) == Fulfilled(false) && Settle(r.transform(0)) == Fulfilled(1)
    requires Verdict(r, 1) == Fulfilled(false) && Settle(r.transform(1)) == Fulfilled(2)
    requires Verdict(r, 2) == Fulfilled(true)
    ensures r.TransformUntil(value, fuel)
            == Execution(Fulfilled(2), [PredicateCall(0), TransformCall(0), PredicateCall(1), TransformCall(1), PredicateCall(2)])
  {
    FalsyStep(r, value, 0, fuel);
    FalsyStep(r, Promised(Fulfilled(1)), 1, fuel - 1);
    ImmediateStop(r, Promised(Fulfilled(2)), 2, fuel - 2);
    assert [PredicateCall(0), TransformCall(0)] + ([PredicateCall(1), TransformCall(1)] + [PredicateCall(2)])
        == [PredicateCall(0), TransformCall(0), PredicateCall(1), TransformCall(1), PredicateCall(2)];
  }

  /** The arguments the test reads back from its spies. */
  lemma CountingCalls()
    ensures var trace := [PredicateCall(0), TransformCall(0), PredicateCall(1), TransformCall(1), PredicateCall(2)];
            PredicateCalls(trace) == [0, 1, 2] && TransformCalls(trace) == [0, 1]
  {
  }

  /** `c > 1` and `c + 1` from 0 return 2, after the predicate is called on
      0, 1 and 2 and the transform on 0 and 1, in that interleaving; whether
      the predicate, the transform or the input is a promise makes no
      difference. */
  lemma CountsToTwo(predicatePromised: bool, transformPromised: bool, inputPromised: bool, fuel: nat)
    requires fuel >= 3
    ensures var u := Until.Until<int, string>(Function(IsAbove(1, predicatePromised)), Function(Increment(transformPromised)));
            && u.Ok?
            && var ex := u.value.TransformUntil(Zero(inputPromised), fuel);
            && ex.outcome == Fulfilled(2)
            && ex.trace == [PredicateCall(0), TransformCall(0), PredicateCall(1), TransformCall(1), PredicateCall(2)]
            && PredicateCalls(ex.trace) == [0, 1, 2]
            && TransformCalls(ex.trace) == [0, 1]
  {
    var r := Runner(IsAbove(1, predicatePromised), Increment(transformPromised));
    assert Verdict(r, 0) == Fulfilled(false);
    assert Verdict(r, 1) == Fulfilled(false);
    assert Verdict(r, 2) == Fulfilled(true);
    assert Settle(r.transform(0)) == Fulfilled(1);
    assert Settle(r.transform(1)) == Fulfilled(2);
    CountingRun(r, Zero(inputPromised), fuel);
    CountingCalls();
  }

  /** The chain of `c + 1` from 0 counts up: its n-th value is n. */
  lemma {:induction false} IncrementCountsUp(promised: bool, n: nat)
    ensures Orbit(Increment(promised), 0, n) == Fulfilled(n)
  {
    if n > 0 {
      IncrementCountsUp(promised, n - 1);
    }
  }

  /** The same run with any threshold k: `c > k` and `c + 1` from 0 return
      k + 1, after k + 2 predicate calls and k + 1 transform calls. */
  lemma CountsPastThreshold(k: nat, predicatePromised: bool, transformPromised: bool, inputPromised: bool, fuel: nat)
    requires fuel > k + 1
    ensures var r := Runner(IsAbove(k, predicatePromised), Increment(transformPromised));
            var ex := r.TransformUntil(Zero(inputPromised), fuel);
            && ex.outcome == Fulfilled(k + 1)
            && |PredicateCalls(ex.trace)| == k + 2
            && |TransformCalls(ex.trace)| == k + 1
  {
    var r := Runner(IsAbove(k, predicatePromised), Increment(transformPromised));
    forall i: nat | i < k + 1
      ensures FalsyAt(r, 0, i)
    {
      IncrementCountsUp(transformPromised, i);
    }
    IncrementCountsUp(transformPromised, k + 1);
    assert FirstHit(r, 0, k + 1);
    FirstTruthyIsResult(r, Zero(inputPromised), 0, k + 1, fuel);
  }
}
