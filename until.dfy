/** The "until" combinator: a factory that checks its two arguments and returns
a runner which resolves the current value, asks the predicate about it, and
either stops with that value or applies the transform and starts over.
 */
module Until {
  import opened Awaitable

  /** The JavaScript values a predicate may return or a caller may pass in
      place of a function. Numbers are taken as integers. */
  datatype JsValue = Undefined | Null | Bool(b: bool) | Number(n: int) | Str(s: string) | Object

  /** `Boolean(v)`: the falsy values are undefined, null, false, 0 and "". */
  function Truthy(v: JsValue): (b: bool)
    ensures !b <==> v == Undefined || v == Null || v == Bool(false) || v == Number(0) || v == Str("")
  {
    match v
    case Undefined => false
    case Null => false
    case Bool(b) => b
    case Number(n) => n != 0
    case Str(s) => s != ""
    case Object => true
  }

  /** An argument given to the factory: a function, or any other value. */
  datatype Argument<F> = NonFunction(value: JsValue) | Function(fn: F)

  /** `!!a` for an argument: every function is truthy. */
  function ArgTruthy<F>(a: Argument<F>): (b: bool)
    ensures a.Function? ==> b
    ensures a.NonFunction? ==> b == Truthy(a.value)
  {
    match a
    case Function(_) => true
    case NonFunction(v) => Truthy(v)
  }

  /** `typeof a` for an argument. */
  function TypeOf<F>(a: Argument<F>): (t: string)
    ensures t == "function" <==> a.Function?
    ensures a.NonFunction? && (a.value == Null || a.value == Object) ==> t == "object"
  {
    match a
    case Function(_) => "function"
    case NonFunction(v) =>
      match v
      case Undefined => "undefined"
      case Null => "object"
      case Bool(_) => "boolean"
      case Number(_) => "number"
      case Str(_) => "string"
      case Object => "object"
  }

  /** The two ways construction can fail, one per argument. */
  datatype ConstructionError = PredicateArgError | TransformArgError

  datatype Result<+T, +E> = Ok(value: T) | Err(error: E)

  /** One call the loop makes to a caller-supplied function, with its argument. */
  datatype Event<T> = PredicateCall(arg: T) | TransformCall(arg: T)

  /** What one invocation of the runner does: how its returned promise ends up
      (`Pending` when it has not settled within the fuel), and the calls it made, in order. */
  datatype Execution<T, E> = Execution(outcome: Promise<T, E>, trace: seq<Event<T>>)

  /** The runner returned by the factory, closed over the two validated functions. */
  datatype Runner<!T, E> = Runner(pred: T -> Completion<JsValue, E>, transform: T -> Completion<T, E>)
  {
    /** `Promise.resolve(pred(val))`, called inside a `.then` callback, so
        that a throwing predicate rejects rather than escapes. */
    function ApplyPredicate(val: T): (p: Promise<JsValue, E>)
      ensures pred(val).Throw? ==> p == Rejected(pred(val).error)
      ensures pred(val).Return? && pred(val).result.Plain? ==> p == Fulfilled(pred(val).result.value)
      ensures pred(val).Return? && pred(val).result.Promised? ==> p == pred(val).result.promise
    {
      Settle(pred(val))
    }

    /** `transformUntil(value)`. The source loop has no bound; `fuel` is the
        largest number of predicate calls this model makes before it reports
        the returned promise as still `Pending`. */
    function TransformUntil(value: MaybePromise<T, E>, fuel: nat): (ex: Execution<T, E>)
      decreases fuel
      ensures |ex.trace| <= 2 * fuel
    {
      match Resolve(value)
      case Rejected(reason) => Execution(Rejected(reason), [])
      case Pending => Execution(Pending, [])
      case Fulfilled(resolvedValue) =>
        if fuel == 0 then Execution(Pending, [])
        else
          match ApplyPredicate(resolvedValue)
          case Rejected(reason) => Execution(Rejected(reason), [PredicateCall(resolvedValue)])
          case Pending => Execution(Pending, [PredicateCall(resolvedValue)])
          case Fulfilled(predicateResult) =>
            if Truthy(predicateResult) then
              Execution(Fulfilled(resolvedValue), [PredicateCall(resolvedValue)])
            else
              var calls := [PredicateCall(resolvedValue), TransformCall(resolvedValue)];
              match transform(resolvedValue)
              case Throw(error) => Execution(Rejected(error), calls)
              case Return(next) =>
                var rest := TransformUntil(next, fuel - 1);
                Execution(rest.outcome, calls + rest.trace)
    }
  }

  /** The exported factory: the predicate is checked first, then the transform,
      each with the source's own test `!arg || typeof arg !== 'function'`. */
  function Until<T, E>(predicateArg: Argument<T -> Completion<JsValue, E>>, transformArg: Argument<T -> Completion<T, E>>)
    : (r: Result<Runner<T, E>, ConstructionError>)
    ensures (r.Err? && r.error == PredicateArgError) <==> !predicateArg.Function?
    ensures (r.Err? && r.error == TransformArgError) <==> predicateArg.Function? && !transformArg.Function?
    ensures r.Ok? <==> predicateArg.Function? && transformArg.Function?
    ensures r.Ok? ==> r.value.pred == predicateArg.fn && r.value.transform == transformArg.fn
  {
    if !ArgTruthy(predicateArg) || TypeOf(predicateArg) != "function" then Err(PredicateArgError)
    else if !ArgTruthy(transformArg) || TypeOf(transformArg) != "function" then Err(TransformArgError)
    else Ok(Runner(predicateArg.fn, transformArg.fn))
  }
}
