/** Settled and unsettled promises, as the combinator observes them.

A promise is modelled by the state it is eventually observed in: fulfilled
with a value, rejected with a reason, or never settled. Scheduling (which
microtask runs when) is not modelled: the loop is strictly sequential, so
only the settled states matter.
 */
module Awaitable {

  /** The state a promise is observed in. */
  datatype Promise<+T, +E> = Fulfilled(value: T) | Rejected(reason: E) | Pending

  /** What a caller passes in, or a callback hands back: a plain value or a promise of one. */
  datatype MaybePromise<+T, +E> = Plain(value: T) | Promised(promise: Promise<T, E>)

  /** How a call to a caller-supplied function ends: it returns, or it throws. */
  datatype Completion<+T, +E> = Return(result: MaybePromise<T, E>) | Throw(error: E)

  /** `Promise.resolve`: a plain value is wrapped as fulfilled, a promise is adopted as is. */
  function Resolve<T, E>(v: MaybePromise<T, E>): (p: Promise<T, E>)
    ensures v.Plain? ==> p == Fulfilled(v.value)
    ensures v.Promised? ==> p == v.promise
    ensures p.Rejected? || p.Pending? ==> v.Promised?
  {
    match v
    case Plain(x) => Fulfilled(x)
    case Promised(q) => q
  }

  /** Normalising twice is normalising once: adopting an already normalised
      promise gives that same promise back. */
  lemma ResolveIsIdempotent<T, E>(v: MaybePromise<T, E>)
    ensures Resolve(Promised(Resolve(v))) == Resolve(v)
  {
  }

  /** The promise produced by a call made inside a `.then` callback: a returned
      value is resolved, and a throw rejects with the thrown value. */
  function Settle<T, E>(c: Completion<T, E>): (p: Promise<T, E>)
    ensures c.Throw? ==> p == Rejected(c.error)
    ensures c.Return? && c.result.Plain? ==> p == Fulfilled(c.result.value)
    ensures c.Return? && c.result.Promised? ==> p == c.result.promise
    // A promise that never settles can only come from a promise returned.
    ensures p.Pending? ==> c.Return? && c.result.Promised?
  {
    match c
    case Return(v) => Resolve(v)
    case Throw(e) => Rejected(e)
  }

  /** `p.then(f)`: a fulfilled promise passes its value to `f`; a rejected or
      pending one is left as it is and `f` is not called. */
  function Then<T, E>(f: T -> Completion<T, E>, p: Promise<T, E>): (q: Promise<T, E>)
    ensures !p.Fulfilled? ==> q == p
    ensures p.Fulfilled? ==> q == Settle(f(p.value))
  {
    match p
    case Fulfilled(x) => Settle(f(x))
    case Rejected(e) => Rejected(e)
    case Pending => Pending
  }
}
