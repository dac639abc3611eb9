/**
 * The uniform envelope of API answers: a success flag with either a data
 * payload or an error description. The fields are final, so an envelope is
 * a value; `E` stands for the error description's type.
 */
module ResponseWrapper {
  import Wrappers

  datatype Wrapper<T, E> = Wrapper(success: bool, data: Wrappers.Option<T>, error: Wrappers.Option<E>)

  /** An envelope as the two factories leave it: a success carries no error
      and an error carries no data. */
  predicate Valid<T, E>(w: Wrapper<T, E>) {
    (w.success ==> w.error.None?) && (!w.success ==> w.data.None?)
  }

  /** `success(data)`; the data itself may be null. */
  function SuccessWith<T, E>(data: Wrappers.Option<T>): (w: Wrapper<T, E>)
    ensures w.success && w.data == data && w.error.None?
    ensures Valid(w)
  {
    Wrapper(true, data, Wrappers.None)
  }

  /** `error(error)`. */
  function ErrorWith<T, E>(error: Wrappers.Option<E>): (w: Wrapper<T, E>)
    ensures !w.success && w.data.None? && w.error == error
    ensures Valid(w)
  {
    Wrapper(false, Wrappers.None, error)
  }

  /** The valid envelopes are exactly those the factories build: each one is
      rebuilt by the factory its flag names from its own payload. */
  lemma ValidIsFactoryMade<T, E>(w: Wrapper<T, E>)
    ensures Valid(w) <==> w == (if w.success then SuccessWith(w.data) else ErrorWith(w.error))
  {
  }

  /** A success is never an error, whatever the payloads. */
  lemma FactoriesDisjoint<T, E>(data: Wrappers.Option<T>, error: Wrappers.Option<E>)
    ensures SuccessWith<T, E>(data) != ErrorWith<T, E>(error)
  {
  }
}
