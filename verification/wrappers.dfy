/** How the service's values can be missing or its calls can go wrong:
    a Python value that may be None (`Option`), a coroutine call that may
    raise (`Call`), and one HTTP request made by the scraper (`Reply`). */
module Wrappers {

  datatype Option<+T> = None | Some(value: T) {

    /** Python's `d.get(k, default)` once the lookup is done: the value that
        is there, else `default`. */
    function GetOr(default: T): T {
      match this
      case Some(v) => v
      case None => default
    }
  }

  /** A call that either raised an exception or returned a value. */
  datatype Call<+T> = Raised | Returned(value: T)

  /** One HTTP request: it raised (network error, timeout, undecodable body),
      it was answered with a status other than 200, or it was answered with
      status 200 and the already-decoded body. */
  datatype Reply<+T> = Failed | Refused | Answered(body: T)
}
