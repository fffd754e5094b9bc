/**
 * What a `fetch` call hands back, as an input value: either the promise
 * rejects with some thrown value, or a response arrives with a status, its
 * headers and a body that `res.json()` either parses into a value of the
 * endpoint's body type `B` or fails on.
 */
module Http {
  import opened Js

  /** A thrown value: an `Error` object with its message, or anything else. */
  datatype Thrown = ErrorObject(message: string) | NonError

  datatype Body<B> = Json(value: B) | Unparseable(thrown: Thrown)

  /** Header names are kept lower-case, since `Headers.get` ignores case. */
  datatype Response<B> = Response(status: int, headers: map<string, string>, body: Body<B>)

  datatype Fetched<B> = Rejected(thrown: Thrown) | Received(response: Response<B>)

  /** `Response.ok`: the status is in the range 200-299. */
  predicate Ok(status: int) {
    200 <= status <= 299
  }

  /** `headers.get(name)` for a lower-case name: the value, or null. */
  function Header<B>(r: Response<B>, name: string): (v: Option<string>)
    ensures v.Some? <==> name in r.headers
    ensures v.Some? ==> v.value == r.headers[name]
  {
    if name in r.headers then Some(r.headers[name]) else None
  }
}
