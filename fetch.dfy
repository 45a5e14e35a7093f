/** What the block explorer's HTTP API can hand back to the server.
    The network calls themselves are not modelled: each call site receives the
    outcome of its `fetch` (and of the `json()` that follows it) as a value. */
module Fetch {

  datatype Option<+T> = None | Some(value: T)

  /** The outcome of one `fetch` plus `json()`:
      - Threw: the promise rejected (network failure, a body that is not JSON);
      - NotOk(status): the response arrived but `res.ok` is false;
      - Ok(body): `res.ok` is true and the body parsed to `body`. */
  datatype Response<+T> = Threw | NotOk(status: int) | Ok(body: T)
}
