/** Responses as the handler sees them, and the status guard every wrapper in
    the handler applies to an upstream response. */
module Http {
  import opened Records

  const Ok: int := 200
  const NotFound: int := 404
  const InternalError: int := 500

  /** A status counts as success when it lies in `range(200, 300)`. */
  predicate IsSuccess(code: int) {
    200 <= code < 300
  }

  /** The JSON object returned by a call: its `code` field and its payload. */
  datatype Response = Response(code: int, body: Body)

  /** What a response carries: nothing, a fetched row, a newly created group
      with the id it was given, or a failure report that embeds the upstream
      response under `key` next to a `message`. */
  datatype Body =
    | NoBody
    | GroupRecord(group: Group)
    | BroadcastRecord(broadcast: Broadcast)
    | CreatedGroup(id: nat, created: Group)
    | Wrapped(key: string, inner: Response, message: string)

  /** The shape shared by every wrapper of the handler: a 2xx response passes
      through untouched, anything else is replaced by a 500 report embedding it. */
  function Guard(upstream: Response, key: string, message: string): (r: Response)
    ensures IsSuccess(upstream.code) ==> r == upstream
    ensures !IsSuccess(upstream.code) ==>
              && r.code == InternalError
              && r.body == Wrapped(key, upstream, message)
    ensures IsSuccess(r.code) <==> IsSuccess(upstream.code)
  {
    if !IsSuccess(upstream.code) then
      Response(InternalError, Wrapped(key, upstream, message))
    else
      upstream
  }

  /** Guarding an already guarded response yields the same code, whatever the
      second guard's key and message: on codes the guard is idempotent. */
  lemma GuardIdempotentOnCode(upstream: Response, key: string, message: string, key': string, message': string)
    ensures Guard(Guard(upstream, key, message), key', message').code == Guard(upstream, key, message).code
    ensures IsSuccess(upstream.code) ==> Guard(Guard(upstream, key, message), key', message') == Guard(upstream, key, message)
  {
  }

  /** On the whole response it is not: guarding a failure twice nests the
      report one level deeper, so the result differs from guarding once. */
  lemma GuardNestsFailures(upstream: Response, key: string, message: string)
    requires !IsSuccess(upstream.code)
    ensures Guard(Guard(upstream, key, message), key, message) != Guard(upstream, key, message)
    ensures Guard(Guard(upstream, key, message), key, message).body.inner == Guard(upstream, key, message)
  {
  }
}
