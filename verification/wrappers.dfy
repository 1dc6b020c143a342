/** Optional values: a query parameter that may be absent, a geocode that may fail. */
module Wrappers {

  datatype Option<+T> = None | Some(value: T)
}

/** What a request handler answers: an HTTP status and, on success, its JSON payload. */
module Http {
  import opened Wrappers

  const OK: int := 200
  const BAD_REQUEST: int := 400
  const NOT_FOUND: int := 404
  const SERVER_ERROR: int := 500

  /** Error bodies are plain messages and are not modelled; `payload` is the success body. */
  datatype Reply<+T> = Reply(status: int, payload: Option<T>)

  /** JavaScript truthiness of an optional query-string parameter: present and not "". */
  predicate Truthy(p: Option<string>)
  {
    p.Some? && p.value != ""
  }
}
