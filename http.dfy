/**
 * What the server route handlers share: the outcome of resolving the
 * caller's session, the outcome of one store query, and the JSON reply.
 * A handler is a pure function of these; it also reports the store query
 * it issued, if it got that far.
 */
module Http {
  import opened Js

  /** `supabase.auth.getUser()`: a user, an auth error or missing user, or a throw. */
  datatype AuthOutcome = SignedIn(userId: string) | Unauthorized | AuthThrows

  /** Awaiting a store query: `{data}`, `{error}` (code and message), or a throw. */
  datatype StoreOutcome<+T> = Rows(data: T) | StoreError(code: string, message: string) | StoreThrows

  /** The JSON body of a reply: `{error: ...}` or the handler's success shape. */
  datatype Body<+P> = ErrorBody(error: string) | Ok(payload: P)

  /** `NextResponse.json(body, {status})`; the status defaults to 200. */
  datatype Reply<+P> = Reply(status: nat, body: Body<P>)

  /** The store query a handler issued (None if it stopped before the store) and its reply. */
  datatype Handled<+C, +P> = Handled(call: Option<C>, reply: Reply<P>)

  const UnauthorizedMessage := "Unauthorized"
  const InternalErrorMessage := "Internal server error"

  /** A row of a `select('movie_id')` or of an embedded `collection_movies(movie_id)`. */
  datatype MovieIdRow = MovieIdRow(movieId: int)

  /** `rows.map(r => r.movie_id)` */
  function MovieIds(rows: seq<MovieIdRow>): (ids: seq<int>)
    ensures |ids| == |rows|
    ensures forall i :: 0 <= i < |rows| ==> ids[i] == rows[i].movieId
  {
    if rows == [] then [] else [rows[0].movieId] + MovieIds(rows[1..])
  }
}
