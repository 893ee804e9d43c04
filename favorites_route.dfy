/**
 * The `/api/favorites` route: list, add and remove the caller's favorites.
 * Each handler checks its input, then the session, then issues one store
 * query and maps the outcome to a status; anything thrown on the way
 * (including a malformed JSON body) becomes 500 "Internal server error".
 */
module FavoritesRoute {
  import opened Js
  import opened Http

  /** A row of `user_favorites`. */
  datatype FavoriteRow = FavoriteRow(id: string, userId: string, movieId: int, createdAt: string)

  /** The store queries the handlers issue. `DELETE` passes its query
      parameter through `parseInt`, which is not modelled: the raw string is kept. */
  datatype StoreCall =
    | SelectFavoriteIds(userId: string)
    | InsertFavorite(userId: string, movieId: real)
    | DeleteFavorite(userId: string, movieIdParam: string)

  datatype Payload =
    | FavoriteIds(favorites: seq<int>)
    | Added(success: bool, favorite: FavoriteRow)
    | Removed(success: bool)

  /** The store's error code for a unique-key violation. */
  const UniqueViolation := "23505"
  const InvalidMovieIdMessage := "Invalid movie ID"
  const MovieIdRequiredMessage := "Movie ID required"
  const AlreadyFavoriteMessage := "Movie already in favorites"

  const InternalError: Reply<Payload> := Reply(500, ErrorBody(InternalErrorMessage))
  const NotSignedIn: Reply<Payload> := Reply(401, ErrorBody(UnauthorizedMessage))

  /** `!movieId || typeof movieId !== 'number'` fails: a non-zero number. */
  predicate ValidMovieId(v: Option<Json>)
    ensures ValidMovieId(v) <==> v.Some? && v.value.JNum? && v.value.n != 0.0
  {
    Truthy(v) && v.value.JNum?
  }

  /** `GET`: the caller's favorite movie ids, in the order the store returns them. */
  function Get(auth: AuthOutcome, store: StoreOutcome<seq<MovieIdRow>>): (h: Handled<StoreCall, Payload>)
    ensures h.call.Some? <==> auth.SignedIn?
    ensures h.call.Some? ==> h.call.value == SelectFavoriteIds(auth.userId)
    ensures h.reply.status == 401 <==> auth.Unauthorized?
    ensures h.reply.status == 200 <==> auth.SignedIn? && store.Rows?
    ensures h.reply.status == 200 ==> h.reply.body == Ok(FavoriteIds(MovieIds(store.data)))
    ensures auth.Unauthorized? ==> h.reply == NotSignedIn
    ensures auth.SignedIn? && store.StoreError? ==> h.reply == Reply(500, ErrorBody(store.message))
    ensures auth.AuthThrows? || (auth.SignedIn? && store.StoreThrows?) ==> h.reply == InternalError
    ensures h.reply.status in {200, 401, 500}
  {
    match auth
    case AuthThrows => Handled(None, InternalError)
    case Unauthorized => Handled(None, NotSignedIn)
    case SignedIn(user) =>
      var call := Some(SelectFavoriteIds(user));
      match store
      case StoreThrows => Handled(call, InternalError)
      case StoreError(_, message) => Handled(call, Reply(500, ErrorBody(message)))
      case Rows(rows) => Handled(call, Reply(200, Ok(FavoriteIds(MovieIds(rows)))))
  }

  /** `POST` with the parsed request body (None when `request.json()` rejects). */
  function Post(body: Option<Json>, auth: AuthOutcome, store: StoreOutcome<FavoriteRow>): (h: Handled<StoreCall, Payload>)
    ensures body.None? || body == Some(JNull) ==> h == Handled(None, InternalError)
    ensures h.reply.status == 400 <==>
      body.Some? && body.value != JNull && !ValidMovieId(Prop(body.value, "movieId"))
    ensures h.reply.status == 400 ==> h.reply.body == ErrorBody(InvalidMovieIdMessage)
    ensures h.call.Some? <==>
      body.Some? && body.value != JNull && ValidMovieId(Prop(body.value, "movieId")) && auth.SignedIn?
    ensures h.call.Some? ==>
      h.call.value == InsertFavorite(auth.userId, Prop(body.value, "movieId").value.n)
    ensures h.reply.status == 401 <==>
      body.Some? && body.value != JNull && ValidMovieId(Prop(body.value, "movieId")) && auth.Unauthorized?
    ensures h.reply.status == 401 ==> h.call.None? && h.reply == NotSignedIn
    ensures body.Some? && body.value != JNull && ValidMovieId(Prop(body.value, "movieId")) && (auth.AuthThrows? || (auth.SignedIn? && store.StoreThrows?))
      ==> h.reply == InternalError
    ensures h.reply.status == 409 <==> h.call.Some? && store.StoreError? && store.code == UniqueViolation
    ensures h.reply.status == 409 ==> h.reply.body == ErrorBody(AlreadyFavoriteMessage)
    ensures h.call.Some? && store.StoreError? && store.code != UniqueViolation ==>
      h.reply == Reply(500, ErrorBody(store.message))
    ensures h.reply.status == 200 <==> h.call.Some? && store.Rows?
    ensures h.reply.status == 200 ==> h.reply.body == Ok(Added(true, store.data))
    ensures h.reply.status in {200, 400, 401, 409, 500}
  {
    if body.None? || body.value == JNull then Handled(None, InternalError)
    else
      var movieId := Prop(body.value, "movieId");
      if !ValidMovieId(movieId) then Handled(None, Reply(400, ErrorBody(InvalidMovieIdMessage)))
      else
        match auth
        case AuthThrows => Handled(None, InternalError)
        case Unauthorized => Handled(None, NotSignedIn)
        case SignedIn(user) =>
          var call := Some(InsertFavorite(user, movieId.value.n));
          match store
          case StoreThrows => Handled(call, InternalError)
          case StoreError(code, message) =>
            if code == UniqueViolation then Handled(call, Reply(409, ErrorBody(AlreadyFavoriteMessage)))
            else Handled(call, Reply(500, ErrorBody(message)))
          case Rows(row) => Handled(call, Reply(200, Ok(Added(true, row))))
  }

  /** `DELETE` with the `movieId` query parameter (None when it is missing). */
  function Delete(movieId: Option<string>, auth: AuthOutcome, store: StoreOutcome<()>): (h: Handled<StoreCall, Payload>)
    ensures h.reply.status == 400 <==> movieId.None? || movieId.value == ""
    ensures h.reply.status == 400 ==> h.call.None? && h.reply.body == ErrorBody(MovieIdRequiredMessage)
    ensures h.call.Some? <==> movieId.Some? && movieId.value != "" && auth.SignedIn?
    ensures h.call.Some? ==> h.call.value == DeleteFavorite(auth.userId, movieId.value)
    ensures h.reply.status == 401 <==> movieId.Some? && movieId.value != "" && auth.Unauthorized?
    ensures h.reply.status == 401 ==> h.call.None? && h.reply == NotSignedIn
    ensures movieId.Some? && movieId.value != "" && (auth.AuthThrows? || (auth.SignedIn? && store.StoreThrows?))
      ==> h.reply == InternalError
    ensures h.call.Some? && store.StoreError? ==> h.reply == Reply(500, ErrorBody(store.message))
    ensures h.reply.status == 200 <==> h.call.Some? && store.Rows?
    ensures h.reply.status == 200 ==> h.reply.body == Ok(Removed(true))
    ensures h.reply.status in {200, 400, 401, 500}
  {
    if movieId.None? || movieId.value == "" then
      Handled(None, Reply(400, ErrorBody(MovieIdRequiredMessage)))
    else
      match auth
      case AuthThrows => Handled(None, InternalError)
      case Unauthorized => Handled(None, NotSignedIn)
      case SignedIn(user) =>
        var call := Some(DeleteFavorite(user, movieId.value));
        match store
        case StoreThrows => Handled(call, InternalError)
        case StoreError(_, message) => Handled(call, Reply(500, ErrorBody(message)))
        case Rows(_) => Handled(call, Reply(200, Ok(Removed(true))))
  }

  /** The body check comes before the session check: an invalid body gets the
      same reply whoever asks and whatever the store would say. */
  lemma PostValidatesFirst(body: Json, a1: AuthOutcome, a2: AuthOutcome, s1: StoreOutcome<FavoriteRow>, s2: StoreOutcome<FavoriteRow>)
    requires body != JNull && !ValidMovieId(Prop(body, "movieId"))
    ensures Post(Some(body), a1, s1) == Post(Some(body), a2, s2)
  {
  }

  /** `movieId` 0, a numeric string, or no `movieId` at all are all refused with 400. */
  lemma PostRejectsBadIds(a: AuthOutcome, s: StoreOutcome<FavoriteRow>)
    ensures Post(Some(JObject(map["movieId" := JNum(0.0)])), a, s).reply.status == 400
    ensures Post(Some(JObject(map["movieId" := JStr("42")])), a, s).reply.status == 400
    ensures Post(Some(JObject(map[])), a, s).reply.status == 400
    ensures Post(Some(JArray([])), a, s).reply.status == 400
  {
    assert Prop(JObject(map["movieId" := JNum(0.0)]), "movieId") == Some(JNum(0.0));
    assert Prop(JObject(map["movieId" := JStr("42")]), "movieId") == Some(JStr("42"));
  }

  /** Adding the same movie twice: the first insert succeeds, the second hits
      the unique key and is reported as 409. */
  lemma PostTwiceConflicts(user: string, row: FavoriteRow, message: string)
    ensures var body := Some(JObject(map["movieId" := JNum(42.0)]));
      && Post(body, SignedIn(user), Rows(row)).reply.status == 200
      && Post(body, SignedIn(user), Rows(row)).call == Some(InsertFavorite(user, 42.0))
      && Post(body, SignedIn(user), StoreError(UniqueViolation, message)).reply
         == Reply(409, ErrorBody(AlreadyFavoriteMessage))
  {
    assert Prop(JObject(map["movieId" := JNum(42.0)]), "movieId") == Some(JNum(42.0));
  }
}
