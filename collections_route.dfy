/**
 * The `/api/collections` route: list the caller's collections and create a
 * new one. Store rows are renamed to the camelCase shape clients see.
 */
module CollectionsRoute {
  import opened Js
  import opened Types
  import opened Http

  /** A collection row with its embedded `collection_movies(movie_id)` rows. */
  datatype CollectionWithMovieRows = CollectionWithMovieRows(row: Collection, collectionMovies: seq<MovieIdRow>)

  /** The collection shape returned to clients. */
  datatype CollectionJson = CollectionJson(
    id: string,
    name: string,
    description: Option<string>,
    isPublic: bool,
    createdAt: string,
    updatedAt: string,
    movies: seq<int>,
    movieCount: nat)

  /** The object handed to `insert`; `isPublic` is passed through untouched. */
  datatype CollectionInsert = CollectionInsert(userId: string, name: string, description: Option<string>, isPublic: Json)

  datatype StoreCall = SelectCollections(userId: string) | InsertCollection(insert: CollectionInsert)

  datatype Payload = CollectionList(collections: seq<CollectionJson>) | Created(collection: CollectionJson)

  const NameRequiredMessage := "Collection name is required"
  /** The TypeError `description?.trim()` raises on a value that is not a string. */
  const TrimNotAFunction := "description.trim is not a function"

  const InternalError: Reply<Payload> := Reply(500, ErrorBody(InternalErrorMessage))
  const NotSignedIn: Reply<Payload> := Reply(401, ErrorBody(UnauthorizedMessage))

  /** The GET mapping of one row. */
  function ToJson(c: CollectionWithMovieRows): (j: CollectionJson)
    ensures j.movies == MovieIds(c.collectionMovies)
    ensures j.movieCount == |j.movies| == |c.collectionMovies|
    ensures j.id == c.row.id && j.name == c.row.name && j.description == c.row.description
    ensures j.isPublic == c.row.isPublic && j.createdAt == c.row.createdAt && j.updatedAt == c.row.updatedAt
  {
    CollectionJson(c.row.id, c.row.name, c.row.description, c.row.isPublic,
                   c.row.createdAt, c.row.updatedAt,
                   MovieIds(c.collectionMovies), |c.collectionMovies|)
  }

  /** `data.map(...)`: one client collection per row, in row order. */
  function AllToJson(cs: seq<CollectionWithMovieRows>): (js: seq<CollectionJson>)
    ensures |js| == |cs|
    ensures forall i :: 0 <= i < |cs| ==> js[i] == ToJson(cs[i])
  {
    if cs == [] then [] else [ToJson(cs[0])] + AllToJson(cs[1..])
  }

  /** `!name || typeof name !== 'string' || name.trim().length === 0` fails. */
  predicate ValidName(v: Option<Json>)
    ensures ValidName(v) <==> v.Some? && v.value.JStr? && !AllSpace(v.value.s)
  {
    v.Some? && v.value.JStr? && Trim(v.value.s) != ""
  }

  /** `description?.trim() || null`: absent or null stays null, a string is
      trimmed and an empty result becomes null, anything else throws. */
  function NormalizeDescription(d: Option<Json>): (r: Completion<Option<string>>)
    ensures r.Thrown? <==> d.Some? && d.value != JNull && !d.value.JStr?
    ensures r.Normal? && r.value.Some? ==>
      d.Some? && d.value.JStr? && r.value.value == Trim(d.value.s) && r.value.value != ""
    ensures d.Some? && d.value.JStr? && Trim(d.value.s) != "" ==> r == Normal(Some(Trim(d.value.s)))
    ensures d.None? || d == Some(JNull) || (d.Some? && d.value.JStr? && AllSpace(d.value.s)) ==> r == Normal(None)
  {
    match d
    case None => Normal(None)
    case Some(JNull) => Normal(None)
    case Some(JStr(s)) => if Trim(s) == "" then Normal(None) else Normal(Some(Trim(s)))
    case Some(_) => Thrown(TrimNotAFunction)
  }

  /** The value of `isPublic` after destructuring with default `false`. */
  function IsPublicOf(body: Json): (v: Json)
    ensures Prop(body, "isPublic").None? ==> v == JBool(false)
    ensures Prop(body, "isPublic").Some? ==> v == Prop(body, "isPublic").value
  {
    Prop(body, "isPublic").GetOr(JBool(false))
  }

  /** `GET` */
  function Get(auth: AuthOutcome, store: StoreOutcome<seq<CollectionWithMovieRows>>): (h: Handled<StoreCall, Payload>)
    ensures h.call.Some? <==> auth.SignedIn?
    ensures h.call.Some? ==> h.call.value == SelectCollections(auth.userId)
    ensures h.reply.status == 401 <==> auth.Unauthorized?
    ensures auth.Unauthorized? ==> h.reply == NotSignedIn
    ensures auth.SignedIn? && store.StoreError? ==> h.reply == Reply(500, ErrorBody(store.message))
    ensures auth.AuthThrows? || (auth.SignedIn? && store.StoreThrows?) ==> h.reply == InternalError
    ensures h.reply.status == 200 <==> auth.SignedIn? && store.Rows?
    ensures h.reply.status == 200 ==> h.reply.body == Ok(CollectionList(AllToJson(store.data)))
    ensures h.reply.status in {200, 401, 500}
  {
    match auth
    case AuthThrows => Handled(None, InternalError)
    case Unauthorized => Handled(None, NotSignedIn)
    case SignedIn(user) =>
      var call := Some(SelectCollections(user));
      match store
      case StoreThrows => Handled(call, InternalError)
      case StoreError(_, message) => Handled(call, Reply(500, ErrorBody(message)))
      case Rows(rows) => Handled(call, Reply(200, Ok(CollectionList(AllToJson(rows)))))
  }

  /** `POST` with the parsed request body (None when `request.json()` rejects). */
  function Post(body: Option<Json>, auth: AuthOutcome, store: StoreOutcome<Collection>): (h: Handled<StoreCall, Payload>)
    ensures body.None? || body == Some(JNull) ==> h == Handled(None, InternalError)
    ensures h.reply.status == 400 <==> body.Some? && body.value != JNull && !ValidName(Prop(body.value, "name"))
    ensures h.reply.status == 400 ==> h.call.None? && h.reply.body == ErrorBody(NameRequiredMessage)
    ensures h.reply.status == 401 <==>
      body.Some? && body.value != JNull && ValidName(Prop(body.value, "name")) && auth.Unauthorized?
    ensures h.reply.status == 401 ==> h.call.None? && h.reply == NotSignedIn
    ensures body.Some? && body.value != JNull && ValidName(Prop(body.value, "name")) && auth.AuthThrows?
      ==> h == Handled(None, InternalError)
    ensures body.Some? && body.value != JNull && ValidName(Prop(body.value, "name")) && auth.SignedIn?
      && NormalizeDescription(Prop(body.value, "description")).Thrown?
      ==> h == Handled(None, InternalError)
    ensures h.call.Some? && store.StoreThrows? ==> h.reply == InternalError
    ensures h.call.Some? <==>
      && body.Some? && body.value != JNull && ValidName(Prop(body.value, "name")) && auth.SignedIn?
      && NormalizeDescription(Prop(body.value, "description")).Normal?
    ensures h.call.Some? ==> h.call.value == InsertCollection(CollectionInsert(
      auth.userId,
      Trim(Prop(body.value, "name").value.s),
      NormalizeDescription(Prop(body.value, "description")).value,
      IsPublicOf(body.value)))
    ensures h.call.Some? ==> h.call.value.insert.name != ""
    ensures h.call.Some? && store.StoreError? ==> h.reply == Reply(500, ErrorBody(store.message))
    ensures h.reply.status == 200 <==> h.call.Some? && store.Rows?
    ensures h.reply.status == 200 ==> h.reply.body == Ok(Created(CollectionJson(
      store.data.id, store.data.name, store.data.description, store.data.isPublic,
      store.data.createdAt, store.data.updatedAt, [], 0)))
    ensures h.reply.status in {200, 400, 401, 500}
  {
    if body.None? || body.value == JNull then Handled(None, InternalError)
    else
      var name := Prop(body.value, "name");
      if !ValidName(name) then Handled(None, Reply(400, ErrorBody(NameRequiredMessage)))
      else
        match auth
        case AuthThrows => Handled(None, InternalError)
        case Unauthorized => Handled(None, NotSignedIn)
        case SignedIn(user) =>
          match NormalizeDescription(Prop(body.value, "description"))
          case Thrown(_) => Handled(None, InternalError)
          case Normal(description) =>
            var call := Some(InsertCollection(CollectionInsert(user, Trim(name.value.s), description, IsPublicOf(body.value))));
            match store
            case StoreThrows => Handled(call, InternalError)
            case StoreError(_, message) => Handled(call, Reply(500, ErrorBody(message)))
            case Rows(row) =>
              Handled(call, Reply(200, Ok(Created(CollectionJson(
                row.id, row.name, row.description, row.isPublic, row.createdAt, row.updatedAt, [], 0)))))
  }

  /** The name check comes before the session check: an invalid body gets the
      same reply whoever asks and whatever the store would say. */
  lemma PostValidatesFirst(body: Json, a1: AuthOutcome, a2: AuthOutcome, s1: StoreOutcome<Collection>, s2: StoreOutcome<Collection>)
    requires body != JNull && !ValidName(Prop(body, "name"))
    ensures Post(Some(body), a1, s1) == Post(Some(body), a2, s2)
  {
  }

  /** A name made only of whitespace is refused with 400 and nothing is inserted. */
  lemma {:induction false} BlankNameRejected(s: string, a: AuthOutcome, st: StoreOutcome<Collection>)
    requires AllSpace(s)
    ensures var h := Post(Some(JObject(map["name" := JStr(s)])), a, st);
      h.reply.status == 400 && h.call.None?
  {
    assert Prop(JObject(map["name" := JStr(s)]), "name") == Some(JStr(s));
  }

  /** A created collection is reported empty, with a zero movie count, exactly
      as `GET` would report a collection with no movie rows. */
  lemma CreatedMatchesEmptyListing(body: Json, user: string, row: Collection)
    requires Post(Some(body), SignedIn(user), Rows(row)).reply.status == 200
    ensures Post(Some(body), SignedIn(user), Rows(row)).reply.body
      == Ok(Created(ToJson(CollectionWithMovieRows(row, []))))
  {
  }
}
