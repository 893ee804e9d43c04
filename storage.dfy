/**
 * The browser-local store of favorites and collections (`MovieStorage`).
 *
 * The two `localStorage` keys become two sequence fields of a class, and the
 * `typeof window === 'undefined'` guard becomes the constant `onClient`: off
 * the client every read gives `[]` and every write does nothing (creating a
 * collection throws). Each mutating method rereads the stored list, changes
 * it and writes it back; its postcondition ties the new field to one of the
 * value-level functions below, whose properties are proved as lemmas.
 */
module Storage {
  import opened Js

  /** A `Date`; only stored and handed back, so it is kept opaque. */
  type Timestamp = int

  /** `MovieCollection` of the legacy types: `description` and `isPublic` may be absent. */
  datatype MovieCollection = MovieCollection(
    id: string,
    name: string,
    description: Option<string>,
    movies: seq<int>,
    createdAt: Timestamp,
    isPublic: Option<bool>)

  /** `Partial<MovieCollection>`: a `Some` field is a key present in the update object. */
  datatype CollectionPatch = CollectionPatch(
    id: Option<string>,
    name: Option<string>,
    description: Option<string>,
    movies: Option<seq<int>>,
    createdAt: Option<Timestamp>,
    isPublic: Option<bool>)

  /** The record that `exportCollection` encodes for sharing. */
  datatype ExportData = ExportData(
    name: string,
    description: Option<string>,
    movies: seq<int>,
    createdAt: Timestamp)

  const ServerCreateError := "Cannot create collection on server"
  const ImportSuffix := " (Imported)"

  predicate NoDup(xs: seq<int>) {
    forall i, j :: 0 <= i < j < |xs| ==> xs[i] != xs[j]
  }

  /** No collection lists a movie twice. */
  predicate MoviesDistinct(cs: seq<MovieCollection>) {
    forall i :: 0 <= i < |cs| ==> NoDup(cs[i].movies)
  }

  // ---------------------------------------------------------------------------
  // Favorites as a list of movie ids
  // ---------------------------------------------------------------------------

  /** `if (!xs.includes(m)) xs.push(m)` */
  function AddIfAbsent(xs: seq<int>, m: int): (r: seq<int>)
    ensures m in r
    ensures forall x :: x in r <==> x in xs || x == m
    ensures m in xs ==> r == xs
    ensures m !in xs ==> |r| == |xs| + 1 && r[..|xs|] == xs
    ensures NoDup(xs) ==> NoDup(r)
  {
    if m in xs then xs else xs + [m]
  }

  /** `xs.filter(id => id !== m)` */
  function RemoveAll(xs: seq<int>, m: int): (r: seq<int>)
    ensures m !in r
    ensures forall x :: x != m ==> (x in r <==> x in xs)
    ensures multiset(r) == multiset(xs)[m := 0]
    ensures NoDup(xs) ==> NoDup(r)
  {
    if xs == [] then []
    else
      var rest := RemoveAll(xs[1..], m);
      assert xs == [xs[0]] + xs[1..];
      assert multiset(xs) == multiset([xs[0]]) + multiset(xs[1..]);
      if xs[0] == m then
        assert multiset(xs)[m := 0] == multiset(xs[1..])[m := 0];
        rest
      else
        assert multiset([xs[0]] + rest) == multiset([xs[0]]) + multiset(rest);
        assert multiset([xs[0]] + rest) == multiset(xs)[m := 0];
        assert NoDup(xs) ==> xs[0] !in xs[1..];
        [xs[0]] + rest
  }

  /** Removing an id that is not there leaves the list as it was. */
  lemma {:induction false} RemoveAllAbsent(xs: seq<int>, m: int)
    requires m !in xs
    ensures RemoveAll(xs, m) == xs
  {
    if xs != [] {
      RemoveAllAbsent(xs[1..], m);
    }
  }

  /** Removal works piecewise, so the ids that stay keep their order. */
  lemma {:induction false} RemoveAllAppend(a: seq<int>, b: seq<int>, m: int)
    ensures RemoveAll(a + b, m) == RemoveAll(a, m) + RemoveAll(b, m)
  {
    if a == [] {
      assert a + b == b;
    } else {
      assert (a + b)[1..] == a[1..] + b;
      RemoveAllAppend(a[1..], b, m);
    }
  }

  /** What `toggleFavorite` does to the stored list on the client. */
  function ToggledFavorites(xs: seq<int>, m: int): (r: seq<int>)
    ensures (m in r) == (m !in xs)
    ensures forall x :: x != m ==> (x in r <==> x in xs)
    ensures NoDup(xs) ==> NoDup(r)
  {
    if m in xs then RemoveAll(xs, m) else AddIfAbsent(xs, m)
  }

  /** Toggling twice restores the membership of every id. */
  lemma ToggleTwiceMembership(xs: seq<int>, m: int, x: int)
    ensures x in ToggledFavorites(ToggledFavorites(xs, m), m) <==> x in xs
  {
  }

  /** Toggling an absent id twice restores the list exactly. */
  lemma ToggleTwiceAbsent(xs: seq<int>, m: int)
    requires m !in xs
    ensures ToggledFavorites(ToggledFavorites(xs, m), m) == xs
  {
    var once := xs + [m];
    assert ToggledFavorites(xs, m) == once;
    RemoveAllAppend(xs, [m], m);
    RemoveAllAbsent(xs, m);
    assert RemoveAll([m], m) == [];
  }

  /** Toggling a present id twice moves it to the end of the list. */
  lemma ToggleTwicePresent(xs: seq<int>, m: int)
    requires m in xs
    ensures ToggledFavorites(ToggledFavorites(xs, m), m) == RemoveAll(xs, m) + [m]
  {
  }

  // ---------------------------------------------------------------------------
  // Collections as a list of records
  // ---------------------------------------------------------------------------

  /** `cs.findIndex(col => col.id === id)`: the first match, or -1. */
  function FindIndex(cs: seq<MovieCollection>, id: string): (i: int)
    ensures -1 <= i < |cs|
    ensures i >= 0 ==> cs[i].id == id
    ensures forall j :: 0 <= j < |cs| && (i < 0 || j < i) ==> cs[j].id != id
  {
    if cs == [] then -1
    else if cs[0].id == id then 0
    else
      var k := FindIndex(cs[1..], id);
      if k < 0 then -1 else k + 1
  }

  /** `cs.find(col => col.id === id)` */
  function Find(cs: seq<MovieCollection>, id: string): (r: Option<MovieCollection>)
    ensures r.None? <==> forall j :: 0 <= j < |cs| ==> cs[j].id != id
    ensures r.Some? ==> r.value in cs && r.value.id == id
    ensures r.Some? ==> r.value == cs[FindIndex(cs, id)]
    ensures r.Some? ==> forall j :: 0 <= j < |cs| && cs[j].id == id ==> FindIndex(cs, id) <= j
  {
    var i := FindIndex(cs, id);
    if i < 0 then None else Some(cs[i])
  }

  /** `{ ...c, ...p }`: the record changes exactly when the update supplies
      some field with a value other than the record's. */
  function Merge(c: MovieCollection, p: CollectionPatch): (r: MovieCollection)
    ensures r == c <==>
      && (p.id.Some? ==> p.id.value == c.id)
      && (p.name.Some? ==> p.name.value == c.name)
      && (p.description.Some? ==> p.description == c.description)
      && (p.movies.Some? ==> p.movies.value == c.movies)
      && (p.createdAt.Some? ==> p.createdAt.value == c.createdAt)
      && (p.isPublic.Some? ==> p.isPublic == c.isPublic)
  {
    MovieCollection(
      p.id.GetOr(c.id),
      p.name.GetOr(c.name),
      if p.description.Some? then p.description else c.description,
      p.movies.GetOr(c.movies),
      p.createdAt.GetOr(c.createdAt),
      if p.isPublic.Some? then p.isPublic else c.isPublic)
  }

  /** `{ ...p, ...q }`: the keys of `q` win. */
  function Combine(p: CollectionPatch, q: CollectionPatch): CollectionPatch {
    CollectionPatch(
      if q.id.Some? then q.id else p.id,
      if q.name.Some? then q.name else p.name,
      if q.description.Some? then q.description else p.description,
      if q.movies.Some? then q.movies else p.movies,
      if q.createdAt.Some? then q.createdAt else p.createdAt,
      if q.isPublic.Some? then q.isPublic else p.isPublic)
  }

  const NoChanges := CollectionPatch(None, None, None, None, None, None)

  /** A field absent from the patch keeps its value; a present one takes the patch's. */
  lemma MergeFields(c: MovieCollection, p: CollectionPatch)
    ensures Merge(c, p).name == (if p.name.Some? then p.name.value else c.name)
    ensures Merge(c, p).movies == (if p.movies.Some? then p.movies.value else c.movies)
    ensures Merge(c, p).id == (if p.id.Some? then p.id.value else c.id)
    ensures Merge(c, p).description == (if p.description.Some? then p.description else c.description)
    ensures Merge(c, p).createdAt == (if p.createdAt.Some? then p.createdAt.value else c.createdAt)
    ensures Merge(c, p).isPublic == (if p.isPublic.Some? then p.isPublic else c.isPublic)
    ensures p == NoChanges ==> Merge(c, p) == c
  {
  }

  /** Applying two updates in turn is applying their combination once;
      in particular, applying the same update twice is applying it once. */
  lemma MergeCompose(c: MovieCollection, p: CollectionPatch, q: CollectionPatch)
    ensures Merge(Merge(c, p), q) == Merge(c, Combine(p, q))
    ensures Merge(Merge(c, p), p) == Merge(c, p)
  {
  }

  /** `updateCollection` on the stored list: merge into the first match only. */
  function UpdateFirst(cs: seq<MovieCollection>, id: string, p: CollectionPatch): (r: seq<MovieCollection>)
    ensures |r| == |cs|
    ensures FindIndex(cs, id) < 0 ==> r == cs
    ensures FindIndex(cs, id) >= 0 ==> r[FindIndex(cs, id)] == Merge(cs[FindIndex(cs, id)], p)
    ensures forall j :: 0 <= j < |cs| && j != FindIndex(cs, id) ==> r[j] == cs[j]
  {
    var i := FindIndex(cs, id);
    if i < 0 then cs else cs[i := Merge(cs[i], p)]
  }

  /** `cs.filter(col => col.id !== id)` */
  function DeleteAll(cs: seq<MovieCollection>, id: string): (r: seq<MovieCollection>)
    ensures forall c :: c in r <==> c in cs && c.id != id
    ensures |r| <= |cs|
    ensures MoviesDistinct(cs) ==> MoviesDistinct(r)
  {
    if cs == [] then []
    else
      var rest := DeleteAll(cs[1..], id);
      assert cs == [cs[0]] + cs[1..];
      assert forall c :: c in cs <==> c == cs[0] || c in cs[1..];
      assert MoviesDistinct(cs) ==> MoviesDistinct(cs[1..]) by {
        if MoviesDistinct(cs) {
          forall i | 0 <= i < |cs[1..]| ensures NoDup(cs[1..][i].movies) {
            assert cs[1..][i] == cs[i + 1];
          }
        }
      }
      if cs[0].id == id then rest else [cs[0]] + rest
  }

  /** Deleting an id that no collection has leaves the list as it was. */
  lemma {:induction false} DeleteAllAbsent(cs: seq<MovieCollection>, id: string)
    requires forall j :: 0 <= j < |cs| ==> cs[j].id != id
    ensures DeleteAll(cs, id) == cs
  {
    if cs != [] {
      DeleteAllAbsent(cs[1..], id);
    }
  }

  /** Deletion works piecewise, so the collections that stay keep their order. */
  lemma {:induction false} DeleteAllAppend(a: seq<MovieCollection>, b: seq<MovieCollection>, id: string)
    ensures DeleteAll(a + b, id) == DeleteAll(a, id) + DeleteAll(b, id)
  {
    if a == [] {
      assert a + b == b;
    } else {
      assert (a + b)[1..] == a[1..] + b;
      DeleteAllAppend(a[1..], b, id);
    }
  }

  /** `addMovieToCollection` on the stored list. */
  function AddMovieTo(cs: seq<MovieCollection>, cid: string, m: int): (r: seq<MovieCollection>)
    ensures |r| == |cs|
    ensures FindIndex(cs, cid) < 0 ==> r == cs
    ensures FindIndex(cs, cid) >= 0 ==>
      r[FindIndex(cs, cid)] == cs[FindIndex(cs, cid)].(movies := AddIfAbsent(cs[FindIndex(cs, cid)].movies, m))
    ensures forall j :: 0 <= j < |cs| && j != FindIndex(cs, cid) ==> r[j] == cs[j]
    ensures MoviesDistinct(cs) ==> MoviesDistinct(r)
  {
    var i := FindIndex(cs, cid);
    if i >= 0 && m !in cs[i].movies then
      cs[i := cs[i].(movies := cs[i].movies + [m])]
    else cs
  }

  /** `removeMovieFromCollection` on the stored list. */
  function RemoveMovieFrom(cs: seq<MovieCollection>, cid: string, m: int): (r: seq<MovieCollection>)
    ensures |r| == |cs|
    ensures FindIndex(cs, cid) < 0 ==> r == cs
    ensures FindIndex(cs, cid) >= 0 ==>
      r[FindIndex(cs, cid)] == cs[FindIndex(cs, cid)].(movies := RemoveAll(cs[FindIndex(cs, cid)].movies, m))
    ensures forall j :: 0 <= j < |cs| && j != FindIndex(cs, cid) ==> r[j] == cs[j]
    ensures MoviesDistinct(cs) ==> MoviesDistinct(r)
  {
    var i := FindIndex(cs, cid);
    if i >= 0 then cs[i := cs[i].(movies := RemoveAll(cs[i].movies, m))] else cs
  }

  /** Merging keeps the movie lists duplicate-free unless the update itself
      supplies a list with a duplicate. */
  lemma UpdateFirstKeepsMoviesDistinct(cs: seq<MovieCollection>, id: string, p: CollectionPatch)
    requires MoviesDistinct(cs)
    requires p.movies.Some? ==> NoDup(p.movies.value)
    ensures MoviesDistinct(UpdateFirst(cs, id, p))
  {
    var r := UpdateFirst(cs, id, p);
    forall j | 0 <= j < |r| ensures NoDup(r[j].movies) {
      if j == FindIndex(cs, id) {
        MergeFields(cs[j], p);
      }
    }
  }

  /** An update that supplies a list with a duplicate breaks the invariant. */
  lemma UpdateFirstCanBreakDistinct(c: MovieCollection, m: int)
    ensures !MoviesDistinct(UpdateFirst([c], c.id, NoChanges.(movies := Some([m, m]))))
  {
    var r := UpdateFirst([c], c.id, NoChanges.(movies := Some([m, m])));
    assert FindIndex([c], c.id) == 0;
    MergeFields(c, NoChanges.(movies := Some([m, m])));
    assert r[0].movies == [m, m];
    assert r[0].movies[0] == r[0].movies[1];
  }

  // ---------------------------------------------------------------------------
  // The store
  // ---------------------------------------------------------------------------

  class MovieStorage {
    /** `typeof window !== 'undefined'` */
    const onClient: bool
    /** The JSON array stored under `movie_favorites` (absent reads as `[]`). */
    var favorites: seq<int>
    /** The JSON array stored under `movie_collections` (absent reads as `[]`). */
    var collections: seq<MovieCollection>

    /** The store as found, with whatever the two keys already hold. */
    constructor(onClient: bool, favorites: seq<int>, collections: seq<MovieCollection>)
      ensures this.onClient == onClient
      ensures this.favorites == favorites && this.collections == collections
    {
      this.onClient := onClient;
      this.favorites := favorites;
      this.collections := collections;
    }

    /** The invariant the store's own writes preserve. */
    predicate Valid()
      reads this
    {
      NoDup(favorites) && MoviesDistinct(collections)
    }

    /** `getFavorites()` */
    function GetFavorites(): (r: seq<int>)
      reads this
      ensures onClient ==> r == favorites
      ensures !onClient ==> r == []
    {
      if onClient then favorites else []
    }

    /** `isFavorite(m)` */
    predicate IsFavorite(m: int)
      reads this
      ensures IsFavorite(m) <==> onClient && m in favorites
    {
      m in GetFavorites()
    }

    /** `addToFavorites(m)` */
    method AddToFavorites(m: int)
      modifies this`favorites
      ensures favorites == if onClient then AddIfAbsent(old(favorites), m) else old(favorites)
      ensures onClient ==> IsFavorite(m)
      ensures old(m in favorites) ==> favorites == old(favorites)
      ensures old(NoDup(favorites)) ==> NoDup(favorites)
      ensures old(Valid()) ==> Valid()
    {
      if !onClient {
        return;
      }
      var favs := GetFavorites();
      if m !in favs {
        favs := favs + [m];
        favorites := favs;
      }
    }

    /** `removeFromFavorites(m)` */
    method RemoveFromFavorites(m: int)
      modifies this`favorites
      ensures favorites == if onClient then RemoveAll(old(favorites), m) else old(favorites)
      ensures !IsFavorite(m)
      ensures forall x :: x != m ==> (IsFavorite(x) <==> old(IsFavorite(x)))
      ensures old(NoDup(favorites)) ==> NoDup(favorites)
      ensures old(Valid()) ==> Valid()
    {
      if !onClient {
        return;
      }
      var favs := GetFavorites();
      favorites := RemoveAll(favs, m);
    }

    /** `toggleFavorite(m)`: returns the negation of the prior membership. On the
        client that is the new membership; off it nothing is stored, yet the
        result is `true`. */
    method ToggleFavorite(m: int) returns (r: bool)
      modifies this`favorites
      ensures r == !old(IsFavorite(m))
      ensures onClient ==> IsFavorite(m) == r
      ensures !onClient ==> r && favorites == old(favorites)
      ensures favorites == if onClient then ToggledFavorites(old(favorites), m) else old(favorites)
      ensures forall x :: x != m ==> (IsFavorite(x) <==> old(IsFavorite(x)))
      ensures old(NoDup(favorites)) ==> NoDup(favorites)
      ensures old(Valid()) ==> Valid()
    {
      var isFav := IsFavorite(m);
      if isFav {
        RemoveFromFavorites(m);
      } else {
        AddToFavorites(m);
      }
      r := !isFav;
    }

    /** `getCollections()` */
    function GetCollections(): (r: seq<MovieCollection>)
      reads this
      ensures onClient ==> r == collections
      ensures !onClient ==> r == []
    {
      if onClient then collections else []
    }

    /** `createCollection(name, description)` with the generated id and the
        creation time passed in. */
    method CreateCollection(name: string, description: Option<string>, id: string, now: Timestamp)
      returns (r: Completion<MovieCollection>)
      modifies this`collections
      ensures r.Thrown? <==> !onClient
      ensures r.Thrown? ==> r.error == ServerCreateError && collections == old(collections)
      ensures r.Normal? ==> r.value == MovieCollection(id, name, description, [], now, Some(false))
      ensures r.Normal? ==> collections == old(collections) + [r.value]
      ensures old(MoviesDistinct(collections)) ==> MoviesDistinct(collections)
      ensures old(Valid()) ==> Valid()
    {
      if !onClient {
        return Thrown(ServerCreateError);
      }
      var collection := MovieCollection(id, name, description, [], now, Some(false));
      var cols := GetCollections();
      cols := cols + [collection];
      collections := cols;
      r := Normal(collection);
    }

    /** `updateCollection(id, updates)` */
    method UpdateCollection(id: string, updates: CollectionPatch)
      modifies this`collections
      ensures collections == if onClient then UpdateFirst(old(collections), id, updates) else old(collections)
      ensures old(MoviesDistinct(collections)) && (updates.movies.Some? ==> NoDup(updates.movies.value))
        ==> MoviesDistinct(collections)
      ensures old(Valid()) && (updates.movies.Some? ==> NoDup(updates.movies.value)) ==> Valid()
    {
      if !onClient {
        return;
      }
      var cols := GetCollections();
      var index := FindIndex(cols, id);
      if index != -1 {
        cols := cols[index := Merge(cols[index], updates)];
        collections := cols;
      }
      if old(MoviesDistinct(collections)) && (updates.movies.Some? ==> NoDup(updates.movies.value)) {
        UpdateFirstKeepsMoviesDistinct(old(collections), id, updates);
      }
    }

    /** `deleteCollection(id)` */
    method DeleteCollection(id: string)
      modifies this`collections
      ensures collections == if onClient then DeleteAll(old(collections), id) else old(collections)
      ensures onClient ==> forall c :: c in collections ==> c.id != id
      ensures old(MoviesDistinct(collections)) ==> MoviesDistinct(collections)
      ensures old(Valid()) ==> Valid()
    {
      if !onClient {
        return;
      }
      var cols := GetCollections();
      collections := DeleteAll(cols, id);
    }

    /** `addMovieToCollection(cid, m)` */
    method AddMovieToCollection(cid: string, m: int)
      modifies this`collections
      ensures collections == if onClient then AddMovieTo(old(collections), cid, m) else old(collections)
      ensures old(MoviesDistinct(collections)) ==> MoviesDistinct(collections)
      ensures old(Valid()) ==> Valid()
    {
      if !onClient {
        return;
      }
      var cols := GetCollections();
      var index := FindIndex(cols, cid);
      if index >= 0 && m !in cols[index].movies {
        cols := cols[index := cols[index].(movies := cols[index].movies + [m])];
        collections := cols;
      }
    }

    /** `removeMovieFromCollection(cid, m)` */
    method RemoveMovieFromCollection(cid: string, m: int)
      modifies this`collections
      ensures collections == if onClient then RemoveMovieFrom(old(collections), cid, m) else old(collections)
      ensures old(MoviesDistinct(collections)) ==> MoviesDistinct(collections)
      ensures old(Valid()) ==> Valid()
    {
      if !onClient {
        return;
      }
      var cols := GetCollections();
      var index := FindIndex(cols, cid);
      if index >= 0 {
        cols := cols[index := cols[index].(movies := RemoveAll(cols[index].movies, m))];
        collections := cols;
      }
    }

    /** `getCollection(id)`: the first collection with that id, or null. */
    function GetCollection(id: string): (r: Option<MovieCollection>)
      reads this
      ensures r.None? <==> !onClient || forall j :: 0 <= j < |collections| ==> collections[j].id != id
      ensures r.Some? ==> r.value == collections[FindIndex(collections, id)] && r.value.id == id
    {
      Find(GetCollections(), id)
    }

    /** `exportCollection(id)`, before its base64/JSON encoding. */
    function ExportCollection(id: string): (r: Option<ExportData>)
      reads this
      ensures r.None? <==> GetCollection(id).None?
      ensures r.Some? ==> var c := GetCollection(id).value;
        r.value == ExportData(c.name, c.description, c.movies, c.createdAt)
    {
      match GetCollection(id)
      case None => None
      case Some(c) => Some(ExportData(c.name, c.description, c.movies, c.createdAt))
    }

    /** `importCollection(encoded)`: `decoded` is the outcome of decoding
        (None when `atob` or `JSON.parse` throws). Only the name and the
        description are passed on, so the new collection is always empty. */
    method ImportCollection(decoded: Option<ExportData>, id: string, now: Timestamp)
      returns (r: Option<MovieCollection>)
      modifies this`collections
      ensures r.Some? <==> decoded.Some? && onClient
      ensures r.Some? ==>
        r.value == MovieCollection(id, decoded.value.name + ImportSuffix, decoded.value.description, [], now, Some(false))
      ensures r.Some? ==> collections == old(collections) + [r.value]
      ensures r.None? ==> collections == old(collections)
      ensures old(Valid()) ==> Valid()
    {
      if decoded.None? {
        return None;
      }
      var data := decoded.value;
      var created := CreateCollection(data.name + ImportSuffix, data.description, id, now);
      match created
      case Thrown(_) => r := None;
      case Normal(c) => r := Some(c);
    }
  }

  /** The export-then-import scenario: exporting a collection that holds
      movies and importing the result gives a collection with the suffixed
      name and the same description, but none of those movies. */
  method ExportThenImport(s: MovieStorage, cid: string, newId: string, now: Timestamp)
    returns (imported: Option<MovieCollection>)
    requires s.onClient
    modifies s`collections
    ensures old(s.GetCollection(cid)).None? ==> imported.None?
    ensures old(s.GetCollection(cid)).Some? ==>
      && imported.Some?
      && imported.value.name == old(s.GetCollection(cid)).value.name + ImportSuffix
      && imported.value.description == old(s.GetCollection(cid)).value.description
      && imported.value.movies == []
  {
    var data := s.ExportCollection(cid);
    imported := s.ImportCollection(data, newId, now);
  }
}
