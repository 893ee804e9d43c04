/**
 * The metadata-service client: image and request URL construction, and the
 * demo-mode data served when no API key is configured or a request fails.
 * The network request itself is an input (its outcome), not modelled.
 */
module Tmdb {
  import opened Js
  import opened Types

  const BaseUrl := "https://api.themoviedb.org/3"
  const ImageBaseUrl := "https://image.tmdb.org/t/p"
  const DemoKey := "demo_key"
  const GenreListEndpoint := "/genre/movie/list"

  /** The inline SVG shown when a movie or person has no image. */
  const Placeholder := "data:" + PlaceholderData
  const PlaceholderData := "image/svg+xml;base64,PHN2ZyB3aWR0aD0iNTAwIiBoZWlnaHQ9Ijc1MCIgdmlld0JveD0iMCAwIDUwMCA3NTAiIGZpbGw9Im5vbmUiIHhtbG5zPSJodHRwOi8vd3d3LnczLm9yZy8yMDAwL3N2ZyI+CjxyZWN0IHdpZHRoPSI1MDAiIGhlaWdodD0iNzUwIiBmaWxsPSIjRjNGNEY2Ii8+CjxwYXRoIGQ9Ik0yMjUgMzAwQzIyNSAyOTAuNTkgMjMyLjU5IDI4MyAyNDIgMjgzSDI1OEMyNjcuNDEgMjgzIDI3NSAyOTAuNTkgMjc1IDMwMFYzNTBDMjc1IDM1OS40MSAyNjcuNDEgMzY3IDI1OCAzNjdIMjQyQzIzMi41OSAzNjcgMjI1IDM1OS40MSAyMjUgMzUwVjMwMFoiIGZpbGw9IiM5Q0EzQUYiLz4KPHN2ZyB4PSIyMDAiIHk9IjM4MCIgd2lkdGg9IjEwMCIgaGVpZ2h0PSI4MCI+CjxyZWN0IHdpZHRoPSIxMDAiIGhlaWdodD0iODAiIHJ4PSI4IiBmaWxsPSIjOUNBM0FGIi8+CjwvdGV4dD4KPC9zdmc+"

  /** `process.env.NEXT_PUBLIC_TMDB_API_KEY || 'demo_key'` */
  function ApiKey(env: Option<string>): (key: string)
    ensures env.None? || env.value == "" ==> key == DemoKey
    ensures env.Some? && env.value != "" ==> key == env.value
    ensures key != ""
  {
    if env.None? || env.value == "" then DemoKey else env.value
  }

  // ---------------------------------------------------------------------------
  // Image URLs
  // ---------------------------------------------------------------------------

  /** What `getImageUrl` returns: the inline placeholder image, or the image
      of a size and a path on the image server. */
  datatype ImageSrc = PlaceholderImage | ServerImage(size: string, path: string) {
    /** The string handed to the `src` attribute: the placeholder text for the
        placeholder and for nothing else. */
    function Text(): (t: string)
      ensures t == Placeholder <==> this.PlaceholderImage?
      ensures this.ServerImage? ==> t == ImageUrlText(this.size, this.path)
    {
      match this
      case PlaceholderImage => Placeholder
      case ServerImage(size, path) =>
        DataUriIsNotServerUrl(PlaceholderData, size, path);
        ImageUrlText(size, path)
    }
  }

  /** `${TMDB_IMAGE_BASE_URL}/${size}${path}` */
  function ImageUrlText(size: string, path: string): (url: string)
    ensures |url| == |ImageBaseUrl| + 1 + |size| + |path|
    ensures url[..|ImageBaseUrl| + 1] == ImageBaseUrl + "/"
    ensures url[|ImageBaseUrl| + 1..|ImageBaseUrl| + 1 + |size|] == size
    ensures url[|url| - |path|..] == path
  {
    ImageBaseUrl + "/" + size + path
  }

  /** `getImageUrl(path, size = 'w500')`: the placeholder for a null or empty
      path, otherwise the image of that size on the image server. */
  function GetImageUrl(path: Option<string>, size: string := "w500"): (src: ImageSrc)
    ensures src.PlaceholderImage? <==> path.None? || path.value == ""
    ensures src.ServerImage? ==> src.size == size && src.path == path.value
  {
    if path.None? || path.value == "" then PlaceholderImage else ServerImage(size, path.value)
  }

  function GetPosterUrl(path: Option<string>): (src: ImageSrc)
    ensures src.PlaceholderImage? <==> path.None? || path.value == ""
    ensures src.ServerImage? ==> src == ServerImage("w500", path.value)
  {
    GetImageUrl(path, "w500")
  }

  function GetBackdropUrl(path: Option<string>): (src: ImageSrc)
    ensures src.PlaceholderImage? <==> path.None? || path.value == ""
    ensures src.ServerImage? ==> src == ServerImage("w1280", path.value)
  {
    GetImageUrl(path, "w1280")
  }

  function GetProfileUrl(path: Option<string>): (src: ImageSrc)
    ensures src.PlaceholderImage? <==> path.None? || path.value == ""
    ensures src.ServerImage? ==> src == ServerImage("w185", path.value)
  {
    GetImageUrl(path, "w185")
  }

  /** Leaving out the size asks for `w500`, the poster size. */
  lemma DefaultSizeIsPoster(path: Option<string>)
    ensures GetImageUrl(path) == GetPosterUrl(path)
  {
  }

  /** A `data:` URI is never an image-server URL. */
  lemma DataUriIsNotServerUrl(data: string, size: string, path: string)
    ensures "data:" + data != ImageUrlText(size, path)
  {
    assert ("data:" + data)[0] == 'd';
    assert ImageUrlText(size, path)[0] == 'h';
  }

  /** The placeholder text comes back exactly when there is no path: no
      image URL can be mistaken for it. */
  lemma PlaceholderIffNoPath(path: Option<string>, size: string)
    ensures GetImageUrl(path, size).Text() == Placeholder <==> path.None? || path.value == ""
  {
    if path.Some? && path.value != "" {
      DataUriIsNotServerUrl(PlaceholderData, size, path.value);
    }
  }

  /** The size and path can be read back from an image URL. */
  lemma ImageUrlRecoversPath(path: string, size: string)
    ensures var url := ImageUrlText(size, path);
      && url[..|ImageBaseUrl| + 1] == ImageBaseUrl + "/"
      && url[|ImageBaseUrl| + 1..|ImageBaseUrl| + 1 + |size|] == size
      && url[|ImageBaseUrl| + 1 + |size|..] == path
  {
  }

  // ---------------------------------------------------------------------------
  // Request URLs
  // ---------------------------------------------------------------------------

  /** A request URL on `base`: the key goes after `&` when the endpoint
      already has a query string, after `?` otherwise. The URL reads back as
      the base and endpoint, one separator, and the key parameter. */
  function QueryUrl(base: string, endpoint: string, apiKey: string): (url: string)
    ensures |url| == |base| + |endpoint| + 1 + |"api_key="| + |apiKey|
    ensures url[..|base| + |endpoint|] == base + endpoint
    ensures url[|base| + |endpoint|] == if '?' in endpoint then '&' else '?'
    ensures url[|base| + |endpoint| + 1..] == "api_key=" + apiKey
  {
    base + endpoint + (if '?' in endpoint then "&" else "?") + "api_key=" + apiKey
  }

  /** The URL `fetchFromTMDB` requests: on the API base, and ending in the key. */
  function RequestUrl(endpoint: string, apiKey: string): (url: string)
    ensures |url| == |BaseUrl| + |endpoint| + 1 + |"api_key="| + |apiKey|
    ensures url[..|BaseUrl|] == BaseUrl
    ensures url[|BaseUrl|..|BaseUrl| + |endpoint|] == endpoint
    ensures url[|url| - |apiKey|..] == apiKey
  {
    QueryUrl(BaseUrl, endpoint, apiKey)
  }

  /** Number of occurrences of `c` in `s`. */
  function Count(s: string, c: char): nat {
    if s == [] then 0
    else Count(s[..|s| - 1], c) + (if s[|s| - 1] == c then 1 else 0)
  }

  /** Counting distributes over concatenation. */
  lemma {:induction false} CountAppend(a: string, b: string, c: char)
    ensures Count(a + b, c) == Count(a, c) + Count(b, c)
    decreases |b|
  {
    if b != [] {
      var b' := b[..|b| - 1];
      assert (a + b)[..|a + b| - 1] == a + b';
      CountAppend(a, b', c);
    } else {
      assert a + b == a;
    }
  }

  /** A character that does not occur is counted zero times. */
  lemma {:induction false} CountAbsent(s: string, c: char)
    requires c !in s
    ensures Count(s, c) == 0
    decreases |s|
  {
    if s != [] {
      assert s[..|s| - 1] <= s;
      CountAbsent(s[..|s| - 1], c);
    }
  }

  /** On a base and a key free of `?`, the URL has one `?` more than the
      endpoint when the endpoint has none, and no more than it otherwise. */
  lemma QueryUrlMarks(base: string, endpoint: string, apiKey: string)
    requires '?' !in base && '?' !in apiKey
    ensures Count(QueryUrl(base, endpoint, apiKey), '?') == if '?' in endpoint then Count(endpoint, '?') else 1
  {
    var sep := if '?' in endpoint then "&" else "?";
    var tail := "api_key=" + apiKey;
    assert QueryUrl(base, endpoint, apiKey) == base + endpoint + sep + tail;
    CountAppend(base + endpoint + sep, tail, '?');
    CountAppend(base + endpoint, sep, '?');
    CountAppend(base, endpoint, '?');
    CountAppend("api_key=", apiKey, '?');
    CountAbsent(base, '?');
    CountAbsent(apiKey, '?');
    CountAbsent("api_key=", '?');
    if '?' !in endpoint {
      CountAbsent(endpoint, '?');
    }
  }

  /** With a key free of `?`, a request URL has exactly one `?` whenever the
      endpoint had at most one: the key never opens a second query string. */
  lemma RequestUrlQueryMarks(endpoint: string, apiKey: string)
    requires '?' !in apiKey
    ensures Count(RequestUrl(endpoint, apiKey), '?') == if '?' in endpoint then Count(endpoint, '?') else 1
  {
    QueryUrlMarks(BaseUrl, endpoint, apiKey);
  }

  // ---------------------------------------------------------------------------
  // Demo data and the fetch fallback
  // ---------------------------------------------------------------------------

  /** A response body: the genre list, a page of movies, or what the service sent. */
  datatype Payload =
    | GenreList(genres: seq<Genre>)
    | MoviePage(page: int, results: seq<Movie>, totalPages: int, totalResults: int)
    | Remote(data: Json)

  const MockGenres: seq<Genre> := [
    Genre(28, "Action"), Genre(12, "Adventure"), Genre(16, "Animation"),
    Genre(35, "Comedy"), Genre(80, "Crime"), Genre(99, "Documentary"),
    Genre(18, "Drama"), Genre(10751, "Family"), Genre(14, "Fantasy"),
    Genre(36, "History"), Genre(27, "Horror"), Genre(10402, "Music"),
    Genre(9648, "Mystery"), Genre(10749, "Romance"), Genre(878, "Science Fiction"),
    Genre(10770, "TV Movie"), Genre(53, "Thriller"), Genre(10752, "War"),
    Genre(37, "Western")]

  const MockMovie := Movie(
    1, "Demo Movie",
    "This is a demo movie. Please add your TMDB API key to see real data.",
    None, None, "2024-01-01", 8.5, 1000, 120,
    Some([28, 12]), Some([Genre(28, "Action"), Genre(12, "Adventure")]))

  const MockPageSize := 20

  /** `Demo Movie ${i + 1}`: the fixed prefix, then the number's digits. */
  function DemoTitle(n: nat): (t: string)
    ensures |t| > |"Demo Movie "| && t[..|"Demo Movie "|] == "Demo Movie "
    ensures AllDigits(t[|"Demo Movie "|..]) && DigitsValue(t[|"Demo Movie "|..]) == n
  {
    NatToStringRoundTrip(n);
    var t := "Demo Movie " + NatToString(n);
    assert t[|"Demo Movie "|..] == NatToString(n);
    t
  }

  /** `sub` occurs in `s` starting at position `i`. */
  predicate OccursAt(s: string, sub: string, i: int) {
    0 <= i && i + |sub| <= |s| && s[i..i + |sub|] == sub
  }

  /** `String.prototype.includes`: a match at the front, or further on. */
  predicate Includes(s: string, sub: string)
    ensures Includes(s, sub) ==> |sub| <= |s|
    ensures |sub| <= |s| && s[..|sub|] == sub ==> Includes(s, sub)
    decreases |s|
  {
    if |s| < |sub| then false else s[..|sub|] == sub || Includes(s[1..], sub)
  }

  /** A match in the tail of `s` is a match in `s`, one position further on. */
  lemma OccursInTail(s: string, sub: string, i: int)
    requires s != [] && 0 <= i
    ensures OccursAt(s[1..], sub, i) <==> OccursAt(s, sub, i + 1)
  {
    if i + |sub| <= |s| - 1 {
      assert s[1..][i..i + |sub|] == s[i + 1..i + 1 + |sub|];
    }
  }

  /** `includes` holds exactly when the string occurs at some position. */
  lemma {:induction false} IncludesIff(s: string, sub: string)
    ensures Includes(s, sub) <==> exists i :: OccursAt(s, sub, i)
    decreases |s|
  {
    if |s| >= |sub| && s[..|sub|] == sub {
      assert OccursAt(s, sub, 0);
    } else if |s| >= |sub| {
      assert s != [];
      IncludesIff(s[1..], sub);
      if Includes(s[1..], sub) {
        var i :| OccursAt(s[1..], sub, i);
        OccursInTail(s, sub, i);
      } else {
        forall i | OccursAt(s, sub, i)
          ensures false
        {
          if i > 0 {
            OccursInTail(s, sub, i - 1);
          }
        }
      }
    } else {
      forall i | OccursAt(s, sub, i)
        ensures false
      {
      }
    }
  }

  /** `getMockData(endpoint)` */
  function GetMockData(endpoint: string): (p: Payload)
    ensures Includes(endpoint, GenreListEndpoint) ==> p == GenreList(MockGenres)
    ensures !Includes(endpoint, GenreListEndpoint) ==>
      && p.MoviePage? && p.page == 1 && p.totalPages == 1 && p.totalResults == MockPageSize
      && |p.results| == MockPageSize
      && forall i :: 0 <= i < MockPageSize ==>
           p.results[i] == MockMovie.(id := i + 1, title := DemoTitle(i + 1))
  {
    if Includes(endpoint, GenreListEndpoint) then GenreList(MockGenres)
    else
      MoviePage(1, seq(MockPageSize, (i: nat) => MockMovie.(id := i + 1, title := DemoTitle(i + 1))),
                1, MockPageSize)
  }

  /** The demo genre list has 19 genres with distinct ids. */
  lemma MockGenresDistinct()
    ensures |MockGenres| == 19
    ensures forall i, j :: 0 <= i < j < |MockGenres| ==> MockGenres[i].id != MockGenres[j].id
  {
  }

  /** The demo page lists movies 1 to 20, and no two share an id or a title. */
  lemma MockPageDistinct(endpoint: string, i: int, j: int)
    requires !Includes(endpoint, GenreListEndpoint)
    requires 0 <= i < j < MockPageSize
    ensures GetMockData(endpoint).results[i].id != GetMockData(endpoint).results[j].id
    ensures GetMockData(endpoint).results[i].title != GetMockData(endpoint).results[j].title
  {
    var p := GetMockData(endpoint);
    assert p.results[i].title == DemoTitle(i + 1);
    assert p.results[j].title == DemoTitle(j + 1);
  }

  /** What the `fetch` of a request URL produced. */
  datatype NetOutcome = NetworkError | HttpResponse(status: int, body: Option<Json>)

  /** The URL fetched (None when nothing is fetched) and the data returned. */
  datatype Fetched = Fetched(request: Option<string>, data: Payload)

  /** `fetchFromTMDB(endpoint)`: demo data without fetching in demo mode;
      otherwise the response body when the status is 2xx and the body parses,
      and demo data on any failure. */
  function FetchFromTmdb(apiKey: string, endpoint: string, net: NetOutcome): (f: Fetched)
    ensures apiKey == DemoKey ==> f == Fetched(None, GetMockData(endpoint))
    ensures apiKey != DemoKey ==> f.request == Some(RequestUrl(endpoint, apiKey))
    ensures apiKey != DemoKey && net.HttpResponse? && 200 <= net.status <= 299 && net.body.Some? ==>
      f.data == Remote(net.body.value)
    ensures apiKey != DemoKey && !(net.HttpResponse? && 200 <= net.status <= 299 && net.body.Some?) ==>
      f.data == GetMockData(endpoint)
    ensures f.data.Remote? || f.data == GetMockData(endpoint)
  {
    if apiKey == DemoKey then Fetched(None, GetMockData(endpoint))
    else
      var url := RequestUrl(endpoint, apiKey);
      match net
      case NetworkError => Fetched(Some(url), GetMockData(endpoint))
      case HttpResponse(status, body) =>
        if !(200 <= status <= 299) || body.None? then Fetched(Some(url), GetMockData(endpoint))
        else Fetched(Some(url), Remote(body.value))
  }

  /** Without a configured key, asking for the genre list fetches nothing and
      yields the 19 demo genres. */
  lemma DemoGenres(env: Option<string>, net: NetOutcome)
    requires env.None? || env.value == ""
    ensures FetchFromTmdb(ApiKey(env), GenreListEndpoint, net) == Fetched(None, GenreList(MockGenres))
  {
    assert GenreListEndpoint[..|GenreListEndpoint|] == GenreListEndpoint;
  }
}
