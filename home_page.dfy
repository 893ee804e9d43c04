/**
 * The home page's browsing state: which list section is active, which genre
 * filter is chosen and what is being searched for, the loader that each
 * change starts, how genre ids in a response are resolved to genres, and
 * the heading shown above the grid.
 */
module HomePage {
  import opened Js
  import opened Types

  datatype Section = Popular | TopRated | NowPlaying | Upcoming

  /** The request a loader makes: a search, a genre listing or a section. */
  datatype Loader = Search(query: string) | ByGenre(genreId: int) | BySection(section: Section)

  /** `if (selectedGenre)`: the selection, a number or null, is truthy. */
  predicate GenreChosen(selected: Option<int>)
    ensures GenreChosen(selected) <==>
      Truthy(Some(if selected.Some? then JNum(selected.value as real) else JNull))
  {
    selected.Some? && selected.value != 0
  }

  /** The loader dispatch effect: nothing before the genres are loaded, then a
      search when there is a query, else a genre listing when a genre is
      chosen, else the active section. */
  function Dispatch(genres: seq<Genre>, section: Section, selected: Option<int>, query: string): (l: Option<Loader>)
    ensures l.None? <==> |genres| == 0
    ensures l.Some? && l.value.Search? <==> |genres| > 0 && query != ""
    ensures l.Some? && l.value.ByGenre? <==> |genres| > 0 && query == "" && GenreChosen(selected)
    ensures l.Some? && l.value.BySection? <==> |genres| > 0 && query == "" && !GenreChosen(selected)
    ensures l.Some? && l.value.Search? ==> l.value.query == query
    ensures l.Some? && l.value.ByGenre? ==> Some(l.value.genreId) == selected
    ensures l.Some? && l.value.BySection? ==> l.value.section == section
  {
    if |genres| == 0 then None
    else if query != "" then Some(Search(query))
    else if GenreChosen(selected) then Some(ByGenre(selected.value))
    else Some(BySection(section))
  }

  /** `handleGenreFilter(g)`'s new selection: unselect a genre chosen twice. */
  function ToggledGenre(selected: Option<int>, g: int): (r: Option<int>)
    ensures selected == Some(g) ==> r.None?
    ensures selected != Some(g) ==> r == Some(g)
  {
    if selected == Some(g) then None else Some(g)
  }

  /** Choosing the same genre twice restores the selection exactly when there
      was none or it was that genre already. */
  lemma ToggledGenreTwice(selected: Option<int>, g: int)
    ensures ToggledGenre(ToggledGenre(selected, g), g) == selected <==> selected.None? || selected == Some(g)
  {
  }

  // ---------------------------------------------------------------------------
  // Genre resolution
  // ---------------------------------------------------------------------------

  /** `i` is the position of the first genre with that id. */
  predicate FirstWithId(genres: seq<Genre>, id: int, i: int) {
    0 <= i < |genres| && genres[i].id == id && forall j :: 0 <= j < i ==> genres[j].id != id
  }

  /** `genres.find(g => g.id === id)`: the first genre with that id. */
  function FindGenre(genres: seq<Genre>, id: int): (r: Option<Genre>)
    ensures r.None? <==> forall i :: 0 <= i < |genres| ==> genres[i].id != id
    ensures r.Some? ==> r.value.id == id && exists i :: FirstWithId(genres, id, i) && genres[i] == r.value
  {
    if genres == [] then None
    else if genres[0].id == id then Some(genres[0])
    else
      var r := FindGenre(genres[1..], id);
      if r.Some? then
        var i :| FirstWithId(genres[1..], id, i) && genres[1..][i] == r.value;
        assert genres[i + 1] == r.value;
        assert forall j :: 0 <= j < i + 1 ==> genres[j].id != id by {
          forall j | 0 <= j < i + 1
            ensures genres[j].id != id
          {
            if j > 0 {
              assert FirstWithId(genres[1..], id, i);
              assert genres[j] == genres[1..][j - 1];
            }
          }
        }
        assert FirstWithId(genres, id, i + 1);
        r
      else
        r
  }

  /** `ids.map(id => genres.find(...)).filter(Boolean)`: for each id in order,
      its first genre, unknown ids dropped. */
  function ResolveIds(ids: seq<int>, genres: seq<Genre>): (r: seq<Genre>)
    ensures |r| <= |ids|
    ensures forall k :: 0 <= k < |r| ==> r[k] in genres && r[k].id in ids
    ensures forall k :: 0 <= k < |r| ==> FindGenre(genres, r[k].id) == Some(r[k])
    ensures forall id :: id in ids && FindGenre(genres, id).Some? ==> FindGenre(genres, id).value in r
  {
    if ids == [] then []
    else
      var rest := ResolveIds(ids[1..], genres);
      match FindGenre(genres, ids[0])
      case Some(g) => [g] + rest
      case None => rest
  }

  /** `movie.genre_ids?.map(...).filter(Boolean) || []` */
  function ResolveGenres(ids: Option<seq<int>>, genres: seq<Genre>): (r: seq<Genre>)
    ensures ids.None? ==> r == []
    ensures ids.Some? ==> r == ResolveIds(ids.value, genres)
  {
    if ids.None? then [] else ResolveIds(ids.value, genres)
  }

  /** When every id is known, each resolves in place to its first genre. */
  lemma {:induction false} ResolveKnownIds(ids: seq<int>, genres: seq<Genre>)
    requires forall k :: 0 <= k < |ids| ==> FindGenre(genres, ids[k]).Some?
    ensures |ResolveIds(ids, genres)| == |ids|
    ensures forall k :: 0 <= k < |ids| ==> ResolveIds(ids, genres)[k] == FindGenre(genres, ids[k]).value
  {
    if ids != [] {
      var head, tail := [ids[0]], ids[1..];
      assert forall k :: 0 <= k < |tail| ==> tail[k] == ids[k + 1];
      ResolveKnownIds(tail, genres);
      assert ids == head + tail;
      ResolveIdsAppend(head, tail, genres);
      ResolveSingleId(ids[0], genres);
      var r := ResolveIds(ids, genres);
      assert r == [FindGenre(genres, ids[0]).value] + ResolveIds(tail, genres);
      forall k | 0 <= k < |ids|
        ensures r[k] == FindGenre(genres, ids[k]).value
      {
        if k > 0 {
          assert r[k] == ResolveIds(tail, genres)[k - 1];
        }
      }
    }
  }

  /** A single id resolves to its first genre, or to nothing when no genre has it. */
  lemma ResolveSingleId(id: int, genres: seq<Genre>)
    ensures ResolveIds([id], genres)
      == if FindGenre(genres, id).Some? then [FindGenre(genres, id).value] else []
  {
    assert [id][1..] == [];
  }

  /** Resolution works piecewise: the genres of `a + b` are those of `a`
      followed by those of `b`, so the order of the ids is kept. */
  lemma {:induction false} ResolveIdsAppend(a: seq<int>, b: seq<int>, genres: seq<Genre>)
    ensures ResolveIds(a + b, genres) == ResolveIds(a, genres) + ResolveIds(b, genres)
  {
    if a == [] {
      assert a + b == b;
    } else {
      assert (a + b)[0] == a[0];
      assert (a + b)[1..] == a[1..] + b;
      ResolveIdsAppend(a[1..], b, genres);
    }
  }

  /** An id with no genre of its own contributes nothing, wherever it stands. */
  lemma ResolveUnknownId(before: seq<int>, id: int, after: seq<int>, genres: seq<Genre>)
    requires FindGenre(genres, id).None?
    ensures ResolveIds(before + [id] + after, genres) == ResolveIds(before + after, genres)
  {
    ResolveIdsAppend(before + [id], after, genres);
    ResolveIdsAppend(before, [id], genres);
    ResolveSingleId(id, genres);
    ResolveIdsAppend(before, after, genres);
    assert ResolveIds(before, genres) + [] == ResolveIds(before, genres);
  }

  /** Each movie of a response with its genres filled in. */
  function WithGenres(movies: seq<Movie>, genres: seq<Genre>): (r: seq<Movie>)
    ensures |r| == |movies|
    ensures forall k :: 0 <= k < |r| ==>
      r[k] == movies[k].(genres := Some(ResolveGenres(movies[k].genreIds, genres)))
  {
    seq(|movies|, k requires 0 <= k < |movies| =>
      movies[k].(genres := Some(ResolveGenres(movies[k].genreIds, genres))))
  }

  // ---------------------------------------------------------------------------
  // Heading
  // ---------------------------------------------------------------------------

  /** The per-section heading; each section has its own. */
  function SectionName(section: Section): (t: string)
    ensures section == Popular <==> t == "Popular Movies"
    ensures section == TopRated <==> t == "Top Rated Movies"
    ensures section == NowPlaying <==> t == "Now Playing"
    ensures section == Upcoming <==> t == "Upcoming Movies"
  {
    match section
    case Popular => "Popular Movies"
    case TopRated => "Top Rated Movies"
    case NowPlaying => "Now Playing"
    case Upcoming => "Upcoming Movies"
  }

  /** `${genre?.name}`: the genre's name, or `undefined` when it is unknown. */
  function GenreName(genres: seq<Genre>, id: int): (n: string)
    ensures FindGenre(genres, id).Some? ==> n == FindGenre(genres, id).value.name
    ensures FindGenre(genres, id).None? ==> n == "undefined"
  {
    match FindGenre(genres, id)
    case Some(g) => g.name
    case None => "undefined"
  }

  /** `getSectionTitle()`: a non-empty query wins, then a chosen genre (named
      "undefined" when the genre list does not have it, as when the list is
      still empty), then the active section. */
  function SectionTitle(genres: seq<Genre>, section: Section, selected: Option<int>, query: string): (t: string)
    ensures query != "" ==> t == "Search Results for \"" + query + "\""
    ensures query == "" && GenreChosen(selected) ==> t == GenreName(genres, selected.value) + " Movies"
    ensures query == "" && GenreChosen(selected) && FindGenre(genres, selected.value).None? ==>
      t == "undefined Movies"
    ensures query == "" && !GenreChosen(selected) ==> t == SectionName(section)
  {
    if query != "" then "Search Results for \"" + query + "\""
    else if GenreChosen(selected) then GenreName(genres, selected.value) + " Movies"
    else SectionName(section)
  }

  /** The heading always names what the dispatched loader fetches: the
      heading and the loader follow the same precedence. */
  lemma TitleFollowsLoader(genres: seq<Genre>, section: Section, selected: Option<int>, query: string)
    requires |genres| > 0
    ensures match Dispatch(genres, section, selected, query).value
      case Search(q) => SectionTitle(genres, section, selected, query) == "Search Results for \"" + q + "\""
      case ByGenre(g) => SectionTitle(genres, section, selected, query) == GenreName(genres, g) + " Movies"
      case BySection(s) => SectionTitle(genres, section, selected, query) == SectionName(s)
  {
  }

  // ---------------------------------------------------------------------------
  // The page's state
  // ---------------------------------------------------------------------------

  class Page {
    var activeSection: Section
    var genres: seq<Genre>
    var selectedGenre: Option<int>
    var searchQuery: string
    var movies: seq<Movie>

    /** The first render: popular movies, nothing loaded, nothing chosen. */
    constructor()
      ensures activeSection == Popular && genres == [] && selectedGenre.None?
      ensures searchQuery == "" && movies == []
    {
      activeSection := Popular;
      genres := [];
      selectedGenre := None;
      searchQuery := "";
      movies := [];
    }

    /** The loader the dispatch effect starts after a change, if any: the
        effect runs only when one of its dependencies changed. */
    function Rerun(section: Section, selected: Option<int>, query: string): (l: Option<Loader>)
      reads this
      ensures section == activeSection && selected == selectedGenre && query == searchQuery ==> l.None?
      ensures section != activeSection || selected != selectedGenre || query != searchQuery ==>
        l == Dispatch(genres, activeSection, selectedGenre, searchQuery)
    {
      if section == activeSection && selected == selectedGenre && query == searchQuery then None
      else Dispatch(genres, activeSection, selectedGenre, searchQuery)
    }

    /** `handleSearch(q)` */
    method HandleSearch(q: string) returns (load: Option<Loader>)
      modifies this`searchQuery, this`selectedGenre
      ensures searchQuery == q && selectedGenre.None?
      ensures load == Rerun(old(activeSection), old(selectedGenre), old(searchQuery))
      ensures |genres| > 0 && q != "" && (old(searchQuery) != q || old(selectedGenre).Some?) ==>
        load == Some(Search(q))
      ensures |genres| > 0 && q == "" && (old(searchQuery) != q || old(selectedGenre).Some?) ==>
        load == Some(BySection(activeSection))
    {
      var section, selected, query := activeSection, selectedGenre, searchQuery;
      searchQuery := q;
      selectedGenre := None;
      load := Rerun(section, selected, query);
    }

    /** `handleSectionChange(s)` */
    method HandleSectionChange(s: Section) returns (load: Option<Loader>)
      modifies this`activeSection, this`selectedGenre, this`searchQuery
      ensures activeSection == s && selectedGenre.None? && searchQuery == ""
      ensures load == Rerun(old(activeSection), old(selectedGenre), old(searchQuery))
      ensures |genres| > 0 && (old(activeSection) != s || old(selectedGenre).Some? || old(searchQuery) != "") ==>
        load == Some(BySection(s))
    {
      var section, selected, query := activeSection, selectedGenre, searchQuery;
      activeSection := s;
      selectedGenre := None;
      searchQuery := "";
      load := Rerun(section, selected, query);
    }

    /** `handleGenreFilter(g)` */
    method HandleGenreFilter(g: int) returns (load: Option<Loader>)
      modifies this`selectedGenre, this`searchQuery
      ensures selectedGenre == ToggledGenre(old(selectedGenre), g) && searchQuery == ""
      ensures load == Rerun(old(activeSection), old(selectedGenre), old(searchQuery))
      ensures |genres| > 0 && old(selectedGenre) != Some(g) && g != 0 ==> load == Some(ByGenre(g))
      ensures |genres| > 0 && old(selectedGenre) == Some(g) ==> load == Some(BySection(activeSection))
    {
      var section, selected, query := activeSection, selectedGenre, searchQuery;
      selectedGenre := if selectedGenre == Some(g) then None else Some(g);
      searchQuery := "";
      load := Rerun(section, selected, query);
    }

    /** `loadGenres()` with the genre request's outcome (None when it threw).
        A new genre list re-runs both effects: the one that loads popular
        movies when the list is non-empty, then the dispatch. */
    method LoadGenres(outcome: Option<seq<Genre>>) returns (loads: seq<Loader>)
      modifies this`genres
      ensures outcome.None? ==> genres == old(genres) && loads == []
      ensures outcome.Some? ==> genres == outcome.value
      ensures outcome.Some? && |outcome.value| == 0 ==> loads == []
      ensures outcome.Some? && |outcome.value| > 0 ==>
        loads == [BySection(Popular), Dispatch(genres, activeSection, selectedGenre, searchQuery).value]
    {
      loads := [];
      if outcome.None? {
        return;
      }
      genres := outcome.value;
      if |genres| > 0 {
        loads := loads + [BySection(Popular)];
      }
      var l := Dispatch(genres, activeSection, selectedGenre, searchQuery);
      if l.Some? {
        loads := loads + [l.value];
      }
    }

    /** The end of any loader, with the response's movies (None when the
        request threw): the movies shown with their genres resolved against
        the page's genre list, or none at all on failure. */
    method FinishLoad(response: Option<seq<Movie>>)
      modifies this`movies
      ensures response.None? ==> movies == []
      ensures response.Some? ==> movies == WithGenres(response.value, genres)
    {
      if response.None? {
        movies := [];
      } else {
        movies := WithGenres(response.value, genres);
      }
    }
  }
}
