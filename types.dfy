/**
 * The records the application passes around: movie metadata and genres as
 * the movie-metadata service delivers them, and a collection row of the
 * relational store.
 */
module Types {
  import opened Js

  datatype Genre = Genre(id: int, name: string)

  /** A movie as listed by the metadata service. `genreIds` may be absent in a
      response; `genres` is filled in by the home page. */
  datatype Movie = Movie(
    id: int,
    title: string,
    overview: string,
    posterPath: Option<string>,
    backdropPath: Option<string>,
    releaseDate: string,
    voteAverage: real,
    voteCount: int,
    runtime: int,
    genreIds: Option<seq<int>>,
    genres: Option<seq<Genre>>)

  /** A row of the `collections` table. Timestamps are opaque strings. */
  datatype Collection = Collection(
    id: string,
    userId: string,
    name: string,
    description: Option<string>,
    isPublic: bool,
    createdAt: string,
    updatedAt: string)
}
