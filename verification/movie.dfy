/** The movie record shared by the catalogue, the home page and the admin editor. */
module MovieTypes {
  import opened Wrappers

  /**
   * One catalogue entry.  `backdrop` is optional in the source and stays optional;
   * `featured` and `trending` are optional flags that every reader treats as false
   * when absent, so they are plain booleans here.  `rating` is kept as an opaque
   * integer (it is only displayed and copied).
   */
  datatype Movie = Movie(
    id: string,
    title: string,
    poster: string,
    backdrop: Option<string>,
    description: string,
    year: int,
    rating: int,
    duration: string,
    genres: seq<string>,
    cast: seq<string>,
    director: string,
    streamingUrl: string,
    featured: bool,
    trending: bool,
    category: string)

  /** The ids of a list of movies, in order. */
  function Ids(movies: seq<Movie>): (r: seq<string>)
    ensures |r| == |movies|
    ensures forall i :: 0 <= i < |movies| ==> r[i] == movies[i].id
  {
    if movies == [] then [] else [movies[0].id] + Ids(movies[1..])
  }

  /** No two entries share an id. */
  predicate DistinctIds(movies: seq<Movie>) {
    forall i, j :: 0 <= i < j < |movies| ==> movies[i].id != movies[j].id
  }

  /** A list whose id list has no repeated element has distinct ids. */
  lemma DistinctByIds(movies: seq<Movie>, ids: seq<string>)
    requires Ids(movies) == ids
    requires forall i, j :: 0 <= i < j < |ids| ==> ids[i] != ids[j]
    ensures DistinctIds(movies)
  {
    forall i, j | 0 <= i < j < |movies|
      ensures movies[i].id != movies[j].id
    {
      assert ids[i] == movies[i].id && ids[j] == movies[j].id;
    }
  }
}
