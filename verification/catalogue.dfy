/**
 * The catalogue query layer: a fixed seed list of six movies and read-only queries
 * over a list of movies.  Every query is an order-preserving selection, so each one
 * is specified by `IsSelection` (all qualifying entries, only those, in order)
 * together with the membership condition spelled out.
 */
module Catalogue {
  import opened Wrappers
  import opened Text
  import opened Selections
  import opened MovieTypes

  // Fields of the seed entries that no query reads.
  const Poster1: string := "https://images.unsplash.com/photo-1526374965328-7f61d4dc18c5?w=400&h=600&fit=crop"
  const Backdrop1: string := "https://images.unsplash.com/photo-1526374965328-7f61d4dc18c5?w=1200&h=600&fit=crop"
  const Description1: string := "When the menace known as the Joker wreaks havoc and chaos on the people of Gotham, Batman must accept one of the greatest psychological and physical tests of his ability to fight injustice."
  const StreamingUrl1: string := "https://commondatastorage.googleapis.com/gtv-videos-bucket/sample/BigBuckBunny.mp4"
  const Poster2: string := "https://images.unsplash.com/photo-1500673922987-e212871fec22?w=400&h=600&fit=crop"
  const Backdrop2: string := "https://images.unsplash.com/photo-1500673922987-e212871fec22?w=1200&h=600&fit=crop"
  const Description2: string := "A thief who steals corporate secrets through the use of dream-sharing technology is given the inverse task of planting an idea into the mind of a C.E.O."
  const StreamingUrl2: string := "https://commondatastorage.googleapis.com/gtv-videos-bucket/sample/ElephantsDream.mp4"
  const Poster3: string := "https://images.unsplash.com/photo-1500375592092-40eb2168fd21?w=400&h=600&fit=crop"
  const Backdrop3: string := "https://images.unsplash.com/photo-1500375592092-40eb2168fd21?w=1200&h=600&fit=crop"
  const Description3: string := "A team of explorers travel through a wormhole in space in an attempt to ensure humanity's survival."
  const StreamingUrl3: string := "https://commondatastorage.googleapis.com/gtv-videos-bucket/sample/ForBiggerBlazes.mp4"
  const Poster4: string := "https://images.unsplash.com/photo-1649972904349-6e44c42644a7?w=400&h=600&fit=crop"
  const Backdrop4: string := "https://images.unsplash.com/photo-1649972904349-6e44c42644a7?w=1200&h=600&fit=crop"
  const Description4: string := "A computer programmer is led to fight an underground war against powerful computers who have constructed his entire reality with a system called the Matrix."
  const StreamingUrl4: string := "https://commondatastorage.googleapis.com/gtv-videos-bucket/sample/ForBiggerEscapes.mp4"
  const Poster5: string := "https://images.unsplash.com/photo-1526374965328-7f61d4dc18c5?w=400&h=600&fit=crop"
  const Description5: string := "The lives of two mob hitmen, a boxer, a gangster and his wife intertwine in four tales of violence and redemption."
  const StreamingUrl5: string := "https://commondatastorage.googleapis.com/gtv-videos-bucket/sample/ForBiggerFun.mp4"
  const Poster6: string := "https://images.unsplash.com/photo-1500673922987-e212871fec22?w=400&h=600&fit=crop"
  const Description6: string := "The aging patriarch of an organized crime dynasty transfers control of his clandestine empire to his reluctant son."
  const StreamingUrl6: string := "https://commondatastorage.googleapis.com/gtv-videos-bucket/sample/ForBiggerJoyrides.mp4"

  /** The six seed entries, in seed order. */
  const TheDarkKnight: Movie :=
    Movie("1", "The Dark Knight", Poster1, Some(Backdrop1), Description1,
      2008, 90, "2h 32m",
      ["Action", "Crime", "Drama"],
      ["Christian Bale", "Heath Ledger", "Aaron Eckhart"],
      "Christopher Nolan",
      StreamingUrl1,
      true, true, "Action")

  const Inception: Movie :=
    Movie("2", "Inception", Poster2, Some(Backdrop2), Description2,
      2010, 88, "2h 28m",
      ["Action", "Sci-Fi", "Thriller"],
      ["Leonardo DiCaprio", "Marion Cotillard", "Tom Hardy"],
      "Christopher Nolan",
      StreamingUrl2,
      true, false, "Sci-Fi")

  const Interstellar: Movie :=
    Movie("3", "Interstellar", Poster3, Some(Backdrop3), Description3,
      2014, 86, "2h 49m",
      ["Adventure", "Drama", "Sci-Fi"],
      ["Matthew McConaughey", "Anne Hathaway", "Jessica Chastain"],
      "Christopher Nolan",
      StreamingUrl3,
      false, true, "Sci-Fi")

  const TheMatrix: Movie :=
    Movie("4", "The Matrix", Poster4, Some(Backdrop4), Description4,
      1999, 87, "2h 16m",
      ["Action", "Sci-Fi"],
      ["Keanu Reeves", "Laurence Fishburne", "Carrie-Anne Moss"],
      "The Wachowskis",
      StreamingUrl4,
      false, false, "Action")

  const PulpFiction: Movie :=
    Movie("5", "Pulp Fiction", Poster5, None, Description5,
      1994, 89, "2h 34m",
      ["Crime", "Drama"],
      ["John Travolta", "Uma Thurman", "Samuel L. Jackson"],
      "Quentin Tarantino",
      StreamingUrl5,
      false, false, "Drama")

  const TheGodfather: Movie :=
    Movie("6", "The Godfather", Poster6, None, Description6,
      1972, 92, "2h 55m",
      ["Crime", "Drama"],
      ["Marlon Brando", "Al Pacino", "James Caan"],
      "Francis Ford Coppola",
      StreamingUrl6,
      true, false, "Drama")

  /** The seed list every page starts from. */
  function MockMovies(): (r: seq<Movie>)
    ensures |r| == 6
  {
      [TheDarkKnight, Inception, Interstellar, TheMatrix, PulpFiction, TheGodfather]
  }

  // ---------------------------------------------------------------------------
  // Tests the queries select by
  // ---------------------------------------------------------------------------

  /** The category equals `category` ignoring (ASCII) case. */
  predicate InCategory(m: Movie, category: string) {
    Lower(m.category) == Lower(category)
  }

  function CategoryTest(category: string): Movie -> bool {
    m => InCategory(m, category)
  }

  predicate IsFeatured(m: Movie) {
    m.featured
  }

  predicate IsTrending(m: Movie) {
    m.trending
  }

  /** `items.some(x => x.toLowerCase().includes(q))`, for an already lower-cased q. */
  predicate SomeContains(items: seq<string>, q: string) {
    items != [] && (Contains(Lower(items[0]), q) || SomeContains(items[1..], q))
  }

  lemma {:induction false} SomeContainsIff(items: seq<string>, q: string)
    ensures SomeContains(items, q) <==> exists i :: 0 <= i < |items| && Contains(Lower(items[i]), q)
  {
    if items != [] {
      SomeContainsIff(items[1..], q);
      if exists i :: 0 <= i < |items| && Contains(Lower(items[i]), q) {
        var i :| 0 <= i < |items| && Contains(Lower(items[i]), q);
        if i > 0 {
          assert items[1..][i - 1] == items[i];
        }
      }
    }
  }

  /**
   * The multi-field match of the search box: the lower-cased query occurs in the
   * title, in some genre, in some cast member or in the director, all lower-cased.
   * Every movie matches the empty query.
   */
  predicate MatchesQuery(m: Movie, query: string): (b: bool)
    ensures Lower(query) == "" ==> b
    ensures b <==> (
      || Contains(Lower(m.title), Lower(query))
      || (exists i :: 0 <= i < |m.genres| && Contains(Lower(m.genres[i]), Lower(query)))
      || (exists i :: 0 <= i < |m.cast| && Contains(Lower(m.cast[i]), Lower(query)))
      || Contains(Lower(m.director), Lower(query)))
  {
    SomeContainsIff(m.genres, Lower(query));
    SomeContainsIff(m.cast, Lower(query));
    ContainsEmpty(Lower(m.title));
    var q := Lower(query);
    Contains(Lower(m.title), q)
    || SomeContains(m.genres, q)
    || SomeContains(m.cast, q)
    || Contains(Lower(m.director), q)
  }

  function SearchTest(query: string): Movie -> bool {
    m => MatchesQuery(m, query)
  }

  /** `movie.genres.some(g => other.genres.includes(g))`: an exactly equal genre. */
  predicate SharesGenre(m: Movie, other: Movie) {
    exists i :: 0 <= i < |m.genres| && m.genres[i] in other.genres
  }

  predicate IsRelated(m: Movie, movie: Movie) {
    m.id != movie.id && SharesGenre(m, movie)
  }

  function RelatedTest(movie: Movie): Movie -> bool {
    m => IsRelated(m, movie)
  }

  // ---------------------------------------------------------------------------
  // Queries
  // ---------------------------------------------------------------------------

  /** `getMoviesByCategory`: the entries whose category equals `category` ignoring case. */
  function ByCategory(movies: seq<Movie>, category: string): (r: seq<Movie>)
    ensures IsSelection(r, movies, CategoryTest(category))
    ensures forall i :: 0 <= i < |r| ==> r[i] in movies && Lower(r[i].category) == Lower(category)
    ensures forall i :: 0 <= i < |movies| && Lower(movies[i].category) == Lower(category) ==> movies[i] in r
  {
    FilterMembers(movies, CategoryTest(category));
    Filter(movies, CategoryTest(category))
  }

  /** `getFeaturedMovies`: the entries whose featured flag is set. */
  function Featured(movies: seq<Movie>): (r: seq<Movie>)
    ensures IsSelection(r, movies, IsFeatured)
    ensures forall i :: 0 <= i < |r| ==> r[i] in movies && r[i].featured
    ensures forall i :: 0 <= i < |movies| && movies[i].featured ==> movies[i] in r
  {
    FilterMembers(movies, IsFeatured);
    Filter(movies, IsFeatured)
  }

  /** `getTrendingMovies`: the entries whose trending flag is set. */
  function Trending(movies: seq<Movie>): (r: seq<Movie>)
    ensures IsSelection(r, movies, IsTrending)
    ensures forall i :: 0 <= i < |r| ==> r[i] in movies && r[i].trending
    ensures forall i :: 0 <= i < |movies| && movies[i].trending ==> movies[i] in r
  {
    FilterMembers(movies, IsTrending);
    Filter(movies, IsTrending)
  }

  /** `searchMovies`: the entries matching the lower-cased query in any searched field. */
  function Search(movies: seq<Movie>, query: string): (r: seq<Movie>)
    ensures IsSelection(r, movies, SearchTest(query))
    ensures forall i :: 0 <= i < |r| ==> r[i] in movies && MatchesQuery(r[i], query)
    ensures forall i :: 0 <= i < |movies| && MatchesQuery(movies[i], query) ==> movies[i] in r
  {
    FilterMembers(movies, SearchTest(query));
    Filter(movies, SearchTest(query))
  }

  /** `getMovieById`: the first entry whose id is exactly `id`, if any. */
  function FindById(movies: seq<Movie>, id: string): (r: Option<Movie>)
    ensures r.Some? ==> r.value in movies && r.value.id == id
    ensures r.None? <==> forall i :: 0 <= i < |movies| ==> movies[i].id != id
  {
    if movies == [] then None
    else if movies[0].id == id then Some(movies[0])
    else FindById(movies[1..], id)
  }

  /** The default `limit` of `getRelatedMovies`. */
  const DefaultRelatedLimit: int := 4

  /**
   * `getRelatedMovies`: the entries other than `movie` (by id) sharing a genre with
   * it, in list order, cut by `slice(0, limit)`.
   */
  function Related(movies: seq<Movie>, movie: Movie, limit: int): (r: seq<Movie>)
    ensures limit >= 0 ==> |r| <= limit
    ensures forall i :: 0 <= i < |r| ==> r[i] in movies && r[i].id != movie.id && SharesGenre(r[i], movie)
    ensures |r| <= Count(movies, RelatedTest(movie))
    ensures r == Filter(movies, RelatedTest(movie))[..|r|]
    ensures limit >= 0 ==> |r| == if limit < Count(movies, RelatedTest(movie)) then limit else Count(movies, RelatedTest(movie))
    ensures limit < 0 ==> |r| == if Count(movies, RelatedTest(movie)) + limit < 0 then 0 else Count(movies, RelatedTest(movie)) + limit
  {
    FilterMembers(movies, RelatedTest(movie));
    Take(Filter(movies, RelatedTest(movie)), limit)
  }

  // ---------------------------------------------------------------------------
  // Properties of the queries over any list
  // ---------------------------------------------------------------------------

  /** Every string contains "", so the empty query matches the whole catalogue. */
  lemma SearchEmptyIsAll(movies: seq<Movie>)
    ensures Search(movies, "") == movies
  {
    forall i | 0 <= i < |movies|
      ensures SearchTest("")(movies[i])
    {
      ContainsEmpty(Lower(movies[i].title));
    }
    FilterAll(movies, SearchTest(""));
  }

  /** The query is compared in lower case, so its own case does not matter. */
  lemma SearchIgnoresQueryCase(movies: seq<Movie>, query: string)
    ensures Search(movies, query) == Search(movies, Lower(query))
  {
    LowerIdempotent(query);
    FilterCongruent(movies, SearchTest(query), SearchTest(Lower(query)));
  }

  /** The category is compared in lower case, so the argument's case does not matter. */
  lemma ByCategoryIgnoresCase(movies: seq<Movie>, category: string)
    ensures ByCategory(movies, category) == ByCategory(movies, Lower(category))
  {
    LowerIdempotent(category);
    FilterCongruent(movies, CategoryTest(category), CategoryTest(Lower(category)));
  }

  /** Searching within search results with the same query changes nothing. */
  lemma SearchIdempotent(movies: seq<Movie>, query: string)
    ensures Search(Search(movies, query), query) == Search(movies, query)
  {
    FilterIdempotent(movies, SearchTest(query));
  }

  /** `find` returns the first entry with the id: the one at the first matching index. */
  lemma {:induction false} FindByIdIsFirst(movies: seq<Movie>, id: string, k: nat)
    requires k < |movies| && movies[k].id == id
    requires forall j :: 0 <= j < k ==> movies[j].id != id
    ensures FindById(movies, id) == Some(movies[k])
  {
    if k > 0 {
      FindByIdIsFirst(movies[1..], id, k - 1);
    }
  }

  /** With distinct ids, the lookup finds a movie exactly when it is the one with that id. */
  lemma FindByIdDistinct(movies: seq<Movie>, id: string, m: Movie)
    requires DistinctIds(movies)
    ensures FindById(movies, id) == Some(m) <==> m in movies && m.id == id
  {
    if m in movies && m.id == id {
      var k :| 0 <= k < |movies| && movies[k] == m;
      FindByIdIsFirst(movies, id, k);
    }
  }

  // ---------------------------------------------------------------------------
  // Non-matches of the search
  // ---------------------------------------------------------------------------

  /** No item of a two-item list contains q once lower-cased. */
  lemma NoneOfTwo(a: string, b: string, q: string)
    requires !Contains(Lower(a), q) && !Contains(Lower(b), q)
    ensures !SomeContains([a, b], q)
  {
    assert [b][1..] == [];
    assert !SomeContains([b], q);
    assert [a, b][1..] == [b];
  }

  /** No item of a three-item list contains q once lower-cased. */
  lemma NoneOfThree(a: string, b: string, c: string, q: string)
    requires !Contains(Lower(a), q) && !Contains(Lower(b), q) && !Contains(Lower(c), q)
    ensures !SomeContains([a, b, c], q)
  {
    assert [a, b, c][1..] == [b, c];
    NoneOfTwo(b, c, q);
  }

  /** A movie none of whose searched fields contains the lower-cased query does not match it. */
  lemma MissesQuery(m: Movie, query: string)
    requires !Contains(Lower(m.title), Lower(query)) && !Contains(Lower(m.director), Lower(query))
    requires !SomeContains(m.genres, Lower(query)) && !SomeContains(m.cast, Lower(query))
    ensures !MatchesQuery(m, query)
  {
  }
}
