/**
 * The home page: a hero carousel over the featured movies, category rows, and a
 * search box whose results replace the rows while a search is active.
 */
module Home {
  import opened Wrappers
  import opened Text
  import opened Selections
  import opened MovieTypes
  import opened Catalogue
  import CatalogueSeed
  import AdminDashboard

  /**
   * `!query.trim()`: the query is empty once surrounding white space is stripped,
   * that is, exactly when every character is white space.
   */
  predicate IsBlank(query: string): (b: bool)
    ensures b <==> forall i :: 0 <= i < |query| ==> IsSpace(query[i])
  {
    TrimEmptyIffBlank(query);
    Trim(query) == ""
  }

  // ---------------------------------------------------------------------------
  // The hero carousel
  // ---------------------------------------------------------------------------

  /** One tick of the carousel over n slides: the next index, wrapping to 0. */
  function HeroStep(i: nat, n: nat): (r: nat)
    requires n > 0
    ensures r < n
    ensures i < n - 1 ==> r == i + 1
    ensures i == n - 1 ==> r == 0
  {
    (i + 1) % n
  }

  /** The index after k ticks from i. */
  function HeroAfter(i: nat, n: nat, k: nat): nat
    requires n > 0
  {
    if k == 0 then i else HeroStep(HeroAfter(i, n, k - 1), n)
  }

  lemma MulAtLeast(d: int, n: int)
    requires d >= 1 && n > 0
    ensures d * n >= n
  {
    var k := d - 1;
    assert d * n == k * n + n;
    assert k * n >= 0;
  }

  /** The remainder is the one r in [0, n) with a == q * n + r. */
  lemma ModUnique(a: int, n: int, q: int, r: int)
    requires n > 0 && 0 <= r < n && a == q * n + r
    ensures a % n == r
  {
    var q' := a / n;
    var r' := a % n;
    assert a == q' * n + r';
    assert (q - q') * n == r' - r;
    if q > q' {
      MulAtLeast(q - q', n);
    } else if q < q' {
      MulAtLeast(q' - q, n);
    }
  }

  lemma ModSucc(a: nat, n: nat)
    requires n > 0
    ensures (a % n + 1) % n == (a + 1) % n
  {
    var q := a / n;
    var m := a % n;
    assert a == q * n + m;
    if m + 1 < n {
      ModUnique(a + 1, n, q, m + 1);
      ModUnique(m + 1, n, 0, m + 1);
    } else {
      assert a + 1 == (q + 1) * n + 0;
      ModUnique(a + 1, n, q + 1, 0);
      ModUnique(m + 1, n, 1, 0);
    }
  }

  /** k ticks from an index on the carousel move it k places round the cycle. */
  lemma {:induction false} HeroAfterIsRotation(i: nat, n: nat, k: nat)
    requires i < n
    ensures HeroAfter(i, n, k) == (i + k) % n
  {
    if k == 0 {
      ModUnique(i, n, 0, i);
    } else {
      HeroAfterIsRotation(i, n, k - 1);
      ModSucc(i + k - 1, n);
    }
  }

  /** n ticks bring the carousel back to the slide it started on. */
  lemma HeroCycle(i: nat, n: nat)
    requires i < n
    ensures HeroAfter(i, n, n) == i
  {
    HeroAfterIsRotation(i, n, n);
    ModUnique(i + n, n, 1, i);
  }

  /** The hero background: the backdrop when it is a non-empty string, else the poster. */
  function HeroImage(m: Movie): (r: string)
    ensures m.backdrop.Some? && m.backdrop.value != "" ==> r == m.backdrop.value
    ensures m.backdrop.None? || m.backdrop.value == "" ==> r == m.poster
  {
    if m.backdrop.Some? && m.backdrop.value != "" then m.backdrop.value else m.poster
  }

  /**
   * Saving an unchanged edit turns an absent backdrop into "", but the hero shows
   * the same image for the movie before and after.
   */
  lemma HeroImageAfterEdit(m: Movie, freshId: string)
    requires m.id != ""
    ensures HeroImage(AdminDashboard.SubmittedMovie(AdminDashboard.FormOf(m), Some(m), freshId)) == HeroImage(m)
  {
    AdminDashboard.EditRoundTrip(m, freshId);
  }

  // ---------------------------------------------------------------------------
  // The rows on the seed
  // ---------------------------------------------------------------------------

  /** There are three featured movies, so the carousel has three slides. */
  lemma FeaturedSlides()
    ensures |Featured(MockMovies())| == 3
  {
    CatalogueSeed.SeedFeatured();
  }

  /** The "Action" row: ids 1 and 4. */
  lemma ActionRow()
    ensures Ids(ByCategory(MockMovies(), "Action")) == ["1", "4"]
  {
    CatalogueSeed.LowerCategories();
    CatalogueSeed.ActionRowOfSix(TheDarkKnight, Inception, Interstellar, TheMatrix, PulpFiction, TheGodfather, "Action");
  }

  /** The "Sci-Fi" row: ids 2 and 3. */
  lemma SciFiRow()
    ensures Ids(ByCategory(MockMovies(), "Sci-Fi")) == ["2", "3"]
  {
    CatalogueSeed.LowerCategories();
    CatalogueSeed.SciFiRowOfSix(TheDarkKnight, Inception, Interstellar, TheMatrix, PulpFiction, TheGodfather, "Sci-Fi");
  }

  /** The "Drama" row: ids 5 and 6. */
  lemma DramaRow()
    ensures Ids(ByCategory(MockMovies(), "Drama")) == ["5", "6"]
  {
    CatalogueSeed.LowerCategories();
    CatalogueSeed.DramaRowOfSix(TheDarkKnight, Inception, Interstellar, TheMatrix, PulpFiction, TheGodfather, "Drama");
  }

  // ---------------------------------------------------------------------------
  // The page
  // ---------------------------------------------------------------------------

  class HomePage {
    /** The catalogue the page reads: the seed list. */
    const movies: seq<Movie>
    const featuredMovies: seq<Movie>
    var searchResults: seq<Movie>
    var isSearching: bool
    var currentHero: nat

    /** The hero index names a featured movie, and results are only held while searching. */
    ghost predicate Valid()
      reads this
    {
      && featuredMovies == Featured(movies)
      && currentHero < |featuredMovies|
      && (!isSearching ==> searchResults == [])
    }

    constructor ()
      ensures Valid() && movies == MockMovies()
      ensures searchResults == [] && !isSearching && currentHero == 0
    {
      FeaturedSlides();
      var seed := MockMovies();
      movies := seed;
      featuredMovies := Featured(seed);
      searchResults := [];
      isSearching := false;
      currentHero := 0;
    }

    /** The movie the hero section shows. */
    function CurrentFeatured(): (m: Movie)
      reads this
      requires Valid()
      ensures m in movies && m.featured
    {
      featuredMovies[currentHero]
    }

    /**
     * `handleSearch`: a blank query clears the results and leaves search mode; any
     * other query, untrimmed, is searched and its results shown.
     */
    method HandleSearch(query: string)
      requires Valid()
      modifies this
      ensures Valid() && currentHero == old(currentHero)
      ensures IsBlank(query) ==> searchResults == [] && !isSearching
      ensures !IsBlank(query) ==> searchResults == Search(movies, query) && isSearching
    {
      if Trim(query) != "" {
        searchResults := Search(movies, query);
        isSearching := true;
      } else {
        searchResults := [];
        isSearching := false;
      }
    }

    /** One carousel tick. */
    method AdvanceHero()
      requires Valid()
      modifies this
      ensures Valid()
      ensures currentHero == HeroStep(old(currentHero), |featuredMovies|)
      ensures searchResults == old(searchResults) && isSearching == old(isSearching)
    {
      currentHero := (currentHero + 1) % |featuredMovies|;
    }

    /** A click on dot `index`: there is one dot per featured movie. */
    method SelectHero(index: nat)
      requires Valid() && index < |featuredMovies|
      modifies this
      ensures Valid() && currentHero == index
      ensures searchResults == old(searchResults) && isSearching == old(isSearching)
    {
      currentHero := index;
    }
  }
}
