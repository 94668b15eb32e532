/**
 * Facts about individual strings of the seed list that the search needs.  Each
 * string is lower-cased and checked for "nolan" on its own, so that no proof has
 * to evaluate more than a few literals.
 */
module SeedText {
  import opened Text
  import opened Catalogue

  /** The director shared by the first three seed entries contains "nolan". */
  lemma NolanInDirector()
    ensures Lower("nolan") == "nolan"
    ensures Contains(Lower("Christopher Nolan"), "nolan")
  {
    assert Lower("Christopher Nolan") == "christopher " + "nolan";
    assert Contains("nolan", "nolan");
    ContainsInSuffix("christopher ", "nolan", "nolan");
  }

  // Generic forms of LacksLetter for the lists and two-word names below, so that
  // each seed string is only ever checked for the absence of one letter.

  /** Neither of two strings contains t, as each lacks a letter of it in both cases. */
  lemma TwoLackLetters(a: string, b: string, t: string, ca: char, cb: char)
    requires 'a' <= ca <= 'z' && ca in t && ca !in a && (ca as int - 32) as char !in a
    requires 'a' <= cb <= 'z' && cb in t && cb !in b && (cb as int - 32) as char !in b
    ensures !SomeContains([a, b], t)
  {
    LacksLetter(a, t, ca);
    LacksLetter(b, t, cb);
    NoneOfTwo(a, b, t);
  }

  /** None of three strings contains t, as each lacks a letter of it in both cases. */
  lemma ThreeLackLetters(a: string, b: string, c: string, t: string, ca: char, cb: char, cc: char)
    requires 'a' <= ca <= 'z' && ca in t && ca !in a && (ca as int - 32) as char !in a
    requires 'a' <= cb <= 'z' && cb in t && cb !in b && (cb as int - 32) as char !in b
    requires 'a' <= cc <= 'z' && cc in t && cc !in c && (cc as int - 32) as char !in c
    ensures !SomeContains([a, b, c], t)
  {
    LacksLetter(a, t, ca);
    LacksLetter(b, t, cb);
    LacksLetter(c, t, cc);
    NoneOfThree(a, b, c, t);
  }

  /**
   * Two words joined by a space do not contain a space-free t when each word lacks a
   * letter of t, even if the pair as a whole has every letter of it.
   */
  lemma WordsLackLetters(a: string, b: string, t: string, ca: char, cb: char)
    requires ' ' !in t
    requires 'a' <= ca <= 'z' && ca in t && ca !in a && (ca as int - 32) as char !in a
    requires 'a' <= cb <= 'z' && cb in t && cb !in b && (cb as int - 32) as char !in b
    ensures !Contains(Lower(a + " " + b), t)
  {
    LacksLetter(a, t, ca);
    LacksLetter(b, t, cb);
    NoMatchAcrossSpace(a, b, t);
  }

  /** Neither the title nor the director of The Matrix contains "nolan". */
  lemma MatrixNamesLackNolan()
    ensures !Contains(Lower("The Matrix"), "nolan")
    ensures !Contains(Lower("The Wachowskis"), "nolan")
  {
    LacksLetter("The Matrix", "nolan", 'o');
    LacksLetter("The Wachowskis", "nolan", 'l');
  }

  /** No genre of The Matrix contains "nolan". */
  lemma MatrixGenresLackNolan()
    ensures !SomeContains(["Action", "Sci-Fi"], "nolan")
  {
    TwoLackLetters("Action", "Sci-Fi", "nolan", 'l', 'o');
  }

  /** No cast member of The Matrix contains "nolan". */
  lemma MatrixCastLacksNolan()
    ensures !SomeContains(["Keanu Reeves", "Laurence Fishburne", "Carrie-Anne Moss"], "nolan")
  {
    ThreeLackLetters("Keanu Reeves", "Laurence Fishburne", "Carrie-Anne Moss", "nolan", 'o', 'o', 'l');
  }

  /** The title, the director and the genres of Pulp Fiction lack "nolan". */
  lemma PulpFictionNamesLackNolan()
    ensures !Contains(Lower("Pulp Fiction"), "nolan")
    ensures !Contains(Lower("Quentin Tarantino"), "nolan")
    ensures !SomeContains(["Crime", "Drama"], "nolan")
  {
    LacksLetter("Pulp Fiction", "nolan", 'a');
    LacksLetter("Quentin Tarantino", "nolan", 'l');
    TwoLackLetters("Crime", "Drama", "nolan", 'o', 'o');
  }

  /** In "Samuel L. Jackson" the only "o" comes too late for a match; "Uma Thurman" lacks "o". */
  lemma ThurmanAndJacksonLackNolan()
    ensures !Contains(Lower("Uma Thurman"), "nolan")
    ensures !Contains(Lower("Samuel L. Jackson"), "nolan")
  {
    LacksLetter("Uma Thurman", "nolan", 'o');
    LateLetter("Samuel L. Jackson", "nolan", 'o', 1);
  }

  /**
   * No member of Pulp Fiction's cast contains "nolan".  "John Travolta" has every
   * letter of it, so each word is checked on its own.
   */
  lemma PulpFictionCastLacksNolan()
    ensures !SomeContains(["John Travolta", "Uma Thurman", "Samuel L. Jackson"], "nolan")
  {
    WordsLackLetters("John", "Travolta", "nolan", 'l', 'n');
    assert "John" + " " + "Travolta" == "John Travolta";
    ThurmanAndJacksonLackNolan();
    NoneOfThree("John Travolta", "Uma Thurman", "Samuel L. Jackson", "nolan");
  }

  /**
   * The title, the director and the genres of The Godfather lack "nolan"; in
   * "Francis Ford Coppola" the only "l" comes too late for a match.
   */
  lemma GodfatherNamesLackNolan()
    ensures !Contains(Lower("The Godfather"), "nolan")
    ensures !Contains(Lower("Francis Ford Coppola"), "nolan")
    ensures !SomeContains(["Crime", "Drama"], "nolan")
  {
    LacksLetter("The Godfather", "nolan", 'n');
    LateLetter("Francis Ford Coppola", "nolan", 'l', 2);
    TwoLackLetters("Crime", "Drama", "nolan", 'o', 'o');
  }

  /** "Marlon" is too short to hold "nolan" after its first letter, and "Brando" lacks "l". */
  lemma BrandoLacksNolan()
    ensures !Contains(Lower("Marlon Brando"), "nolan")
  {
    assert !Contains(Lower("Marlon"), "nolan");
    LacksLetter("Brando", "nolan", 'l');
    assert "Marlon Brando" == "Marlon" + " " + "Brando";
    NoMatchAcrossSpace("Marlon", "Brando", "nolan");
  }

  /** "Al Pacino" is checked word by word, and "James Caan" lacks "o". */
  lemma PacinoAndCaanLackNolan()
    ensures !Contains(Lower("Al Pacino"), "nolan")
    ensures !Contains(Lower("James Caan"), "nolan")
  {
    WordsLackLetters("Al", "Pacino", "nolan", 'n', 'l');
    assert "Al" + " " + "Pacino" == "Al Pacino";
    LacksLetter("James Caan", "nolan", 'o');
  }

  /** No member of The Godfather's cast contains "nolan". */
  lemma GodfatherCastLacksNolan()
    ensures !SomeContains(["Marlon Brando", "Al Pacino", "James Caan"], "nolan")
  {
    BrandoLacksNolan();
    PacinoAndCaanLackNolan();
    NoneOfThree("Marlon Brando", "Al Pacino", "James Caan", "nolan");
  }
}

/**
 * What the queries return on the seed list: the lists the home page and the
 * detail page show when the catalogue is unchanged.
 */
module CatalogueSeed {
  import opened Wrappers
  import opened Text
  import opened Selections
  import opened MovieTypes
  import opened Catalogue
  import SeedText

  // Each query is first worked out on six arbitrary entries carrying the seed's
  // values in the fields it reads, then applied to the seed entries themselves.

  /** Six entries numbered "1" to "6" have those ids, pairwise distinct. */
  lemma IdsOfSix(a: Movie, b: Movie, c: Movie, d: Movie, e: Movie, f: Movie)
    requires a.id == "1" && b.id == "2" && c.id == "3" && d.id == "4" && e.id == "5" && f.id == "6"
    ensures Ids([a, b, c, d, e, f]) == ["1", "2", "3", "4", "5", "6"]
    ensures DistinctIds([a, b, c, d, e, f])
  {
    var ids := Ids([a, b, c, d, e, f]);
    assert |ids| == 6;
    assert ids[0] == "1" && ids[1] == "2" && ids[2] == "3" && ids[3] == "4" && ids[4] == "5" && ids[5] == "6";
    DistinctByIds([a, b, c, d, e, f], ["1", "2", "3", "4", "5", "6"]);
  }

  /** The seed ids are "1" to "6", pairwise distinct. */
  lemma SeedIds()
    ensures Ids(MockMovies()) == ["1", "2", "3", "4", "5", "6"]
    ensures DistinctIds(MockMovies())
  {
    IdsOfSix(TheDarkKnight, Inception, Interstellar, TheMatrix, PulpFiction, TheGodfather);
  }

  /** The featured selection on six entries flagged like the seed. */
  lemma FeaturedOfSix(a: Movie, b: Movie, c: Movie, d: Movie, e: Movie, f: Movie)
    requires a.featured && b.featured && !c.featured && !d.featured && !e.featured && f.featured
    ensures Featured([a, b, c, d, e, f]) == [a, b, f]
    ensures Ids(Featured([a, b, c, d, e, f])) == [a.id, b.id, f.id]
  {
    FilterSixMask(a, b, c, d, e, f, IsFeatured, true, true, false, false, false, true);
  }

  /** Featured: ids 1, 2, 6. */
  lemma SeedFeatured()
    ensures Ids(Featured(MockMovies())) == ["1", "2", "6"]
  {
    FeaturedOfSix(TheDarkKnight, Inception, Interstellar, TheMatrix, PulpFiction, TheGodfather);
  }

  /** The trending selection on six entries flagged like the seed. */
  lemma TrendingOfSix(a: Movie, b: Movie, c: Movie, d: Movie, e: Movie, f: Movie)
    requires a.trending && !b.trending && c.trending && !d.trending && !e.trending && !f.trending
    ensures Ids(Trending([a, b, c, d, e, f])) == [a.id, c.id]
  {
    FilterSixMask(a, b, c, d, e, f, IsTrending, true, false, true, false, false, false);
  }

  /** Trending: ids 1, 3. */
  lemma SeedTrending()
    ensures Ids(Trending(MockMovies())) == ["1", "3"]
  {
    TrendingOfSix(TheDarkKnight, Inception, Interstellar, TheMatrix, PulpFiction, TheGodfather);
  }

  lemma LowerCategories()
    ensures Lower("Action") == "action"
    ensures Lower("Sci-Fi") == "sci-fi"
    ensures Lower("Drama") == "drama"
  {
  }

  // The category rows on six entries whose categories read, in lower case, like
  // the seed's: the first and fourth are action, the second and third sci-fi, the
  // last two drama.

  lemma ActionRowOfSix(a: Movie, b: Movie, c: Movie, d: Movie, e: Movie, f: Movie, category: string)
    requires Lower(a.category) == "action" && Lower(b.category) == "sci-fi" && Lower(c.category) == "sci-fi"
    requires Lower(d.category) == "action" && Lower(e.category) == "drama" && Lower(f.category) == "drama"
    requires Lower(category) == "action"
    ensures Ids(ByCategory([a, b, c, d, e, f], category)) == [a.id, d.id]
  {
    FilterSixMask(a, b, c, d, e, f, CategoryTest(category), true, false, false, true, false, false);
  }

  lemma SciFiRowOfSix(a: Movie, b: Movie, c: Movie, d: Movie, e: Movie, f: Movie, category: string)
    requires Lower(a.category) == "action" && Lower(b.category) == "sci-fi" && Lower(c.category) == "sci-fi"
    requires Lower(d.category) == "action" && Lower(e.category) == "drama" && Lower(f.category) == "drama"
    requires Lower(category) == "sci-fi"
    ensures Ids(ByCategory([a, b, c, d, e, f], category)) == [b.id, c.id]
  {
    FilterSixMask(a, b, c, d, e, f, CategoryTest(category), false, true, true, false, false, false);
  }

  lemma DramaRowOfSix(a: Movie, b: Movie, c: Movie, d: Movie, e: Movie, f: Movie, category: string)
    requires Lower(a.category) == "action" && Lower(b.category) == "sci-fi" && Lower(c.category) == "sci-fi"
    requires Lower(d.category) == "action" && Lower(e.category) == "drama" && Lower(f.category) == "drama"
    requires Lower(category) == "drama"
    ensures Ids(ByCategory([a, b, c, d, e, f], category)) == [e.id, f.id]
  {
    FilterSixMask(a, b, c, d, e, f, CategoryTest(category), false, false, false, false, true, true);
  }

  /** The category "sci-fi", in another case than the seed's "Sci-Fi", gives ids 2, 3. */
  lemma SeedSciFi()
    ensures Ids(ByCategory(MockMovies(), "sci-fi")) == ["2", "3"]
  {
    LowerCategories();
    assert Lower("sci-fi") == "sci-fi";
    SciFiRowOfSix(TheDarkKnight, Inception, Interstellar, TheMatrix, PulpFiction, TheGodfather, "sci-fi");
  }

  lemma MatrixMissesNolan()
    ensures !MatchesQuery(TheMatrix, "nolan")
  {
    SeedText.NolanInDirector();
    SeedText.MatrixNamesLackNolan();
    SeedText.MatrixGenresLackNolan();
    SeedText.MatrixCastLacksNolan();
    MissesQuery(TheMatrix, "nolan");
  }

  lemma PulpFictionMissesNolan()
    ensures !MatchesQuery(PulpFiction, "nolan")
  {
    SeedText.NolanInDirector();
    SeedText.PulpFictionNamesLackNolan();
    SeedText.PulpFictionCastLacksNolan();
    MissesQuery(PulpFiction, "nolan");
  }

  lemma GodfatherMissesNolan()
    ensures !MatchesQuery(TheGodfather, "nolan")
  {
    SeedText.NolanInDirector();
    SeedText.GodfatherNamesLackNolan();
    SeedText.GodfatherCastLacksNolan();
    MissesQuery(TheGodfather, "nolan");
  }

  /** The first three entries match "nolan" through their director. */
  lemma NolanEntriesMatch()
    ensures MatchesQuery(TheDarkKnight, "nolan")
    ensures MatchesQuery(Inception, "nolan")
    ensures MatchesQuery(Interstellar, "nolan")
  {
    SeedText.NolanInDirector();
  }

  /** The search on six entries of which exactly the first three match. */
  lemma SearchFirstThreeOfSix(a: Movie, b: Movie, c: Movie, d: Movie, e: Movie, f: Movie, query: string)
    requires MatchesQuery(a, query) && MatchesQuery(b, query) && MatchesQuery(c, query)
    requires !MatchesQuery(d, query) && !MatchesQuery(e, query) && !MatchesQuery(f, query)
    ensures Ids(Search([a, b, c, d, e, f], query)) == [a.id, b.id, c.id]
  {
    FilterSixMask(a, b, c, d, e, f, SearchTest(query), true, true, true, false, false, false);
    assert Search([a, b, c, d, e, f], query) == [a, b, c];
  }

  /** Searching "nolan" finds the three entries directed by Christopher Nolan: ids 1, 2, 3. */
  lemma SeedSearchNolan()
    ensures Ids(Search(MockMovies(), "nolan")) == ["1", "2", "3"]
  {
    NolanEntriesMatch();
    MatrixMissesNolan();
    PulpFictionMissesNolan();
    GodfatherMissesNolan();
    SearchFirstThreeOfSix(TheDarkKnight, Inception, Interstellar, TheMatrix, PulpFiction, TheGodfather, "nolan");
  }

  /** Every other seed entry shares a genre with The Dark Knight and has another id. */
  lemma DarkKnightRelatedOutcomes()
    ensures IsRelated(Inception, TheDarkKnight) && IsRelated(Interstellar, TheDarkKnight)
    ensures IsRelated(TheMatrix, TheDarkKnight) && IsRelated(PulpFiction, TheDarkKnight)
    ensures IsRelated(TheGodfather, TheDarkKnight)
  {
    assert Inception.genres[0] == TheDarkKnight.genres[0];
    assert Interstellar.genres[1] == TheDarkKnight.genres[2];
    assert TheMatrix.genres[0] == TheDarkKnight.genres[0];
    assert PulpFiction.genres[0] == TheDarkKnight.genres[1];
    assert TheGodfather.genres[0] == TheDarkKnight.genres[1];
  }

  /**
   * The related list of the first of six entries, when all five others are related
   * to it: every one of them qualifies, and the default limit keeps the first four.
   */
  lemma RelatedOfSix(a: Movie, b: Movie, c: Movie, d: Movie, e: Movie, f: Movie)
    requires IsRelated(b, a) && IsRelated(c, a) && IsRelated(d, a) && IsRelated(e, a) && IsRelated(f, a)
    ensures Filter([a, b, c, d, e, f], RelatedTest(a)) == [b, c, d, e, f]
    ensures Related([a, b, c, d, e, f], a, DefaultRelatedLimit) == [b, c, d, e]
  {
    FilterSixMask(a, b, c, d, e, f, RelatedTest(a), false, true, true, true, true, true);
    TakePrefix([b, c, d, e, f], DefaultRelatedLimit);
    assert [b, c, d, e, f][..4] == [b, c, d, e];
  }

  /** Every other seed entry is related to The Dark Knight. */
  lemma DarkKnightRelatedAll()
    ensures Filter(MockMovies(), RelatedTest(TheDarkKnight))
         == [Inception, Interstellar, TheMatrix, PulpFiction, TheGodfather]
  {
    DarkKnightRelatedOutcomes();
    RelatedOfSix(TheDarkKnight, Inception, Interstellar, TheMatrix, PulpFiction, TheGodfather);
  }

  /**
   * The detail page of The Dark Knight lists Inception, Interstellar, The Matrix and
   * Pulp Fiction: every other seed entry shares one of its genres, and the default
   * limit keeps the first four.
   */
  lemma SeedRelated()
    ensures Related(MockMovies(), TheDarkKnight, DefaultRelatedLimit)
         == [Inception, Interstellar, TheMatrix, PulpFiction]
  {
    DarkKnightRelatedOutcomes();
    RelatedOfSix(TheDarkKnight, Inception, Interstellar, TheMatrix, PulpFiction, TheGodfather);
  }
}
