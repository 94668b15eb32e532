/**
 * The admin dashboard: a guarded page holding its own copy of the movie list,
 * which the admin edits through a form dialog (edit in place, add at the end)
 * and a delete button, with three counters above the list.
 */
module AdminDashboard {
  import opened Wrappers
  import opened Text
  import opened Selections
  import opened MovieTypes
  import opened Catalogue
  import opened Storage
  import opened AdminLogin
  import CatalogueSeed

  const LoginRoute: string := "/admin/login"
  const HomeRoute: string := "/"

  // ---------------------------------------------------------------------------
  // Session guard and logout
  // ---------------------------------------------------------------------------

  /** The guard run on entry: a redirect to the login page unless the session flag is set. */
  function Guard(items: map<string, string>): (r: Option<string>)
    ensures r.Some? <==> AdminKey !in items || items[AdminKey] == ""
    ensures r.Some? ==> r.value == LoginRoute
  {
    if Authenticated(items) then None else Some(LoginRoute)
  }

  /** `handleLogout`'s effect on the store: the session flag is gone, nothing else changes. */
  function SignOut(items: map<string, string>): (r: map<string, string>)
    ensures AdminKey !in r
    ensures forall k :: k != AdminKey ==> (k in r <==> k in items)
    ensures forall k :: k in r ==> r[k] == items[k]
  {
    items - {AdminKey}
  }

  /** After a successful login the guard lets the admin in. */
  lemma LoginOpensGuard(items: map<string, string>, c: Credentials)
    requires CredentialsMatch(c)
    ensures Guard(Attempt(items, c).items) == None
  {
  }

  /** A failed login leaves the guard's verdict as it was. */
  lemma FailedLoginKeepsGuard(items: map<string, string>, c: Credentials)
    requires !CredentialsMatch(c)
    ensures Guard(Attempt(items, c).items) == Guard(items)
  {
  }

  /** After logout the guard redirects, whatever the store held before. */
  lemma LogoutClosesGuard(items: map<string, string>)
    ensures Guard(SignOut(items)) == Some(LoginRoute)
  {
  }

  // ---------------------------------------------------------------------------
  // The form
  // ---------------------------------------------------------------------------

  /** The dialog's `formData`: every movie field except id and the two flags. */
  datatype MovieForm = MovieForm(
    title: string,
    poster: string,
    backdrop: string,
    description: string,
    year: int,
    rating: int,
    duration: string,
    genres: seq<string>,
    cast: seq<string>,
    director: string,
    streamingUrl: string,
    category: string)

  /**
   * The blank form, dated with the current year: every text field and both list
   * fields show empty, and the rating is 0.
   */
  function EmptyForm(currentYear: int): (r: MovieForm)
    ensures r.title == "" && r.poster == "" && r.backdrop == "" && r.description == ""
    ensures r.duration == "" && r.director == "" && r.streamingUrl == "" && r.category == ""
    ensures r.genres == [] && r.cast == []
    ensures JoinItems(r.genres) == "" && JoinItems(r.cast) == ""
    ensures r.year == currentYear && r.rating == 0
  {
    MovieForm("", "", "", "", currentYear, 0, "", [], [], "", "", "")
  }

  /**
   * The form `handleEdit` fills from a movie: every field but the id and the two
   * flags, with an absent backdrop shown as "".
   */
  function FormOf(m: Movie): (r: MovieForm)
    ensures r.backdrop == "" <==> m.backdrop.None? || m.backdrop == Some("")
    ensures m.backdrop.Some? ==> r.backdrop == m.backdrop.value
    ensures r.title == m.title && r.poster == m.poster && r.description == m.description
    ensures r.year == m.year && r.rating == m.rating && r.duration == m.duration
    ensures r.genres == m.genres && r.cast == m.cast && r.director == m.director
    ensures r.streamingUrl == m.streamingUrl && r.category == m.category
  {
    MovieForm(m.title, m.poster, m.backdrop.GetOr(""), m.description, m.year, m.rating,
      m.duration, m.genres, m.cast, m.director, m.streamingUrl, m.category)
  }

  /**
   * The movie `handleSubmit` builds.  Its id is the edited movie's id when that is a
   * non-empty string (`||` falls back on ""), otherwise the fresh id the caller
   * supplies; its flags are the edited movie's, false for a new movie; every other
   * field is the form's, so the form of the result is the form submitted.
   */
  function SubmittedMovie(form: MovieForm, editing: Option<Movie>, freshId: string): (r: Movie)
    ensures FormOf(r) == form
    ensures r.backdrop == Some(form.backdrop)
    ensures editing.Some? && editing.value.id != "" ==> r.id == editing.value.id
    ensures editing.None? || editing.value.id == "" ==> r.id == freshId
    ensures r.featured == (editing.Some? && editing.value.featured)
    ensures r.trending == (editing.Some? && editing.value.trending)
  {
    var id := if editing.Some? && editing.value.id != "" then editing.value.id else freshId;
    Movie(id, form.title, form.poster, Some(form.backdrop), form.description, form.year,
      form.rating, form.duration, form.genres, form.cast, form.director, form.streamingUrl,
      editing.Some? && editing.value.featured, editing.Some? && editing.value.trending,
      form.category)
  }

  /**
   * Opening a movie for editing and submitting without a change gives the movie
   * back, except that an absent backdrop comes back as the empty string.
   */
  lemma EditRoundTrip(m: Movie, freshId: string)
    requires m.id != ""
    ensures SubmittedMovie(FormOf(m), Some(m), freshId) == m.(backdrop := Some(m.backdrop.GetOr("")))
  {
  }

  // ---------------------------------------------------------------------------
  // The list transforms
  // ---------------------------------------------------------------------------

  /** The edit branch: every entry whose id is `id` becomes x; the rest stay where they were. */
  function ReplaceById(movies: seq<Movie>, id: string, x: Movie): (r: seq<Movie>)
    ensures |r| == |movies|
    ensures forall i :: 0 <= i < |r| ==> r[i] == if movies[i].id == id then x else movies[i]
  {
    if movies == [] then []
    else [if movies[0].id == id then x else movies[0]] + ReplaceById(movies[1..], id, x)
  }

  function KeepTest(id: string): Movie -> bool {
    (m: Movie) => m.id != id
  }

  /** `handleDelete`: the entries whose id differs from `id`, in order. */
  function RemoveById(movies: seq<Movie>, id: string): (r: seq<Movie>)
    ensures IsSelection(r, movies, KeepTest(id))
    ensures forall i :: 0 <= i < |r| ==> r[i] in movies && r[i].id != id
    ensures forall i :: 0 <= i < |movies| && movies[i].id != id ==> movies[i] in r
  {
    FilterMembers(movies, KeepTest(id));
    Filter(movies, KeepTest(id))
  }

  /** `handleSubmit`'s list update: replace by the edited movie's id, or append. */
  function ApplySubmit(movies: seq<Movie>, editing: Option<Movie>, data: Movie): (r: seq<Movie>)
    ensures editing.Some? ==> r == ReplaceById(movies, editing.value.id, data)
    ensures editing.None? ==> |r| == |movies| + 1 && r[..|movies|] == movies && r[|movies|] == data
  {
    if editing.Some? then ReplaceById(movies, editing.value.id, data) else movies + [data]
  }

  /** Replacing an id nobody has changes nothing. */
  lemma ReplaceAbsent(movies: seq<Movie>, id: string, x: Movie)
    requires forall i :: 0 <= i < |movies| ==> movies[i].id != id
    ensures ReplaceById(movies, id, x) == movies
  {
  }

  /** A replacement carrying the same id keeps the id list, so distinct ids stay distinct. */
  lemma ReplaceKeepsIds(movies: seq<Movie>, id: string, x: Movie)
    requires x.id == id
    ensures Ids(ReplaceById(movies, id, x)) == Ids(movies)
    ensures DistinctIds(movies) ==> DistinctIds(ReplaceById(movies, id, x))
  {
    var r := ReplaceById(movies, id, x);
    assert forall i :: 0 <= i < |r| ==> r[i].id == movies[i].id;
  }

  /** After an edit of a present id, looking that id up finds the new version. */
  lemma FindAfterReplace(movies: seq<Movie>, id: string, x: Movie)
    requires x.id == id
    requires exists i :: 0 <= i < |movies| && movies[i].id == id
    ensures FindById(ReplaceById(movies, id, x), id) == Some(x)
  {
    var r := ReplaceById(movies, id, x);
    var i :| 0 <= i < |movies| && movies[i].id == id;
    assert r[i] == x;
    var f := FindById(r, id);
    assert f.Some?;
    var k :| 0 <= k < |r| && r[k] == f.value;
  }

  /** A test that agrees on the replaced entries and the replacement keeps its count. */
  lemma {:induction false} ReplaceKeepsCount(movies: seq<Movie>, id: string, x: Movie, p: Movie -> bool)
    requires forall i :: 0 <= i < |movies| && movies[i].id == id ==> p(movies[i]) == p(x)
    ensures Count(ReplaceById(movies, id, x), p) == Count(movies, p)
  {
    if movies != [] {
      ReplaceKeepsCount(movies[1..], id, x, p);
      assert ReplaceById(movies, id, x)[1..] == ReplaceById(movies[1..], id, x);
    }
  }

  /** Deleting an id nobody has changes nothing. */
  lemma RemoveAbsent(movies: seq<Movie>, id: string)
    requires forall i :: 0 <= i < |movies| ==> movies[i].id != id
    ensures RemoveById(movies, id) == movies
  {
    FilterAll(movies, KeepTest(id));
  }

  /** Deleting twice is deleting once. */
  lemma RemoveIdempotent(movies: seq<Movie>, id: string)
    ensures RemoveById(RemoveById(movies, id), id) == RemoveById(movies, id)
  {
    FilterIdempotent(movies, KeepTest(id));
  }

  /** After a delete the id is gone. */
  lemma FindAfterRemove(movies: seq<Movie>, id: string)
    ensures FindById(RemoveById(movies, id), id) == None
  {
  }

  /** A subsequence of a list with distinct ids has distinct ids. */
  lemma {:induction false} SubsequenceKeepsDistinct(r: seq<Movie>, s: seq<Movie>)
    requires IsSubsequence(r, s) && DistinctIds(s)
    ensures DistinctIds(r)
    decreases |s|
  {
    if r != [] {
      if r[0] == s[0] {
        SubsequenceKeepsDistinct(r[1..], s[1..]);
        forall j | 0 < j < |r|
          ensures r[0].id != r[j].id
        {
          SubsequenceMember(r[1..], s[1..], j - 1);
          var k :| 0 <= k < |s[1..]| && s[1..][k] == r[1..][j - 1];
          assert s[k + 1] == r[j];
        }
        forall i, j | 0 <= i < j < |r|
          ensures r[i].id != r[j].id
        {
          if i > 0 {
            assert r[i] == r[1..][i - 1] && r[j] == r[1..][j - 1];
          }
        }
      } else {
        SubsequenceKeepsDistinct(r, s[1..]);
      }
    }
  }

  /** Every element of a subsequence sits somewhere in the list. */
  lemma {:induction false} SubsequenceMember(r: seq<Movie>, s: seq<Movie>, j: int)
    requires IsSubsequence(r, s) && 0 <= j < |r|
    ensures exists k :: 0 <= k < |s| && s[k] == r[j]
    decreases |s|
  {
    if r[0] == s[0] {
      if j == 0 {
        assert s[0] == r[0];
      } else {
        SubsequenceMember(r[1..], s[1..], j - 1);
        var k :| 0 <= k < |s[1..]| && s[1..][k] == r[1..][j - 1];
        assert s[k + 1] == r[j];
      }
    } else {
      SubsequenceMember(r, s[1..], j);
      var k :| 0 <= k < |s[1..]| && s[1..][k] == r[j];
      assert s[k + 1] == r[j];
    }
  }

  /** Deleting keeps distinct ids distinct. */
  lemma RemoveKeepsDistinct(movies: seq<Movie>, id: string)
    requires DistinctIds(movies)
    ensures DistinctIds(RemoveById(movies, id))
  {
    SubsequenceKeepsDistinct(RemoveById(movies, id), movies);
  }

  /** Adding a movie with a fresh id keeps ids distinct, and the new id finds the new movie. */
  lemma AddFresh(movies: seq<Movie>, x: Movie)
    requires DistinctIds(movies)
    requires forall i :: 0 <= i < |movies| ==> movies[i].id != x.id
    ensures DistinctIds(movies + [x])
    ensures FindById(movies + [x], x.id) == Some(x)
  {
    var r := movies + [x];
    forall i, j | 0 <= i < j < |r|
      ensures r[i].id != r[j].id
    {
      if j == |movies| {
        assert r[i] == movies[i] && r[j] == x;
      } else {
        assert r[i] == movies[i] && r[j] == movies[j];
      }
    }
    assert r[|movies|] == x;
    FindByIdDistinct(r, x.id, x);
  }

  /**
   * Editing a listed movie with distinct ids keeps the featured count: the one
   * entry replaced is the edited movie, and the submitted movie keeps its flag.
   */
  lemma EditKeepsFeaturedCount(movies: seq<Movie>, m: Movie, form: MovieForm, freshId: string)
    requires DistinctIds(movies) && m in movies
    ensures FeaturedCount(ApplySubmit(movies, Some(m), SubmittedMovie(form, Some(m), freshId)))
         == FeaturedCount(movies)
  {
    var x := SubmittedMovie(form, Some(m), freshId);
    forall i | 0 <= i < |movies| && movies[i].id == m.id
      ensures movies[i] == m
    {
      var k :| 0 <= k < |movies| && movies[k] == m;
    }
    ReplaceKeepsCount(movies, m.id, x, IsFeatured);
  }

  /**
   * Adding a movie never changes the featured counter: the new movie's flag is
   * false, and the counter filters the longer list piece by piece.
   */
  lemma AddKeepsFeaturedCount(movies: seq<Movie>, form: MovieForm, freshId: string)
    ensures FeaturedCount(ApplySubmit(movies, None, SubmittedMovie(form, None, freshId)))
         == FeaturedCount(movies)
  {
    var x := SubmittedMovie(form, None, freshId);
    FilterAppend(movies, [x], IsFeatured);
    assert Filter([x], IsFeatured) == [];
  }

  // ---------------------------------------------------------------------------
  // Counters
  // ---------------------------------------------------------------------------

  /** "Featured Movies": the length of the featured filter. */
  function FeaturedCount(movies: seq<Movie>): (n: nat)
    ensures n == Count(movies, IsFeatured)
    ensures n <= |movies|
  {
    |Filter(movies, IsFeatured)|
  }

  /** The set of category strings in the list, compared exactly. */
  function Categories(movies: seq<Movie>): (r: set<string>)
    ensures |r| <= |movies|
    ensures movies != [] ==> |r| >= 1
  {
    if movies == [] then {} else {movies[0].category} + Categories(movies[1..])
  }

  /** A category string is counted exactly when some entry has it. */
  lemma {:induction false} CategoriesMembers(movies: seq<Movie>, c: string)
    ensures c in Categories(movies) <==> exists i :: 0 <= i < |movies| && movies[i].category == c
  {
    if movies != [] {
      CategoriesMembers(movies[1..], c);
      if exists i :: 0 <= i < |movies| && movies[i].category == c {
        var i :| 0 <= i < |movies| && movies[i].category == c;
        if i > 0 {
          assert movies[1..][i - 1].category == c;
        }
      }
      if exists i :: 0 <= i < |movies[1..]| && movies[1..][i].category == c {
        var i :| 0 <= i < |movies[1..]| && movies[1..][i].category == c;
        assert movies[i + 1].category == c;
      }
    }
  }

  /** "Categories": how many distinct category strings the list has. */
  function CategoryCount(movies: seq<Movie>): (n: nat)
    ensures n <= |movies|
    ensures movies != [] ==> n >= 1
  {
    |Categories(movies)|
  }

  /** The categories of x followed by s. */
  lemma CategoriesCons(x: Movie, s: seq<Movie>)
    ensures Categories([x] + s) == {x.category} + Categories(s)
  {
    assert ([x] + s)[1..] == s;
  }

  /**
   * Six entries in the seed's categories (two "Action", two "Sci-Fi", two "Drama")
   * have exactly those three.
   */
  lemma CategoriesOfSix(a: Movie, b: Movie, c: Movie, d: Movie, e: Movie, f: Movie)
    requires a.category == "Action" && b.category == "Sci-Fi" && c.category == "Sci-Fi"
    requires d.category == "Action" && e.category == "Drama" && f.category == "Drama"
    ensures Categories([a, b, c, d, e, f]) == {"Action", "Sci-Fi", "Drama"}
    ensures CategoryCount([a, b, c, d, e, f]) == 3
  {
    CategoriesCons(f, []);
    assert [f] == [f] + [];
    assert Categories([f]) == {"Drama"};
    CategoriesCons(e, [f]);
    assert [e, f] == [e] + [f];
    assert Categories([e, f]) == {"Drama"};
    CategoriesCons(d, [e, f]);
    assert [d, e, f] == [d] + [e, f];
    assert Categories([d, e, f]) == {"Action", "Drama"};
    CategoriesCons(c, [d, e, f]);
    assert [c, d, e, f] == [c] + [d, e, f];
    assert Categories([c, d, e, f]) == {"Action", "Sci-Fi", "Drama"};
    CategoriesCons(b, [c, d, e, f]);
    assert [b, c, d, e, f] == [b] + [c, d, e, f];
    assert Categories([b, c, d, e, f]) == {"Action", "Sci-Fi", "Drama"};
    CategoriesCons(a, [b, c, d, e, f]);
    assert [a, b, c, d, e, f] == [a] + [b, c, d, e, f];
    assert |{"Action", "Sci-Fi", "Drama"}| == 3;
  }

  /** The seed uses three category strings. */
  lemma SeedCategories()
    ensures Categories(MockMovies()) == {"Action", "Sci-Fi", "Drama"}
    ensures CategoryCount(MockMovies()) == 3
  {
    CategoriesOfSix(TheDarkKnight, Inception, Interstellar, TheMatrix, PulpFiction, TheGodfather);
  }

  /** On the seed the counters read 6, 3 and 3. */
  lemma SeedStats()
    ensures |MockMovies()| == 6
    ensures FeaturedCount(MockMovies()) == 3
    ensures CategoryCount(MockMovies()) == 3
  {
    CatalogueSeed.SeedFeatured();
    SeedCategories();
  }

  // ---------------------------------------------------------------------------
  // The page
  // ---------------------------------------------------------------------------

  class Dashboard {
    const storage: LocalStorage
    var movies: seq<Movie>
    var isDialogOpen: bool
    var editingMovie: Option<Movie>
    var form: MovieForm

    /** The page starts from the seed list with a blank form and a closed dialog. */
    constructor (storage: LocalStorage, currentYear: int)
      ensures this.storage == storage
      ensures movies == MockMovies() && !isDialogOpen && editingMovie == None
      ensures form == EmptyForm(currentYear)
    {
      this.storage := storage;
      movies := MockMovies();
      isDialogOpen := false;
      editingMovie := None;
      form := EmptyForm(currentYear);
    }

    /** The effect on entry: where to redirect, if anywhere.  Nothing changes. */
    method CheckAccess() returns (redirect: Option<string>)
      ensures redirect == Guard(storage.items)
    {
      var flag := storage.GetItem(AdminKey);
      if flag.None? || flag.value == "" {
        redirect := Some(LoginRoute);
      } else {
        redirect := None;
      }
    }

    /** `handleLogout`: drop the session flag and go home; the guard then redirects. */
    method Logout() returns (route: string)
      modifies storage
      ensures storage.items == SignOut(old(storage.items))
      ensures Guard(storage.items) == Some(LoginRoute)
      ensures route == HomeRoute
    {
      storage.RemoveItem(AdminKey);
      route := HomeRoute;
    }

    /** `resetForm`: a blank form and nothing being edited. */
    method ResetForm(currentYear: int)
      modifies this
      ensures form == EmptyForm(currentYear) && editingMovie == None
      ensures movies == old(movies) && isDialogOpen == old(isDialogOpen)
    {
      form := EmptyForm(currentYear);
      editingMovie := None;
    }

    /** The "Add Movie" button: reset the form, and the dialog opens. */
    method StartAdd(currentYear: int)
      modifies this
      ensures form == EmptyForm(currentYear) && editingMovie == None && isDialogOpen
      ensures movies == old(movies)
    {
      ResetForm(currentYear);
      isDialogOpen := true;
    }

    /** The dialog closing (or opening) by itself, without a submission. */
    method SetDialogOpen(open: bool)
      modifies this
      ensures isDialogOpen == open
      ensures movies == old(movies) && editingMovie == old(editingMovie) && form == old(form)
    {
      isDialogOpen := open;
    }

    /** `handleEdit`: remember the movie, fill the form from it, open the dialog. */
    method Edit(m: Movie)
      modifies this
      ensures editingMovie == Some(m) && form == FormOf(m) && isDialogOpen
      ensures movies == old(movies)
    {
      editingMovie := Some(m);
      form := FormOf(m);
      isDialogOpen := true;
    }

    /**
     * `handleSubmit`: build the movie from the form, replace the edited id or
     * append, then reset the form and close the dialog.
     */
    method Submit(freshId: string, currentYear: int)
      modifies this
      ensures movies == ApplySubmit(old(movies), old(editingMovie),
                                    SubmittedMovie(old(form), old(editingMovie), freshId))
      ensures form == EmptyForm(currentYear) && editingMovie == None && !isDialogOpen
    {
      var data := SubmittedMovie(form, editingMovie, freshId);
      if editingMovie.Some? {
        movies := ReplaceById(movies, editingMovie.value.id, data);
      } else {
        movies := movies + [data];
      }
      ResetForm(currentYear);
      isDialogOpen := false;
    }

    /** `handleDelete`: every entry with this id leaves the list. */
    method Delete(id: string)
      modifies this
      ensures movies == RemoveById(old(movies), id)
      ensures isDialogOpen == old(isDialogOpen) && editingMovie == old(editingMovie) && form == old(form)
    {
      movies := RemoveById(movies, id);
    }

    /** The cast box shows the cast joined with ", ". */
    function CastText(): string
      reads this
    {
      JoinItems(form.cast)
    }

    /** The genres box shows the genres joined with ", ". */
    function GenresText(): string
      reads this
    {
      JoinItems(form.genres)
    }

    /** Typing into the cast box splits the text on ", "; the box then shows the text typed. */
    method SetCastText(text: string)
      modifies this
      ensures form == old(form).(cast := SplitItems(text))
      ensures CastText() == text
      ensures movies == old(movies) && isDialogOpen == old(isDialogOpen) && editingMovie == old(editingMovie)
    {
      form := form.(cast := SplitItems(text));
      JoinSplit(text);
    }

    /** Typing into the genres box splits the text on ", "; the box then shows the text typed. */
    method SetGenresText(text: string)
      modifies this
      ensures form == old(form).(genres := SplitItems(text))
      ensures GenresText() == text
      ensures movies == old(movies) && isDialogOpen == old(isDialogOpen) && editingMovie == old(editingMovie)
    {
      form := form.(genres := SplitItems(text));
      JoinSplit(text);
    }
  }
}
