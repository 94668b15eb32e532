# moviezone — a Dafny model of the catalogue, the admin pages and the home page

moviezone is a small streaming-catalogue web app. This project models the part of it that
holds logic:

- **Catalogue queries** (`src/data/movies.ts`). A seed list of six movies and six read-only
  queries over it:
  - by category, ignoring case;
  - featured and trending;
  - a multi-field search ignoring case;
  - lookup by id;
  - related movies.

  Each query is a pure function. The source queries always close over the seed, but here the
  movie list is an explicit parameter. Each query's contract states exactly which movies it
  keeps and that they stay in list order (`Selections.IsSelection`). Separate lemmas evaluate
  the queries on the seed itself.
- **The admin login page** (`src/pages/AdminLogin.tsx`). A form whose delayed check compares
  the credentials with one fixed account. On a match it writes the session flag into
  `localStorage`.
- **The admin dashboard** (`src/pages/AdminDashboard.tsx`). A guarded page holding its own
  copy of the list:
  - edit in place, add at the end and delete by id;
  - three counters;
  - the ", "-joined cast and genre fields of the form;
  - logout.
- **The home page** (`src/pages/Index.tsx`). The search dispatcher, the hero carousel's tick
  and dot selection, and the category rows.

Pages whose handlers update state step by step are classes:

- `AdminLogin.LoginPage`
- `AdminDashboard.Dashboard`
- `Home.HomePage`
- `Storage.LocalStorage`

Each of their methods states the whole new state in terms of pure functions (`Attempt`,
`ApplySubmit`, `RemoveById`, `Guard`, `SignOut`, `Search`, `HeroStep`). Lemmas prove the
promised properties about those functions.

A navigation is returned as its route string. The timers are not modelled; the bodies of
their callbacks are separate steps:

- `LoginPage.CompleteSubmit` for the login check;
- `HomePage.AdvanceHero` for the carousel tick.

The source's fallback `editingMovie?.id || Date.now().toString()` is modelled as written. An
edited movie whose id is the empty string therefore receives the fresh id
(`SubmittedMovie`).

Ratings are integers in tenths, so the seed's 9.0 is 90. A rating is only copied, never
computed.

## Model

| member | source | states |
|---|---|---|
| MovieTypes.Movie | src/types/movie.ts:2-18 | the movie record: optional backdrop as Option, the optional flags as booleans that are false when absent, rating as integer tenths |
| MovieTypes.Ids | src/types/movie.ts:2-18 | the id list has one entry per movie, the i-th being the i-th movie's id |
| Catalogue.MockMovies | src/data/movies.ts:4-98 | the seed list of six movies (its ids, flags, categories and query results are proved in CatalogueSeed) |
| Catalogue.MatchesQuery | src/data/movies.ts:116-121 | a movie matches iff the lower-cased query occurs in its lower-cased title or director or in some lower-cased genre or cast member; every movie matches a query that lower-cases to "" |
| Catalogue.ByCategory | src/data/movies.ts:100-104 | the result is the subsequence of movies whose lower-cased category equals the lower-cased argument, in list order; every such movie is in it and nothing else is |
| Catalogue.Featured | src/data/movies.ts:106-108 | exactly the movies whose featured flag is set, in list order; an absent flag counts as false |
| Catalogue.Trending | src/data/movies.ts:110-112 | exactly the movies whose trending flag is set, in list order |
| Catalogue.Search | src/data/movies.ts:114-122 | exactly the movies whose lower-cased title, some genre, some cast member or director contains the lower-cased query, in list order |
| Catalogue.SomeContainsIff | src/data/movies.ts:118-119 | the `some` over genres or cast holds iff some item, lower-cased, contains the query |
| Catalogue.FindById | src/data/movies.ts:124-126 | a found movie is in the list with exactly that id; nothing is found iff no movie has the id |
| Catalogue.FindByIdIsFirst | src/data/movies.ts:124-126 | the lookup returns the movie at the first index carrying the id |
| Catalogue.FindByIdDistinct | src/data/movies.ts:124-126 | with pairwise distinct ids, the lookup yields m iff m is in the list and has that id |
| Catalogue.Related | src/data/movies.ts:128-132 | every result is another movie (by id) sharing an exactly-equal genre; the result is the first min(limit, number qualifying) qualifying movies in list order, so at most `limit`; a negative `limit` drops that many qualifying movies from the end, as `slice(0, limit)` does |
| Catalogue.SearchEmptyIsAll | src/data/movies.ts:114-122 | the empty query returns the whole list, since every string contains "" |
| Catalogue.SearchIgnoresQueryCase | src/data/movies.ts:115 | searching for a query and for its lower-cased form give the same result |
| Catalogue.ByCategoryIgnoresCase | src/data/movies.ts:101-103 | the case of the category argument does not change the result |
| Catalogue.SearchIdempotent | src/data/movies.ts:114-122 | searching the results again with the same query changes nothing |
| Selections.Filter | src/data/movies.ts:101 | the result is an order-preserving subsequence holding exactly the elements that pass the test, with multiplicity |
| Selections.FilterMembers | src/data/movies.ts:101 | every result element is in the list and passes; every passing list element is in the result |
| Selections.SelectionIsFilter | src/data/movies.ts:101 | any order-preserving selection of exactly the passing elements equals the filter, so the query contracts determine their results |
| Selections.SubsequenceBound | src/data/movies.ts:130-131 | a subsequence of passing elements is no longer than the number of passing elements |
| Selections.FilterAll | src/data/movies.ts:114-121 | filtering with a test every element passes returns the list unchanged |
| Selections.FilterIdempotent | src/data/movies.ts:101 | filtering twice with the same test equals filtering once |
| Selections.FilterAppend | src/pages/AdminDashboard.tsx:107 | filtering distributes over concatenation; AddKeepsFeaturedCount applies it to the featured counter over the list an add extends |
| Selections.FilterCongruent | src/data/movies.ts:115 | two tests agreeing on every element select the same subsequence |
| Selections.SliceEnd | src/data/movies.ts:131 | the end index `slice(0, end)` uses: min(end, n) for a non-negative end, n + end clamped at 0 for a negative one |
| Selections.Take | src/data/movies.ts:131 | `slice(0, end)` is the prefix of the length SliceEnd gives |
| Selections.TakePrefix | src/data/movies.ts:131 | for 0 <= end <= n, the slice is the first `end` elements |
| Text.Lower | src/data/movies.ts:115 | lower-casing keeps the length and leaves no upper-case letter |
| Text.LowerIdempotent | src/data/movies.ts:115 | lower-casing twice is lower-casing once |
| Text.Contains | src/data/movies.ts:117 | `includes`: a string contains only patterns no longer than itself (ContainsIffOccurs gives the positional meaning) |
| Text.ContainsIffOccurs | src/data/movies.ts:117 | `includes` holds iff the pattern occurs at some index |
| Text.ContainsEmpty | src/data/movies.ts:117 | every string includes the empty string |
| Text.Trim | src/pages/Index.tsx:31 | the trimmed string is a slice `s[a..b]` of the input that removes only white space before `a` and after `b`, and has no white space at either end |
| Text.TrimEmptyIffBlank | src/pages/Index.tsx:31 | the trimmed string is empty iff every character is white space |
| Text.JoinItems | src/pages/AdminDashboard.tsx:323 | `join(', ')`: the empty list shows as "" and a one-item list as that item; JoinSplit and SplitJoin are its round trips with SplitItems |
| Text.SplitItems | src/pages/AdminDashboard.tsx:324 | `split(', ')` always yields at least one field |
| Text.JoinSplit | src/pages/AdminDashboard.tsx:323-324 | joining the fields of a split text with ", " gives the text back |
| Text.SplitJoin | src/pages/AdminDashboard.tsx:323-324 | splitting the ", "-join of a non-empty list whose items contain no ", " gives the list back |
| Text.SplitJoinEmpty | src/pages/AdminDashboard.tsx:334-335 | an empty list joins to "" and comes back as [""] |
| SeedText.NolanInDirector | src/data/movies.ts:16 | "Christopher Nolan" contains "nolan" once lower-cased |
| CatalogueSeed.IdsOfSix | src/data/movies.ts:4-98 | six movies with ids "1" to "6" in order have pairwise distinct ids |
| CatalogueSeed.SeedIds | src/data/movies.ts:4-98 | the seed ids are "1" to "6" and pairwise distinct |
| CatalogueSeed.FeaturedOfSix | src/data/movies.ts:106-108 | with the seed's flags, the featured movies are the first, second and sixth |
| CatalogueSeed.SeedFeatured | src/data/movies.ts:106-108 | the featured ids on the seed are 1, 2, 6 |
| CatalogueSeed.TrendingOfSix | src/data/movies.ts:110-112 | with the seed's flags, the trending movies are the first and third |
| CatalogueSeed.SeedTrending | src/data/movies.ts:110-112 | the trending ids on the seed are 1, 3 |
| CatalogueSeed.ActionRowOfSix | src/data/movies.ts:100-104 | with the seed's categories, the "action" row is the first and fourth movie |
| CatalogueSeed.SciFiRowOfSix | src/data/movies.ts:100-104 | with the seed's categories, the "sci-fi" row is the second and third movie |
| CatalogueSeed.DramaRowOfSix | src/data/movies.ts:100-104 | with the seed's categories, the "drama" row is the fifth and sixth movie |
| CatalogueSeed.SeedSciFi | src/data/movies.ts:100-104 | category "sci-fi" gives ids 2, 3 on the seed |
| CatalogueSeed.NolanEntriesMatch | src/data/movies.ts:114-122 | the first three seed movies match "nolan" |
| CatalogueSeed.MatrixMissesNolan | src/data/movies.ts:55-69 | The Matrix does not match "nolan" in any searched field |
| CatalogueSeed.PulpFictionMissesNolan | src/data/movies.ts:70-83 | Pulp Fiction does not match "nolan" |
| CatalogueSeed.GodfatherMissesNolan | src/data/movies.ts:84-98 | The Godfather does not match "nolan" |
| CatalogueSeed.SearchFirstThreeOfSix | src/data/movies.ts:114-122 | when exactly the first three of six movies match, the search returns their ids in order |
| CatalogueSeed.SeedSearchNolan | src/data/movies.ts:114-122 | searching "nolan" gives ids 1, 2, 3 on the seed |
| CatalogueSeed.DarkKnightRelatedOutcomes | src/data/movies.ts:128-131 | every other seed movie shares a genre with The Dark Knight |
| CatalogueSeed.RelatedOfSix | src/data/movies.ts:128-132 | when the five others all qualify, the related list at the default limit 4 is the second to fifth movie |
| CatalogueSeed.DarkKnightRelatedAll | src/data/movies.ts:128-130 | all five other seed movies are related to The Dark Knight, in seed order |
| CatalogueSeed.SeedRelated | src/data/movies.ts:128-132 | The Dark Knight's related movies at the default limit are Inception, Interstellar, The Matrix and Pulp Fiction |
| Storage.Authenticated | src/pages/AdminDashboard.tsx:38-39 | the session is open only when the flag key is present, never on an empty store, and always when it holds "authenticated" |
| Storage.LocalStorage.GetItem | src/pages/AdminDashboard.tsx:38 | `getItem` yields the stored value, or nothing for a key not present |
| Storage.LocalStorage.SetItem | src/pages/AdminLogin.tsx:32 | `setItem` stores the value under the key and changes no other key |
| Storage.LocalStorage.RemoveItem | src/pages/AdminDashboard.tsx:45 | `removeItem` drops the key and changes no other key |
| AdminLogin.CredentialsMatch | src/pages/AdminLogin.tsx:17-30 | exactly one pair matches: username "admin" and password "moviezone2024", compared case-sensitively |
| AdminLogin.Attempt | src/pages/AdminLogin.tsx:28-44 | a route to the dashboard is produced iff the credentials match; a match stores exactly "authenticated" under the flag key and nothing else, a failure leaves the store unchanged; the session is then open iff it matched or was open before |
| AdminLogin.FailedAttemptsChangeNothing | src/pages/AdminLogin.tsx:38-44 | any number of failed submissions leaves the store as it was (there is no attempt counter) |
| AdminLogin.AttemptsAuthenticate | src/pages/AdminLogin.tsx:28-44 | after a series of submissions the session is open iff it was open before or some submission matched |
| AdminLogin.LoginPage.constructor | src/pages/AdminLogin.tsx:11-12 | the form starts empty and not loading, with no check pending |
| AdminLogin.LoginPage.SetUsername | src/pages/AdminLogin.tsx:80 | only the username changes |
| AdminLogin.LoginPage.SetPassword | src/pages/AdminLogin.tsx:96 | only the password changes |
| AdminLogin.LoginPage.Submit | src/pages/AdminLogin.tsx:22-27 | submitting starts loading, which disables the button, and captures the current credentials for the delayed check |
| AdminLogin.LoginPage.CompleteSubmit | src/pages/AdminLogin.tsx:27-46 | the delayed check leaves the store and route that Attempt gives for the captured credentials, and stops loading in both branches |
| AdminDashboard.Guard | src/pages/AdminDashboard.tsx:37-42 | redirects to /admin/login iff the flag is absent or the empty string |
| AdminDashboard.SignOut | src/pages/AdminDashboard.tsx:44-45 | the flag is gone and every other key keeps its value |
| AdminDashboard.LoginOpensGuard | src/pages/AdminLogin.tsx:28-32 | after a matching login the dashboard guard does not redirect |
| AdminDashboard.FailedLoginKeepsGuard | src/pages/AdminLogin.tsx:38-44 | a failed login leaves the guard's verdict unchanged |
| AdminDashboard.LogoutClosesGuard | src/pages/AdminDashboard.tsx:44-45 | after logout the guard redirects to the login page |
| AdminDashboard.EmptyForm | src/pages/AdminDashboard.tsx:53-69 | the blank form: every text field empty, cast and genres the empty list (shown as ""), rating 0 and the current year |
| AdminDashboard.FormOf | src/pages/AdminDashboard.tsx:71-87 | the edit form copies every field but the id and flags; its backdrop is "" exactly when the movie's is absent or "" and the movie's value otherwise |
| AdminDashboard.SubmittedMovie | src/pages/AdminDashboard.tsx:93-98 | the built movie carries every form field, its backdrop being the form's string; it keeps the edited movie's id and flags, and a new movie has the fresh id with both flags false |
| AdminDashboard.EditRoundTrip | src/pages/AdminDashboard.tsx:71-98 | opening a movie for editing and submitting without changes gives it back, except that an absent backdrop becomes "" |
| AdminDashboard.ReplaceById | src/pages/AdminDashboard.tsx:100-101 | same length; every entry with the id becomes the new movie, every other keeps its value and position |
| AdminDashboard.RemoveById | src/pages/AdminDashboard.tsx:118-120 | the result is the order-preserving subsequence of entries whose id differs, and every such entry is kept |
| AdminDashboard.ApplySubmit | src/pages/AdminDashboard.tsx:99-108 | editing replaces by the edited id; adding appends, keeping the old list as prefix and growing it by one |
| AdminDashboard.ReplaceAbsent | src/pages/AdminDashboard.tsx:100-101 | replacing an id nobody has changes nothing |
| AdminDashboard.ReplaceKeepsIds | src/pages/AdminDashboard.tsx:100-101 | a replacement with the same id keeps the id list, hence distinctness |
| AdminDashboard.FindAfterReplace | src/pages/AdminDashboard.tsx:100-101 | after an edit, looking up the id finds the new movie |
| AdminDashboard.ReplaceKeepsCount | src/pages/AdminDashboard.tsx:100-101 | a replacement agreeing with the old entries on a test keeps the number of movies passing it |
| AdminDashboard.RemoveAbsent | src/pages/AdminDashboard.tsx:118-120 | deleting an absent id changes nothing |
| AdminDashboard.RemoveIdempotent | src/pages/AdminDashboard.tsx:118-120 | deleting twice equals deleting once |
| AdminDashboard.FindAfterRemove | src/pages/AdminDashboard.tsx:118-120 | after a delete the id is no longer found |
| AdminDashboard.SubsequenceKeepsDistinct | src/pages/AdminDashboard.tsx:120 | a subsequence of a list with distinct ids has distinct ids |
| AdminDashboard.RemoveKeepsDistinct | src/pages/AdminDashboard.tsx:118-120 | deleting keeps ids distinct |
| AdminDashboard.AddFresh | src/pages/AdminDashboard.tsx:106-107 | appending a movie with an unused id keeps ids distinct and makes it findable |
| AdminDashboard.AddKeepsFeaturedCount | src/pages/AdminDashboard.tsx:96-107 | an add appends a movie whose flag is false, so the featured counter stays as it was |
| AdminDashboard.EditKeepsFeaturedCount | src/pages/AdminDashboard.tsx:96-101 | with distinct ids, editing a listed movie never changes the featured counter, since the edit keeps the flags (with a repeated id, every entry carrying it is overwritten, so the counter can change) |
| AdminDashboard.FeaturedCount | src/pages/AdminDashboard.tsx:170 | the counter is the number of movies with the flag set, at most the total |
| AdminDashboard.Categories | src/pages/AdminDashboard.tsx:182 | the set of categories has at most one element per movie and is non-empty for a non-empty list |
| AdminDashboard.CategoriesMembers | src/pages/AdminDashboard.tsx:182 | a string is a category iff some movie carries it exactly |
| AdminDashboard.CategoryCount | src/pages/AdminDashboard.tsx:182 | the number of distinct categories is between 1 and the total for a non-empty list |
| AdminDashboard.CategoriesOfSix | src/pages/AdminDashboard.tsx:182 | with the seed's categories, the set is {Action, Sci-Fi, Drama} |
| AdminDashboard.SeedCategories | src/pages/AdminDashboard.tsx:182 | the seed has three distinct categories |
| AdminDashboard.SeedStats | src/pages/AdminDashboard.tsx:158-182 | on the seed the counters read 6 movies, 3 featured and 3 categories |
| AdminDashboard.Dashboard.constructor | src/pages/AdminDashboard.tsx:19-35 | the page starts with the seed list, the dialog closed, nothing being edited and the blank form |
| AdminDashboard.Dashboard.CheckAccess | src/pages/AdminDashboard.tsx:37-42 | the redirect is the guard's verdict on the store |
| AdminDashboard.Dashboard.Logout | src/pages/AdminDashboard.tsx:44-51 | the store loses the flag, the guard then redirects and the route is "/" |
| AdminDashboard.Dashboard.ResetForm | src/pages/AdminDashboard.tsx:53-69 | the form is blank and nothing is being edited; list and dialog unchanged |
| AdminDashboard.Dashboard.StartAdd | src/pages/AdminDashboard.tsx:194-196 | the add button resets the form and opens the dialog |
| AdminDashboard.Dashboard.SetDialogOpen | src/pages/AdminDashboard.tsx:194 | only the dialog's open state changes |
| AdminDashboard.Dashboard.Edit | src/pages/AdminDashboard.tsx:71-88 | the movie is being edited, the form shows it and the dialog is open; the list is unchanged |
| AdminDashboard.Dashboard.Submit | src/pages/AdminDashboard.tsx:90-116 | the list becomes ApplySubmit of the built movie; the form is reset and the dialog closed |
| AdminDashboard.Dashboard.Delete | src/pages/AdminDashboard.tsx:118-126 | the list becomes RemoveById; nothing else changes |
| AdminDashboard.Dashboard.SetCastText | src/pages/AdminDashboard.tsx:323-324 | the cast becomes the split text, and the field then shows exactly the text typed |
| AdminDashboard.Dashboard.SetGenresText | src/pages/AdminDashboard.tsx:334-335 | the genres become the split text, and the field then shows exactly the text typed |
| Home.IsBlank | src/pages/Index.tsx:31 | `!query.trim()` holds iff every character of the query is white space |
| Home.HeroStep | src/pages/Index.tsx:25 | the next index stays below n: one more, or 0 after the last |
| Home.HeroAfterIsRotation | src/pages/Index.tsx:23-28 | k ticks from i land on (i + k) mod n |
| Home.HeroCycle | src/pages/Index.tsx:23-28 | n ticks return to the starting slide |
| Home.HeroImage | src/pages/Index.tsx:55 | the background is the backdrop when it is a non-empty string, else the poster |
| Home.HeroImageAfterEdit | src/pages/Index.tsx:55 | saving an unchanged edit turns an absent backdrop into "", yet the hero shows the same image for the movie before and after |
| Home.FeaturedSlides | src/pages/Index.tsx:16 | the carousel has three slides on the seed |
| Home.ActionRow | src/pages/Index.tsx:18 | the "Action" row holds ids 1, 4 |
| Home.SciFiRow | src/pages/Index.tsx:19 | the "Sci-Fi" row holds ids 2, 3 |
| Home.DramaRow | src/pages/Index.tsx:20 | the "Drama" row holds ids 5, 6 |
| Home.HomePage.constructor | src/pages/Index.tsx:11-16 | the page starts on the first slide over the seed's featured movies, not searching, with no results |
| Home.HomePage.CurrentFeatured | src/pages/Index.tsx:41 | the hero shows a featured movie of the list |
| Home.HomePage.HandleSearch | src/pages/Index.tsx:30-39 | a blank query clears the results and leaves search mode; any other query shows the search of the untrimmed query and enters search mode |
| Home.HomePage.AdvanceHero | src/pages/Index.tsx:23-28 | one tick moves the index by HeroStep and keeps it in range; the search state is unchanged |
| Home.HomePage.SelectHero | src/pages/Index.tsx:113-117 | clicking dot j, with j below the number of slides, shows slide j |

## Left out

- Rendering (JSX, CSS, animation classes) and the toasts are not modelled.
- Routing is not modelled. A navigation is the returned route string.
- The `setTimeout` of the login check and the `setInterval` of the carousel are not modelled. Only their callback bodies are modelled, each as a separate step.
- `Date.now()` and `new Date().getFullYear()` are inputs (`freshId`, `currentYear`). Nothing makes a fresh id unused, so `AddFresh` requires it as a precondition.
- The `parseInt`/`parseFloat` of the year and rating fields are not modelled, nor are the other single-field form setters. They copy one value into the form.
- Ratings are integer tenths rather than JavaScript floating-point numbers.
- `src/pages/MovieDetail.tsx` is not part of this model, because its logic is the calls to `getMovieById` and `getRelatedMovies`, which are modelled.
- `src/components/MovieCard.tsx`, `src/components/Navigation.tsx` and `src/components/WhatsAppPopup.tsx` are not part of this model, because they are presentation, a forwarded string and a timed popup.
- `localStorage` is a map from string to string. There is no persistence across page loads and no storage events.
- Text.Lower: folds only the ASCII letters A to Z, whereas `toLowerCase` folds all of Unicode.
- Text.Trim: strips only ASCII white space (space, tab, line feed, carriage return, vertical tab and form feed), whereas `trim` also strips Unicode spaces and line terminators.
- Home.HomePage.AdvanceHero: requires a non-empty featured list. With none, the source computes `% 0` (NaN); the page is built over the seed, which has three featured movies.
- The seed facts cover only the queries the source issues (the three rows, featured, trending), plus search "nolan" and The Dark Knight's related movies. They are proved literal by literal, not for every query on the seed.
- AdminDashboard.Dashboard.Submit: accepts every form. In the browser, the `required` inputs and the rating's 1 to 10 range stop a form with an empty field or a rating of 0 before `handleSubmit` runs; this validation is not modelled.
- AdminLogin.LoginPage.Submit: accepts empty credentials. In the browser, the `required` username and password inputs stop such a submission; this validation is not modelled, and an empty pair simply fails the check.
- React's stale closure in the login callback is made explicit: the check uses the credentials captured at submission (`pending`), not the form as it is when the timer fires.
